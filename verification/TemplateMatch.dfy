/** Loaded templates: the recursive `fill` of a template tree and the worklist of `is_template_for`, which
    runs the other way and decides whether a document could have been filled from the template.

    The main results are that the worklist terminates and accepts exactly when one assignment of values to
    whole-field entities, extending the values remembered from earlier calls, fits the whole tree; and when a
    tree produced by `fill` is accepted: always if the values have one line, and for all values exactly if the
    strings of the template are tolerant. */
module TemplateMatch {
  import opened Wrappers

  /** A string scalar of a loaded template: characters, and uids of entities standing inside the string. */
  datatype Piece = Lit(c: char) | Hole(name: string, uid: string)

  datatype Entry = Entry(key: string, value: Template)

  /** A loaded template. Mapping entries are listed in dictionary order; keys hold no entity. Booleans are
      numbers, as in the source language. */
  datatype Template =
    | TField(name: string)
    | TText(pieces: seq<Piece>)
    | TNumber(n: real)
    | TNull
    | TList(items: seq<Template>)
    | TMap(entries: seq<Entry>)

  /** A filled document. */
  datatype Doc =
    | Text(s: string)
    | Number(n: real)
    | Null
    | List(items: seq<Doc>)
    | Map(entries: map<string, Doc>)

  predicate IsScalar(d: Doc) {
    d.Text? || d.Number? || d.Null?
  }

  predicate NewlineFree(s: string) {
    forall i :: 0 <= i < |s| ==> s[i] != '\n'
  }

  /** The characters of a template string, uids included. */
  function Raw(ps: seq<Piece>): string {
    if ps == [] then [] else (if ps[0].Lit? then [ps[0].c] else ps[0].uid) + Raw(ps[1..])
  }

  function Keys(es: seq<Entry>): set<string> {
    set i | 0 <= i < |es| :: es[i].key
  }

  /** Dictionary keys are distinct and uids are generated without line breaks. */
  predicate WellFormed(t: Template) {
    match t
    case TText(ps) => forall i :: 0 <= i < |ps| && ps[i].Hole? ==> NewlineFree(ps[i].uid)
    case TList(ts) => forall i :: 0 <= i < |ts| ==> WellFormed(ts[i])
    case TMap(es) =>
      && (forall i, j :: 0 <= i < j < |es| ==> es[i].key != es[j].key)
      && forall i :: 0 <= i < |es| ==> WellFormed(es[i].value)
    case _ => true
  }

  // ---------------------------------------------------------------- string scalars

  /** `re.match` of the escaped string with `.*` for every uid: a match at the start, not of the whole. */
  predicate Prefix(ps: seq<Piece>, s: string)
    decreases |ps|
  {
    if ps == [] then true
    else if ps[0].Lit? then s != [] && s[0] == ps[0].c && Prefix(ps[1..], s[1..])
    else exists n :: 0 <= n <= |s| && NewlineFree(s[..n]) && Prefix(ps[1..], s[n..])
  }

  function Holes(ps: seq<Piece>): nat {
    if ps == [] then 0 else (if ps[0].Hole? then 1 else 0) + Holes(ps[1..])
  }

  /** The string with its holes filled from left to right by `xs`. */
  function Splice(ps: seq<Piece>, xs: seq<string>): string
    requires |xs| == Holes(ps)
  {
    if ps == [] then []
    else if ps[0].Lit? then [ps[0].c] + Splice(ps[1..], xs)
    else xs[0] + Splice(ps[1..], xs[1..])
  }

  ghost predicate Fillings(ps: seq<Piece>, xs: seq<string>) {
    |xs| == Holes(ps) && forall i :: 0 <= i < |xs| ==> NewlineFree(xs[i])
  }

  lemma {:induction false} PrefixSound(ps: seq<Piece>, s: string) returns (xs: seq<string>)
    requires Prefix(ps, s)
    ensures Fillings(ps, xs) && Splice(ps, xs) <= s
    decreases |ps|
  {
    if ps == [] {
      xs := [];
    } else if ps[0].Lit? {
      xs := PrefixSound(ps[1..], s[1..]);
    } else {
      var n :| 0 <= n <= |s| && NewlineFree(s[..n]) && Prefix(ps[1..], s[n..]);
      var rest := PrefixSound(ps[1..], s[n..]);
      xs := [s[..n]] + rest;
      assert xs[1..] == rest;
    }
  }

  lemma {:induction false} PrefixComplete(ps: seq<Piece>, s: string, xs: seq<string>)
    requires Fillings(ps, xs) && Splice(ps, xs) <= s
    ensures Prefix(ps, s)
    decreases |ps|
  {
    if ps != [] {
      if ps[0].Lit? {
        PrefixComplete(ps[1..], s[1..], xs);
      } else {
        var n := |xs[0]|;
        assert xs[0] + Splice(ps[1..], xs[1..]) <= s;
        assert s[..n] == xs[0];
        PrefixComplete(ps[1..], s[n..], xs[1..]);
      }
    }
  }

  /** A string passes the regular expression exactly when it starts with some newline-free filling. */
  lemma PrefixExact(ps: seq<Piece>, s: string)
    ensures Prefix(ps, s) <==> exists xs :: Fillings(ps, xs) && Splice(ps, xs) <= s
  {
    if Prefix(ps, s) {
      var xs := PrefixSound(ps, s);
    }
    if xs :| Fillings(ps, xs) && Splice(ps, xs) <= s {
      PrefixComplete(ps, s, xs);
    }
  }

  lemma {:induction false} RawIsPrefix(ps: seq<Piece>)
    requires WellFormed(TText(ps))
    ensures Prefix(ps, Raw(ps))
    decreases |ps|
  {
    if ps != [] {
      assert forall i :: 0 <= i < |ps[1..]| ==> ps[1..][i] == ps[i + 1];
      RawIsPrefix(ps[1..]);
      if ps[0].Hole? {
        var n := |ps[0].uid|;
        assert Raw(ps)[..n] == ps[0].uid && Raw(ps)[n..] == Raw(ps[1..]);
      } else {
        assert Raw(ps)[1..] == Raw(ps[1..]);
      }
    }
  }

  // ---------------------------------------------------------------- the declarative meaning

  /** `env` gives every whole-field entity of `t` the scalar found in its place in `d`, and every key, length
      and string test of the source holds. A string is a sequence for the source, so a list also compares
      with a string, item by character. */
  predicate Fits(t: Template, d: Doc, env: map<string, Doc>) {
    match t
    case TField(n) => IsScalar(d) && n in env && env[n] == d
    case TNumber(n) => d == Number(n)
    case TNull => d == Null
    case TText(ps) =>
      if d.Text? then Prefix(ps, d.s)
      else
        && d.List? && |Raw(ps)| == |d.items|
        && forall i :: 0 <= i < |d.items| ==> FitsChar(Raw(ps)[i], d.items[i])
    case TList(ts) =>
      if d.Text? then
        && |ts| == |d.s|
        && forall i :: 0 <= i < |ts| ==> CharFits(ts[i], d.s[i], env)
      else
        && d.List? && |ts| == |d.items|
        && forall i :: 0 <= i < |ts| ==> Fits(ts[i], d.items[i], env)
    case TMap(es) =>
      && d.Map? && Keys(es) == d.entries.Keys
      && forall i :: 0 <= i < |es| ==> es[i].key in d.entries && Fits(es[i].value, d.entries[es[i].key], env)
  }

  /** A one-character template string against a document. */
  predicate FitsChar(c: char, d: Doc) {
    match d
    case Text(s) => s != [] && s[0] == c
    case List(ds) => |ds| == 1 && FitsChar(c, ds[0])
    case _ => false
  }

  /** A template against a one-character string. */
  predicate CharFits(t: Template, c: char, env: map<string, Doc>) {
    match t
    case TField(n) => n in env && env[n] == Text([c])
    case TText(ps) => Prefix(ps, [c])
    case TList(ts) => |ts| == 1 && CharFits(ts[0], c, env)
    case _ => false
  }

  /** A whole field takes every document but lists and mappings, and then exactly the value assigned to it. */
  lemma FieldTakesScalars(n: string, d: Doc, x: Doc)
    ensures Fits(TField(n), d, map[n := x]) <==> d == x && !d.List? && !d.Map?
  {
  }

  lemma {:induction false} FitsCharIsFits(c: char, d: Doc, env: map<string, Doc>)
    ensures Fits(TText([Lit(c)]), d, env) <==> FitsChar(c, d)
  {
    var ps := [Lit(c)];
    assert ps[1..] == [] && Raw(ps) == [c] + Raw(ps[1..]) == [c];
    match d
    case Text(s) =>
      assert Prefix(ps, s) <==> s != [] && s[0] == c && Prefix([], s[1..]);
    case List(ds) =>
      assert |ds| == 1 ==> Raw(ps)[0] == c;
    case _ =>
  }

  lemma {:induction false} CharFitsIsFits(t: Template, c: char, env: map<string, Doc>)
    ensures Fits(t, Text([c]), env) <==> CharFits(t, c, env)
  {
  }

  // ---------------------------------------------------------------- one step of the worklist

  datatype Pair = Pair(left: Template, right: Doc)
  /** What one turn of the worklist does with a pair. */
  datatype Outcome = Push(pairs: seq<Pair>) | Mismatch | Unhashable
  datatype Verdict = Accepted | Rejected | Raised

  /** `left == right`. */
  predicate Equal(t: Template, d: Doc) {
    match t
    case TField(_) => false
    case TNumber(n) => d == Number(n)
    case TNull => d == Null
    case TText(ps) => d.Text? && Raw(ps) == d.s
    case TList(ts) => d.List? && |ts| == |d.items| && forall i :: 0 <= i < |ts| ==> Equal(ts[i], d.items[i])
    case TMap(es) =>
      && d.Map? && Keys(es) == d.entries.Keys
      && forall i :: 0 <= i < |es| ==> es[i].key in d.entries && Equal(es[i].value, d.entries[es[i].key])
  }

  lemma {:induction false} EqualFits(t: Template, d: Doc, env: map<string, Doc>)
    requires WellFormed(t) && Equal(t, d)
    ensures Fits(t, d, env)
  {
    match t
    case TText(ps) =>
      RawIsPrefix(ps);
    case TList(ts) =>
      forall i | 0 <= i < |ts| ensures Fits(ts[i], d.items[i], env) {
        EqualFits(ts[i], d.items[i], env);
      }
    case TMap(es) =>
      forall i | 0 <= i < |es| ensures Fits(es[i].value, d.entries[es[i].key], env) {
        EqualFits(es[i].value, d.entries[es[i].key], env);
      }
    case _ =>
  }

  /** Two containers of one kind: the pairs pushed for them, or None when the source gives up. */
  function Children(t: Template, d: Doc): Option<seq<Pair>> {
    match (t, d)
    case (TMap(es), Map(m)) =>
      if Keys(es) == m.Keys then Some(seq(|es|, i requires 0 <= i < |es| => EntryPair(es, m, i))) else None
    case (TText(ps), List(ds)) =>
      if |Raw(ps)| == |ds|
      then Some(seq(|ds|, i requires 0 <= i < |ds| => Pair(TText([Lit(Raw(ps)[i])]), ds[i])))
      else None
    case (TList(ts), Text(s)) =>
      if |ts| == |s| then Some(seq(|s|, i requires 0 <= i < |s| => Pair(ts[i], Text([s[i]])))) else None
    case (TList(ts), List(ds)) =>
      if |ts| == |ds| then Some(seq(|ts|, i requires 0 <= i < |ts| => Pair(ts[i], ds[i]))) else None
    case _ => None
  }

  function EntryPair(es: seq<Entry>, m: map<string, Doc>, i: nat): Pair
    requires i < |es| && Keys(es) == m.Keys
  {
    assert es[i].key in Keys(es);
    Pair(es[i].value, m[es[i].key])
  }

  ghost predicate AllFit(ps: seq<Pair>, env: map<string, Doc>) {
    forall i :: 0 <= i < |ps| ==> Fits(ps[i].left, ps[i].right, env)
  }

  ghost predicate AllWellFormed(ps: seq<Pair>) {
    forall i :: 0 <= i < |ps| ==> WellFormed(ps[i].left)
  }

  predicate IsContainer(t: Template, d: Doc) {
    (t.TMap? && d.Map?) || (t.TText? && d.List?) || (t.TList? && (d.Text? || d.List?))
  }

  /** Pushing the children of two containers keeps the set of fitting assignments. */
  lemma ChildrenFit(t: Template, d: Doc, env: map<string, Doc>)
    requires IsContainer(t, d)
    ensures Fits(t, d, env) <==> Children(t, d).Some? && AllFit(Children(t, d).value, env)
  {
    match (t, d)
    case (TMap(es), Map(m)) =>
      assert forall i :: 0 <= i < |es| ==> es[i].key in Keys(es);
      if Keys(es) == m.Keys {
        var ch := Children(t, d).value;
        assert forall i :: 0 <= i < |es| ==> ch[i] == Pair(es[i].value, m[es[i].key]);
      }
    case (TText(ps), List(ds)) =>
      if |Raw(ps)| == |ds| {
        var ch := Children(t, d).value;
        assert forall i :: 0 <= i < |ds| ==> ch[i] == Pair(TText([Lit(Raw(ps)[i])]), ds[i]);
      }
      forall i | 0 <= i < |ds| && |Raw(ps)| == |ds|
        ensures Fits(TText([Lit(Raw(ps)[i])]), ds[i], env) <==> FitsChar(Raw(ps)[i], ds[i])
      {
        FitsCharIsFits(Raw(ps)[i], ds[i], env);
      }
    case (TList(ts), Text(s)) =>
      if |ts| == |s| {
        var ch := Children(t, d).value;
        assert forall i :: 0 <= i < |ts| ==> ch[i] == Pair(ts[i], Text([s[i]]));
      }
      forall i | 0 <= i < |ts| && |ts| == |s|
        ensures Fits(ts[i], Text([s[i]]), env) <==> CharFits(ts[i], s[i], env)
      {
        CharFitsIsFits(ts[i], s[i], env);
      }
    case (TList(ts), List(ds)) =>
      if |ts| == |ds| {
        var ch := Children(t, d).value;
        assert forall i :: 0 <= i < |ts| ==> ch[i] == Pair(ts[i], ds[i]);
      }
  }

  /** Comparing a list or a mapping with a document of another kind asks whether the list or mapping is an entity, and
      these values cannot be hashed. `Clashes` says that such a pair can be reached below `t` and `d`. */
  predicate Clashes(t: Template, d: Doc) {
    match t
    case TList(ts) =>
      if d.Text? then |ts| == |d.s| && exists i :: 0 <= i < |ts| && Clashes(ts[i], Text([d.s[i]]))
      else if d.List? then |ts| == |d.items| && exists i :: 0 <= i < |ts| && Clashes(ts[i], d.items[i])
      else true
    case TMap(es) =>
      d.Map? ==>
        && Keys(es) == d.entries.Keys
        && exists i :: 0 <= i < |es| && es[i].key in d.entries && Clashes(es[i].value, d.entries[es[i].key])
    case _ => false
  }

  ghost predicate SomeClash(ps: seq<Pair>) {
    exists i :: 0 <= i < |ps| && Clashes(ps[i].left, ps[i].right)
  }

  lemma ChildrenClash(t: Template, d: Doc)
    requires IsContainer(t, d)
    ensures Clashes(t, d) <==> Children(t, d).Some? && SomeClash(Children(t, d).value)
  {
    if Children(t, d).Some? {
      var ch := Children(t, d).value;
      match (t, d)
      case (TMap(es), Map(m)) =>
        assert forall i :: 0 <= i < |es| ==> es[i].key in Keys(es) && ch[i] == Pair(es[i].value, m[es[i].key]);
      case (TList(ts), Text(s)) =>
        assert forall i :: 0 <= i < |ts| ==> ch[i] == Pair(ts[i], Text([s[i]]));
      case (TList(ts), List(ds)) =>
        assert forall i :: 0 <= i < |ts| ==> ch[i] == Pair(ts[i], ds[i]);
      case _ =>
    }
  }

  /** A document that fits is nowhere compared with a value of another kind. */
  lemma {:induction false} FitsNeverClash(t: Template, d: Doc, env: map<string, Doc>)
    requires Fits(t, d, env)
    ensures !Clashes(t, d)
  {
    match t
    case TList(ts) =>
      if d.Text? {
        forall i | 0 <= i < |ts| ensures !Clashes(ts[i], Text([d.s[i]])) {
          CharFitsIsFits(ts[i], d.s[i], env);
          FitsNeverClash(ts[i], Text([d.s[i]]), env);
        }
      } else {
        forall i | 0 <= i < |ts| ensures !Clashes(ts[i], d.items[i]) {
          FitsNeverClash(ts[i], d.items[i], env);
        }
      }
    case TMap(es) =>
      forall i | 0 <= i < |es| ensures !Clashes(es[i].value, d.entries[es[i].key]) {
        FitsNeverClash(es[i].value, d.entries[es[i].key], env);
      }
    case _ =>
  }

  /** Like `Fits`, but a list or a mapping may also stand in front of a document of another kind. */
  predicate FitsOrClashes(t: Template, d: Doc, env: map<string, Doc>) {
    match t
    case TList(ts) =>
      if d.Text? then |ts| == |d.s| && forall i :: 0 <= i < |ts| ==> FitsOrClashes(ts[i], Text([d.s[i]]), env)
      else if d.List? then |ts| == |d.items| && forall i :: 0 <= i < |ts| ==> FitsOrClashes(ts[i], d.items[i], env)
      else true
    case TMap(es) =>
      d.Map? ==>
        && Keys(es) == d.entries.Keys
        && forall i :: 0 <= i < |es| ==> es[i].key in d.entries && FitsOrClashes(es[i].value, d.entries[es[i].key], env)
    case _ => Fits(t, d, env)
  }

  /** What fits, clashes admitted, and reaches no clash fits; and conversely. */
  lemma {:induction false} FitsWithoutClash(t: Template, d: Doc, env: map<string, Doc>)
    ensures Fits(t, d, env) <==> FitsOrClashes(t, d, env) && !Clashes(t, d)
  {
    match t
    case TList(ts) =>
      if d.Text? && |ts| == |d.s| {
        forall i | 0 <= i < |ts|
          ensures CharFits(ts[i], d.s[i], env) <==>
                  FitsOrClashes(ts[i], Text([d.s[i]]), env) && !Clashes(ts[i], Text([d.s[i]]))
        {
          CharFitsIsFits(ts[i], d.s[i], env);
          FitsWithoutClash(ts[i], Text([d.s[i]]), env);
        }
      } else if d.List? && |ts| == |d.items| {
        forall i | 0 <= i < |ts|
          ensures Fits(ts[i], d.items[i], env) <==> FitsOrClashes(ts[i], d.items[i], env) && !Clashes(ts[i], d.items[i])
        {
          FitsWithoutClash(ts[i], d.items[i], env);
        }
      }
    case TMap(es) =>
      if d.Map? && Keys(es) == d.entries.Keys {
        forall i | 0 <= i < |es|
          ensures es[i].key in d.entries
          ensures var x := d.entries[es[i].key];
                  Fits(es[i].value, x, env) <==> FitsOrClashes(es[i].value, x, env) && !Clashes(es[i].value, x)
        {
          assert es[i].key in Keys(es);
          FitsWithoutClash(es[i].value, d.entries[es[i].key], env);
        }
      }
    case _ =>
  }

  ghost predicate AllFitOrClash(ps: seq<Pair>, env: map<string, Doc>) {
    forall i :: 0 <= i < |ps| ==> FitsOrClashes(ps[i].left, ps[i].right, env)
  }

  /** Giving up on two containers is never due to a clash. */
  lemma ChildrenFitOrClash(t: Template, d: Doc, env: map<string, Doc>)
    requires IsContainer(t, d) && FitsOrClashes(t, d, env)
    ensures Children(t, d).Some? && AllFitOrClash(Children(t, d).value, env)
  {
    match (t, d)
    case (TMap(es), Map(m)) =>
      var ch := Children(t, d).value;
      assert forall i :: 0 <= i < |es| ==> ch[i] == Pair(es[i].value, m[es[i].key]);
    case (TText(ps), List(ds)) =>
      var ch := Children(t, d).value;
      forall i | 0 <= i < |ds| ensures FitsOrClashes(ch[i].left, ch[i].right, env) {
        assert ch[i] == Pair(TText([Lit(Raw(ps)[i])]), ds[i]);
        FitsCharIsFits(Raw(ps)[i], ds[i], env);
      }
    case (TList(ts), Text(s)) =>
      var ch := Children(t, d).value;
      assert forall i :: 0 <= i < |ts| ==> ch[i] == Pair(ts[i], Text([s[i]]));
    case (TList(ts), List(ds)) =>
      var ch := Children(t, d).value;
      assert forall i :: 0 <= i < |ts| ==> ch[i] == Pair(ts[i], ds[i]);
  }

  lemma AllFitOrClashAt(a: seq<Pair>, b: seq<Pair>, env: map<string, Doc>)
    ensures AllFitOrClash(a + b, env) <==> AllFitOrClash(a, env) && AllFitOrClash(b, env)
  {
    assert forall i :: 0 <= i < |a| ==> (a + b)[i] == a[i];
    assert forall i :: 0 <= i < |b| ==> (a + b)[|a| + i] == b[i];
  }

  // ---------------------------------------------------------------- termination

  function Max1(n: nat): nat {
    if n == 0 then 1 else n
  }

  ghost function SizeT(t: Template): nat {
    match t
    case TText(ps) => Max1(|Raw(ps)|)
    case TList(ts) => 1 + SizeItems(ts)
    case TMap(es) => 1 + SizeEntries(es)
    case _ => 1
  }

  ghost function SizeItems(ts: seq<Template>): nat {
    if ts == [] then 0 else SizeT(ts[0]) + SizeItems(ts[1..])
  }

  ghost function SizeEntries(es: seq<Entry>): nat {
    if es == [] then 0 else SizeT(es[0].value) + SizeEntries(es[1..])
  }

  ghost function SizeD(d: Doc): nat
    decreases d, 0
  {
    match d
    case Text(s) => Max1(|s|)
    case List(ds) => 1 + SizeDocs(ds)
    case Map(m) => 1 + SizeKeys(d, m.Keys)
    case _ => 1
  }

  ghost function SizeDocs(ds: seq<Doc>): nat {
    if ds == [] then 0 else SizeD(ds[0]) + SizeDocs(ds[1..])
  }

  ghost function SizeKeys(d: Doc, ks: set<string>): nat
    requires d.Map? && ks <= d.entries.Keys
    decreases d, 0, |ks|
  {
    if ks == {} then 0
    else
      var k :| k in ks;
      SizeD(d.entries[k]) + SizeKeys(d, ks - {k})
  }

  lemma {:induction false} SizeKeysTakes(d: Doc, ks: set<string>, k: string)
    requires d.Map? && k in ks && ks <= d.entries.Keys
    ensures SizeKeys(d, ks) == SizeD(d.entries[k]) + SizeKeys(d, ks - {k})
    decreases |ks|
  {
    var j :| j in ks && SizeKeys(d, ks) == SizeD(d.entries[j]) + SizeKeys(d, ks - {j});
    if j != k {
      SizeKeysTakes(d, ks - {j}, k);
      SizeKeysTakes(d, ks - {k}, j);
      assert ks - {j} - {k} == ks - {k} - {j};
    }
  }

  ghost function Weight(ps: seq<Pair>): nat {
    if ps == [] then 0 else SizeT(ps[0].left) + SizeD(ps[0].right) + Weight(ps[1..])
  }

  lemma {:induction false} WeightConcat(a: seq<Pair>, b: seq<Pair>)
    ensures Weight(a + b) == Weight(a) + Weight(b)
  {
    if a == [] {
      assert a + b == b;
    } else {
      assert (a + b)[1..] == a[1..] + b;
      WeightConcat(a[1..], b);
    }
  }

  lemma {:induction false} WeightOfItems(ps: seq<Pair>, ts: seq<Template>, ds: seq<Doc>)
    requires |ps| == |ts| == |ds|
    requires forall i :: 0 <= i < |ps| ==> ps[i] == Pair(ts[i], ds[i])
    ensures Weight(ps) == SizeItems(ts) + SizeDocs(ds)
  {
    if ps != [] {
      WeightOfItems(ps[1..], ts[1..], ds[1..]);
    }
  }

  lemma {:induction false} UnitSizes(ts: seq<Template>, ds: seq<Doc>)
    ensures (forall i :: 0 <= i < |ts| ==> SizeT(ts[i]) == 1) ==> SizeItems(ts) == |ts|
    ensures (forall i :: 0 <= i < |ds| ==> SizeD(ds[i]) == 1) ==> SizeDocs(ds) == |ds|
    decreases |ts| + |ds|
  {
    if ts != [] {
      UnitSizes(ts[1..], ds);
    } else if ds != [] {
      UnitSizes(ts, ds[1..]);
    }
  }

  lemma {:induction false} WeightOfEntries(ps: seq<Pair>, es: seq<Entry>, d: Doc)
    requires d.Map? && |ps| == |es| && Keys(es) <= d.entries.Keys
    requires forall i :: 0 <= i < |es| ==> es[i].key in Keys(es)
    requires forall i :: 0 <= i < |es| ==> ps[i] == Pair(es[i].value, d.entries[es[i].key])
    requires forall i, j :: 0 <= i < j < |es| ==> es[i].key != es[j].key
    ensures Weight(ps) == SizeEntries(es) + SizeKeys(d, Keys(es))
  {
    if es != [] {
      assert Keys(es[1..]) == Keys(es) - {es[0].key} by {
        assert forall i :: 0 <= i < |es[1..]| ==> es[1..][i] == es[i + 1];
        assert forall i :: 1 <= i < |es| ==> es[i] == es[1..][i - 1];
      }
      assert forall i :: 0 <= i < |es[1..]| ==> es[1..][i].key in Keys(es[1..]);
      SizeKeysTakes(d, Keys(es), es[0].key);
      WeightOfEntries(ps[1..], es[1..], d);
    }
  }

  lemma MapShrinks(es: seq<Entry>, d: Doc, ps: seq<Pair>)
    requires WellFormed(TMap(es)) && d.Map? && Children(TMap(es), d) == Some(ps)
    ensures Weight(ps) < SizeT(TMap(es)) + SizeD(d) && AllWellFormed(ps)
  {
    assert forall i :: 0 <= i < |es| ==> es[i].key in Keys(es);
    WeightOfEntries(ps, es, d);
  }

  lemma TextShrinks(qs: seq<Piece>, ds: seq<Doc>, ps: seq<Pair>)
    requires Children(TText(qs), List(ds)) == Some(ps)
    ensures Weight(ps) < SizeT(TText(qs)) + SizeD(List(ds)) && AllWellFormed(ps)
  {
    var ts := seq(|ds|, i requires 0 <= i < |ds| => TText([Lit(Raw(qs)[i])]));
    forall i | 0 <= i < |ts| ensures SizeT(ts[i]) == 1 {
      assert Raw(ts[i].pieces) == [Raw(qs)[i]] + Raw(ts[i].pieces[1..]);
    }
    WeightOfItems(ps, ts, ds);
    UnitSizes(ts, ds);
  }

  lemma ListShrinks(ts: seq<Template>, d: Doc, ps: seq<Pair>)
    requires WellFormed(TList(ts)) && (d.Text? || d.List?) && Children(TList(ts), d) == Some(ps)
    ensures Weight(ps) < SizeT(TList(ts)) + SizeD(d) && AllWellFormed(ps)
  {
    var ds := if d.List? then d.items else seq(|d.s|, i requires 0 <= i < |d.s| => Text([d.s[i]]));
    WeightOfItems(ps, ts, ds);
    if d.Text? {
      UnitSizes(ts, ds);
    }
  }

  /** Every step of the worklist makes it lighter. */
  lemma ChildrenShrink(t: Template, d: Doc)
    requires WellFormed(t) && Children(t, d).Some?
    ensures Weight(Children(t, d).value) < SizeT(t) + SizeD(d)
    ensures AllWellFormed(Children(t, d).value)
  {
    var ps := Children(t, d).value;
    match t
    case TMap(es) => MapShrinks(es, d, ps);
    case TText(qs) => TextShrinks(qs, d.items, ps);
    case TList(ts) => ListShrinks(ts, d, ps);
  }

  // ---------------------------------------------------------------- the matcher

  ghost predicate Extends(env: map<string, Doc>, base: map<string, Doc>) {
    forall n :: n in base ==> n in env && env[n] == base[n]
  }

  /** One turn keeps the set of assignments that extend the remembered values and fit. */
  ghost predicate StepFits(left: Template, right: Doc, before: map<string, Doc>, after: map<string, Doc>, r: Outcome) {
    forall env :: Extends(env, before) && Fits(left, right, env) <==>
                  r.Push? && Extends(env, after) && AllFit(r.pairs, env)
  }

  /** One turn keeps the reachability of a clash, and gives up only on what fits under no assignment, clashes
      admitted. */
  ghost predicate StepClashes(left: Template, right: Doc, before: map<string, Doc>, after: map<string, Doc>, r: Outcome) {
    && (Clashes(left, right) <==> r.Unhashable? || (r.Push? && SomeClash(r.pairs)))
    && forall env :: StepAdmits(left, right, before, after, r, env)
  }

  ghost predicate StepAdmits(left: Template, right: Doc, before: map<string, Doc>, after: map<string, Doc>, r: Outcome,
                             env: map<string, Doc>) {
    Extends(env, before) && FitsOrClashes(left, right, env) ==>
      !r.Mismatch? && Extends(env, after) && (r.Push? ==> AllFitOrClash(r.pairs, env))
  }

  lemma SkipIsRight(left: Template, right: Doc, values: map<string, Doc>)
    requires WellFormed(left) && Equal(left, right)
    ensures StepFits(left, right, values, values, Push([])) && StepClashes(left, right, values, values, Push([]))
  {
    forall env ensures Fits(left, right, env) {
      EqualFits(left, right, env);
    }
    FitsNeverClash(left, right, map[]);
  }

  lemma TextIsRight(left: Template, right: Doc, values: map<string, Doc>, r: Outcome)
    requires left.TText? && right.Text? && r == if Prefix(left.pieces, right.s) then Push([]) else Mismatch
    ensures StepFits(left, right, values, values, r) && StepClashes(left, right, values, values, r)
  {
  }

  /** The worklist `stack` with the remembered `values` stands for the question about `t`, `d` and `base`. */
  ghost predicate TracksFit(t: Template, d: Doc, base: map<string, Doc>, values: map<string, Doc>, stack: seq<Pair>) {
    forall env :: Extends(env, base) && Fits(t, d, env) <==> Extends(env, values) && AllFit(stack, env)
  }

  ghost predicate TracksClash(t: Template, d: Doc, base: map<string, Doc>, values: map<string, Doc>, stack: seq<Pair>) {
    && (SomeClash(stack) ==> Clashes(t, d))
    && forall env :: Admits(t, d, base, values, stack, env)
  }

  ghost predicate Admits(t: Template, d: Doc, base: map<string, Doc>, values: map<string, Doc>, stack: seq<Pair>,
                         env: map<string, Doc>) {
    Extends(env, base) && FitsOrClashes(t, d, env) ==> Extends(env, values) && AllFitOrClash(stack, env)
  }

  lemma TracksStart(t: Template, d: Doc, base: map<string, Doc>)
    ensures TracksFit(t, d, base, base, [Pair(t, d)]) && TracksClash(t, d, base, base, [Pair(t, d)])
  {
    var stack := [Pair(t, d)];
    assert stack[0] == Pair(t, d);
    forall env ensures Admits(t, d, base, base, stack, env) {
    }
  }

  /** An empty worklist means that the remembered values are the least assignment that fits. */
  lemma TracksEnd(t: Template, d: Doc, base: map<string, Doc>, values: map<string, Doc>)
    requires TracksFit(t, d, base, values, [])
    ensures Extends(values, base) && Fits(t, d, values) && !Clashes(t, d)
    ensures forall env :: Extends(env, base) && Fits(t, d, env) ==> Extends(env, values)
  {
    assert Extends(values, values) && AllFit([], values);
    FitsNeverClash(t, d, values);
  }

  lemma TurnTracksFit(t: Template, d: Doc, base: map<string, Doc>, before: map<string, Doc>, after: map<string, Doc>,
                      rest: seq<Pair>, top: Pair, r: Outcome)
    requires TracksFit(t, d, base, before, rest + [top]) && StepFits(top.left, top.right, before, after, r)
    ensures r.Push? ==> TracksFit(t, d, base, after, rest + r.pairs)
    ensures !r.Push? ==> forall env :: Extends(env, base) ==> !Fits(t, d, env)
  {
    AllFitTop(rest, top);
    if r.Push? {
      AllFitConcat(rest, r.pairs);
    }
  }

  lemma TurnAdmits(t: Template, d: Doc, base: map<string, Doc>, before: map<string, Doc>, after: map<string, Doc>,
                   rest: seq<Pair>, top: Pair, r: Outcome, env: map<string, Doc>)
    requires Admits(t, d, base, before, rest + [top], env) && StepAdmits(top.left, top.right, before, after, r, env)
    ensures r.Push? ==> Admits(t, d, base, after, rest + r.pairs, env)
    ensures r.Mismatch? && Extends(env, base) ==> !FitsOrClashes(t, d, env)
  {
    AllFitOrClashAt(rest, [top], env);
    assert [top][0] == top;
    if r.Push? {
      AllFitOrClashAt(rest, r.pairs, env);
    }
  }

  lemma TurnTracksClash(t: Template, d: Doc, base: map<string, Doc>, before: map<string, Doc>, after: map<string, Doc>,
                        rest: seq<Pair>, top: Pair, r: Outcome)
    requires TracksClash(t, d, base, before, rest + [top]) && StepClashes(top.left, top.right, before, after, r)
    ensures r.Push? ==> TracksClash(t, d, base, after, rest + r.pairs)
    ensures r.Unhashable? ==> Clashes(t, d)
    ensures r.Mismatch? ==> forall env :: Extends(env, base) ==> !FitsOrClashes(t, d, env)
  {
    TurnClashes(t, d, rest, top, r);
    forall env
      ensures r.Push? ==> Admits(t, d, base, after, rest + r.pairs, env)
      ensures r.Mismatch? && Extends(env, base) ==> !FitsOrClashes(t, d, env)
    {
      assert Admits(t, d, base, before, rest + [top], env) && StepAdmits(top.left, top.right, before, after, r, env);
      TurnAdmits(t, d, base, before, after, rest, top, r, env);
    }
  }

  lemma TurnClashes(t: Template, d: Doc, rest: seq<Pair>, top: Pair, r: Outcome)
    requires SomeClash(rest + [top]) ==> Clashes(t, d)
    requires Clashes(top.left, top.right) <==> r.Unhashable? || (r.Push? && SomeClash(r.pairs))
    ensures r.Unhashable? ==> Clashes(t, d)
    ensures r.Push? && SomeClash(rest + r.pairs) ==> Clashes(t, d)
  {
    SomeClashConcat(rest, [top]);
    assert [top][0] == top && (Clashes(top.left, top.right) ==> SomeClash([top]));
    if r.Push? {
      SomeClashConcat(rest, r.pairs);
    }
  }

  /** The entities of an application, with the `value` attribute that a successful comparison leaves on them. */
  class Matcher {
    var values: map<string, Doc>

    constructor ()
      ensures values == map[]
    {
      values := map[];
    }

    /** The mapping branch: every key of `left` is popped from `right`, which must end up empty. */
    method PopEntries(es: seq<Entry>, m: map<string, Doc>) returns (r: Option<seq<Pair>>)
      requires WellFormed(TMap(es))
      ensures r == Children(TMap(es), Map(m))
    {
      var right, out := m, [];
      for i := 0 to |es|
        invariant |out| == i
        invariant forall j :: 0 <= j < i ==> es[j].key in m && out[j] == Pair(es[j].value, m[es[j].key])
        invariant forall k :: k in right <==> k in m && forall j :: 0 <= j < i ==> es[j].key != k
        invariant forall k :: k in right ==> right[k] == m[k]
      {
        if es[i].key !in right {
          assert es[i].key in Keys(es);
          return None;
        }
        out := out + [Pair(es[i].value, right[es[i].key])];
        right := right - {es[i].key};
      }
      if right != map[] {
        var k :| k in right;
        assert k in m && k !in Keys(es);
        return None;
      }
      assert m.Keys <= Keys(es);
      r := Some(out);
      assert out == Children(TMap(es), Map(m)).value;
    }

    /** The branches of one turn: skip, remember a value, push children, give up or raise. */
    method Step(left: Template, right: Doc) returns (r: Outcome)
      requires WellFormed(left)
      modifies this
      ensures r.Push? ==> AllWellFormed(r.pairs) && Weight(r.pairs) < SizeT(left) + SizeD(right)
      ensures StepFits(left, right, old(values), values, r) && StepClashes(left, right, old(values), values, r)
    {
      if Equal(left, right) {
        SkipIsRight(left, right, values);
        r := Push([]);
      } else if IsContainer(left, right) {
        r := StepContainers(left, right);
      } else if left.TText? && right.Text? {
        r := if Prefix(left.pieces, right.s) then Push([]) else Mismatch;
        TextIsRight(left, right, values, r);
      } else if left.TList? || left.TMap? {
        r := Unhashable;
      } else if left.TField? && IsScalar(right) {
        r := Remember(left.name, right);
      } else {
        r := Mismatch;
      }
    }

    /** The entity branch. */
    method Remember(name: string, right: Doc) returns (r: Outcome)
      requires IsScalar(right)
      modifies this
      ensures r == Push([]) || r == Mismatch
      ensures StepFits(TField(name), right, old(values), values, r)
      ensures StepClashes(TField(name), right, old(values), values, r)
    {
      r := Push([]);
      if name !in values {
        values := values[name := right];
      } else if values[name] != right {
        r := Mismatch;
      }
    }

    method StepContainers(left: Template, right: Doc) returns (r: Outcome)
      requires WellFormed(left) && IsContainer(left, right)
      ensures r == match Children(left, right) { case Some(pairs) => Push(pairs) case None => Mismatch }
      ensures r.Push? ==> AllWellFormed(r.pairs) && Weight(r.pairs) < SizeT(left) + SizeD(right)
      ensures forall env :: Fits(left, right, env) <==> r.Push? && AllFit(r.pairs, env)
      ensures Clashes(left, right) <==> r.Push? && SomeClash(r.pairs)
      ensures forall env :: FitsOrClashes(left, right, env) ==> r.Push? && AllFitOrClash(r.pairs, env)
    {
      forall env | FitsOrClashes(left, right, env)
        ensures Children(left, right).Some? && AllFitOrClash(Children(left, right).value, env)
      {
        ChildrenFitOrClash(left, right, env);
      }
      forall env
        ensures Fits(left, right, env) <==> Children(left, right).Some? && AllFit(Children(left, right).value, env)
      {
        ChildrenFit(left, right, env);
      }
      ChildrenClash(left, right);
      var children;
      if left.TMap? {
        children := PopEntries(left.entries, right.entries);
      } else {
        children := Children(left, right);
      }
      if children.None? {
        return Mismatch;
      }
      ChildrenShrink(left, right);
      r := Push(children.value);
    }

    /** The worklist: it terminates, and it accepts exactly when some assignment that extends the remembered values
        fits; the values it then leaves are the least such assignment. It raises only when a list or a mapping of the
        template meets a value of another kind, and then always, unless something else fails to fit as well. */
    method IsTemplateFor(t: Template, d: Doc) returns (v: Verdict)
      requires WellFormed(t)
      modifies this
      ensures v == Accepted ==> Extends(values, old(values)) && Fits(t, d, values)
      ensures v == Accepted ==> forall env :: Extends(env, old(values)) && Fits(t, d, env) ==> Extends(env, values)
      ensures v != Accepted ==> forall env :: Extends(env, old(values)) ==> !Fits(t, d, env)
      ensures v == Raised ==> Clashes(t, d)
      ensures (exists env :: Extends(env, old(values)) && FitsOrClashes(t, d, env)) ==> (v == Raised <==> Clashes(t, d))
    {
      var stack := [Pair(t, d)];
      TracksStart(t, d, values);
      while stack != []
        invariant AllWellFormed(stack)
        invariant TracksFit(t, d, old(values), values, stack) && TracksClash(t, d, old(values), values, stack)
        decreases Weight(stack)
      {
        var top, rest := stack[|stack| - 1], stack[..|stack| - 1];
        assert stack == rest + [top];
        WeightConcat(rest, [top]);
        ghost var before := values;
        var r := Step(top.left, top.right);
        TurnTracksFit(t, d, old(values), before, values, rest, top, r);
        TurnTracksClash(t, d, old(values), before, values, rest, top, r);
        if !r.Push? {
          return if r.Unhashable? then Raised else Rejected;
        }
        WeightConcat(rest, r.pairs);
        stack := rest + r.pairs;
      }
      TracksEnd(t, d, old(values), values);
      v := Accepted;
    }

    /** It does happen: a list that meets a number, nothing or a mapping, or a mapping that meets anything but a mapping. */
    method CompareWithAnotherKind(t: Template, d: Doc) returns (v: Verdict)
      requires WellFormed(t)
      requires (t.TList? && !d.List? && !d.Text?) || (t.TMap? && !d.Map?)
      modifies this
      ensures v == Raised
    {
      assert Extends(values, values) && FitsOrClashes(t, d, values);
      v := IsTemplateFor(t, d);
    }

    /** Comparing a filled tree with its template never raises, and succeeds exactly when every string of the template
        recognises its filled text and no entity remembers another value from an earlier comparison. */
    method CompareFilled(t: Template, d: Doc, ghost whole: string -> Doc, ghost text: string -> string)
      returns (v: Verdict)
      requires WellFormed(t) && Scalars(whole) && d == Fill(t, whole, text)
      modifies this
      ensures v == Accepted <==>
              && Recognised(t, text)
              && forall n :: n in old(values) && n in Fields(t) ==> old(values)[n] == whole(n)
      ensures v != Raised
    {
      ghost var env := (map n | n in Fields(t) :: whole(n)) + values;
      FilledNeverClashes(t, whole, text);
      FilledFitsExactly(t, whole, text, env);
      assert Extends(env, values);
      v := IsTemplateFor(t, d);
      if v == Accepted {
        FilledFitsExactly(t, whole, text, values);
      }
    }
  }

  lemma SomeClashConcat(a: seq<Pair>, b: seq<Pair>)
    ensures SomeClash(a + b) <==> SomeClash(a) || SomeClash(b)
  {
    assert forall i :: 0 <= i < |a| ==> (a + b)[i] == a[i];
    assert forall i :: 0 <= i < |b| ==> (a + b)[|a| + i] == b[i];
  }

  lemma AllFitTop(rest: seq<Pair>, top: Pair)
    ensures forall env :: AllFit(rest + [top], env) <==> AllFit(rest, env) && Fits(top.left, top.right, env)
  {
    forall env ensures AllFit(rest + [top], env) <==> AllFit(rest, env) && Fits(top.left, top.right, env) {
      assert forall i :: 0 <= i < |rest| ==> (rest + [top])[i] == rest[i];
      assert (rest + [top])[|rest|] == top;
    }
  }

  lemma AllFitConcat(a: seq<Pair>, b: seq<Pair>)
    ensures forall env :: AllFit(a + b, env) <==> AllFit(a, env) && AllFit(b, env)
  {
    forall env ensures AllFit(a + b, env) <==> AllFit(a, env) && AllFit(b, env) {
      assert forall i :: 0 <= i < |a| ==> (a + b)[i] == a[i];
      assert forall i :: 0 <= i < |b| ==> (a + b)[|a| + i] == b[i];
    }
  }

  // ---------------------------------------------------------------- filling

  ghost predicate Scalars(whole: string -> Doc) {
    forall n :: IsScalar(whole(n))
  }

  ghost predicate OneLine(text: string -> string) {
    forall n :: NewlineFree(text(n))
  }

  /** `fill`: a whole-field entity becomes its (coerced) value `whole(name)`, an entity inside a string the
      text `text(name)` of its value. */
  function Fill(t: Template, whole: string -> Doc, text: string -> string): Doc {
    match t
    case TField(n) => whole(n)
    case TText(ps) => Text(FillPieces(ps, text))
    case TNumber(n) => Number(n)
    case TNull => Null
    case TList(ts) => List(seq(|ts|, i requires 0 <= i < |ts| => Fill(ts[i], whole, text)))
    case TMap(es) => Map(FillEntries(es, whole, text))
  }

  function FillEntries(es: seq<Entry>, whole: string -> Doc, text: string -> string): map<string, Doc> {
    if es == [] then map[]
    else map[es[0].key := Fill(es[0].value, whole, text)] + FillEntries(es[1..], whole, text)
  }

  function FillPieces(ps: seq<Piece>, text: string -> string): string {
    if ps == [] then []
    else (if ps[0].Lit? then [ps[0].c] else text(ps[0].name)) + FillPieces(ps[1..], text)
  }

  /** The whole-field entities of a template. */
  function Fields(t: Template): set<string> {
    match t
    case TField(n) => {n}
    case TList(ts) => set i, n | 0 <= i < |ts| && n in Fields(ts[i]) :: n
    case TMap(es) => set i, n | 0 <= i < |es| && n in Fields(es[i].value) :: n
    case _ => {}
  }

  lemma {:induction false} FilledPrefix(ps: seq<Piece>, text: string -> string)
    requires OneLine(text)
    ensures Prefix(ps, FillPieces(ps, text))
    decreases |ps|
  {
    if ps != [] {
      FilledPrefix(ps[1..], text);
      var w := if ps[0].Lit? then [ps[0].c] else text(ps[0].name);
      var s := FillPieces(ps, text);
      assert s[..|w|] == w && s[|w|..] == FillPieces(ps[1..], text);
    }
  }

  lemma {:induction false} FilledKeys(es: seq<Entry>, whole: string -> Doc, text: string -> string)
    ensures FillEntries(es, whole, text).Keys == Keys(es)
  {
    if es != [] {
      FilledKeys(es[1..], whole, text);
      assert forall i :: 1 <= i < |es| ==> es[i] == es[1..][i - 1];
      assert forall i :: 0 <= i < |es| - 1 ==> es[1..][i] == es[i + 1];
      assert Keys(es) == {es[0].key} + Keys(es[1..]);
    }
  }

  lemma {:induction false} FilledEntry(es: seq<Entry>, whole: string -> Doc, text: string -> string, i: nat)
    requires i < |es| && forall i, j :: 0 <= i < j < |es| ==> es[i].key != es[j].key
    ensures var m := FillEntries(es, whole, text);
            es[i].key in m && m[es[i].key] == Fill(es[i].value, whole, text)
  {
    FilledKeys(es[1..], whole, text);
    if i > 0 {
      FilledEntry(es[1..], whole, text, i - 1);
    }
  }

  /** Every string of the template recognises the text it is filled to. */
  predicate Recognised(t: Template, text: string -> string) {
    match t
    case TText(ps) => Prefix(ps, FillPieces(ps, text))
    case TList(ts) => forall i :: 0 <= i < |ts| ==> Recognised(ts[i], text)
    case TMap(es) => forall i :: 0 <= i < |es| ==> Recognised(es[i].value, text)
    case _ => true
  }

  /** `env` gives the whole-field entities of `t` the values they are filled with. */
  ghost predicate Agrees(t: Template, whole: string -> Doc, env: map<string, Doc>) {
    forall n :: n in Fields(t) ==> n in env && env[n] == whole(n)
  }

  /** A filled tree fits its template under exactly the assignments that give the filled values, if its strings are
      recognised, and under none otherwise. */
  lemma {:induction false} FilledFitsExactly(t: Template, whole: string -> Doc, text: string -> string,
                                             env: map<string, Doc>)
    requires WellFormed(t) && Scalars(whole)
    ensures Fits(t, Fill(t, whole, text), env) <==> Recognised(t, text) && Agrees(t, whole, env)
  {
    match t
    case TList(ts) =>
      forall i | 0 <= i < |ts|
        ensures Fits(ts[i], Fill(ts[i], whole, text), env) <==> Recognised(ts[i], text) && Agrees(ts[i], whole, env)
      {
        FilledFitsExactly(ts[i], whole, text, env);
      }
      AgreesByChild(t, whole, env);
    case TMap(es) =>
      forall i | 0 <= i < |es|
        ensures Fits(es[i].value, Fill(es[i].value, whole, text), env) <==>
                Recognised(es[i].value, text) && Agrees(es[i].value, whole, env)
      {
        FilledFitsExactly(es[i].value, whole, text, env);
      }
      FilledMapFits(es, whole, text, env);
      AgreesByChild(t, whole, env);
    case _ =>
  }

  lemma FilledMapFits(es: seq<Entry>, whole: string -> Doc, text: string -> string, env: map<string, Doc>)
    requires WellFormed(TMap(es))
    ensures Fits(TMap(es), Fill(TMap(es), whole, text), env) <==>
            forall i :: 0 <= i < |es| ==> Fits(es[i].value, Fill(es[i].value, whole, text), env)
  {
    FilledKeys(es, whole, text);
    var m := FillEntries(es, whole, text);
    forall i | 0 <= i < |es| ensures es[i].key in m && m[es[i].key] == Fill(es[i].value, whole, text) {
      FilledEntry(es, whole, text, i);
    }
  }

  lemma AgreesByChild(t: Template, whole: string -> Doc, env: map<string, Doc>)
    ensures t.TList? ==>
              (Agrees(t, whole, env) <==> forall i :: 0 <= i < |t.items| ==> Agrees(t.items[i], whole, env))
    ensures t.TMap? ==>
              (Agrees(t, whole, env) <==> forall i :: 0 <= i < |t.entries| ==> Agrees(t.entries[i].value, whole, env))
  {
  }

  /** Filling keeps the kind of every node. */
  lemma {:induction false} FilledNeverClashes(t: Template, whole: string -> Doc, text: string -> string)
    requires WellFormed(t)
    ensures !Clashes(t, Fill(t, whole, text))
  {
    match t
    case TList(ts) =>
      forall i | 0 <= i < |ts| ensures !Clashes(ts[i], Fill(ts[i], whole, text)) {
        FilledNeverClashes(ts[i], whole, text);
      }
    case TMap(es) =>
      var m := FillEntries(es, whole, text);
      forall i | 0 <= i < |es| ensures es[i].key in m && !Clashes(es[i].value, m[es[i].key]) {
        FilledEntry(es, whole, text, i);
        FilledNeverClashes(es[i].value, whole, text);
      }
    case _ =>
  }

  lemma {:induction false} OneLineRecognised(t: Template, text: string -> string)
    requires OneLine(text)
    ensures Recognised(t, text)
  {
    match t
    case TText(ps) =>
      FilledPrefix(ps, text);
    case TList(ts) =>
      forall i | 0 <= i < |ts| ensures Recognised(ts[i], text) {
        OneLineRecognised(ts[i], text);
      }
    case TMap(es) =>
      forall i | 0 <= i < |es| ensures Recognised(es[i].value, text) {
        OneLineRecognised(es[i].value, text);
      }
    case _ =>
  }

  /** A tree filled with one-line values fits its template, with the filled values as the assignment. */
  lemma FilledFits(t: Template, whole: string -> Doc, text: string -> string, env: map<string, Doc>)
    requires WellFormed(t) && Scalars(whole) && OneLine(text) && Agrees(t, whole, env)
    ensures Fits(t, Fill(t, whole, text), env)
  {
    OneLineRecognised(t, text);
    FilledFitsExactly(t, whole, text, env);
  }

  // ---------------------------------------------------------------- values with line breaks

  /** Behind a hole: every literal is a line break, and no two literals are adjacent. */
  predicate Loose(ps: seq<Piece>, behindLiteral: bool) {
    if ps == [] then true
    else if ps[0].Hole? then Loose(ps[1..], false)
    else ps[0].c == '\n' && !behindLiteral && Loose(ps[1..], true)
  }

  /** The strings that recognise their filled text whatever the values are. */
  predicate Tolerant(ps: seq<Piece>) {
    if ps == [] then true
    else if ps[0].Hole? then Loose(ps[1..], false)
    else Tolerant(ps[1..])
  }

  predicate TolerantTree(t: Template) {
    match t
    case TText(ps) => Tolerant(ps)
    case TList(ts) => forall i :: 0 <= i < |ts| ==> TolerantTree(ts[i])
    case TMap(es) => forall i :: 0 <= i < |es| ==> TolerantTree(es[i].value)
    case _ => true
  }

  function Breaks(s: string): nat {
    if s == [] then 0 else (if s[0] == '\n' then 1 else 0) + Breaks(s[1..])
  }

  function Literals(ps: seq<Piece>): nat {
    if ps == [] then 0 else (if ps[0].Lit? then 1 else 0) + Literals(ps[1..])
  }

  lemma {:induction false} BreaksConcat(a: string, b: string)
    ensures Breaks(a + b) == Breaks(a) + Breaks(b)
  {
    if a == [] {
      assert a + b == b;
    } else {
      assert (a + b)[1..] == a[1..] + b;
      BreaksConcat(a[1..], b);
    }
  }

  lemma {:induction false} FirstBreak(s: string) returns (n: nat)
    requires Breaks(s) > 0
    ensures n < |s| && s[n] == '\n' && NewlineFree(s[..n]) && Breaks(s[n + 1..]) == Breaks(s) - 1
  {
    if s[0] == '\n' {
      n := 0;
    } else {
      var m := FirstBreak(s[1..]);
      n := m + 1;
      assert s[1..][m + 1..] == s[n + 1..];
      assert forall i :: 1 <= i < n ==> s[..n][i] == s[1..][..m][i - 1];
    }
  }

  lemma {:induction false} LooseHasBreaks(ps: seq<Piece>, behindLiteral: bool, text: string -> string)
    requires Loose(ps, behindLiteral)
    ensures Breaks(FillPieces(ps, text)) >= Literals(ps)
  {
    if ps != [] {
      LooseHasBreaks(ps[1..], ps[0].Lit?, text);
      var w := if ps[0].Lit? then [ps[0].c] else text(ps[0].name);
      BreaksConcat(w, FillPieces(ps[1..], text));
    }
  }

  /** Holes and separated line breaks match the start of any text with enough line breaks. */
  lemma {:induction false} LooseMatches(ps: seq<Piece>, s: string)
    requires Loose(ps, true) && Breaks(s) >= Literals(ps)
    ensures Prefix(ps, s)
    decreases |ps|
  {
    if ps != [] {
      if |ps| > 1 && ps[1].Lit? {
        assert ps[1..][0] == ps[1] && ps[1..][1..] == ps[2..];
        var n := FirstBreak(s);
        LooseMatches(ps[2..], s[n + 1..]);
        assert s[n..][0] == '\n' && s[n..][1..] == s[n + 1..];
        assert Prefix(ps[1..], s[n..]);
      } else {
        assert |ps| > 1 ==> ps[1..][0].Hole?;
        LooseMatches(ps[1..], s);
        assert s[..0] == [] && s[0..] == s;
        assert NewlineFree(s[..0]) && Prefix(ps[1..], s[0..]);
      }
    }
  }

  lemma {:induction false} TolerantRecognises(ps: seq<Piece>, text: string -> string)
    requires Tolerant(ps)
    ensures Prefix(ps, FillPieces(ps, text))
  {
    if ps != [] {
      if ps[0].Lit? {
        TolerantRecognises(ps[1..], text);
        assert FillPieces(ps, text)[1..] == FillPieces(ps[1..], text);
      } else {
        LooseHasBreaks(ps, true, text);
        LooseMatches(ps, FillPieces(ps, text));
      }
    }
  }

  /** The first literal that makes a string not loose. */
  function Offender(ps: seq<Piece>, behindLiteral: bool): char
    requires !Loose(ps, behindLiteral)
  {
    if ps[0].Hole? then Offender(ps[1..], false)
    else if ps[0].c != '\n' || behindLiteral then ps[0].c
    else Offender(ps[1..], true)
  }

  /** A value of two lines made of `z`. */
  function TwoLines(z: char): string {
    [z, '\n', z]
  }

  /** What the matcher is behind by: lines of `z`, at least one line break, none next to another. */
  ghost predicate Lag(u: string, z: char, behindLiteral: bool) {
    && (forall i :: 0 <= i < |u| ==> u[i] == z || u[i] == '\n')
    && (forall i :: 0 <= i < |u| - 1 ==> u[i] != '\n' || u[i + 1] != '\n')
    && '\n' in u
    && (behindLiteral ==> u[0] == z)
    && (!behindLiteral ==> u[|u| - 1] == z)
  }

  /** A matcher that is behind never catches up with a string that is not loose. */
  lemma {:induction false} LagIsNeverMadeUp(ps: seq<Piece>, behindLiteral: bool, u: string, z: char)
    requires !Loose(ps, behindLiteral) && Lag(u, z, behindLiteral) && z != '\n' && z != Offender(ps, behindLiteral)
    ensures !Prefix(ps, u + FillPieces(ps, n => TwoLines(z)))
    decreases |ps|
  {
    var text := n => TwoLines(z);
    var rest := FillPieces(ps[1..], text);
    var s := u + FillPieces(ps, text);
    assert s[0] == u[0];
    if ps[0].Hole? {
      HoleKeepsLag(u, z, behindLiteral, rest, s);
      forall n | 0 <= n <= |s| && NewlineFree(s[..n]) ensures !Prefix(ps[1..], s[n..]) {
        LagIsNeverMadeUp(ps[1..], false, u[n..] + TwoLines(z), z);
      }
    } else if ps[0].c == '\n' && !behindLiteral && u[0] == '\n' {
      BreakKeepsLag(u, z, rest, s);
      LagIsNeverMadeUp(ps[1..], true, u[1..] + ['\n'], z);
    }
  }

  /** Whatever the matcher takes for a hole, it stays in front of the first line break. */
  lemma HoleKeepsLag(u: string, z: char, behindLiteral: bool, rest: string, s: string)
    requires Lag(u, z, behindLiteral) && z != '\n' && s == u + (TwoLines(z) + rest)
    ensures forall n :: 0 <= n <= |s| && NewlineFree(s[..n]) ==>
              && n <= |u| && Lag(u[n..] + TwoLines(z), z, false)
              && s[n..] == u[n..] + TwoLines(z) + rest
  {
    forall n | 0 <= n <= |s| && NewlineFree(s[..n])
      ensures n <= |u| && Lag(u[n..] + TwoLines(z), z, false) && s[n..] == u[n..] + TwoLines(z) + rest
    {
      BehindByLess(u, z, behindLiteral, s, n);
    }
  }

  lemma BreakKeepsLag(u: string, z: char, rest: string, s: string)
    requires Lag(u, z, false) && z != '\n' && u[0] == '\n' && s == u + (['\n'] + rest)
    ensures Lag(u[1..] + ['\n'], z, true) && s[1..] == u[1..] + ['\n'] + rest
  {
    var v := u[1..] + ['\n'];
    assert v[|v| - 1] == '\n';
  }

  lemma BreakStops(s: string, n: nat, i: nat)
    requires i < |s| && s[i] == '\n' && n <= |s|
    ensures n > i ==> !NewlineFree(s[..n])
  {
    if n > i {
      assert s[..n][i] == '\n';
    }
  }

  lemma BehindByLess(u: string, z: char, behindLiteral: bool, s: string, n: nat)
    requires Lag(u, z, behindLiteral) && z != '\n' && u <= s && n <= |s| && NewlineFree(s[..n])
    ensures n <= |u| && Lag(u[n..] + TwoLines(z), z, false)
  {
    var i :| 0 <= i < |u| && u[i] == '\n';
    BreakStops(s, n, i);
    var v := u[n..] + TwoLines(z);
    assert v[i - n] == '\n';
    assert forall k :: 0 <= k < |u| - n ==> v[k] == u[n + k];
  }

  lemma {:induction false} IntolerantFails(ps: seq<Piece>) returns (z: char)
    requires !Tolerant(ps)
    ensures !Prefix(ps, FillPieces(ps, n => TwoLines(z)))
  {
    if ps[0].Lit? {
      z := IntolerantFails(ps[1..]);
      var s := FillPieces(ps, n => TwoLines(z));
      assert s[1..] == FillPieces(ps[1..], n => TwoLines(z));
    } else {
      z := if Offender(ps[1..], false) == 'x' then 'y' else 'x';
      var text := n => TwoLines(z);
      var rest := FillPieces(ps[1..], text);
      var s := FillPieces(ps, text);
      assert s == TwoLines(z) + rest;
      forall n | 0 <= n <= |s| && NewlineFree(s[..n]) ensures !Prefix(ps[1..], s[n..]) {
        BreakStops(s, n, 1);
        var u := TwoLines(z)[n..];
        assert u[1 - n] == '\n';
        LagIsNeverMadeUp(ps[1..], false, u, z);
        assert s[n..] == u + rest;
      }
    }
  }

  lemma {:induction false} IntolerantTreeFails(t: Template) returns (z: char)
    requires !TolerantTree(t)
    ensures !Recognised(t, n => TwoLines(z))
  {
    match t
    case TText(ps) =>
      z := IntolerantFails(ps);
    case TList(ts) =>
      var i :| 0 <= i < |ts| && !TolerantTree(ts[i]);
      z := IntolerantTreeFails(ts[i]);
    case TMap(es) =>
      var i :| 0 <= i < |es| && !TolerantTree(es[i].value);
      z := IntolerantTreeFails(es[i].value);
  }

  lemma {:induction false} TolerantTreeRecognised(t: Template, text: string -> string)
    requires TolerantTree(t)
    ensures Recognised(t, text)
  {
    match t
    case TText(ps) =>
      TolerantRecognises(ps, text);
    case TList(ts) =>
      forall i | 0 <= i < |ts| ensures Recognised(ts[i], text) {
        TolerantTreeRecognised(ts[i], text);
      }
    case TMap(es) =>
      forall i | 0 <= i < |es| ensures Recognised(es[i].value, text) {
        TolerantTreeRecognised(es[i].value, text);
      }
    case _ =>
  }

  /** The templates that recognise every tree filled from them, values with line breaks included: in each string,
      behind the first hole, every literal is a line break and no two literals are adjacent. */
  lemma RecognisedWhateverTheValues(t: Template)
    ensures (forall text: string -> string :: Recognised(t, text)) <==> TolerantTree(t)
  {
    if TolerantTree(t) {
      forall text: string -> string ensures Recognised(t, text) {
        TolerantTreeRecognised(t, text);
      }
    } else {
      var z := IntolerantTreeFails(t);
      var text: string -> string := n => TwoLines(z);
      assert !Recognised(t, text);
    }
  }

  /** A template that is not tolerant, and a value for which no assignment fits the filled document. */
  lemma LineBreakRejected(env: map<string, Doc>)
    ensures var t := TText([Hole("A", "u"), Lit('b')]);
            !Fits(t, Fill(t, n => Null, n => "\n"), env)
  {
    var ps := [Hole("A", "u"), Lit('b')];
    assert ps[1..] == [Lit('b')];
    assert FillPieces(ps[1..], n => "\n") == "b" + FillPieces(ps[1..][1..], n => "\n");
    var s := FillPieces(ps, n => "\n");
    assert s == "\nb";
    assert s[..1][0] == '\n' && s[..2][0] == '\n' && s[0..][0] == '\n';
  }
}
