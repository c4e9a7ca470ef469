/** Template text of a predefined application: the field parser, the preprocessing pass that replaces
    every `$NAME|default:value|label$` field by the random identifier of its entity, and the filling of a
    string scalar by one textual replacement per entity.

    The main result is that the two passes together are one simultaneous substitution, whatever the order
    in which the entity dictionary is iterated. */
module TemplateText {
  import opened Wrappers

  /** The optional part of a field: its default text and its label. */
  datatype FullForm = FullForm(fallback: string, caption: string)

  /** What the field parser sees at one place of a template. */
  datatype Token = Lit(c: char) | Dollar | Field(name: string, full: Option<FullForm>)

  const DEFAULT_MARK := "|default:"

  predicate WordChar(c: char) {
    'a' <= c <= 'z' || 'A' <= c <= 'Z' || '0' <= c <= '9' || c == '_' || c == '-'
  }

  predicate IsName(s: string) {
    s != [] && forall i :: 0 <= i < |s| ==> WordChar(s[i])
  }

  /** Text in which `|` and `$` occur only behind a backslash. */
  predicate IsBody(s: string) {
    if s == [] then true
    else if s[0] == '\\' then |s| >= 2 && IsBody(s[2..])
    else s[0] != '|' && s[0] != '$' && IsBody(s[1..])
  }

  /** The text a token was read from. */
  function Source(t: Token): string {
    match t
    case Lit(c) => [c]
    case Dollar => "$$"
    case Field(name, None) => "$" + name + "$"
    case Field(name, Some(f)) => "$" + name + DEFAULT_MARK + f.fallback + "|" + f.caption + "$"
  }

  /** The language of the field regular expression, as a grammar. */
  predicate IsMatch(t: Token) {
    match t
    case Lit(_) => false
    case Dollar => true
    case Field(name, None) => IsName(name)
    case Field(name, Some(f)) => IsName(name) && IsBody(f.fallback) && IsBody(f.caption)
  }

  // ---------------------------------------------------------------- the parser

  /** Length of the longest run of word characters at the start of `s`. */
  function WordRun(s: string): (n: nat)
    ensures n <= |s| && forall i :: 0 <= i < n ==> WordChar(s[i])
    ensures n < |s| ==> !WordChar(s[n])
  {
    if s == [] || !WordChar(s[0]) then 0 else 1 + WordRun(s[1..])
  }

  /** Length of the longest body at the start of `s`. */
  function BodyRun(s: string): (n: nat)
    ensures n <= |s| && IsBody(s[..n])
  {
    if s == [] || s[0] == '|' || s[0] == '$' then 0
    else if s[0] == '\\' then
      if |s| < 2 then 0
      else
        var n := 2 + BodyRun(s[2..]);
        assert s[..n][2..] == s[2..][..n - 2];
        n
    else
      var n := 1 + BodyRun(s[1..]);
      assert s[..n][1..] == s[1..][..n - 1];
      n
  }

  function MatchFull(name: string, rest: string): Option<Token> {
    var d := BodyRun(rest);
    if d == |rest| || rest[d] != '|' then None
    else
      var tail := rest[d + 1..];
      var l := BodyRun(tail);
      if l == |tail| || tail[l] != '$' then None
      else Some(Field(name, Some(FullForm(rest[..d], tail[..l]))))
  }

  /** The match of the field regular expression at the start of `s`, if there is one. */
  function MatchField(s: string): Option<Token> {
    if s == [] || s[0] != '$' then None
    else
      var n := WordRun(s[1..]);
      var name, rest := s[1..n + 1], s[n + 1..];
      if rest != [] && rest[0] == '$' then Some(if n == 0 then Dollar else Field(name, None))
      else if n > 0 && DEFAULT_MARK <= rest then MatchFull(name, rest[|DEFAULT_MARK|..])
      else None
  }

  lemma {:induction false} WordRunUnique(w: string, rest: string)
    requires forall i :: 0 <= i < |w| ==> WordChar(w[i])
    requires rest != [] && !WordChar(rest[0])
    ensures WordRun(w + rest) == |w|
  {
    if w == [] {
      assert w + rest == rest;
    } else {
      assert (w + rest)[1..] == w[1..] + rest;
      WordRunUnique(w[1..], rest);
    }
  }

  lemma {:induction false} BodyRunUnique(b: string, rest: string)
    requires IsBody(b)
    requires rest != [] && (rest[0] == '|' || rest[0] == '$')
    ensures BodyRun(b + rest) == |b|
  {
    if b == [] {
      assert b + rest == rest;
    } else if b[0] == '\\' {
      assert (b + rest)[2..] == b[2..] + rest;
      BodyRunUnique(b[2..], rest);
    } else {
      assert (b + rest)[1..] == b[1..] + rest;
      BodyRunUnique(b[1..], rest);
    }
  }

  lemma SourceSplits(name: string, f: FullForm, more: string)
    ensures Source(Field(name, Some(f))) + more
            == "$" + name + DEFAULT_MARK + (f.fallback + ("|" + (f.caption + ("$" + more))))
  {
    var head := "$" + name + DEFAULT_MARK;
    ConcatIsAssociative(head + f.fallback + "|" + f.caption, "$", more);
    ConcatIsAssociative(head + f.fallback + "|", f.caption, "$" + more);
    ConcatIsAssociative(head + f.fallback, "|", f.caption + ("$" + more));
    ConcatIsAssociative(head, f.fallback, "|" + (f.caption + ("$" + more)));
  }

  lemma ConcatIsAssociative(a: string, b: string, c: string)
    ensures (a + b) + c == a + (b + c)
  {
  }

  lemma SplitAt(s: string, n: nat)
    requires n < |s|
    ensures s == s[..n] + ([s[n]] + s[n + 1..])
  {
  }

  lemma MatchFullSound(name: string, rest: string, t: Token)
    requires MatchFull(name, rest) == Some(t) && IsName(name)
    ensures IsMatch(t) && Source(t) <= "$" + name + DEFAULT_MARK + rest
  {
    var d := BodyRun(rest);
    var tail := rest[d + 1..];
    var l := BodyRun(tail);
    SplitAt(rest, d);
    SplitAt(tail, l);
    SourceSplits(name, t.full.value, tail[l + 1..]);
  }

  lemma NameSplits(s: string, n: nat)
    requires s != [] && s[0] == '$' && n < |s| && forall i :: 0 <= i < n ==> WordChar(s[1..][i])
    ensures s == "$" + s[1..n + 1] + s[n + 1..] && (n > 0 ==> IsName(s[1..n + 1]))
  {
    assert forall i :: 0 <= i < n ==> s[1..n + 1][i] == s[1..][i];
  }

  lemma MatchFieldSound(s: string, t: Token)
    requires MatchField(s) == Some(t)
    ensures IsMatch(t) && Source(t) <= s
  {
    var n := WordRun(s[1..]);
    var name, rest := s[1..n + 1], s[n + 1..];
    NameSplits(s, n);
    if rest != [] && rest[0] == '$' {
      SplitAt(rest, 0);
    } else {
      var body := rest[|DEFAULT_MARK|..];
      assert rest == DEFAULT_MARK + body;
      assert s == "$" + name + DEFAULT_MARK + body;
      MatchFullSound(name, body, t);
    }
  }

  lemma MatchFullComplete(name: string, f: FullForm, more: string)
    requires IsBody(f.fallback) && IsBody(f.caption)
    ensures MatchFull(name, f.fallback + ("|" + (f.caption + ("$" + more)))) == Some(Field(name, Some(f)))
  {
    var tail := f.caption + ("$" + more);
    var rest := f.fallback + ("|" + tail);
    BodyRunUnique(f.fallback, "|" + tail);
    BodyRunUnique(f.caption, "$" + more);
    assert rest[|f.fallback| + 1..] == tail;
  }

  lemma MatchFieldFull(name: string, rest: string)
    requires IsName(name)
    ensures MatchField("$" + name + DEFAULT_MARK + rest) == MatchFull(name, rest)
  {
    var s := "$" + name + DEFAULT_MARK + rest;
    assert s[1..] == name + (DEFAULT_MARK + rest);
    WordRunUnique(name, DEFAULT_MARK + rest);
    assert s[|name| + 1..] == DEFAULT_MARK + rest;
    assert (DEFAULT_MARK + rest)[|DEFAULT_MARK|..] == rest;
    assert s[1..|name| + 1] == name;
  }

  lemma MatchFieldSimple(name: string, rest: string)
    requires forall i :: 0 <= i < |name| ==> WordChar(name[i])
    ensures MatchField("$" + name + "$" + rest) == Some(if name == [] then Dollar else Field(name, None))
  {
    var s := "$" + name + "$" + rest;
    assert s[1..] == name + ("$" + rest);
    WordRunUnique(name, "$" + rest);
    assert s[1..|name| + 1] == name && s[|name| + 1] == '$';
  }

  lemma MatchFieldComplete(t: Token, more: string)
    requires IsMatch(t)
    ensures MatchField(Source(t) + more) == Some(t)
  {
    match t
    case Dollar =>
      MatchFieldSimple("", more);
      assert "$" + "" + "$" + more == "$$" + more;
    case Field(name, None) =>
      MatchFieldSimple(name, more);
    case Field(name, Some(f)) =>
      var rest := f.fallback + ("|" + (f.caption + ("$" + more)));
      SourceSplits(name, f, more);
      MatchFieldFull(name, rest);
      MatchFullComplete(name, f, more);
  }

  /** The parser finds a match at the start of `s` exactly when the grammar of the regular expression has
      one, and that match is the only one: greediness and backtracking cannot change the result. */
  lemma MatchFieldExact(s: string, t: Token)
    ensures MatchField(s) == Some(t) <==> IsMatch(t) && Source(t) <= s
  {
    if MatchField(s) == Some(t) {
      MatchFieldSound(s, t);
    } else if IsMatch(t) && Source(t) <= s {
      var u := Source(t);
      assert s == u + s[|u|..];
      MatchFieldComplete(t, s[|u|..]);
    }
  }

  /** The whole template, scanned left to right as `re.sub` does. */
  function Tokens(s: string): seq<Token>
    decreases |s|
  {
    if s == [] then []
    else
      var t := NextToken(s);
      [t] + Tokens(s[|Source(t)|..])
  }

  function NextToken(s: string): (t: Token)
    requires s != []
    ensures Source(t) <= s && Source(t) != []
  {
    match MatchField(s)
    case None => Lit(s[0])
    case Some(t) =>
      MatchFieldSound(s, t);
      t
  }

  function Sources(ts: seq<Token>): string {
    if ts == [] then [] else Source(ts[0]) + Sources(ts[1..])
  }

  /** Scanning loses nothing: the sources of the tokens are the template. */
  lemma {:induction false} TokensCover(s: string)
    ensures Sources(Tokens(s)) == s
    decreases |s|
  {
    if s != [] {
      TokensCover(s[|Source(NextToken(s))|..]);
    }
  }

  /** The regular expression matches at the start of `s`. */
  ghost predicate HasMatch(s: string) {
    exists t :: IsMatch(t) && Source(t) <= s
  }

  /** What `re.sub` scans: at each place a match if there is one, and otherwise one character. */
  ghost predicate IsScan(ts: seq<Token>) {
    forall i :: 0 <= i < |ts| ==> if ts[i].Lit? then !HasMatch(Sources(ts[i..])) else IsMatch(ts[i])
  }

  lemma MatchesExactly(s: string)
    ensures MatchField(s).Some? <==> HasMatch(s)
  {
    if MatchField(s).Some? {
      MatchFieldSound(s, MatchField(s).value);
    }
    if t :| IsMatch(t) && Source(t) <= s {
      MatchFieldExact(s, t);
    }
  }

  lemma ScanTail(ts: seq<Token>)
    requires ts != []
    ensures IsScan(ts) <==> (if ts[0].Lit? then !HasMatch(Sources(ts)) else IsMatch(ts[0])) && IsScan(ts[1..])
  {
    var rest := ts[1..];
    assert ts[0..] == ts;
    assert forall i :: 0 <= i < |rest| ==> rest[i] == ts[i + 1] && rest[i..] == ts[i + 1..];
    if IsScan(rest) && (if ts[0].Lit? then !HasMatch(Sources(ts)) else IsMatch(ts[0])) {
      forall i | 0 <= i < |ts| ensures if ts[i].Lit? then !HasMatch(Sources(ts[i..])) else IsMatch(ts[i]) {
        if i > 0 {
          assert rest[i - 1] == ts[i] && rest[i - 1..] == ts[i..];
        }
      }
    }
  }

  /** The tokens of a template are a scan of it: fields and escapes are recognised wherever the expression matches, and
      nowhere else. */
  lemma {:induction false} TokensScan(s: string)
    ensures IsScan(Tokens(s))
    decreases |s|
  {
    if s != [] {
      var t := NextToken(s);
      var rest := s[|Source(t)|..];
      TokensScan(rest);
      TokensCover(s);
      ScanTail(Tokens(s));
      assert Tokens(s)[1..] == Tokens(rest);
      MatchesExactly(s);
      if MatchField(s).Some? {
        MatchFieldSound(s, t);
      }
    }
  }

  /** They are the only one. */
  lemma {:induction false} ScanIsUnique(ts: seq<Token>)
    requires IsScan(ts)
    ensures Tokens(Sources(ts)) == ts
  {
    if ts != [] {
      var s := Sources(ts);
      ScanTail(ts);
      ScanIsUnique(ts[1..]);
      assert s == Source(ts[0]) + Sources(ts[1..]);
      MatchesExactly(s);
      if !ts[0].Lit? {
        MatchFieldExact(s, ts[0]);
      }
      assert Source(ts[0]) != [];
      assert NextToken(s) == ts[0];
      assert s[|Source(ts[0])|..] == Sources(ts[1..]);
    }
  }

  /** The characters of a field name. */
  lemma NameCharacters(c: char)
    ensures WordChar(c) <==> c in "abcdefghijklmnopqrstuvwxyz" || c in "ABCDEFGHIJKLMNOPQRSTUVWXYZ" || c in "0123456789_-"
  {
  }

  /** A template with a field in full form, a character and an escape. */
  lemma ScanExample()
    ensures Tokens("$A-1|default:b|c$.$$") == [Field("A-1", Some(FullForm("b", "c"))), Lit('.'), Dollar]
  {
    var field := Field("A-1", Some(FullForm("b", "c")));
    var ts := [field, Lit('.'), Dollar];
    assert ts[1..] == [Lit('.'), Dollar] && ts[1..][1..] == [Dollar] && [Dollar][1..] == [];
    assert Sources([Dollar]) == "$$" + Sources([]);
    assert Sources(ts[1..]) == "." + "$$";
    assert Source(field) == "$A-1|default:b|c$";
    assert Sources(ts) == "$A-1|default:b|c$" + ".$$" == "$A-1|default:b|c$.$$";
    assert IsBody("b") && IsBody("c") by {
      assert "b"[1..] == [] && "c"[1..] == [];
    }
    assert MatchField(".$$") == None;
    MatchesExactly(".$$");
    ScanTail([Dollar]);
    ScanTail(ts[1..]);
    ScanTail(ts);
    ScanIsUnique(ts);
  }

  // ---------------------------------------------------------------- entities

  /** `fallback` is the text given to `set_up`; it is None while the entity is not defined. */
  datatype Entity = Entity(uid: string, fallback: Option<string>)

  function StripBackslashes(s: string): string {
    if s != [] && s[0] == '\\' then StripBackslashes(s[1..]) else s
  }

  /** Stripping takes away all leading backslashes and nothing else. */
  lemma {:induction false} StripExact(s: string) returns (k: nat)
    ensures k <= |s| && StripBackslashes(s) == s[k..]
    ensures (forall i :: 0 <= i < k ==> s[i] == '\\') && (k < |s| ==> s[k] != '\\')
  {
    if s != [] && s[0] == '\\' {
      var j := StripExact(s[1..]);
      k := j + 1;
      assert forall i :: 1 <= i < k ==> s[i] == s[1..][i - 1];
    } else {
      k := 0;
    }
  }

  /** What the substitution callback does to the entity dictionary at one token. */
  function Register(es: map<string, Entity>, t: Token, uidOf: string -> string): map<string, Entity> {
    if !t.Field? then es
    else if t.name !in es then
      es[t.name := Entity(uidOf(t.name),
                          if t.full.Some? then Some(StripBackslashes(t.full.value.fallback)) else None)]
    else if t.full.Some? && es[t.name].fallback.None? then
      es[t.name := es[t.name].(fallback := Some(t.full.value.fallback))]
    else es
  }

  function EntitiesOf(ts: seq<Token>, uidOf: string -> string): map<string, Entity> {
    if ts == [] then map[] else Register(EntitiesOf(ts[..|ts| - 1], uidOf), ts[|ts| - 1], uidOf)
  }

  function Names(ts: seq<Token>): set<string> {
    if ts == [] then {} else (if ts[0].Field? then {ts[0].name} else {}) + Names(ts[1..])
  }

  /** The default of an entity, read off the token list alone: the default of its first full-form
      occurrence, its leading backslashes dropped when that is its first occurrence of all. */
  function FirstDefault(ts: seq<Token>, name: string, seen: bool): Option<string> {
    if ts == [] then None
    else if ts[0].Field? && ts[0].name == name then
      if ts[0].full.None? then FirstDefault(ts[1..], name, true)
      else
        var d := ts[0].full.value.fallback;
        Some(if seen then d else StripBackslashes(d))
    else FirstDefault(ts[1..], name, seen)
  }

  /** Token `i` is an occurrence of the field, in full form if `full`. */
  predicate OccursAt(ts: seq<Token>, name: string, i: int, full: bool) {
    0 <= i < |ts| && ts[i].Field? && ts[i].name == name && (full ==> ts[i].full.Some?)
  }

  /** Token `i` is the first full form of the field. */
  ghost predicate IsFirstFull(ts: seq<Token>, name: string, i: int) {
    OccursAt(ts, name, i, true) && forall j :: 0 <= j < i ==> !OccursAt(ts, name, j, true)
  }

  ghost predicate OccursBefore(ts: seq<Token>, name: string, i: int) {
    exists j :: 0 <= j < i && OccursAt(ts, name, j, false)
  }

  lemma OccursInTail(ts: seq<Token>, name: string, i: int, full: bool)
    requires ts != [] && i > 0
    ensures OccursAt(ts, name, i, full) <==> OccursAt(ts[1..], name, i - 1, full)
  {
  }

  lemma FirstFullInTail(ts: seq<Token>, name: string, i: int)
    requires i > 0 && IsFirstFull(ts, name, i)
    ensures ts != [] && !OccursAt(ts, name, 0, true) && IsFirstFull(ts[1..], name, i - 1)
    ensures OccursBefore(ts, name, i) <==> OccursAt(ts, name, 0, false) || OccursBefore(ts[1..], name, i - 1)
  {
    OccursInTail(ts, name, i, true);
    forall j | 0 <= j < i - 1 ensures !OccursAt(ts[1..], name, j, true) {
      OccursInTail(ts, name, j + 1, true);
    }
    if j :| 0 <= j < i && OccursAt(ts, name, j, false) {
      if j > 0 {
        OccursInTail(ts, name, j, false);
      }
    }
    if j :| 0 <= j < i - 1 && OccursAt(ts[1..], name, j, false) {
      OccursInTail(ts, name, j + 1, false);
    }
  }

  /** The default of a field by position: that of its first full form, stripped exactly if no other occurrence of the
      field comes before it. */
  lemma {:induction false} FirstDefaultAt(ts: seq<Token>, name: string, seen: bool, i: int)
    requires IsFirstFull(ts, name, i)
    ensures var d := ts[i].full.value.fallback;
            FirstDefault(ts, name, seen) == Some(if seen || OccursBefore(ts, name, i) then d else StripBackslashes(d))
    decreases i
  {
    if i > 0 {
      FirstFullInTail(ts, name, i);
      FirstDefaultAt(ts[1..], name, seen || OccursAt(ts, name, 0, false), i - 1);
      assert ts[1..][i - 1] == ts[i];
    }
  }

  /** There is none exactly if no full form occurs. */
  lemma {:induction false} NoDefaultExactly(ts: seq<Token>, name: string, seen: bool)
    ensures FirstDefault(ts, name, seen).None? <==> forall i :: !OccursAt(ts, name, i, true)
  {
    if ts != [] {
      var before := seen || OccursAt(ts, name, 0, false);
      NoDefaultExactly(ts[1..], name, before);
      if !OccursAt(ts, name, 0, true) {
        assert FirstDefault(ts, name, seen) == FirstDefault(ts[1..], name, before);
        if i :| OccursAt(ts, name, i, true) {
          OccursInTail(ts, name, i, true);
        }
        if i :| OccursAt(ts[1..], name, i, true) {
          OccursInTail(ts, name, i + 1, true);
        }
      }
    }
  }

  lemma {:induction false} FirstDefaultSnoc(ts: seq<Token>, t: Token, name: string, seen: bool)
    ensures FirstDefault(ts + [t], name, seen) ==
            if FirstDefault(ts, name, seen).Some? then FirstDefault(ts, name, seen)
            else FirstDefault([t], name, seen || name in Names(ts))
    ensures Names(ts + [t]) == Names(ts) + Names([t])
    ensures name !in Names(ts) ==> FirstDefault(ts, name, seen) == None
  {
    if ts == [] {
      assert ts + [t] == [t];
    } else {
      assert (ts + [t])[1..] == ts[1..] + [t];
      FirstDefaultSnoc(ts[1..], t, name, seen || (ts[0].Field? && ts[0].name == name));
    }
  }

  /** The entity dictionary left by preprocessing: one entity per field name, with its own uid and the
      default of its first full-form occurrence. */
  lemma {:induction false} EntityExact(ts: seq<Token>, uidOf: string -> string, name: string)
    ensures name in EntitiesOf(ts, uidOf) <==> name in Names(ts)
    ensures name in Names(ts) ==>
              EntitiesOf(ts, uidOf)[name] == Entity(uidOf(name), FirstDefault(ts, name, false))
  {
    if ts != [] {
      var init, t := ts[..|ts| - 1], ts[|ts| - 1];
      assert ts == init + [t];
      EntityExact(init, uidOf, name);
      FirstDefaultSnoc(init, t, name, false);
      if t.Field? && t.name == name {
        assert FirstDefault([t], name, true) ==
               (if t.full.Some? then Some(t.full.value.fallback) else None);
      } else {
        assert FirstDefault([t], name, name in Names(init)) == None;
      }
    }
  }

  lemma EntitiesExact(ts: seq<Token>, uidOf: string -> string)
    ensures EntitiesOf(ts, uidOf).Keys == Names(ts)
    ensures forall name :: name in Names(ts) ==>
              EntitiesOf(ts, uidOf)[name] == Entity(uidOf(name), FirstDefault(ts, name, false))
  {
    forall name
      ensures name in EntitiesOf(ts, uidOf) <==> name in Names(ts)
      ensures name in Names(ts) ==>
                EntitiesOf(ts, uidOf)[name] == Entity(uidOf(name), FirstDefault(ts, name, false))
    {
      EntityExact(ts, uidOf, name);
    }
  }

  lemma {:induction false} FullFormDefines(ts: seq<Token>, name: string, seen: bool, i: nat)
    requires i < |ts| && ts[i].Field? && ts[i].name == name
    ensures name in Names(ts) && (ts[i].full.Some? ==> FirstDefault(ts, name, seen).Some?)
    decreases i
  {
    if i > 0 {
      FullFormDefines(ts[1..], name, seen || (ts[0].Field? && ts[0].name == name), i - 1);
    }
  }

  /** A second pass over the same template finds every entity as it has to be. */
  lemma SecondPassChangesNothing(ts: seq<Token>, uidOf: string -> string, i: nat)
    requires i < |ts|
    ensures Register(EntitiesOf(ts, uidOf), ts[i], uidOf) == EntitiesOf(ts, uidOf)
  {
    if ts[i].Field? {
      EntityExact(ts, uidOf, ts[i].name);
      FullFormDefines(ts, ts[i].name, false, i);
    }
  }

  /** Some field has no full form anywhere. */
  ghost predicate HasUndefined(ts: seq<Token>) {
    exists name :: name in Names(ts) && FirstDefault(ts, name, false) == None
  }

  // ---------------------------------------------------------------- rendering

  /** The text of a token list when every field stands for `f(name)`. */
  function Render(ts: seq<Token>, f: string -> string): string {
    if ts == [] then [] else Piece(ts[0], f) + Render(ts[1..], f)
  }

  function Piece(t: Token, f: string -> string): string {
    match t
    case Lit(c) => [c]
    case Dollar => "$"
    case Field(name, _) => f(name)
  }

  /** The text of a token list, as its characters: a character stands for itself, an escape for one dollar, a field for
      its value. */
  lemma {:induction false} RenderExact(ts: seq<Token>, f: string -> string, i: nat)
    requires i < |ts|
    ensures var x := match ts[i] { case Lit(c) => [c] case Dollar => "$" case Field(name, _) => f(name) };
            Render(ts, f) == Render(ts[..i], f) + x + Render(ts[i + 1..], f)
  {
    assert ts == ts[..i] + ([ts[i]] + ts[i + 1..]);
    RenderConcat(ts[..i], [ts[i]] + ts[i + 1..], f);
    RenderConcat([ts[i]], ts[i + 1..], f);
    assert [ts[i]][1..] == [];
    assert Render([ts[i]], f) == Piece(ts[i], f) + Render([ts[i]][1..], f) == Piece(ts[i], f);
  }

  lemma {:induction false} RenderConcat(a: seq<Token>, b: seq<Token>, f: string -> string)
    ensures Render(a + b, f) == Render(a, f) + Render(b, f)
  {
    if a == [] {
      assert a + b == b;
    } else {
      assert (a + b)[1..] == a[1..] + b;
      RenderConcat(a[1..], b, f);
    }
  }

  lemma {:induction false} RenderAgree(ts: seq<Token>, f: string -> string, g: string -> string)
    requires forall name :: name in Names(ts) ==> f(name) == g(name)
    ensures Render(ts, f) == Render(ts, g)
  {
    if ts != [] {
      RenderAgree(ts[1..], f, g);
    }
  }

  lemma Snoc(seen: seq<Token>, t: Token, more: seq<Token>, uidOf: string -> string)
    ensures seen + ([t] + more) == (seen + [t]) + more
    ensures Render(seen + [t], uidOf) == Render(seen, uidOf) + Piece(t, uidOf)
    ensures EntitiesOf(seen + [t], uidOf) == Register(EntitiesOf(seen, uidOf), t, uidOf)
  {
    RenderConcat(seen, [t], uidOf);
    assert Render([t], uidOf) == Piece(t, uidOf);
    assert (seen + [t])[..|seen|] == seen;
  }

  // ---------------------------------------------------------------- textual replacement

  /** `target.replace(u, x)`: every leftmost non-overlapping occurrence. */
  function Replace(s: string, u: string, x: string): string
    requires u != []
    decreases |s|
  {
    if |s| < |u| then s
    else if u <= s then x + Replace(s[|u|..], u, x)
    else [s[0]] + Replace(s[1..], u, x)
  }

  /** `u in s`. */
  predicate Occurs(s: string, u: string) {
    exists i :: 0 <= i <= |s| && u <= s[i..]
  }

  lemma {:induction false} ReplaceSkips(w: string, rest: string, u: string, x: string)
    requires u != []
    requires forall k :: 0 <= k < |w| ==> !(u <= (w + rest)[k..])
    ensures Replace(w + rest, u, x) == w + Replace(rest, u, x)
  {
    if w == [] {
      assert w + rest == rest;
    } else {
      var s := w + rest;
      var w1 := w[1..];
      TailOfConcat(w, rest);
      forall k | 0 <= k < |w1| ensures !(u <= (w1 + rest)[k..]) {
        assert (w1 + rest)[k..] == s[k + 1..];
      }
      ReplaceSkips(w1, rest, u, x);
      assert !(u <= s[0..]) && s[0..] == s;
      if |s| >= |u| {
        assert Replace(s, u, x) == [w[0]] + Replace(w1 + rest, u, x);
        assert [w[0]] + (w1 + Replace(rest, u, x)) == w + Replace(rest, u, x);
      }
    }
  }

  lemma TailOfConcat(w: string, rest: string)
    requires w != []
    ensures (w + rest)[1..] == w[1..] + rest && [w[0]] + w[1..] == w && (w + rest)[0] == w[0]
  {
  }

  // ---------------------------------------------------------------- freshness of uids

  function Gram(s: string, i: nat, k: nat): string
    requires i + k <= |s|
  {
    s[i..i + k]
  }

  /** Uids have one length `len`, and `k`-character windows of uids identify the uid and the offset. */
  ghost predicate DistinctUids(names: set<string>, uidOf: string -> string, len: nat, k: nat) {
    && 0 < k && 3 * k <= len
    && (forall a :: a in names ==> |uidOf(a)| == len)
    && forall a, b, i: nat, j: nat ::
         a in names && b in names && i + k <= len && j + k <= len && Gram(uidOf(a), i, k) == Gram(uidOf(b), j, k)
         ==> a == b && i == j
  }

  /** No `k`-character window of a uid occurs in `text`. */
  ghost predicate ClearOfUids(text: string, names: set<string>, uidOf: string -> string, k: nat) {
    forall a, i: nat, j: nat ::
      a in names && i + k <= |text| && j + k <= |uidOf(a)| ==> Gram(text, i, k) != Gram(uidOf(a), j, k)
  }

  /** The fields of `done` are substituted, the others still show their uid. */
  function Mixed(done: set<string>, uidOf: string -> string, final: string -> string): string -> string {
    name => if name in done then final(name) else uidOf(name)
  }

  /** Length of the text in front of the first field that still shows its uid. */
  function Lead(ts: seq<Token>, done: set<string>, f: string -> string): nat {
    if ts == [] || (ts[0].Field? && ts[0].name !in done) then 0
    else |Piece(ts[0], f)| + Lead(ts[1..], done, f)
  }

  /** Before that field the text is already final; behind it, if any text is left, a uid starts. */
  lemma {:induction false} LeadIsFinal(ts: seq<Token>, done: set<string>, uidOf: string -> string,
                                       final: string -> string)
    ensures var f := Mixed(done, uidOf, final);
            var n := Lead(ts, done, final);
            && n <= |Render(ts, f)| && n <= |Render(ts, final)|
            && Render(ts, f)[..n] == Render(ts, final)[..n]
  {
    if ts != [] && !(ts[0].Field? && ts[0].name !in done) {
      var f := Mixed(done, uidOf, final);
      LeadIsFinal(ts[1..], done, uidOf, final);
      var w, n := Piece(ts[0], final), Lead(ts[1..], done, final);
      PrefixOfConcat(w, Render(ts[1..], f), n);
      PrefixOfConcat(w, Render(ts[1..], final), n);
    }
  }

  lemma PrefixOfConcat(w: string, s: string, n: nat)
    requires n <= |s|
    ensures (w + s)[..|w| + n] == w + s[..n]
    ensures (w + s)[|w| + n..] == s[n..]
  {
  }

  lemma {:induction false} UidBehindLead(ts: seq<Token>, done: set<string>, uidOf: string -> string,
                                         final: string -> string)
    returns (name: string)
    ensures var f := Mixed(done, uidOf, final);
            var n := Lead(ts, done, final);
            n < |Render(ts, f)| ==> name in Names(ts) && name !in done && uidOf(name) <= Render(ts, f)[n..]
  {
    var f := Mixed(done, uidOf, final);
    if ts == [] {
      name := "";
    } else if ts[0].Field? && ts[0].name !in done {
      name := ts[0].name;
      assert Render(ts, f)[0..] == Render(ts, f);
    } else {
      name := UidBehindLead(ts[1..], done, uidOf, final);
      var n, rest := Lead(ts[1..], done, final), Render(ts[1..], f);
      if n < |rest| {
        PrefixOfConcat(Piece(ts[0], final), rest, n);
      }
    }
  }

  /** The situation shared by the next lemmas: `ts` is the tail of a token list whose final text is clear. */
  ghost predicate Fresh(ts: seq<Token>, names: set<string>, uidOf: string -> string,
                        final: string -> string, len: nat, k: nat) {
    && DistinctUids(names, uidOf, len, k) && Names(ts) <= names
    && ClearOfUids(Render(ts, final), names, uidOf, k)
  }

  lemma GramsOfPrefix(u: string, text: string, at: nat, i: nat, k: nat)
    requires at <= |text| && u <= text[at..] && i + k <= |u|
    ensures at + i + k <= |text| && Gram(u, i, k) == Gram(text, at + i, k)
  {
    assert text[at + i..at + i + k] == text[at..][i..i + k];
  }

  /** The end of uid `n` from offset `o` cannot stand at offset `at` of a text that is plain there. */
  lemma NoUidInLead(ts: seq<Token>, done: set<string>, names: set<string>, uidOf: string -> string,
                    final: string -> string, len: nat, k: nat, n: string, o: nat, at: nat)
    requires Fresh(ts, names, uidOf, final, len, k) && n in names
    requires o < k && at <= Lead(ts, done, final) && (o > 0 || at < Lead(ts, done, final))
    ensures var text := Render(ts, Mixed(done, uidOf, final));
            at <= |text| && !(uidOf(n)[o..] <= text[at..])
  {
    var text := Render(ts, Mixed(done, uidOf, final));
    LeadIsFinal(ts, done, uidOf, final);
    if uidOf(n)[o..] <= text[at..] {
      if Lead(ts, done, final) - at >= k {
        UidInFinalText(ts, done, names, uidOf, final, len, k, n, o, at);
      } else {
        UidOverNextUid(ts, done, names, uidOf, final, len, k, n, o, at);
      }
    }
  }

  /** If enough of it lies in front of the next uid, a window of it is in the final text. */
  lemma UidInFinalText(ts: seq<Token>, done: set<string>, names: set<string>, uidOf: string -> string,
                       final: string -> string, len: nat, k: nat, n: string, o: nat, at: nat)
    requires Fresh(ts, names, uidOf, final, len, k) && n in names && o < k && at + k <= Lead(ts, done, final)
    requires at <= |Render(ts, Mixed(done, uidOf, final))|
    ensures !(uidOf(n)[o..] <= Render(ts, Mixed(done, uidOf, final))[at..])
  {
    var text, lead, tail := Render(ts, Mixed(done, uidOf, final)), Lead(ts, done, final), uidOf(n)[o..];
    LeadIsFinal(ts, done, uidOf, final);
    GramsOfPrefix(text[..lead], text, 0, at, k);
    GramsOfPrefix(text[..lead], Render(ts, final), 0, at, k);
    GramsOfPrefix(tail, uidOf(n), o, 0, k);
    if tail <= text[at..] {
      GramsOfPrefix(tail, text, at, 0, k);
    }
  }

  /** Otherwise it reaches over a window of the next uid, at another offset. */
  lemma UidOverNextUid(ts: seq<Token>, done: set<string>, names: set<string>, uidOf: string -> string,
                       final: string -> string, len: nat, k: nat, n: string, o: nat, at: nat)
    requires Fresh(ts, names, uidOf, final, len, k) && n in names && o < k
    requires at <= Lead(ts, done, final) < at + k && (o > 0 || at < Lead(ts, done, final))
    requires at <= |Render(ts, Mixed(done, uidOf, final))|
    ensures !(uidOf(n)[o..] <= Render(ts, Mixed(done, uidOf, final))[at..])
  {
    var text, lead, tail := Render(ts, Mixed(done, uidOf, final)), Lead(ts, done, final), uidOf(n)[o..];
    LeadIsFinal(ts, done, uidOf, final);
    if tail <= text[at..] {
      GramsOfPrefix(tail, text, at, lead - at, k);
      GramsOfPrefix(tail, uidOf(n), o, lead - at, k);
      var b := UidBehindLead(ts, done, uidOf, final);
      GramsOfPrefix(uidOf(b), text, lead, 0, k);
    }
  }

  lemma FreshTail(ts: seq<Token>, names: set<string>, uidOf: string -> string,
                  final: string -> string, len: nat, k: nat)
    requires ts != [] && Fresh(ts, names, uidOf, final, len, k)
    ensures Fresh(ts[1..], names, uidOf, final, len, k)
  {
    var w, rest := Piece(ts[0], final), Render(ts[1..], final);
    forall a, i: nat, j: nat | a in names && i + k <= |rest| && j + k <= |uidOf(a)|
      ensures Gram(rest, i, k) != Gram(uidOf(a), j, k)
    {
      assert Gram(rest, i, k) == Gram(w + rest, |w| + i, k);
    }
  }

  /** A uid never starts inside a token other than its own field. */
  lemma NoUidInside(ts: seq<Token>, done: set<string>, names: set<string>, uidOf: string -> string,
                    final: string -> string, len: nat, k: nat, n: string, at: nat)
    requires Fresh(ts, names, uidOf, final, len, k) && n in names && n !in done
    requires ts != [] && !(ts[0].Field? && ts[0].name == n)
    requires at < |Piece(ts[0], Mixed(done, uidOf, final))|
    ensures !(uidOf(n) <= Render(ts, Mixed(done, uidOf, final))[at..])
  {
    var f := Mixed(done, uidOf, final);
    var text, u := Render(ts, f), uidOf(n);
    assert u[0..] == u;
    if ts[0].Field? && ts[0].name !in done {
      var m, o := ts[0].name, len - at;
      if o >= k {
        if u <= text[at..] {
          GramsOfPrefix(u, text, at, 0, k);
          GramsOfPrefix(uidOf(m), text, 0, at, k);
        }
      } else {
        FreshTail(ts, names, uidOf, final, len, k);
        NoUidInLead(ts[1..], done, names, uidOf, final, len, k, n, o, 0);
        PrefixOfConcat(uidOf(m), Render(ts[1..], f), 0);
        assert text[at..][o..] == Render(ts[1..], f)[0..];
        PrefixDrop(u, text[at..], o);
      }
    } else {
      NoUidInLead(ts, done, names, uidOf, final, len, k, n, 0, at);
    }
  }

  lemma PrefixDrop(u: string, s: string, o: nat)
    requires o <= |u| && o <= |s|
    ensures u <= s ==> u[o..] <= s[o..]
  {
  }

  /** One replacement substitutes exactly one field, and `uid in target` says whether it has an occurrence. */
  lemma {:induction false} ReplaceStep(ts: seq<Token>, done: set<string>, names: set<string>,
                                       uidOf: string -> string, final: string -> string, len: nat, k: nat,
                                       n: string)
    requires Fresh(ts, names, uidOf, final, len, k) && n in names && n !in done
    ensures Replace(Render(ts, Mixed(done, uidOf, final)), uidOf(n), final(n))
            == Render(ts, Mixed(done + {n}, uidOf, final))
    ensures Occurs(Render(ts, Mixed(done, uidOf, final)), uidOf(n)) <==> n in Names(ts)
  {
    var f, u := Mixed(done, uidOf, final), uidOf(n);
    if ts != [] {
      FreshTail(ts, names, uidOf, final, len, k);
      ReplaceStep(ts[1..], done, names, uidOf, final, len, k, n);
      var w, rest := Piece(ts[0], f), Render(ts[1..], f);
      if ts[0].Field? && ts[0].name == n {
        assert (w + rest)[0..] == w + rest && (w + rest)[|u|..] == rest;
      } else {
        forall at | 0 <= at < |w| ensures !(u <= (w + rest)[at..]) {
          NoUidInside(ts, done, names, uidOf, final, len, k, n, at);
        }
        ReplaceSkips(w, rest, u, final(n));
        OccursSkips(w, rest, u);
        assert Piece(ts[0], f) == Piece(ts[0], Mixed(done + {n}, uidOf, final));
      }
    }
  }

  lemma OccursSkips(w: string, rest: string, u: string)
    requires forall k :: 0 <= k < |w| ==> !(u <= (w + rest)[k..])
    ensures Occurs(w + rest, u) <==> Occurs(rest, u)
  {
    forall i | 0 <= i <= |rest| ensures (w + rest)[|w| + i..] == rest[i..] {
      PrefixOfConcat(w, rest, i);
    }
    if Occurs(w + rest, u) {
      var i :| 0 <= i <= |w + rest| && u <= (w + rest)[i..];
      assert u <= rest[i - |w|..];
    }
  }

  // ---------------------------------------------------------------- the two passes

  datatype Result<+T> = Success(value: T) | UndefinedField(name: string)

  /** The value a field gets: the supplied one, else the rendered default. */
  function Resolved(es: map<string, Entity>, values: map<string, string>, render: (string, string) -> string,
                    name: string): Option<string> {
    if name in values then Some(values[name])
    else if name in es && es[name].fallback.Some? then Some(render(name, es[name].fallback.value))
    else None
  }

  /** The reference: every field of the template replaced at once by its supplied value, or by the default
      of its first full form, and every `$$` by `$`. */
  function DirectValue(ts: seq<Token>, values: map<string, string>, render: (string, string) -> string):
    string -> string
  {
    name =>
      if name in values then values[name]
      else
        match FirstDefault(ts, name, false)
        case Some(d) => render(name, d)
        case None => ""
  }

  /** Entities carry their uids, and `final` gives every entity its supplied value or rendered default. */
  ghost predicate Prepared(es: map<string, Entity>, uidOf: string -> string, values: map<string, string>,
                           render: (string, string) -> string, final: string -> string) {
    forall n :: n in es ==> IsPrepared(es, uidOf, values, render, final, n)
  }

  ghost predicate IsPrepared(es: map<string, Entity>, uidOf: string -> string, values: map<string, string>,
                             render: (string, string) -> string, final: string -> string, n: string)
    requires n in es
  {
    && es[n].uid == uidOf(n)
    && (Resolved(es, values, render, n).Some? ==> final(n) == Resolved(es, values, render, n).value)
  }

  lemma PreparedAt(es: map<string, Entity>, uidOf: string -> string, values: map<string, string>,
                   render: (string, string) -> string, final: string -> string, n: string)
    requires Prepared(es, uidOf, values, render, final) && n in es
    ensures IsPrepared(es, uidOf, values, render, final, n)
  {
  }

  /** Some entity of `names` has neither value nor default. */
  ghost predicate Lacks(es: map<string, Entity>, values: map<string, string>, render: (string, string) -> string,
                        names: set<string>) {
    exists n :: n in names && Resolved(es, values, render, n).None?
  }

  lemma ResolvedIsDirect(ts: seq<Token>, uidOf: string -> string, values: map<string, string>,
                         render: (string, string) -> string, n: string)
    requires n in Names(ts)
    ensures var x := Resolved(EntitiesOf(ts, uidOf), values, render, n);
            && (x.None? <==> n !in values && FirstDefault(ts, n, false) == None)
            && (x.Some? ==> x.value == DirectValue(ts, values, render)(n))
  {
    EntityExact(ts, uidOf, n);
  }

  lemma DirectIsPrepared(ts: seq<Token>, uidOf: string -> string, values: map<string, string>,
                         render: (string, string) -> string)
    ensures Prepared(EntitiesOf(ts, uidOf), uidOf, values, render, DirectValue(ts, values, render))
    ensures Lacks(EntitiesOf(ts, uidOf), values, render, Names(ts)) <==>
            exists n :: n in Names(ts) && n !in values && FirstDefault(ts, n, false) == None
  {
    var es, direct := EntitiesOf(ts, uidOf), DirectValue(ts, values, render);
    EntitiesExact(ts, uidOf);
    forall n | n in Names(ts)
      ensures IsPrepared(es, uidOf, values, render, direct, n)
      ensures Resolved(es, values, render, n).None? <==> n !in values && FirstDefault(ts, n, false) == None
    {
      ResolvedIsDirect(ts, uidOf, values, render, n);
    }
  }

  /** A predefined application. `uidOf` is the random draw of a uid for a field name; `render` is the text of
      a default once loaded (or generated, for `autogen`). */
  class PredefinedApp {
    const template: string
    const throwing: bool
    const uidOf: string -> string
    const render: (string, string) -> string
    var entities: map<string, Entity>
    var preprocessed: Option<string>
    var usedEntities: set<string>

    constructor (template: string, throwing: bool, uidOf: string -> string,
                 render: (string, string) -> string)
      ensures Valid() && preprocessed == None && usedEntities == {}
      ensures this.template == template && this.throwing == throwing
      ensures this.uidOf == uidOf && this.render == render
    {
      this.template, this.throwing, this.uidOf, this.render := template, throwing, uidOf, render;
      entities, preprocessed, usedEntities := map[], None, {};
    }

    ghost predicate Valid()
      reads this
    {
      && (preprocessed.None? ==> entities == map[] || entities == EntitiesOf(Tokens(template), uidOf))
      && (preprocessed.Some? ==>
            && entities == EntitiesOf(Tokens(template), uidOf)
            && preprocessed.value == Render(Tokens(template), uidOf)
            && !(throwing && HasUndefined(Tokens(template))))
    }

    /** The preprocessing pass: uids in place of fields, and one entity per field name. A call after one that
        raised works on the entities that call left behind. */
    method GetPreprocessedTemplate() returns (r: Result<string>)
      requires Valid()
      modifies this`entities, this`preprocessed
      ensures Valid()
      ensures r.Success? ==> preprocessed == Some(r.value) && r.value == Render(Tokens(template), uidOf)
      ensures entities == EntitiesOf(Tokens(template), uidOf)
      ensures r.UndefinedField? <==> throwing && HasUndefined(Tokens(template))
    {
      if preprocessed.Some? {
        return Success(preprocessed.value);
      }
      var out, rest := "", template;
      ghost var seen: seq<Token>, again := [], entities != map[];
      while rest != []
        invariant Tokens(template) == seen + Tokens(rest)
        invariant out == Render(seen, uidOf)
        invariant entities == EntitiesOf(if again then Tokens(template) else seen, uidOf)
        invariant preprocessed == None
        decreases |rest|
      {
        var t := NextToken(rest);
        Snoc(seen, t, Tokens(rest[|Source(t)|..]), uidOf);
        assert Tokens(template)[|seen|] == t;
        SecondPassChangesNothing(Tokens(template), uidOf, |seen|);
        out := out + Piece(t, uidOf);
        entities := Register(entities, t, uidOf);
        rest := rest[|Source(t)|..];
        seen := seen + [t];
      }
      assert seen + [] == seen;
      EntitiesExact(seen, uidOf);
      if throwing {
        if undefined :| undefined in entities && entities[undefined].fallback.None? {
          return UndefinedField(undefined);
        }
      }
      preprocessed := Some(out);
      r := Success(out);
    }

    /** One turn of the entity loop of `fill`. */
    method FillEntity(ghost ts: seq<Token>, ghost done: set<string>, target: string, n: string,
                      values: map<string, string>, ghost final: string -> string, ghost len: nat,
                      ghost k: nat)
      returns (r: Result<string>)
      requires n in entities && n !in done && entities[n].uid == uidOf(n)
      requires Fresh(ts, entities.Keys, uidOf, final, len, k)
      requires target == Render(ts, Mixed(done, uidOf, final))
      requires Resolved(entities, values, render, n).Some? ==>
                 final(n) == Resolved(entities, values, render, n).value
      modifies this`usedEntities
      ensures r.Success? ==> r.value == Render(ts, Mixed(done + {n}, uidOf, final))
      ensures usedEntities == old(usedEntities) + Names(ts) * {n}
      ensures r.UndefinedField? <==> n in Names(ts) && Resolved(entities, values, render, n).None?
    {
      ReplaceStep(ts, done, entities.Keys, uidOf, final, len, k, n);
      if Occurs(target, entities[n].uid) {
        usedEntities := usedEntities + {n};
        var x := Resolved(entities, values, render, n);
        if x.None? {
          return UndefinedField(n);
        }
        r := Success(Replace(target, entities[n].uid, x.value));
      } else {
        RenderAgree(ts, Mixed(done, uidOf, final), Mixed(done + {n}, uidOf, final));
        r := Success(target);
      }
    }

    /** The string branch of `fill`: one replacement per entity that occurs. The entity taken next is left
        open, so the result holds for every iteration order of the dictionary. */
    method FillString(ghost ts: seq<Token>, target: string, values: map<string, string>,
                      ghost final: string -> string, ghost len: nat, ghost k: nat)
      returns (r: Result<string>)
      requires Prepared(entities, uidOf, values, render, final) && target == Render(ts, uidOf)
      requires Fresh(ts, entities.Keys, uidOf, final, len, k)
      modifies this`usedEntities
      ensures r.Success? ==> r.value == Render(ts, final)
      ensures r.Success? ==> usedEntities == old(usedEntities) + Names(ts)
      ensures r.UndefinedField? <==> Lacks(entities, values, render, Names(ts))
    {
      r := Success(target);
      var todo := entities.Keys;
      ghost var done := {};
      RenderAgree(ts, uidOf, Mixed(done, uidOf, final));
      while todo != {}
        invariant todo + done == entities.Keys && todo !! done
        invariant r.Success? && r.value == Render(ts, Mixed(done, uidOf, final))
        invariant usedEntities == old(usedEntities) + Names(ts) * done
        invariant !Lacks(entities, values, render, Names(ts) * done)
        decreases todo
      {
        var n :| n in todo;
        PreparedAt(entities, uidOf, values, render, final, n);
        r := FillEntity(ts, done, r.value, n, values, final, len, k);
        if r.UndefinedField? {
          return;
        }
        assert Names(ts) * (done + {n}) == Names(ts) * done + Names(ts) * {n};
        todo, done := todo - {n}, done + {n};
      }
      assert Names(ts) * done == Names(ts);
      RenderAgree(ts, Mixed(done, uidOf, final), final);
    }

    /** Preprocessing and filling a template that is one string scalar is direct simultaneous substitution:
        nothing depends on the iteration order of the entity dictionary. */
    method FillTemplateText(values: map<string, string>, ghost len: nat, ghost k: nat)
      returns (r: Result<string>)
      requires Valid()
      requires Fresh(Tokens(template), Names(Tokens(template)), uidOf,
                     DirectValue(Tokens(template), values, render), len, k)
      modifies this
      ensures Valid()
      ensures r.Success? ==>
                && r.value == Render(Tokens(template), DirectValue(Tokens(template), values, render))
                && usedEntities == old(usedEntities) + Names(Tokens(template))
      ensures r.UndefinedField? <==>
                exists n :: n in Names(Tokens(template)) && FirstDefault(Tokens(template), n, false) == None
                          && (throwing || n !in values)
    {
      ghost var ts := Tokens(template);
      EntitiesExact(ts, uidOf);
      DirectIsPrepared(ts, uidOf, values, render);
      r := GetPreprocessedTemplate();
      if r.Success? {
        r := FillString(ts, r.value, values, DirectValue(ts, values, render), len, k);
      }
    }
  }
}
