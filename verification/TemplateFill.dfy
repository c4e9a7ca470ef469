/** The recursive `fill` of a loaded template, with its replacement loop on string scalars. It ties the two views of a
    string scalar together: the text with uids that the loop works on, and the pieces that the comparison of a filled
    document with its template is about. */
module TemplateFill {
  import opened Wrappers
  import T = TemplateText
  import M = TemplateMatch

  /** A string scalar as the tokens it was preprocessed from. */
  function TokensOf(ps: seq<M.Piece>): seq<T.Token> {
    if ps == [] then []
    else [if ps[0].Lit? then T.Lit(ps[0].c) else T.Field(ps[0].name, None)] + TokensOf(ps[1..])
  }

  ghost predicate UidsFrom(ps: seq<M.Piece>, uidOf: string -> string) {
    forall i :: 0 <= i < |ps| && ps[i].Hole? ==> ps[i].uid == uidOf(ps[i].name)
  }

  lemma {:induction false} RawIsRendered(ps: seq<M.Piece>, uidOf: string -> string)
    requires UidsFrom(ps, uidOf)
    ensures M.Raw(ps) == T.Render(TokensOf(ps), uidOf)
  {
    if ps != [] {
      assert forall i :: 0 <= i < |ps[1..]| ==> ps[1..][i] == ps[i + 1];
      RawIsRendered(ps[1..], uidOf);
    }
  }

  lemma {:induction false} FilledIsRendered(ps: seq<M.Piece>, text: string -> string)
    ensures M.FillPieces(ps, text) == T.Render(TokensOf(ps), text)
  {
    if ps != [] {
      FilledIsRendered(ps[1..], text);
    }
  }

  /** Entities inside the strings of a template. */
  function TextNames(t: M.Template): set<string> {
    match t
    case TText(ps) => T.Names(TokensOf(ps))
    case TList(ts) => set i, n | 0 <= i < |ts| && n in TextNames(ts[i]) :: n
    case TMap(es) => set i, n | 0 <= i < |es| && n in TextNames(es[i].value) :: n
    case _ => {}
  }

  /** All strings carry the uids of the application, and these are fresh for them. */
  ghost predicate FreshTree(t: M.Template, names: set<string>, uidOf: string -> string, final: string -> string,
                            len: nat, k: nat) {
    match t
    case TText(ps) => UidsFrom(ps, uidOf) && T.Fresh(TokensOf(ps), names, uidOf, final, len, k)
    case TList(ts) => forall i :: 0 <= i < |ts| ==> FreshTree(ts[i], names, uidOf, final, len, k)
    case TMap(es) => forall i :: 0 <= i < |es| ==> FreshTree(es[i].value, names, uidOf, final, len, k)
    case _ => true
  }

  /** Some entity of `names` was never defined by a full form. */
  ghost predicate Undefines(es: map<string, T.Entity>, names: set<string>) {
    exists n :: n in names && !IsDefined(es, n)
  }

  predicate IsDefined(es: map<string, T.Entity>, n: string) {
    n in es && es[n].fallback.Some?
  }

  /** The entities of a template that are defined are those with a full form somewhere. */
  lemma DefinedExactly(ts: seq<T.Token>, uidOf: string -> string, n: string)
    ensures IsDefined(T.EntitiesOf(ts, uidOf), n) <==> exists i :: T.OccursAt(ts, n, i, true)
  {
    T.EntityExact(ts, uidOf, n);
    T.NoDefaultExactly(ts, n, false);
    if i :| T.OccursAt(ts, n, i, true) {
      T.FullFormDefines(ts, n, false, i);
    }
  }

  /** Filling raises: an entity in a string has neither value nor default, or an entity that stands alone is not defined
      (its type is asked for even if there is a value). */
  ghost predicate Fails(es: map<string, T.Entity>, values: map<string, string>, render: (string, string) -> string,
                        t: M.Template) {
    T.Lacks(es, values, render, TextNames(t)) || Undefines(es, M.Fields(t))
  }

  /** The string branch: the replacement loop on the text with uids fills the pieces. */
  method FillScalar(app: T.PredefinedApp, ps: seq<M.Piece>, values: map<string, string>,
                    ghost final: string -> string, ghost len: nat, ghost k: nat)
    returns (r: T.Result<string>)
    requires T.Prepared(app.entities, app.uidOf, values, app.render, final) && FreshTree(M.TText(ps), app.entities.Keys, app.uidOf, final, len, k)
    modifies app`usedEntities
    ensures r.Success? ==> r.value == M.FillPieces(ps, final)
    ensures r.Success? ==> app.usedEntities == old(app.usedEntities) + TextNames(M.TText(ps))
    ensures r.UndefinedField? <==> T.Lacks(app.entities, values, app.render, TextNames(M.TText(ps)))
  {
    RawIsRendered(ps, app.uidOf);
    FilledIsRendered(ps, final);
    r := app.FillString(TokensOf(ps), M.Raw(ps), values, final, len, k);
  }

  function NamesUpTo(parts: seq<M.Template>): set<string> {
    if parts == [] then {} else NamesUpTo(parts[..|parts| - 1]) + AllNames(parts[|parts| - 1])
  }

  function AllNames(t: M.Template): set<string> {
    TextNames(t) + M.Fields(t)
  }

  function Values(es: seq<M.Entry>): seq<M.Template> {
    seq(|es|, i requires 0 <= i < |es| => es[i].value)
  }

  lemma {:induction false} NamesOfParts(ts: seq<M.Template>, n: string)
    ensures n in NamesUpTo(ts) <==> exists i :: 0 <= i < |ts| && n in AllNames(ts[i])
  {
    if ts != [] {
      var init := ts[..|ts| - 1];
      NamesOfParts(init, n);
      assert forall i :: 0 <= i < |init| ==> init[i] == ts[i];
    }
  }

  lemma ListNames(ts: seq<M.Template>)
    ensures NamesUpTo(ts) == AllNames(M.TList(ts))
  {
    forall n ensures n in NamesUpTo(ts) <==> n in AllNames(M.TList(ts)) {
      NamesOfParts(ts, n);
    }
  }

  lemma MapNames(es: seq<M.Entry>)
    ensures NamesUpTo(Values(es)) == AllNames(M.TMap(es))
  {
    forall n ensures n in NamesUpTo(Values(es)) <==> n in AllNames(M.TMap(es)) {
      NamesOfParts(Values(es), n);
      assert forall i :: 0 <= i < |es| ==> Values(es)[i] == es[i].value;
    }
  }

  /** The comprehensions of `fill` over the parts of a list or a mapping. */
  method FillParts(app: T.PredefinedApp, ts: seq<M.Template>, values: map<string, string>, whole: string -> M.Doc,
                   ghost final: string -> string, ghost len: nat, ghost k: nat, ghost parent: M.Template)
    returns (r: T.Result<seq<M.Doc>>)
    requires T.Prepared(app.entities, app.uidOf, values, app.render, final) && forall i :: 0 <= i < |ts| ==> ts[i] < parent
    requires forall i :: 0 <= i < |ts| ==> FreshTree(ts[i], app.entities.Keys, app.uidOf, final, len, k)
    modifies app`usedEntities
    ensures r.Success? ==> |r.value| == |ts| && forall i :: 0 <= i < |ts| ==> r.value[i] == M.Fill(ts[i], whole, final)
    ensures r.Success? ==> app.usedEntities == old(app.usedEntities) + NamesUpTo(ts)
    ensures r.UndefinedField? <==> exists i :: 0 <= i < |ts| && Fails(app.entities, values, app.render, ts[i])
    decreases parent, 0
  {
    var out: seq<M.Doc> := [];
    for i := 0 to |ts|
      invariant |out| == i && forall j :: 0 <= j < i ==> out[j] == M.Fill(ts[j], whole, final)
      invariant app.usedEntities == old(app.usedEntities) + NamesUpTo(ts[..i])
      invariant forall j :: 0 <= j < i ==> !Fails(app.entities, values, app.render, ts[j])
    {
      var d := FillTree(app, ts[i], values, whole, final, len, k);
      if d.UndefinedField? {
        return T.UndefinedField(d.name);
      }
      assert ts[..i + 1][..i] == ts[..i];
      out := out + [d.value];
    }
    assert ts[..|ts|] == ts;
    r := T.Success(out);
  }

  lemma {:induction false} PartsFail(parts: seq<M.Template>, t: M.Template, es: map<string, T.Entity>,
                                     values: map<string, string>, render: (string, string) -> string)
    requires forall n :: n in TextNames(t) <==> exists i :: 0 <= i < |parts| && n in TextNames(parts[i])
    requires forall n :: n in M.Fields(t) <==> exists i :: 0 <= i < |parts| && n in M.Fields(parts[i])
    ensures (exists i :: 0 <= i < |parts| && Fails(es, values, render, parts[i])) <==> Fails(es, values, render, t)
  {
    if i :| 0 <= i < |parts| && Fails(es, values, render, parts[i]) {
      if T.Lacks(es, values, render, TextNames(parts[i])) {
        var n :| n in TextNames(parts[i]) && T.Resolved(es, values, render, n).None?;
        assert n in TextNames(t);
      } else {
        var n :| n in M.Fields(parts[i]) && !IsDefined(es, n);
        assert n in M.Fields(t);
      }
    }
    if Fails(es, values, render, t) {
      if T.Lacks(es, values, render, TextNames(t)) {
        var n :| n in TextNames(t) && T.Resolved(es, values, render, n).None?;
        var i :| 0 <= i < |parts| && n in TextNames(parts[i]);
        assert Fails(es, values, render, parts[i]);
      } else {
        var n :| n in M.Fields(t) && !IsDefined(es, n);
        var i :| 0 <= i < |parts| && n in M.Fields(parts[i]);
        assert Fails(es, values, render, parts[i]);
      }
    }
  }

  lemma ListFails(ts: seq<M.Template>, es: map<string, T.Entity>, values: map<string, string>,
                  render: (string, string) -> string)
    ensures (exists i :: 0 <= i < |ts| && Fails(es, values, render, ts[i])) <==> Fails(es, values, render, M.TList(ts))
  {
    PartsFail(ts, M.TList(ts), es, values, render);
  }

  lemma MapFails(parts: seq<M.Entry>, es: map<string, T.Entity>, values: map<string, string>,
                 render: (string, string) -> string)
    ensures (exists i :: 0 <= i < |Values(parts)| && Fails(es, values, render, Values(parts)[i]))
            <==> Fails(es, values, render, M.TMap(parts))
  {
    var vs, t := Values(parts), M.TMap(parts);
    assert forall i :: 0 <= i < |parts| ==> vs[i] == parts[i].value;
    forall n ensures n in TextNames(t) <==> exists i :: 0 <= i < |vs| && n in TextNames(vs[i]) {
      if n in TextNames(t) {
        var i :| 0 <= i < |parts| && n in TextNames(parts[i].value);
        assert n in TextNames(vs[i]);
      }
    }
    forall n ensures n in M.Fields(t) <==> exists i :: 0 <= i < |vs| && n in M.Fields(vs[i]) {
      if n in M.Fields(t) {
        var i :| 0 <= i < |parts| && n in M.Fields(parts[i].value);
        assert n in M.Fields(vs[i]);
      }
    }
    PartsFail(vs, t, es, values, render);
  }

  method FillList(app: T.PredefinedApp, ts: seq<M.Template>, values: map<string, string>, whole: string -> M.Doc,
                  ghost final: string -> string, ghost len: nat, ghost k: nat)
    returns (r: T.Result<M.Doc>)
    requires T.Prepared(app.entities, app.uidOf, values, app.render, final) && FreshTree(M.TList(ts), app.entities.Keys, app.uidOf, final, len, k)
    modifies app`usedEntities
    ensures r.Success? ==> r.value == M.Fill(M.TList(ts), whole, final)
    ensures r.Success? ==> app.usedEntities == old(app.usedEntities) + AllNames(M.TList(ts))
    ensures r.UndefinedField? <==> Fails(app.entities, values, app.render, M.TList(ts))
    decreases M.TList(ts), 1
  {
    var parts := FillParts(app, ts, values, whole, final, len, k, M.TList(ts));
    ListNames(ts);
    ListFails(ts, app.entities, values, app.render);
    r := if parts.Success? then T.Success(M.List(parts.value)) else T.UndefinedField(parts.name);
  }

  method FillMap(app: T.PredefinedApp, es: seq<M.Entry>, values: map<string, string>, whole: string -> M.Doc,
                 ghost final: string -> string, ghost len: nat, ghost k: nat)
    returns (r: T.Result<M.Doc>)
    requires T.Prepared(app.entities, app.uidOf, values, app.render, final) && FreshTree(M.TMap(es), app.entities.Keys, app.uidOf, final, len, k)
    modifies app`usedEntities
    ensures r.Success? ==> r.value == M.Fill(M.TMap(es), whole, final)
    ensures r.Success? ==> app.usedEntities == old(app.usedEntities) + AllNames(M.TMap(es))
    ensures r.UndefinedField? <==> Fails(app.entities, values, app.render, M.TMap(es))
    decreases M.TMap(es), 1
  {
    var parts := FillParts(app, Values(es), values, whole, final, len, k, M.TMap(es));
    MapNames(es);
    MapFails(es, app.entities, values, app.render);
    if parts.UndefinedField? {
      return T.UndefinedField(parts.name);
    }
    var m := Collect(es, parts.value, whole, final);
    r := T.Success(M.Map(m));
  }

  /** `fill`: the result is the filled tree, and the entities recorded as used are those of the tree. */
  method FillTree(app: T.PredefinedApp, t: M.Template, values: map<string, string>, whole: string -> M.Doc,
                  ghost final: string -> string, ghost len: nat, ghost k: nat)
    returns (r: T.Result<M.Doc>)
    requires T.Prepared(app.entities, app.uidOf, values, app.render, final) && FreshTree(t, app.entities.Keys, app.uidOf, final, len, k)
    modifies app`usedEntities
    ensures r.Success? ==> r.value == M.Fill(t, whole, final)
    ensures r.Success? ==> app.usedEntities == old(app.usedEntities) + AllNames(t)
    ensures r.UndefinedField? <==> Fails(app.entities, values, app.render, t)
    decreases t, 2
  {
    match t
    case TField(n) =>
      app.usedEntities := app.usedEntities + {n};
      r := if IsDefined(app.entities, n) then T.Success(whole(n)) else T.UndefinedField(n);
    case TText(ps) =>
      var s := FillScalar(app, ps, values, final, len, k);
      r := if s.Success? then T.Success(M.Text(s.value)) else T.UndefinedField(s.name);
    case TNumber(x) =>
      r := T.Success(M.Number(x));
    case TNull =>
      r := T.Success(M.Null);
    case TList(ts) =>
      r := FillList(app, ts, values, whole, final, len, k);
    case TMap(es) =>
      r := FillMap(app, es, values, whole, final, len, k);
  }

  /** The new mapping, key by key. */
  method Collect(es: seq<M.Entry>, ds: seq<M.Doc>, ghost whole: string -> M.Doc, ghost final: string -> string)
    returns (m: map<string, M.Doc>)
    requires |ds| == |es| && forall i :: 0 <= i < |es| ==> ds[i] == M.Fill(es[i].value, whole, final)
    ensures m == M.FillEntries(es, whole, final)
  {
    m := map[];
    var i := |es|;
    while i > 0
      invariant 0 <= i <= |es| && m == M.FillEntries(es[i..], whole, final)
    {
      i := i - 1;
      assert es[i..][0] == es[i] && es[i..][1..] == es[i + 1..];
      m := map[es[i].key := ds[i]] + m;
    }
    assert es[0..] == es;
  }

  /** Filling a template with the code's own loops and comparing the result with the template. */
  method FillAndCompare(app: T.PredefinedApp, matcher: M.Matcher, t: M.Template, values: map<string, string>,
                        whole: string -> M.Doc, ghost final: string -> string, ghost len: nat, ghost k: nat)
    returns (r: T.Result<M.Verdict>)
    requires T.Prepared(app.entities, app.uidOf, values, app.render, final) && FreshTree(t, app.entities.Keys, app.uidOf, final, len, k)
    requires M.WellFormed(t) && M.Scalars(whole)
    modifies app`usedEntities, matcher
    ensures r.UndefinedField? <==> Fails(app.entities, values, app.render, t)
    ensures r.Success? ==> r.value != M.Raised
    ensures r.Success? ==>
              (r.value == M.Accepted <==>
                 && M.Recognised(t, final)
                 && forall n :: n in old(matcher.values) && n in M.Fields(t) ==> old(matcher.values)[n] == whole(n))
  {
    var filled := FillTree(app, t, values, whole, final, len, k);
    if filled.UndefinedField? {
      return T.UndefinedField(filled.name);
    }
    var v := matcher.CompareFilled(t, filled.value, whole, final);
    r := T.Success(v);
  }
}
