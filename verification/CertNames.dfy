/** Matching of a certificate's DNS name against a host name (section 6.4.3 of RFC 6125). The source builds a regular
    expression; the reference is the rule stated label by label. */
module CertNames {

  import opened Letters

  predicate Dotless(s: string) {
    '.' !in s
  }

  /** `s.split('.')`. */
  function Split(s: string): (r: seq<string>)
    ensures r != []
  {
    if s == [] then [[]]
    else if s[0] == '.' then [[]] + Split(s[1..])
    else
      var r := Split(s[1..]);
      [[s[0]] + r[0]] + r[1..]
  }

  function Stars(s: string): nat {
    if s == [] then 0 else (if s[0] == '*' then 1 else 0) + Stars(s[1..])
  }

  const XN := "xn--"

  // ---------------------------------------------------------------- the regular expression

  /** A literal character, `[^.]*` or `[^.]+`. */
  datatype Atom = Exact(c: char) | DotlessStar | DotlessPlus

  /** The whole of `h` matches, ignoring case; backtracking as alternatives. */
  predicate Match(pat: seq<Atom>, h: string)
    decreases |pat|, |h|
  {
    if pat == [] then h == []
    else
      match pat[0]
      case Exact(c) => h != [] && SameLetter(h[0], c) && Match(pat[1..], h[1..])
      case DotlessStar => Match(pat[1..], h) || (h != [] && h[0] != '.' && Match(pat, h[1..]))
      case DotlessPlus => h != [] && h[0] != '.' && (Match(pat[1..], h[1..]) || Match(pat, h[1..]))
  }

  /** `re.escape`. */
  function Literal(s: string): seq<Atom> {
    seq(|s|, i requires 0 <= i < |s| => Exact(s[i]))
  }

  /** `re.escape` with `[^.]*` for every wildcard. */
  function Wild(s: string): seq<Atom> {
    seq(|s|, i requires 0 <= i < |s| => if s[i] == '*' then DotlessStar else Exact(s[i]))
  }

  predicate Internationalized(leftmost: string, hostname: string) {
    XN <= leftmost || XN <= hostname
  }

  function LeftPattern(leftmost: string, hostname: string): seq<Atom> {
    if leftmost == "*" then [DotlessPlus]
    else if Internationalized(leftmost, hostname) then Literal(leftmost)
    else Wild(leftmost)
  }

  /** The labels after the first one, each with its dot. */
  function Tail(labels: seq<string>): string {
    if labels == [] then [] else Tail(labels[..|labels| - 1]) + "." + labels[|labels| - 1]
  }

  datatype Result = Answer(matches: bool) | TooManyWildcards

  // ---------------------------------------------------------------- the rule, label by label

  predicate SameLabels(xs: seq<string>, ys: seq<string>) {
    |xs| == |ys| && forall i :: 0 <= i < |xs| ==> SameIgnoringCase(xs[i], ys[i])
  }

  /** A left-most label `before*after` covers a host label that starts and ends like it. */
  predicate Covers(before: string, after: string, hostLabel: string) {
    && |hostLabel| >= |before| + |after|
    && SameIgnoringCase(hostLabel[..|before|], before)
    && SameIgnoringCase(hostLabel[|hostLabel| - |after|..], after)
  }

  function StarAt(s: string): nat
    requires Stars(s) > 0
  {
    if s[0] == '*' then 0 else 1 + StarAt(s[1..])
  }

  /** The wildcard rule for the left-most label. */
  ghost predicate LeftRule(left: string, host: string, international: bool) {
    if '*' !in left then SameIgnoringCase(left, host)
    else if left == "*" then host != []
    else if international then SameIgnoringCase(left, host)
    else exists k :: CoversAt(left, k, host)
  }

  /** The wildcard at `k` stands for what `host` has between the text in front of it and the text behind it. */
  ghost predicate CoversAt(left: string, k: int, host: string) {
    0 <= k < |left| && left[k] == '*' && Covers(left[..k], left[k + 1..], host)
  }

  /** The same number of labels, the left-most one by the wildcard rule, all others equal ignoring case. The wildcard does
      not expand when the certificate's or the host's name starts with `xn--`. */
  ghost predicate LabelRule(dn: string, hostname: string) {
    var ds, hs := Split(dn), Split(hostname);
    && |ds| == |hs| && SameLabels(ds[1..], hs[1..])
    && LeftRule(ds[0], hs[0], "xn--" <= dn || "xn--" <= hostname)
  }

  /** Two wildcards. */
  ghost predicate TwoStars(s: string) {
    exists i, j :: 0 <= i < j < |s| && s[i] == '*' && s[j] == '*'
  }

  lemma {:induction false} StarsExact(s: string)
    ensures Stars(s) == 0 <==> '*' !in s
    ensures Stars(s) > 1 <==> TwoStars(s)
  {
    if s != [] {
      var t := s[1..];
      StarsExact(t);
      assert forall i :: 0 < i < |s| ==> s[i] == t[i - 1];
      assert '*' in s <==> s[0] == '*' || '*' in t;
      if TwoStars(t) {
        var i, j :| 0 <= i < j < |t| && t[i] == '*' && t[j] == '*';
        assert s[i + 1] == '*' && s[j + 1] == '*';
      }
      if s[0] == '*' && '*' in t {
        var j :| 0 <= j < |t| && t[j] == '*';
        assert s[j + 1] == '*';
      }
      if TwoStars(s) {
        var i, j :| 0 <= i < j < |s| && s[i] == '*' && s[j] == '*';
        assert t[j - 1] == '*';
        assert i > 0 ==> t[i - 1] == '*';
      }
    }
  }

  /** The first label starts like the name. */
  lemma StartsAlike(dn: string)
    ensures XN <= Split(dn)[0] <==> "xn--" <= dn
  {
    SplitJoin(dn);
    var left, labels := Split(dn)[0], Split(dn)[1..];
    if labels != [] {
      TailStartsWithDot(labels);
    }
    PrefixBeforeDot(left, Tail(labels), XN);
  }

  lemma PrefixBeforeDot(a: string, b: string, p: string)
    requires Dotless(p) && (b == [] || b[0] == '.')
    ensures p <= a + b <==> p <= a
  {
    var s := a + b;
    assert b != [] ==> s[|a|] == '.';
    assert forall i :: 0 <= i < |p| ==> p[i] != '.';
    assert p <= s ==> |p| <= |a|;
    assert |p| <= |a| ==> s[..|p|] == a[..|p|];
  }

  lemma {:induction false} TailStartsWithDot(labels: seq<string>)
    requires labels != []
    ensures Tail(labels) != [] && Tail(labels)[0] == '.'
  {
    if |labels| == 1 {
      assert labels[..0] == [];
    } else {
      TailStartsWithDot(labels[..|labels| - 1]);
    }
  }

  lemma {:induction false} StarSplits(s: string)
    requires Stars(s) > 0
    ensures StarAt(s) < |s| && s[StarAt(s)] == '*'
    ensures Stars(s) == 1 ==> Stars(s[..StarAt(s)]) == 0 && Stars(s[StarAt(s) + 1..]) == 0
    ensures Stars(s) == 1 ==> forall k :: 0 <= k < |s| && s[k] == '*' ==> k == StarAt(s)
  {
    if s[0] != '*' {
      StarSplits(s[1..]);
      var k := StarAt(s);
      assert s[1..][..k - 1] == s[..k][1..] && s[1..][k..] == s[k + 1..];
      assert forall i :: 0 < i < |s| ==> s[i] == s[1..][i - 1];
    } else {
      assert s[..0] == [];
      StarsExact(s[1..]);
      assert forall i :: 0 < i < |s| ==> s[i] == s[1..][i - 1];
    }
  }

  // ---------------------------------------------------------------- splitting

  lemma {:induction false} SplitJoin(s: string)
    ensures s == Split(s)[0] + Tail(Split(s)[1..])
    ensures forall i :: 0 <= i < |Split(s)| ==> Dotless(Split(s)[i])
  {
    if s != [] {
      SplitJoin(s[1..]);
      var r := Split(s[1..]);
      if s[0] == '.' {
        assert Split(s)[1..] == r;
        TailCons(r[0], r[1..]);
        assert r == [r[0]] + r[1..];
      } else {
        assert Split(s)[1..] == r[1..];
      }
    } else {
      assert Split(s)[1..] == [];
    }
  }

  lemma {:induction false} TailCons(x: string, rest: seq<string>)
    ensures Tail([x] + rest) == "." + x + Tail(rest)
  {
    if rest == [] {
      assert [x] + rest == [x] && [x][..0] == [];
    } else {
      var init := rest[..|rest| - 1];
      assert ([x] + rest)[..|rest|] == [x] + init;
      TailCons(x, init);
    }
  }

  /** Splitting is determined by where the dots are. */
  lemma {:induction false} SplitUnique(a: string, rest: seq<string>)
    requires Dotless(a) && forall i :: 0 <= i < |rest| ==> Dotless(rest[i])
    ensures Split(a + Tail(rest)) == [a] + rest
    decreases |rest|, |a|
  {
    if a == [] {
      if rest == [] {
        assert a + Tail(rest) == [];
      } else {
        SplitUnique(rest[0], rest[1..]);
        SplitAtDot(rest[0], rest[1..]);
        assert rest == [rest[0]] + rest[1..];
      }
    } else {
      assert a[0] in a && Dotless(a[1..]);
      SplitUnique(a[1..], rest);
      SplitBehindChar(a, Tail(rest), rest);
    }
  }

  lemma SplitAtDot(x: string, more: seq<string>)
    requires Split(x + Tail(more)) == [x] + more
    ensures Split([] + Tail([x] + more)) == [[]] + ([x] + more)
  {
    TailCons(x, more);
    DotFirst(x + Tail(more));
    assert [] + Tail([x] + more) == "." + (x + Tail(more));
  }

  lemma DotFirst(s: string)
    ensures Split("." + s) == [[]] + Split(s)
  {
    assert ("." + s)[0] == '.' && ("." + s)[1..] == s;
  }

  lemma SplitBehindChar(a: string, tail: string, rest: seq<string>)
    requires a != [] && a[0] != '.' && Split(a[1..] + tail) == [a[1..]] + rest
    ensures Split(a + tail) == [a] + rest
  {
    var s := a + tail;
    assert s[0] == a[0] && s[1..] == a[1..] + tail && [a[0]] + a[1..] == a;
  }

  /** Equality ignoring case can be checked label by label. */
  lemma {:induction false} SameLabelByLabel(x: string, y: string)
    ensures SameIgnoringCase(x, y) <==> SameLabels(Split(x), Split(y))
    decreases |x|
  {
    if x != [] && y != [] {
      SameLabelByLabel(x[1..], y[1..]);
      SameHead(x, y);
      FirstLabel(x);
      FirstLabel(y);
      var p, q := Split(x[1..]), Split(y[1..]);
      if x[0] == '.' && y[0] == '.' {
        LabelsCons([], p, [], q);
      } else if x[0] != '.' && y[0] != '.' {
        LabelsGrow(x[0], p, y[0], q);
      } else {
        assert !SameLetter(x[0], y[0]);
        assert SameLabels(Split(x), Split(y)) ==> SameIgnoringCase(Split(x)[0], Split(y)[0]);
      }
    } else {
      FirstLabel(x);
      FirstLabel(y);
      assert SameLabels(Split(x), Split(y)) ==> SameIgnoringCase(Split(x)[0], Split(y)[0]);
    }
  }

  lemma FirstLabel(s: string)
    ensures Split(s)[0] == [] <==> s == [] || s[0] == '.'
    ensures |Split(s)| == 1 && Split(s)[0] == [] <==> s == []
  {
  }

  lemma SameHead(x: string, y: string)
    requires x != [] && y != []
    ensures SameIgnoringCase(x, y) <==> SameLetter(x[0], y[0]) && SameIgnoringCase(x[1..], y[1..])
  {
    if SameLetter(x[0], y[0]) && SameIgnoringCase(x[1..], y[1..]) {
      forall i | 0 <= i < |x| ensures SameLetter(x[i], y[i]) {
        assert i > 0 ==> x[i] == x[1..][i - 1] && y[i] == y[1..][i - 1];
      }
    }
  }

  lemma LabelsCons(a: string, p: seq<string>, b: string, q: seq<string>)
    ensures SameLabels([a] + p, [b] + q) <==> SameIgnoringCase(a, b) && SameLabels(p, q)
  {
    var xs, ys := [a] + p, [b] + q;
    if SameLabels(xs, ys) {
      assert xs[0] == a && ys[0] == b;
      assert forall i :: 0 <= i < |p| ==> p[i] == xs[i + 1] && q[i] == ys[i + 1];
    }
  }

  lemma LabelsGrow(c: char, p: seq<string>, d: char, q: seq<string>)
    requires p != [] && q != []
    ensures SameLabels([[c] + p[0]] + p[1..], [[d] + q[0]] + q[1..]) <==>
            SameLetter(c, d) && SameLabels(p, q)
  {
    LabelsCons([c] + p[0], p[1..], [d] + q[0], q[1..]);
    LabelsCons(p[0], p[1..], q[0], q[1..]);
    assert [p[0]] + p[1..] == p && [q[0]] + q[1..] == q;
    SameHead([c] + p[0], [d] + q[0]);
    assert ([c] + p[0])[1..] == p[0] && ([d] + q[0])[1..] == q[0];
  }

  lemma TailsByLabel(ds: seq<string>, hs: seq<string>)
    requires forall i :: 0 <= i < |ds| ==> Dotless(ds[i])
    requires forall i :: 0 <= i < |hs| ==> Dotless(hs[i])
    ensures SameIgnoringCase(Tail(ds), Tail(hs)) <==> SameLabels(ds, hs)
  {
    SplitUnique([], ds);
    SplitUnique([], hs);
    assert [] + Tail(ds) == Tail(ds) && [] + Tail(hs) == Tail(hs);
    SameLabelByLabel(Tail(ds), Tail(hs));
    LabelsCons([], ds, [], hs);
  }

  // ---------------------------------------------------------------- what the pattern matches

  lemma SameConcat(a: string, b: string, w: string, z: string)
    requires |a| == |w|
    ensures SameIgnoringCase(a + b, w + z) <==> SameIgnoringCase(a, w) && SameIgnoringCase(b, z)
  {
    if SameIgnoringCase(a + b, w + z) {
      assert forall i :: 0 <= i < |a| ==> a[i] == (a + b)[i] && w[i] == (w + z)[i];
      assert forall i :: 0 <= i < |b| ==> b[i] == (a + b)[|a| + i] && z[i] == (w + z)[|w| + i];
    }
  }

  lemma {:induction false} MatchLiteral(w: string, rest: seq<Atom>, h: string)
    ensures Match(Literal(w) + rest, h) <==>
            |w| <= |h| && SameIgnoringCase(w, h[..|w|]) && Match(rest, h[|w|..])
    decreases |w|
  {
    if w == [] {
      assert Literal(w) + rest == rest && h[0..] == h;
    } else {
      var pat := Literal(w) + rest;
      assert pat[1..] == Literal(w[1..]) + rest && pat[0] == Exact(w[0]);
      if h != [] {
        MatchLiteral(w[1..], rest, h[1..]);
        if |w| <= |h| {
          SameHead(w, h[..|w|]);
          assert h[..|w|][1..] == h[1..][..|w| - 1] && h[1..][|w| - 1..] == h[|w|..];
        }
      }
    }
  }

  lemma MatchOnlyLiteral(w: string, h: string)
    ensures Match(Literal(w), h) <==> SameIgnoringCase(w, h)
  {
    MatchLiteral(w, [], h);
    assert Literal(w) + [] == Literal(w);
    if |w| <= |h| {
      assert |w| == |h| ==> h[..|w|] == h;
    }
  }

  /** A wildcard followed by literal text: the text is the end of `h`, and what is in front of it has no dot. */
  lemma {:induction false} MatchStar(w: string, h: string)
    ensures Match([DotlessStar] + Literal(w), h) <==>
            |w| <= |h| && Dotless(h[..|h| - |w|]) && SameIgnoringCase(w, h[|h| - |w|..])
    decreases |h|
  {
    var pat := [DotlessStar] + Literal(w);
    assert pat[1..] == Literal(w);
    MatchOnlyLiteral(w, h);
    if |h| > |w| {
      MatchStar(w, h[1..]);
      StarStep(w, h);
    } else if |h| == |w| {
      assert h[0..] == h;
      if h != [] {
        MatchStar(w, h[1..]);
      }
    } else if h != [] {
      MatchStar(w, h[1..]);
    }
  }

  lemma StarStep(w: string, h: string)
    requires |h| > |w|
    ensures Dotless(h[..|h| - |w|]) <==> h[0] != '.' && Dotless(h[1..][..|h| - 1 - |w|])
    ensures h[1..][|h| - 1 - |w|..] == h[|h| - |w|..]
  {
    var a := h[..|h| - |w|];
    assert a == [h[0]] + h[1..][..|h| - 1 - |w|];
  }

  lemma {:induction false} MatchPlus(w: string, h: string)
    ensures Match([DotlessPlus] + Literal(w), h) <==>
            |w| < |h| && Dotless(h[..|h| - |w|]) && SameIgnoringCase(w, h[|h| - |w|..])
    decreases |h|
  {
    var pat := [DotlessPlus] + Literal(w);
    assert pat[1..] == Literal(w);
    if h != [] {
      MatchOnlyLiteral(w, h[1..]);
      MatchPlus(w, h[1..]);
      if |h| > |w| {
        StarStep(w, h);
        if |h| == |w| + 1 {
          assert h[1..][..0] == [] && h[1..][0..] == h[1..];
        }
      }
    }
  }

  lemma {:induction false} WildWithoutStar(s: string)
    requires Stars(s) == 0
    ensures Wild(s) == Literal(s)
  {
    if s != [] {
      WildWithoutStar(s[1..]);
      assert forall i :: 0 < i < |s| ==> Wild(s)[i] == Wild(s[1..])[i - 1] && Literal(s)[i] == Literal(s[1..])[i - 1];
    }
  }

  /** `h` starts with `b`, ends with `a` and has no dot in between, ignoring case. */
  predicate Between(b: string, a: string, h: string) {
    && |b| + |a| <= |h| && SameIgnoringCase(b, h[..|b|])
    && Dotless(h[|b|..|h| - |a|]) && SameIgnoringCase(a, h[|h| - |a|..])
  }

  /** The pattern of a left-most label `before*after` in front of literal text. */
  lemma MatchWild(b: string, after: string, w: string, h: string)
    requires Stars(b) == 0 && Stars(after) == 0
    ensures Match(Wild(b + ("*" + after)) + Literal(w), h) <==> Between(b, after + w, h)
  {
    var a := after + w;
    WildParts(b, after, w);
    MatchLiteral(b, [DotlessStar] + Literal(a), h);
    if |b| <= |h| {
      var rest := h[|b|..];
      MatchStar(a, rest);
      if |a| <= |rest| {
        assert rest[..|rest| - |a|] == h[|b|..|h| - |a|] && rest[|rest| - |a|..] == h[|h| - |a|..];
      }
    }
  }

  lemma OneStar(s: string)
    requires Stars(s) == 1
    ensures var k := StarAt(s);
            k < |s| && Stars(s[..k]) == 0 && Stars(s[k + 1..]) == 0 && s == s[..k] + ("*" + s[k + 1..])
  {
    StarSplits(s);
    StarInside(s, StarAt(s));
  }

  lemma StarInside(s: string, k: nat)
    requires k < |s| && s[k] == '*'
    ensures s == s[..k] + ("*" + s[k + 1..])
  {
  }

  lemma WildParts(b: string, after: string, w: string)
    requires Stars(b) == 0 && Stars(after) == 0
    ensures Wild(b + ("*" + after)) + Literal(w) == Literal(b) + ([DotlessStar] + Literal(after + w))
  {
    WildWithoutStar(b);
    WildWithoutStar(after);
    WildConcat(b, "*" + after);
    WildConcat("*", after);
    assert Wild("*") == [DotlessStar];
    assert Literal(after + w) == Literal(after) + Literal(w);
  }

  lemma WildConcat(x: string, y: string)
    ensures Wild(x + y) == Wild(x) + Wild(y)
  {
  }

  // ---------------------------------------------------------------- the two agree

  lemma DotlessLike(x: string, y: string)
    requires SameIgnoringCase(x, y) && Dotless(x)
    ensures Dotless(y)
  {
    assert forall i :: 0 <= i < |x| ==> x[i] in x && SameLetter(x[i], y[i]);
  }

  /** If the end of `h` reads like a tail and what is in front has no dot, the split of `h` is that front and labels
      like those of the tail. */
  lemma FrontThenLabels(h: string, ds: seq<string>, n: nat)
    requires n <= |h| && forall i :: 0 <= i < |ds| ==> Dotless(ds[i])
    requires Dotless(h[..n]) && SameIgnoringCase(Tail(ds), h[n..])
    ensures Split(h)[0] == h[..n] && SameLabels(ds, Split(h)[1..])
  {
    var ts := LikeTail(ds, h[n..]);
    assert h == h[..n] + Tail(ts);
    SplitUnique(h[..n], ts);
    assert ([h[..n]] + ts)[1..] == ts;
  }

  /** Text that reads like a tail is the tail of labels like those of the tail. */
  lemma LikeTail(ds: seq<string>, t: string) returns (ts: seq<string>)
    requires forall i :: 0 <= i < |ds| ==> Dotless(ds[i])
    requires SameIgnoringCase(Tail(ds), t)
    ensures t == Tail(ts) && SameLabels(ds, ts) && forall i :: 0 <= i < |ts| ==> Dotless(ts[i])
  {
    SplitJoin(t);
    SplitUnique([], ds);
    assert [] + Tail(ds) == Tail(ds);
    SameLabelByLabel(Tail(ds), t);
    var all := Split(t);
    ts := all[1..];
    assert all == [all[0]] + ts;
    LabelsCons([], ds, all[0], ts);
  }

  /** The converse. */
  lemma LabelsThenFront(h: string, ds: seq<string>)
    requires forall i :: 0 <= i < |ds| ==> Dotless(ds[i])
    requires SameLabels(ds, Split(h)[1..])
    ensures |Tail(ds)| <= |h| && Split(h)[0] == h[..|h| - |Tail(ds)|]
    ensures Dotless(Split(h)[0]) && SameIgnoringCase(Tail(ds), h[|h| - |Tail(ds)|..])
  {
    SplitJoin(h);
    var front, t := Split(h)[0], Tail(Split(h)[1..]);
    TailsByLabel(ds, Split(h)[1..]);
    assert h == front + t && h[..|front|] == front && h[|front|..] == t;
  }

  /** Both directions at the only place where the front can end. */
  lemma FrontAndTail(h: string, ds: seq<string>)
    requires forall i :: 0 <= i < |ds| ==> Dotless(ds[i])
    ensures SameLabels(ds, Split(h)[1..]) <==>
            var n := |h| - |Tail(ds)|;
            n >= 0 && Dotless(h[..n]) && SameIgnoringCase(Tail(ds), h[n..])
    ensures SameLabels(ds, Split(h)[1..]) ==>
            |Tail(ds)| <= |h| && Split(h)[0] == h[..|h| - |Tail(ds)|]
  {
    var n := |h| - |Tail(ds)|;
    if n >= 0 && Dotless(h[..n]) && SameIgnoringCase(Tail(ds), h[n..]) {
      FrontThenLabels(h, ds, n);
    }
    if SameLabels(ds, Split(h)[1..]) {
      LabelsThenFront(h, ds);
    }
  }

  lemma SameSymmetric(x: string, y: string)
    ensures SameIgnoringCase(x, y) <==> SameIgnoringCase(y, x)
  {
  }

  /** A lone wildcard. */
  lemma LoneStarAgrees(ds: seq<string>, h: string)
    requires forall i :: 0 <= i < |ds| ==> Dotless(ds[i])
    ensures Match([DotlessPlus] + Literal(Tail(ds)), h) <==> SameLabels(ds, Split(h)[1..]) && Split(h)[0] != []
  {
    var w := Tail(ds);
    MatchPlus(w, h);
    FrontAndTail(h, ds);
  }

  /** A literal left-most label. */
  lemma LiteralAgrees(left: string, ds: seq<string>, h: string)
    requires Dotless(left) && forall i :: 0 <= i < |ds| ==> Dotless(ds[i])
    ensures Match(Literal(left) + Literal(Tail(ds)), h) <==>
            SameLabels(ds, Split(h)[1..]) && SameIgnoringCase(left, Split(h)[0])
  {
    var s := left + Tail(ds);
    assert Literal(left) + Literal(Tail(ds)) == Literal(s);
    MatchOnlyLiteral(s, h);
    SplitUnique(left, ds);
    SameLabelByLabel(s, h);
    var hs := Split(h);
    assert hs == [hs[0]] + hs[1..];
    LabelsCons(left, ds, hs[0], hs[1..]);
  }

  /** A left-most label with one wildcard inside. */
  lemma WildAgrees(left: string, ds: seq<string>, h: string)
    requires Stars(left) == 1 && Dotless(left) && forall i :: 0 <= i < |ds| ==> Dotless(ds[i])
    ensures var k := StarAt(left);
            && k < |left|
            && (Match(Wild(left) + Literal(Tail(ds)), h) <==>
                SameLabels(ds, Split(h)[1..]) && Covers(left[..k], left[k + 1..], Split(h)[0]))
  {
    OneStar(left);
    var k := StarAt(left);
    MatchWild(left[..k], left[k + 1..], Tail(ds), h);
    BetweenByLabel(left[..k], left[k + 1..], ds, h);
  }

  lemma BetweenByLabel(before: string, after: string, ds: seq<string>, h: string)
    requires Dotless(before) && Dotless(after) && forall i :: 0 <= i < |ds| ==> Dotless(ds[i])
    ensures Between(before, after + Tail(ds), h) <==>
            SameLabels(ds, Split(h)[1..]) && Covers(before, after, Split(h)[0])
  {
    FrontAndTail(h, ds);
    WildFront(before, after, Tail(ds), h);
    var n := |h| - |Tail(ds)|;
    assert SameLabels(ds, Split(h)[1..]) ==> n >= 0 && Split(h)[0] == h[..n];
  }

  /** The conditions on the two ends of `h` are conditions on its front and on its tail. */
  lemma WildFront(before: string, after: string, w: string, h: string)
    requires Dotless(before) && Dotless(after)
    ensures Between(before, after + w, h) <==>
            var n := |h| - |w|;
            && n >= 0 && Covers(before, after, h[..n]) && Dotless(h[..n]) && SameIgnoringCase(w, h[n..])
  {
    var n := |h| - |w|;
    if |before| + |after| <= n {
      LongEnough(before, after, w, h, n);
    }
  }

  lemma LongEnough(before: string, after: string, w: string, h: string, n: nat)
    requires n == |h| - |w| && |before| + |after| <= n && Dotless(before) && Dotless(after)
    ensures Between(before, after + w, h) <==>
            Covers(before, after, h[..n]) && Dotless(h[..n]) && SameIgnoringCase(w, h[n..])
  {
    var b', m, a' := h[..|before|], h[|before|..n - |after|], h[n - |after|..n];
    FrontParts(h, |before|, n - |after|, n);
    SameConcat(after, w, a', h[n..]);
    SameSymmetric(before, b');
    SameSymmetric(after, a');
    if SameIgnoringCase(before, b') && SameIgnoringCase(after, a') {
      DotlessLike(before, b');
      DotlessLike(after, a');
    }
  }

  lemma FrontParts(h: string, i: nat, j: nat, n: nat)
    requires i <= j <= n <= |h|
    ensures h[..n][..i] == h[..i] && h[..n][j..] == h[j..n] && h[j..] == h[j..n] + h[n..]
    ensures Dotless(h[..n]) <==> Dotless(h[..i]) && Dotless(h[i..j]) && Dotless(h[j..n])
  {
    assert h[..n] == h[..i] + h[i..j] + h[j..n];
  }

  // ---------------------------------------------------------------- the matcher

  /** Concatenation of the patterns of the labels, joined by an escaped dot. */
  function JoinPatterns(pats: seq<seq<Atom>>): seq<Atom>
    requires pats != []
  {
    if |pats| == 1 then pats[0] else JoinPatterns(pats[..|pats| - 1]) + [Exact('.')] + pats[|pats| - 1]
  }

  lemma {:induction false} JoinIsTail(left: seq<Atom>, labels: seq<string>, pats: seq<seq<Atom>>)
    requires |pats| == |labels| + 1 && pats[0] == left
    requires forall i :: 0 <= i < |labels| ==> pats[i + 1] == Literal(labels[i])
    ensures JoinPatterns(pats) == left + Literal(Tail(labels))
  {
    if labels == [] {
      assert left + Literal([]) == left;
    } else {
      var init := labels[..|labels| - 1];
      JoinIsTail(left, init, pats[..|pats| - 1]);
      var last := labels[|labels| - 1];
      assert Literal(Tail(init) + "." + last) == Literal(Tail(init)) + [Exact('.')] + Literal(last);
    }
  }

  /** `_dnsname_match` agrees with the label-by-label rule, for every certificate name and every host name. */
  method DnsnameMatch(dn: string, hostname: string) returns (r: Result)
    ensures dn == [] ==> r == Answer(false)
    ensures r.TooManyWildcards? <==> dn != [] && TwoStars(Split(dn)[0])
    ensures r.Answer? && dn != [] ==> (r.matches <==> LabelRule(dn, hostname))
  {
    if dn == [] {
      return Answer(false);
    }
    var parts := Split(dn);
    var leftmost, remainder := parts[0], parts[1..];
    var wildcards := Stars(leftmost);
    StarsExact(leftmost);
    if wildcards > 1 {
      return TooManyWildcards;
    }
    SplitJoin(dn);
    if wildcards == 0 {
      NoWildcardAgrees(dn, hostname);
      LowerExactly(dn, hostname);
      return Answer(Lower(dn) == Lower(hostname));
    }
    var pats := [LeftPattern(leftmost, hostname)];
    for i := 0 to |remainder|
      invariant |pats| == i + 1 && pats[0] == LeftPattern(leftmost, hostname)
      invariant forall j :: 0 <= j < i ==> pats[j + 1] == Literal(remainder[j])
    {
      pats := pats + [Literal(remainder[i])];
    }
    JoinIsTail(pats[0], remainder, pats);
    PatternAgrees(dn, hostname);
    r := Answer(Match(JoinPatterns(pats), hostname));
  }

  lemma NoWildcardAgrees(dn: string, hostname: string)
    requires Stars(Split(dn)[0]) == 0
    ensures SameIgnoringCase(dn, hostname) <==> LabelRule(dn, hostname)
  {
    StarsExact(Split(dn)[0]);
    SameLabelByLabel(dn, hostname);
    var ds, hs := Split(dn), Split(hostname);
    assert ds == [ds[0]] + ds[1..] && hs == [hs[0]] + hs[1..];
    LabelsCons(ds[0], ds[1..], hs[0], hs[1..]);
  }

  lemma PatternAgrees(dn: string, hostname: string)
    requires Stars(Split(dn)[0]) == 1
    ensures Match(LeftPattern(Split(dn)[0], hostname) + Literal(Tail(Split(dn)[1..])), hostname)
            <==> LabelRule(dn, hostname)
  {
    SplitJoin(dn);
    StartsAlike(dn);
    var left, ds := Split(dn)[0], Split(dn)[1..];
    StarsExact(left);
    if left == "*" {
      LoneStarAgrees(ds, hostname);
    } else if Internationalized(left, hostname) {
      LiteralAgrees(left, ds, hostname);
    } else {
      WildAgrees(left, ds, hostname);
      OnlyStar(left, Split(hostname)[0]);
    }
  }

  /** With one wildcard the rule is about that one. */
  lemma OnlyStar(left: string, host: string)
    requires Stars(left) == 1 && StarAt(left) < |left|
    ensures Covers(left[..StarAt(left)], left[StarAt(left) + 1..], host) <==> exists k :: CoversAt(left, k, host)
  {
    StarSplits(left);
    var k := StarAt(left);
    if Covers(left[..k], left[k + 1..], host) {
      assert CoversAt(left, k, host);
    }
    if j :| CoversAt(left, j, host) {
      assert j == k;
    }
  }
}
