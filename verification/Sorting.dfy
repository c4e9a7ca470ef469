/** `sorted` on a set of naturals. */
module Sorting {

  ghost predicate Increasing(s: seq<nat>) {
    forall i, j :: 0 <= i < j < |s| ==> s[i] < s[j]
  }

  lemma {:induction false} HasMin(s: set<nat>) returns (m: nat)
    requires s != {}
    ensures m in s && forall x :: x in s ==> m <= x
    decreases |s|
  {
    var k :| k in s;
    m := k;
    if s != {m} {
      var rest := s - {m};
      assert s == rest + {m};
      var n := HasMin(rest);
      m := if n < m then n else m;
    }
  }

  lemma IncreasingSnoc(s: seq<nat>, m: nat)
    requires Increasing(s) && forall x :: x in s ==> x < m
    ensures Increasing(s + [m])
  {
    assert forall i :: 0 <= i < |s| ==> s[i] in s;
  }

  method Sort(s: set<nat>) returns (r: seq<nat>)
    ensures Increasing(r)
    ensures forall x :: x in r <==> x in s
    ensures |r| == |s|
  {
    r := [];
    var rest := s;
    while rest != {}
      invariant rest <= s && |r| + |rest| == |s|
      invariant Increasing(r)
      invariant forall x :: x in r <==> x in s && x !in rest
      invariant forall x, y :: x in r && y in rest ==> x < y
      decreases rest
    {
      ghost var low := HasMin(rest);
      var m :| m in rest && forall x :: x in rest ==> m <= x;
      IncreasingSnoc(r, m);
      r := r + [m];
      rest := rest - {m};
    }
  }
}
