/** The address blocks of an IP pool: compression of an address set into blocks, the free intervals between
    blocks, and the labelled block list of a network. */
module IpPool {
  import opened Wrappers
  import opened Sorting

  datatype Label = Free | Busy | Blocked

  /** The addresses `lo..hi` with one label, and the pod of a single allocated address. */
  datatype Block = Block(lo: nat, hi: int, state: Label, pod: Option<string>)

  predicate Covers(b: Block, x: int) {
    b.lo <= x <= b.hi
  }

  /** In how many blocks of the list an address lies. */
  function CountAt(bs: seq<Block>, x: int): nat {
    if bs == [] then 0 else (if Covers(bs[0], x) then 1 else 0) + CountAt(bs[1..], x)
  }

  lemma {:induction false} CountConcat(a: seq<Block>, b: seq<Block>, x: int)
    ensures CountAt(a + b, x) == CountAt(a, x) + CountAt(b, x)
  {
    if a == [] {
      assert a + b == b;
    } else {
      assert (a + b)[1..] == a[1..] + b;
      CountConcat(a[1..], b, x);
    }
  }

  lemma CountSnoc(a: seq<Block>, b: Block, x: int)
    ensures CountAt(a + [b], x) == CountAt(a, x) + if Covers(b, x) then 1 else 0
  {
    CountConcat(a, [b], x);
    assert [b][1..] == [];
  }

  lemma {:induction false} CountPositive(bs: seq<Block>, x: int)
    ensures CountAt(bs, x) > 0 <==> exists i :: 0 <= i < |bs| && Covers(bs[i], x)
  {
    if bs != [] {
      CountPositive(bs[1..], x);
      if i :| 0 <= i < |bs| && Covers(bs[i], x) {
        assert i > 0 ==> Covers(bs[1..][i - 1], x);
      }
      if i :| 0 <= i < |bs[1..]| && Covers(bs[1..][i], x) {
        assert Covers(bs[i + 1], x);
      }
    }
  }

  // ---------------------------------------------------------------- compression into blocks

  /** Sorted blocks, no two of them overlapping or adjacent. */
  ghost predicate Separated(bs: seq<Block>) {
    && (forall i :: 0 <= i < |bs| ==> bs[i].lo <= bs[i].hi)
    && forall i, j :: 0 <= i < j < |bs| ==> bs[i].hi + 1 < bs[j].lo
  }

  /** The flat list of block ends that the source builds, and its pairing by `zip`. */
  function Ends(bs: seq<Block>): seq<int> {
    if bs == [] then [] else Ends(bs[..|bs| - 1]) + [bs[|bs| - 1].lo as int, bs[|bs| - 1].hi]
  }

  function Pairs(ends: seq<int>, state: Label): seq<Block> {
    if |ends| < 2 || ends[|ends| - 2] < 0 then []
    else Pairs(ends[..|ends| - 2], state) + [Block(ends[|ends| - 2], ends[|ends| - 1], state, None)]
  }

  lemma {:induction false} PairsOfEnds(bs: seq<Block>, state: Label)
    requires Uniform(bs, state)
    ensures Pairs(Ends(bs), state) == bs
  {
    if bs != [] {
      var init := bs[..|bs| - 1];
      PairsOfEnds(init, state);
      assert Ends(bs)[..|Ends(bs)| - 2] == Ends(init);
    }
  }

  /** `ip_list_by_blocks`: sorted, maximal, non-adjacent runs that expand to the original set. */
  method IpListByBlocks(ips: set<nat>, state: Label) returns (bs: seq<Block>)
    ensures Separated(bs)
    ensures forall x: int :: CountAt(bs, x) == if x >= 0 && x in ips then 1 else 0
    ensures Uniform(bs, state)
  {
    if ips == {} {
      return [];
    }
    var list := Sort(ips);
    var startEnd := [list[0] as int];
    ghost var done: seq<Block>, first := [], list[0];
    RunStart(list);
    for num := 1 to |list|
      invariant startEnd == Ends(done) + [first as int]
      invariant Runs(list, num, done, first) && Uniform(done, state)
    {
      var ip, prevInList := list[num], list[num - 1];
      if (ip as int) - 1 != prevInList {
        ghost var b := Block(first, prevInList, state, None);
        RunCloses(list, num, done, first, b);
        EndsSnoc(done, b, state);
        startEnd := startEnd + [prevInList as int];
        assert startEnd == Ends(done + [b]);
        startEnd := startEnd + [ip as int];
        done, first := done + [b], ip;
      } else {
        RunGrows(list, num, done, first);
      }
    }
    ghost var b := Block(first, list[|list| - 1], state, None);
    startEnd := startEnd + [list[|list| - 1] as int];
    RunEnds(list, ips, done, first, b);
    EndsSnoc(done, b, state);
    assert startEnd == Ends(done + [b]);
    PairsOfEnds(done + [b], state);
    bs := Pairs(startEnd, state);
  }

  ghost predicate Uniform(bs: seq<Block>, state: Label) {
    forall i :: 0 <= i < |bs| ==> bs[i].state == state && bs[i].pod == None
  }

  lemma EndsSnoc(bs: seq<Block>, b: Block, state: Label)
    requires Uniform(bs, state) && b.state == state && b.pod == None
    ensures Ends(bs + [b]) == Ends(bs) + [b.lo as int] + [b.hi]
    ensures Uniform(bs + [b], state)
  {
    assert (bs + [b])[..|bs|] == bs;
  }

  /** After `num` addresses: closed runs `done`, and an open run that starts at `first`. */
  ghost predicate Runs(list: seq<nat>, num: nat, done: seq<Block>, first: nat)
    requires num <= |list|
  {
    && 0 < num && Increasing(list)
    && Separated(done) && (done != [] ==> done[|done| - 1].hi + 1 < first)
    && first <= list[num - 1]
    && forall x: int :: CountAt(done, x) + (if first <= x <= list[num - 1] then 1 else 0)
                        == if x >= 0 && x in list[..num] then 1 else 0
  }

  lemma RunStart(list: seq<nat>)
    requires list != [] && Increasing(list)
    ensures Runs(list, 1, [], list[0])
  {
  }

  lemma RunGrows(list: seq<nat>, num: nat, done: seq<Block>, first: nat)
    requires 0 < num < |list| && Runs(list, num, done, first) && list[num] == list[num - 1] + 1
    ensures Runs(list, num + 1, done, first)
  {
    assert list[..num + 1] == list[..num] + [list[num]];
    forall x: int
      ensures CountAt(done, x) + (if first <= x <= list[num] then 1 else 0) == if x >= 0 && x in list[..num + 1] then 1 else 0
    {
      if x == list[num] {
        NotYet(list, num);
      }
    }
  }

  lemma NotYet(list: seq<nat>, num: nat)
    requires num < |list| && Increasing(list)
    ensures list[num] !in list[..num]
  {
  }

  lemma RunCloses(list: seq<nat>, num: nat, done: seq<Block>, first: nat, b: Block)
    requires 0 < num < |list| && Runs(list, num, done, first) && list[num] != list[num - 1] + 1
    requires b.lo == first && b.hi == list[num - 1]
    ensures Runs(list, num + 1, done + [b], list[num])
  {
    assert list[..num + 1] == list[..num] + [list[num]];
    NotYet(list, num);
    forall x: int
      ensures CountAt(done + [b], x) + (if list[num] <= x <= list[num] then 1 else 0)
              == if x >= 0 && x in list[..num + 1] then 1 else 0
    {
      CountSnoc(done, b, x);
    }
  }

  lemma RunEnds(list: seq<nat>, ips: set<nat>, done: seq<Block>, first: nat, b: Block)
    requires list != [] && Runs(list, |list|, done, first) && forall x :: x in list <==> x in ips
    requires b.lo == first && b.hi == list[|list| - 1]
    ensures Separated(done + [b])
    ensures forall x: int :: CountAt(done + [b], x) == if x >= 0 && x in ips then 1 else 0
  {
    assert list[..|list|] == list;
    forall x: int ensures CountAt(done + [b], x) == if x >= 0 && x in ips then 1 else 0 {
      CountSnoc(done, b, x);
    }
  }

  // ---------------------------------------------------------------- free intervals

  /** Blocks in ascending order without overlap; they may be adjacent. */
  ghost predicate Ascending(bs: seq<Block>) {
    && (forall i :: 0 <= i < |bs| ==> bs[i].lo <= bs[i].hi)
    && forall i, j :: 0 <= i < j < |bs| ==> bs[i].hi < bs[j].lo
  }

  /** `get_missed_intervals`: exactly the addresses of the network that no block covers. */
  method GetMissedIntervals(bs: seq<Block>, startIp: nat, endIp: nat) returns (missed: seq<Block>)
    requires Ascending(bs)
    requires forall i :: 0 <= i < |bs| ==> startIp <= bs[i].lo && bs[i].hi <= endIp
    ensures forall x: int :: CountAt(missed, x) == if startIp <= x <= endIp && CountAt(bs, x) == 0 then 1 else 0
    ensures forall i :: 0 <= i < |missed| ==>
              missed[i].lo <= missed[i].hi && missed[i].state == Free && missed[i].pod == None
  {
    missed := [];
    var nextIp: nat := startIp;
    for i := 0 to |bs|
      invariant startIp <= nextIp && (nextIp == startIp || nextIp <= endIp + 1)
      invariant forall j :: i <= j < |bs| ==> nextIp <= bs[j].lo
      invariant forall x: int :: CountAt(missed, x) + CountAt(bs[..i], x) == if startIp <= x < nextIp then 1 else 0
      invariant forall j :: 0 <= j < |missed| ==>
                  missed[j].lo <= missed[j].hi && missed[j].state == Free && missed[j].pod == None
    {
      assert bs[..i + 1] == bs[..i] + [bs[i]];
      ghost var before, from := missed, nextIp;
      if bs[i].lo > nextIp {
        missed := missed + [Block(nextIp, bs[i].lo - 1, Free, None)];
      }
      nextIp := bs[i].hi + 1;
      forall x: int
        ensures CountAt(missed, x) + CountAt(bs[..i + 1], x) == if startIp <= x < nextIp then 1 else 0
      {
        CountSnoc(before, Block(from, bs[i].lo - 1, Free, None), x);
        CountSnoc(bs[..i], bs[i], x);
      }
    }
    assert bs[..|bs|] == bs;
    ghost var before, from := missed, nextIp;
    if endIp >= nextIp {
      missed := missed + [Block(nextIp, endIp, Free, None)];
    }
    forall x: int
      ensures CountAt(missed, x) == if startIp <= x <= endIp && CountAt(bs, x) == 0 then 1 else 0
    {
      CountSnoc(before, Block(from, endIp, Free, None), x);
      CountPositive(bs, x);
      CountPositive(before, x);
    }
  }

  // ---------------------------------------------------------------- sorting blocks

  ghost predicate SortedByLo(bs: seq<Block>) {
    forall i, j :: 0 <= i < j < |bs| ==> bs[i].lo <= bs[j].lo
  }

  function Insert(bs: seq<Block>, b: Block): seq<Block> {
    if bs == [] || b.lo <= bs[0].lo then [b] + bs else [bs[0]] + Insert(bs[1..], b)
  }

  lemma {:induction false} InsertMembers(bs: seq<Block>, b: Block)
    ensures forall c :: c in Insert(bs, b) <==> c in bs || c == b
  {
    if bs != [] && b.lo > bs[0].lo {
      InsertMembers(bs[1..], b);
      assert bs == [bs[0]] + bs[1..];
    }
  }

  lemma {:induction false} InsertSorts(bs: seq<Block>, b: Block)
    requires SortedByLo(bs)
    ensures SortedByLo(Insert(bs, b))
  {
    if bs != [] && b.lo > bs[0].lo {
      var rest := Insert(bs[1..], b);
      InsertSorts(bs[1..], b);
      InsertMembers(bs[1..], b);
      assert forall i :: 0 <= i < |rest| ==> rest[i] in rest;
    }
  }

  lemma {:induction false} InsertCounts(bs: seq<Block>, b: Block, x: int)
    ensures CountAt(Insert(bs, b), x) == CountAt(bs, x) + if Covers(b, x) then 1 else 0
  {
    if bs == [] || b.lo <= bs[0].lo {
      assert ([b] + bs)[1..] == bs;
    } else {
      InsertCounts(bs[1..], b, x);
      assert ([bs[0]] + Insert(bs[1..], b))[1..] == Insert(bs[1..], b);
    }
  }

  /** `sorted`, which only reorders. */
  method SortBlocks(bs: seq<Block>) returns (r: seq<Block>)
    ensures SortedByLo(r)
    ensures forall c :: c in r <==> c in bs
    ensures forall x: int :: CountAt(r, x) == CountAt(bs, x)
  {
    r := [];
    for i := 0 to |bs|
      invariant SortedByLo(r)
      invariant forall c :: c in r <==> c in bs[..i]
      invariant forall x: int :: CountAt(r, x) == CountAt(bs[..i], x)
    {
      InsertSorts(r, bs[i]);
      InsertMembers(r, bs[i]);
      assert bs[..i + 1] == bs[..i] + [bs[i]];
      forall x: int ensures CountAt(Insert(r, bs[i]), x) == CountAt(bs[..i + 1], x) {
        InsertCounts(r, bs[i], x);
        CountSnoc(bs[..i], bs[i], x);
      }
      r := Insert(r, bs[i]);
    }
    assert bs[..|bs|] == bs;
  }

  lemma {:induction false} CountTwo(bs: seq<Block>, i: nat, j: nat, x: int)
    requires i < j < |bs| && Covers(bs[i], x) && Covers(bs[j], x)
    ensures CountAt(bs, x) >= 2
  {
    if i == 0 {
      CountPositive(bs[1..], x);
      assert Covers(bs[1..][j - 1], x);
    } else {
      CountTwo(bs[1..], i - 1, j - 1, x);
    }
  }

  /** Sorted blocks that never cover an address twice are in ascending order. */
  lemma SortedIsAscending(bs: seq<Block>)
    requires SortedByLo(bs) && forall i :: 0 <= i < |bs| ==> bs[i].lo <= bs[i].hi
    requires forall x: int :: CountAt(bs, x) <= 1
    ensures Ascending(bs)
  {
    forall i, j | 0 <= i < j < |bs| ensures bs[i].hi < bs[j].lo {
      if bs[j].lo <= bs[i].hi {
        CountTwo(bs, i, j, bs[j].lo);
      }
    }
  }

  // ---------------------------------------------------------------- the block list of a network

  /** How an address is to be shown. */
  function LabelOf(x: nat, blocked: set<nat>, busy: map<nat, string>): Label {
    if x in blocked then Blocked else if x in busy then Busy else Free
  }

  /** Every block of the list is right about each of its addresses, and a pod is shown exactly at its address. */
  ghost predicate Labelled(bs: seq<Block>, blocked: set<nat>, busy: map<nat, string>) {
    forall b :: b in bs ==>
      && b.lo <= b.hi
      && (forall x: nat :: Covers(b, x) ==> b.state == LabelOf(x, blocked, busy))
      && (forall x: nat :: Covers(b, x) ==> b.pod == if x in busy then Some(busy[x]) else None)
  }

  /** The blocks of single allocated addresses. */
  method AllocatedBlocks(blocked: set<nat>, busy: map<nat, string>) returns (bs: seq<Block>, rest: set<nat>)
    ensures rest == blocked - busy.Keys
    ensures Labelled(bs, blocked, busy)
    ensures forall x: int :: CountAt(bs, x) == if x >= 0 && x in busy then 1 else 0
  {
    bs, rest := [], blocked;
    var todo := busy.Keys;
    while todo != {}
      invariant todo <= busy.Keys && rest == blocked - (busy.Keys - todo)
      invariant Labelled(bs, blocked, busy)
      invariant forall x: int :: CountAt(bs, x) == if x >= 0 && x in busy && x !in todo then 1 else 0
      decreases todo
    {
      var ip :| ip in todo;
      var state := Busy;
      if ip in rest {
        state := Blocked;
        rest := rest - {ip};
      }
      var b := Block(ip, ip, state, Some(busy[ip]));
      forall x: int ensures CountAt(bs + [b], x) == CountAt(bs, x) + if x == ip then 1 else 0 {
        CountSnoc(bs, b, x);
      }
      bs := bs + [b];
      todo := todo - {ip};
    }
  }

  /** The part of `get_network_ips` that is not AWS: when all blocked and allocated addresses lie in the network,
      the blocks are sorted, every address from the network address to the broadcast address lies in exactly one of
      them, no other address lies in any, and each address is shown as blocked, busy or free, as it is. */
  method GetNetworkIps(blocked: set<nat>, busy: map<nat, string>, network: nat, broadcast: nat)
    returns (blocks: seq<Block>)
    requires network <= broadcast
    requires forall x :: x in blocked || x in busy ==> network <= x <= broadcast
    ensures SortedByLo(blocks) && Labelled(blocks, blocked, busy)
    ensures forall x: int :: CountAt(blocks, x) == if network <= x <= broadcast then 1 else 0
  {
    var single, stillBlocked := AllocatedBlocks(blocked, busy);
    var blockedBlocks := IpListByBlocks(stillBlocked, Blocked);
    var busyBlocks := IpListByBlocks(busy.Keys, Busy);
    forall x: int
      ensures CountAt(blockedBlocks + busyBlocks, x) ==
              if x >= 0 && (x in blocked || x in busy) then 1 else 0
    {
      CountConcat(blockedBlocks, busyBlocks, x);
    }
    var nonFree := SortBlocks(blockedBlocks + busyBlocks);
    NonFreeOk(blockedBlocks, busyBlocks, nonFree, network, broadcast);
    var free := GetMissedIntervals(nonFree, network, broadcast);
    forall x: int
      ensures CountAt(single + blockedBlocks + free, x) == if network <= x <= broadcast then 1 else 0
    {
      CountConcat(single + blockedBlocks, free, x);
      CountConcat(single, blockedBlocks, x);
    }
    LabelledBlocks(blockedBlocks, free, blocked, busy, network, broadcast);
    blocks := SortBlocks(single + blockedBlocks + free);
  }

  lemma NonFreeOk(a: seq<Block>, b: seq<Block>, bs: seq<Block>, network: nat, broadcast: nat)
    requires Separated(a) && Separated(b) && SortedByLo(bs) && forall c :: c in bs <==> c in a + b
    requires forall x: int :: CountAt(bs, x) <= 1
    requires forall x: int :: CountAt(bs, x) > 0 ==> network <= x <= broadcast
    ensures Ascending(bs)
    ensures forall i :: 0 <= i < |bs| ==> network <= bs[i].lo && bs[i].hi <= broadcast
  {
    forall i | 0 <= i < |bs|
      ensures bs[i].lo <= bs[i].hi && network <= bs[i].lo && bs[i].hi <= broadcast
    {
      assert bs[i] in bs;
      assert bs[i].lo <= bs[i].hi;
      CountPositive(bs, bs[i].lo);
      CountPositive(bs, bs[i].hi);
    }
    SortedIsAscending(bs);
  }

  lemma LabelledBlocks(blockedBlocks: seq<Block>, free: seq<Block>, blocked: set<nat>, busy: map<nat, string>,
                       network: nat, broadcast: nat)
    requires Separated(blockedBlocks)
    requires forall x: int :: CountAt(blockedBlocks, x) == if x >= 0 && x in blocked - busy.Keys then 1 else 0
    requires Uniform(blockedBlocks, Blocked)
    requires forall i :: 0 <= i < |free| ==> free[i].lo <= free[i].hi && free[i].state == Free && free[i].pod == None
    requires forall x: int :: CountAt(free, x) > 0 ==> x >= 0 && x !in blocked && x !in busy
    ensures Labelled(blockedBlocks, blocked, busy) && Labelled(free, blocked, busy)
  {
    forall b, x: nat | b in blockedBlocks && Covers(b, x) ensures x in blocked && x !in busy {
      CountPositive(blockedBlocks, x);
    }
    forall b, x: nat | b in free && Covers(b, x) ensures x !in blocked && x !in busy {
      CountPositive(free, x);
    }
  }

  /** Counted once everywhere and sorted means consecutive: the blocks tile the network without gap or overlap. */
  lemma ExactCoverIsTiling(bs: seq<Block>, network: nat, broadcast: nat)
    requires network <= broadcast && SortedByLo(bs)
    requires forall j :: 0 <= j < |bs| ==> bs[j].lo <= bs[j].hi
    requires forall x: int :: CountAt(bs, x) == if network <= x <= broadcast then 1 else 0
    ensures bs != [] && bs[0].lo == network && bs[|bs| - 1].hi == broadcast
    ensures forall i :: 0 <= i < |bs| - 1 ==> bs[i + 1].lo == bs[i].hi + 1
  {
    SortedIsAscending(bs);
    CountPositive(bs, network);
    CountPositive(bs, broadcast);
    CountPositive(bs, bs[0].lo);
    CountPositive(bs, bs[|bs| - 1].hi);
    forall i | 0 <= i < |bs| - 1 ensures bs[i + 1].lo == bs[i].hi + 1 {
      CountPositive(bs, bs[i].hi);
      CountPositive(bs, bs[i + 1].lo);
      if bs[i].hi + 1 < bs[i + 1].lo {
        NoneBetween(bs, i, bs[i].hi + 1);
      }
    }
  }

  lemma NoneBetween(bs: seq<Block>, i: nat, x: int)
    requires Ascending(bs) && i + 1 < |bs| && bs[i].hi < x < bs[i + 1].lo
    ensures CountAt(bs, x) == 0
  {
    forall j | 0 <= j < |bs| ensures !Covers(bs[j], x) {
      assert j < i ==> bs[j].hi < bs[i].lo;
      assert j > i + 1 ==> bs[i + 1].hi < bs[j].lo;
    }
    CountPositive(bs, x);
  }
}
