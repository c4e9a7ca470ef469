/** Merging of node backups: directories whose time stamps lie close together are grouped greedily, and each group
    is merged into its first directory. */
module BackupMerge {
  import opened Wrappers

  /** A backup directory with the time, in microseconds, read from its name. */
  datatype Item = Item(name: string, time: int)

  const SECOND: int := 1_000_000

  datatype Outcome<+T> = Ok(value: T) | BadName(name: string) | NothingFound | NothingLeft | Overlap(group: seq<Item>)

  function Flatten<T>(groups: seq<seq<T>>): seq<T> {
    if groups == [] then [] else groups[0] + Flatten(groups[1..])
  }

  lemma {:induction false} FlattenSnoc<T>(groups: seq<seq<T>>, g: seq<T>)
    ensures Flatten(groups + [g]) == Flatten(groups) + g
  {
    if groups == [] {
      assert groups + [g] == [g] && [g][1..] == [];
    } else {
      assert (groups + [g])[1..] == groups[1..] + [g];
      FlattenSnoc(groups[1..], g);
    }
  }

  // ---------------------------------------------------------------- grouping

  /** The entries whose name has the expected format, with their times. */
  function Readable(data: seq<string>, stamp: string -> Option<int>): seq<Item> {
    if data == [] then []
    else
      var rest := Readable(data[..|data| - 1], stamp);
      var name := data[|data| - 1];
      if stamp(name).Some? then rest + [Item(name, stamp(name).value)] else rest
  }

  /** `items` are the readable entries in the order of `data`, each with the time of its stamp, and none left out; `at`
      gives their places. */
  ghost predicate ArePlaces(at: seq<nat>, data: seq<string>, stamp: string -> Option<int>, items: seq<Item>) {
    && |at| == |items|
    && (forall i, j :: 0 <= i < j < |at| ==> at[i] < at[j])
    && (forall i :: 0 <= i < |at| ==> at[i] < |data| && IsStamped(items[i], data[at[i]], stamp))
    && forall k :: 0 <= k < |data| && stamp(data[k]).Some? ==> k in at
  }

  predicate IsStamped(x: Item, name: string, stamp: string -> Option<int>) {
    x.name == name && stamp(name) == Some(x.time)
  }

  lemma PlacesSnoc(at: seq<nat>, data: seq<string>, stamp: string -> Option<int>, items: seq<Item>, name: string)
    requires ArePlaces(at, data, stamp, items)
    ensures stamp(name).None? ==> ArePlaces(at, data + [name], stamp, items)
    ensures stamp(name).Some? ==> ArePlaces(at + [|data|], data + [name], stamp, items + [Item(name, stamp(name).value)])
  {
    var more := data + [name];
    assert forall k :: 0 <= k < |data| ==> more[k] == data[k];
    assert more[|data|] == name;
    if stamp(name).Some? {
      var places := at + [|data|];
      assert places[|at|] == |data|;
      forall k | 0 <= k < |more| && stamp(more[k]).Some? ensures k in places {
        assert k < |data| ==> k in at;
      }
    }
  }

  lemma {:induction false} ReadableExact(data: seq<string>, stamp: string -> Option<int>) returns (at: seq<nat>)
    ensures ArePlaces(at, data, stamp, Readable(data, stamp))
  {
    if data == [] {
      at := [];
    } else {
      var init, name := data[..|data| - 1], data[|data| - 1];
      at := ReadableExact(init, stamp);
      PlacesSnoc(at, init, stamp, Readable(init, stamp), name);
      assert init + [name] == data;
      if stamp(name).Some? {
        at := at + [|init|];
      }
    }
  }

  /** The items of `Readable` are the names of `data` with their stamps. */
  lemma ReadableMembers(data: seq<string>, stamp: string -> Option<int>, x: Item)
    ensures x in Readable(data, stamp) <==> x.name in data && stamp(x.name) == Some(x.time)
  {
    var at := ReadableExact(data, stamp);
    var r := Readable(data, stamp);
    if x in r {
      var i :| 0 <= i < |r| && r[i] == x;
      assert IsStamped(r[i], data[at[i]], stamp);
    }
    if x.name in data && stamp(x.name) == Some(x.time) {
      var k :| 0 <= k < |data| && data[k] == x.name;
      var i :| 0 <= i < |at| && at[i] == k;
      assert IsStamped(r[i], data[at[i]], stamp);
      assert r[i] == x;
    }
  }

  ghost predicate Chronological(items: seq<Item>) {
    forall i, j :: 0 <= i <= j < |items| ==> items[i].time <= items[j].time
  }

  /** Every item is within `precision` of the head of its group, and every head is beyond it from the last head. */
  ghost predicate Greedy(groups: seq<seq<Item>>, precision: int) {
    && (forall g :: 0 <= g < |groups| ==> groups[g] != [])
    && (forall g, i :: 0 <= g < |groups| && 0 < i < |groups[g]| ==> groups[g][i].time - groups[g][0].time <= precision)
    && forall g :: 0 < g < |groups| ==> groups[g][0].time - groups[g - 1][0].time > precision
  }

  /** `group_by_timestamp`. An unreadable name is an error unless errors are skipped; an empty rest is the
      source's failing `pop(0)`. The precision is in seconds. */
  method GroupByTimestamp(data: seq<string>, stamp: string -> Option<int>, precision: int, skipErrors: bool)
    returns (r: Outcome<seq<seq<Item>>>)
    ensures r.Ok? ==> r.value != [] && Flatten(r.value) == Readable(data, stamp) && Greedy(r.value, precision * 1_000_000)
    ensures r.BadName? <==> !skipErrors && exists i :: 0 <= i < |data| && stamp(data[i]).None?
    ensures r.NothingLeft? ==> Readable(data, stamp) == []
    ensures r.Ok? ==> Readable(data, stamp) != []
    ensures !r.NothingFound? && !r.Overlap?
  {
    var items: seq<Item> := [];
    for i := 0 to |data|
      invariant items == Readable(data[..i], stamp)
      invariant !skipErrors ==> forall j :: 0 <= j < i ==> stamp(data[j]).Some?
    {
      assert data[..i + 1][..i] == data[..i];
      if stamp(data[i]).None? {
        if !skipErrors {
          return BadName(data[i]);
        }
      } else {
        items := items + [Item(data[i], stamp(data[i]).value)];
      }
    }
    assert data[..|data|] == data;
    if items == [] {
      return NothingLeft;
    }
    var groups, group := GroupItems(items, precision * SECOND);
    FlattenSnoc(groups, group);
    assert Flatten(groups + [group]) == items;
    r := Ok(groups + [group]);
  }

  /** The grouping loop; the last group is yielded after it. */
  method GroupItems(items: seq<Item>, precision: int) returns (groups: seq<seq<Item>>, group: seq<Item>)
    requires items != []
    ensures Flatten(groups) + group == items && Greedy(groups + [group], precision)
  {
    var t0 := items[0].time;
    groups, group := [], [items[0]];
    for i := 1 to |items|
      invariant group != [] && t0 == group[0].time
      invariant Flatten(groups) + group == items[..i]
      invariant Greedy(groups + [group], precision)
    {
      assert items[..i + 1] == items[..i] + [items[i]];
      if items[i].time - t0 <= precision {
        GreedyGrows(groups, group, items[i], precision);
        group := group + [items[i]];
      } else {
        FlattenSnoc(groups, group);
        GreedyStarts(groups + [group], items[i], precision);
        groups := groups + [group];
        group, t0 := [items[i]], items[i].time;
      }
    }
    assert items[..|items|] == items;
  }

  lemma GreedyGrows(groups: seq<seq<Item>>, group: seq<Item>, x: Item, precision: int)
    requires group != [] && Greedy(groups + [group], precision) && x.time - group[0].time <= precision
    ensures Greedy(groups + [group + [x]], precision)
  {
    var a, b := groups + [group], groups + [group + [x]];
    assert forall g :: 0 <= g < |groups| ==> a[g] == b[g];
    assert a[|groups|] == group && b[|groups|] == group + [x];
    forall g, i | 0 <= g < |b| && 0 < i < |b[g]| ensures b[g][i].time - b[g][0].time <= precision {
      assert i < |a[g]| ==> a[g][i] == b[g][i];
      assert b[g][0] == a[g][0];
    }
    forall g | 0 < g < |b| ensures b[g][0].time - b[g - 1][0].time > precision {
      assert b[g][0] == a[g][0] && b[g - 1][0] == a[g - 1][0];
    }
  }

  lemma GreedyStarts(groups: seq<seq<Item>>, x: Item, precision: int)
    requires groups != [] && Greedy(groups, precision)
    requires x.time - groups[|groups| - 1][0].time > precision
    ensures Greedy(groups + [[x]], precision)
  {
  }

  // ---------------------------------------------------------------- greedy is optimal

  /** Position of the head of group `g` in the flattened list. */
  function HeadAt(groups: seq<seq<Item>>, g: nat): nat
    requires g <= |groups|
  {
    if g == 0 then 0 else |groups[0]| + HeadAt(groups[1..], g - 1)
  }

  lemma {:induction false} HeadAtExact(groups: seq<seq<Item>>, g: nat, i: nat)
    requires g < |groups| && i < |groups[g]|
    ensures HeadAt(groups, g) + i < |Flatten(groups)|
    ensures Flatten(groups)[HeadAt(groups, g) + i] == groups[g][i]
  {
    if g > 0 {
      HeadAtExact(groups[1..], g - 1, i);
    }
  }

  lemma {:induction false} HeadAtOrder(groups: seq<seq<Item>>, g: nat, h: nat)
    requires g <= h <= |groups|
    ensures HeadAt(groups, g) <= HeadAt(groups, h)
  {
    if g > 0 {
      HeadAtOrder(groups[1..], g - 1, h - 1);
    }
  }

  /** In chronological order, a group spans at most `precision`. */
  lemma GroupSpan(groups: seq<seq<Item>>, precision: int, g: nat, i: nat, j: nat)
    requires Chronological(Flatten(groups)) && Greedy(groups, precision) && precision >= 0
    requires g < |groups| && i < |groups[g]| && j < |groups[g]|
    ensures groups[g][i].time - groups[g][j].time <= precision
  {
    HeadAtExact(groups, g, 0);
    HeadAtExact(groups, g, i);
    HeadAtExact(groups, g, j);
  }

  /** In chronological order, the heads of two groups are more than `precision` apart. */
  lemma {:induction false} HeadsApart(groups: seq<seq<Item>>, precision: int, g: nat, h: nat)
    requires Chronological(Flatten(groups)) && Greedy(groups, precision) && g < h < |groups|
    ensures groups[h][0].time - groups[g][0].time > precision
  {
    HeadAtExact(groups, g + 1, 0);
    HeadAtExact(groups, h, 0);
    HeadAtOrder(groups, g + 1, h);
  }

  /** A division of the items into groups, by a label for every item: items of one label are within `precision`. */
  ghost predicate Division(items: seq<Item>, labels: seq<nat>, precision: int) {
    && |labels| == |items|
    && forall i, j :: 0 <= i < |items| && 0 <= j < |items| && labels[i] == labels[j] ==>
                        items[i].time - items[j].time <= precision
  }

  function LabelSet(labels: seq<nat>): set<nat> {
    set x | x in labels
  }

  /** The label of the head of group `g`. */
  function HeadLabel(groups: seq<seq<Item>>, labels: seq<nat>, g: nat): (x: nat)
    requires g < |groups| && groups[g] != [] && |labels| == |Flatten(groups)|
    ensures x in labels
  {
    HeadAtExact(groups, g, 0);
    labels[HeadAt(groups, g)]
  }

  lemma ApartMeansDivided(items: seq<Item>, labels: seq<nat>, precision: int, i: nat, j: nat)
    requires Division(items, labels, precision) && i < |items| && j < |items|
    requires items[j].time - items[i].time > precision
    ensures labels[i] != labels[j]
  {
  }

  lemma HeadLabelsDiffer(groups: seq<seq<Item>>, labels: seq<nat>, precision: int, g: nat, h: nat)
    requires Greedy(groups, precision) && Chronological(Flatten(groups)) && g < h < |groups|
    requires Division(Flatten(groups), labels, precision)
    ensures HeadLabel(groups, labels, g) != HeadLabel(groups, labels, h)
  {
    HeadAtExact(groups, g, 0);
    HeadAtExact(groups, h, 0);
    HeadsApart(groups, precision, g, h);
    ApartMeansDivided(Flatten(groups), labels, precision, HeadAt(groups, g), HeadAt(groups, h));
  }

  lemma {:induction false} DistinctCount(xs: seq<nat>)
    requires forall i, j :: 0 <= i < j < |xs| ==> xs[i] != xs[j]
    ensures |LabelSet(xs)| == |xs|
  {
    if xs != [] {
      var init, last := xs[..|xs| - 1], xs[|xs| - 1];
      DistinctCount(init);
      assert xs == init + [last] && last !in init;
      assert LabelSet(xs) == LabelSet(init) + {last};
    }
  }

  /** On chronological input no division of the items into groups of span `precision`, contiguous or not, has fewer
      groups than the greedy one. */
  lemma GreedyIsOptimal(groups: seq<seq<Item>>, labels: seq<nat>, precision: int)
    requires Greedy(groups, precision) && Chronological(Flatten(groups))
    requires Division(Flatten(groups), labels, precision)
    ensures |groups| <= |LabelSet(labels)|
  {
    var heads := seq(|groups|, g requires 0 <= g < |groups| => HeadLabel(groups, labels, g));
    forall g, h | 0 <= g < h < |groups| ensures heads[g] != heads[h] {
      HeadLabelsDiffer(groups, labels, precision, g, h);
    }
    assert forall g :: 0 <= g < |heads| ==> heads[g] in labels;
    CountHeads(heads, labels);
  }

  lemma CountHeads(heads: seq<nat>, labels: seq<nat>)
    requires forall i, j :: 0 <= i < j < |heads| ==> heads[i] != heads[j]
    requires forall i :: 0 <= i < |heads| ==> heads[i] in labels
    ensures |heads| <= |LabelSet(labels)|
  {
    DistinctCount(heads);
    SubsetSize(LabelSet(heads), LabelSet(labels));
  }

  lemma {:induction false} SubsetSize(a: set<nat>, b: set<nat>)
    requires a <= b
    ensures |a| <= |b|
    decreases |a|
  {
    if a != {} {
      var x :| x in a;
      SubsetSize(a - {x}, b - {x});
    }
  }

  // ---------------------------------------------------------------- the groups, by the stamps of the names

  /** Stamps do not decrease along the listing. */
  ghost predicate ListedInOrder(data: seq<string>, stamp: string -> Option<int>) {
    forall i, j :: 0 <= i <= j < |data| && stamp(data[i]).Some? && stamp(data[j]).Some? ==>
                     stamp(data[i]).value <= stamp(data[j]).value
  }

  lemma OrderedListing(data: seq<string>, stamp: string -> Option<int>)
    requires ListedInOrder(data, stamp)
    ensures Chronological(Readable(data, stamp))
  {
    var at := ReadableExact(data, stamp);
    var r := Readable(data, stamp);
    forall i, j | 0 <= i <= j < |r| ensures r[i].time <= r[j].time {
      assert at[i] <= at[j];
      assert IsStamped(r[i], data[at[i]], stamp) && IsStamped(r[j], data[at[j]], stamp);
    }
  }

  /** Any two names of a group have stamps at most `precision` seconds apart. */
  lemma StampsOfGroup(data: seq<string>, stamp: string -> Option<int>, precision: nat, groups: seq<seq<Item>>,
                      g: nat, i: nat, j: nat)
    requires Flatten(groups) == Readable(data, stamp) && Greedy(groups, precision * 1_000_000)
    requires ListedInOrder(data, stamp) && g < |groups| && i < |groups[g]| && j < |groups[g]|
    ensures var a, b := groups[g][i].name, groups[g][j].name;
            && a in data && b in data && stamp(a).Some? && stamp(b).Some?
            && stamp(a).value - stamp(b).value <= precision * 1_000_000
  {
    OrderedListing(data, stamp);
    GroupSpan(groups, precision * 1_000_000, g, i, j);
    HeadAtExact(groups, g, i);
    HeadAtExact(groups, g, j);
    ReadableMembers(data, stamp, groups[g][i]);
    ReadableMembers(data, stamp, groups[g][j]);
  }

  function LabelsOf(items: seq<Item>, groupOf: string -> nat): seq<nat> {
    seq<nat>(|items|, i requires 0 <= i < |items| => groupOf(items[i].name))
  }

  /** No other way to group the names, with stamps at most `precision` seconds apart in a group, has fewer groups. */
  lemma FewestByStamp(data: seq<string>, stamp: string -> Option<int>, precision: nat, groups: seq<seq<Item>>,
                      groupOf: string -> nat)
    requires Flatten(groups) == Readable(data, stamp) && Greedy(groups, precision * 1_000_000) && ListedInOrder(data, stamp)
    requires forall a, b :: a in data && b in data && stamp(a).Some? && stamp(b).Some? && groupOf(a) == groupOf(b) ==>
               stamp(a).value - stamp(b).value <= precision * 1_000_000
    ensures |groups| <= |set a | a in data && stamp(a).Some? :: groupOf(a)|
  {
    var items := Readable(data, stamp);
    var labels := LabelsOf(items, groupOf);
    OrderedListing(data, stamp);
    forall i | 0 <= i < |items| ensures items[i].name in data && stamp(items[i].name) == Some(items[i].time) {
      ReadableMembers(data, stamp, items[i]);
    }
    assert Division(items, labels, precision * 1_000_000);
    GreedyIsOptimal(groups, labels, precision * 1_000_000);
    var used := set a | a in data && stamp(a).Some? :: groupOf(a);
    forall x | x in LabelSet(labels) ensures x in used {
      var i :| 0 <= i < |labels| && labels[i] == x;
      assert items[i].name in data;
    }
    SubsetSize(LabelSet(labels), used);
  }

  // ---------------------------------------------------------------- merging

  type Tree = map<string, string>

  ghost predicate DistinctNames(group: seq<Item>) {
    forall i, j :: 0 <= i < j < |group| ==> group[i].name != group[j].name
  }

  /** Two directories of the group have a file at the same relative path. */
  ghost predicate Overlapping(fs: map<string, Tree>, group: seq<Item>)
    requires Present(fs, group)
  {
    exists i, j, p :: 0 <= i < j < |group| && p in fs[group[i].name] && p in fs[group[j].name]
  }

  ghost predicate Present(fs: map<string, Tree>, group: seq<Item>) {
    forall i :: 0 <= i < |group| ==> group[i].name in fs
  }

  /** `now` holds the group `then` merged into its head: every file of every member is there with its content,
      nothing else is, and the other members are gone. */
  ghost predicate Merged(before: map<string, Tree>, now: map<string, Tree>, group: seq<Item>)
    requires group != [] && Present(before, group)
  {
    var head := group[0].name;
    && head in now
    && (forall i, p :: 0 <= i < |group| && p in before[group[i].name] ==>
                         p in now[head] && now[head][p] == before[group[i].name][p])
    && (forall p :: p in now[head] ==> exists i :: 0 <= i < |group| && p in before[group[i].name])
    && forall i :: 0 < i < |group| ==> group[i].name !in now
  }

  ghost predicate Untouched(before: map<string, Tree>, now: map<string, Tree>, name: string) {
    (name in before <==> name in now) && (name in before ==> before[name] == now[name])
  }

  ghost predicate Member(group: seq<Item>, name: string) {
    exists i :: 0 <= i < |group| && group[i].name == name
  }

  /** The groups are made of existing, pairwise different directories. */
  ghost predicate Disjoint(groups: seq<seq<Item>>) {
    && (forall g :: 0 <= g < |groups| ==> groups[g] != [] && DistinctNames(groups[g]))
    && forall g, h, x :: 0 <= g < h < |groups| && Member(groups[g], x) ==> !Member(groups[h], x)
  }

  lemma {:induction false} FlattenDisjoint(groups: seq<seq<Item>>)
    requires DistinctNames(Flatten(groups)) && forall g :: 0 <= g < |groups| ==> groups[g] != []
    ensures Disjoint(groups)
  {
    forall g | 0 <= g < |groups| ensures DistinctNames(groups[g]) {
      forall i, j | 0 <= i < j < |groups[g]| ensures groups[g][i].name != groups[g][j].name {
        HeadAtExact(groups, g, i);
        HeadAtExact(groups, g, j);
      }
    }
    forall g, h, x | 0 <= g < h < |groups| && Member(groups[g], x) ensures !Member(groups[h], x) {
      var i :| 0 <= i < |groups[g]| && groups[g][i].name == x;
      forall j | 0 <= j < |groups[h]| ensures groups[h][j].name != x {
        HeadAtExact(groups, g, i);
        HeadAtExact(groups, h, j);
        HeadAtNext(groups, g);
        HeadAtOrder(groups, g + 1, h);
      }
    }
  }

  lemma {:induction false} HeadAtNext(groups: seq<seq<Item>>, g: nat)
    requires g < |groups|
    ensures HeadAt(groups, g + 1) == HeadAt(groups, g) + |groups[g]|
  {
    if g > 0 {
      HeadAtNext(groups[1..], g - 1);
    }
  }

  /** The backup directory: each backup is a tree of files by relative path. No file path is assumed to be a
      directory of another. */
  class Backups {
    var fs: map<string, Tree>

    constructor (fs: map<string, Tree>)
      ensures this.fs == fs
    {
      this.fs := fs;
    }

    /** `will_override`: the paths seen so far are collected, and a repeated one is found. */
    method WillOverride(group: seq<Item>) returns (b: bool)
      requires Present(fs, group)
      ensures b <==> Overlapping(fs, group)
    {
      var base: set<string> := {};
      for i := 0 to |group|
        invariant forall p :: p in base <==> exists j :: 0 <= j < i && p in fs[group[j].name]
        invariant forall j, k, p :: 0 <= j < k < i && p in fs[group[j].name] ==> p !in fs[group[k].name]
      {
        var files := fs[group[i].name].Keys;
        while files != {}
          invariant files <= fs[group[i].name].Keys
          invariant forall p :: p in base <==>
                      (exists j :: 0 <= j < i && p in fs[group[j].name]) || (p in fs[group[i].name] && p !in files)
          invariant forall j, p :: 0 <= j < i && p in fs[group[j].name] && p in fs[group[i].name] ==> p in files
          decreases files
        {
          var f :| f in files;
          if f in base {
            return true;
          }
          base := base + {f};
          files := files - {f};
        }
      }
      b := false;
    }

    /** One merge step: `copy_tree` followed by `remove_tree`. */
    method MergeInto(head: string, src: string, dryRun: bool)
      requires head in fs && src in fs && head != src
      modifies this
      ensures dryRun ==> fs == old(fs)
      ensures !dryRun ==> fs == old(fs)[head := old(fs)[head] + old(fs)[src]] - {src}
    {
      if !dryRun {
        fs := fs[head := fs[head] + fs[src]];
        fs := fs - {src};
      }
    }

    /** Merging one group. */
    method MergeGroup(group: seq<Item>, dryRun: bool)
      requires group != [] && Present(fs, group) && DistinctNames(group) && !Overlapping(fs, group)
      modifies this
      ensures dryRun ==> fs == old(fs)
      ensures !dryRun ==> Merged(old(fs), fs, group)
      ensures !dryRun ==> forall d :: !Member(group, d) ==> Untouched(old(fs), fs, d)
    {
      var head := group[0].name;
      for i := 1 to |group|
        invariant dryRun ==> fs == old(fs)
        invariant !dryRun ==> Merged(old(fs), fs, group[..i])
        invariant !dryRun ==> forall d :: !Member(group[..i], d) ==> Untouched(old(fs), fs, d)
      {
        ghost var before := fs;
        assert !Member(group[..i], group[i].name);
        assert head in fs && group[i].name in fs;
        MergeInto(head, group[i].name, dryRun);
        if !dryRun {
          MergeStep(old(fs), before, fs, group, i);
        }
      }
      assert group[..|group|] == group;
    }

    /** The loop over the first `last` groups. It stops at the first one with overlapping files; the groups in front of it
        are merged, and nothing else has changed. */
    method MergeGroups(groups: seq<seq<Item>>, last: nat, dryRun: bool) returns (overlap: bool, k: nat)
      requires last <= |groups| && Disjoint(groups)
      requires forall g :: 0 <= g < |groups| ==> Present(fs, groups[g])
      modifies this
      ensures k <= last && (overlap <==> k < last)
      ensures forall g :: 0 <= g < k ==> !Overlapping(old(fs), groups[g])
      ensures overlap ==> Overlapping(old(fs), groups[k])
      ensures if dryRun then fs == old(fs) else IsMergedPrefix(old(fs), fs, groups, k)
    {
      k := 0;
      for i := 0 to last
        invariant k == i && forall g :: 0 <= g < i ==> !Overlapping(old(fs), groups[g])
        invariant if dryRun then fs == old(fs) else IsMergedPrefix(old(fs), fs, groups, i)
      {
        ghost var before := fs;
        StillThere(old(fs), fs, groups, i);
        overlap := WillOverride(groups[i]);
        if overlap {
          return;
        }
        MergeGroup(groups[i], dryRun);
        if !dryRun {
          MergeKeepsOthers(old(fs), before, fs, groups, i);
        }
        k := k + 1;
      }
      overlap := false;
    }

    /** `do_merge`. At every exit, the overlap error included, the first `k` groups are merged and nothing else has
        changed; without `includeLatest` the last group is among the rest. */
    method DoMerge(data: seq<string>, stamp: string -> Option<int>, precision: int, dryRun: bool,
                   includeLatest: bool, skipErrors: bool)
      returns (r: Outcome<seq<seq<Item>>>, ghost groups: seq<seq<Item>>, ghost k: nat)
      requires forall d :: d in data <==> d in fs
      requires forall i, j :: 0 <= i < j < |data| ==> data[i] != data[j]
      modifies this
      ensures r.NothingFound? <==> data == []
      ensures r.BadName? <==> !skipErrors && exists i :: 0 <= i < |data| && stamp(data[i]).None?
      ensures r.NothingLeft? ==> data != [] && Readable(data, stamp) == []
      ensures r.BadName? || r.NothingFound? || r.NothingLeft? ==> groups == [] && k == 0
      ensures r.Ok? || r.Overlap? ==>
                && Readable(data, stamp) != [] && Flatten(groups) == Readable(data, stamp)
                && Greedy(groups, precision * 3600 * 1_000_000)
      ensures forall g :: 0 <= g < |groups| ==> groups[g] != [] && Present(old(fs), groups[g])
      ensures k <= |groups| && forall g :: 0 <= g < k ==> !Overlapping(old(fs), groups[g])
      ensures r.Ok? ==> k == |groups| - (if includeLatest then 0 else 1)
      ensures r.Overlap? ==>
                k < |groups| - (if includeLatest then 0 else 1) && r.group == groups[k] && Overlapping(old(fs), groups[k])
      ensures if dryRun then fs == old(fs) else IsMergedPrefix(old(fs), fs, groups, k)
    {
      groups, k := [], 0;
      if data == [] {
        r := NothingFound;
        return;
      }
      r := GroupByTimestamp(data, stamp, precision * 60 * 60, skipErrors);
      if !r.Ok? {
        return;
      }
      var all := r.value;
      ReadableNames(data, stamp);
      FlattenDisjoint(all);
      GroupsPresent(fs, all, data, stamp);
      groups := all;
      var overlap, n := MergeGroups(all, if includeLatest then |all| else |all| - 1, dryRun);
      k := n;
      if overlap {
        r := Overlap(all[n]);
      }
    }
  }

  /** The first `k` groups are merged, and every directory outside them is as it was. */
  ghost predicate IsMergedPrefix(start: map<string, Tree>, now: map<string, Tree>, groups: seq<seq<Item>>, k: nat) {
    && k <= |groups|
    && (forall g :: 0 <= g < k ==> groups[g] != [] && Present(start, groups[g]) && Merged(start, now, groups[g]))
    && forall d :: (forall g :: 0 <= g < k ==> !Member(groups[g], d)) ==> Untouched(start, now, d)
  }

  lemma MergeStep(start: map<string, Tree>, before: map<string, Tree>, now: map<string, Tree>, group: seq<Item>, i: nat)
    requires 0 < i < |group| && Present(start, group) && DistinctNames(group) && !Overlapping(start, group)
    requires Merged(start, before, group[..i]) && group[i].name in before
    requires forall d :: !Member(group[..i], d) ==> Untouched(start, before, d)
    requires now == before[group[0].name := before[group[0].name] + before[group[i].name]] - {group[i].name}
    ensures Merged(start, now, group[..i + 1])
    ensures forall d :: !Member(group[..i + 1], d) ==> Untouched(start, now, d)
  {
    var h := group[..i + 1];
    forall j, p | 0 <= j < |h| && p in start[h[j].name]
      ensures p in now[group[0].name] && now[group[0].name][p] == start[h[j].name][p]
    {
      MergeStepKeeps(start, before, now, group, i, j, p);
    }
    forall p | p in now[group[0].name] ensures exists j :: 0 <= j < |h| && p in start[h[j].name] {
      MergeStepOnly(start, before, now, group, i, p);
      var j :| 0 <= j <= i && p in start[group[j].name];
      assert h[j] == group[j];
    }
    forall j | 0 < j < |h| ensures h[j].name !in now {
      assert j < i ==> h[j] == group[..i][j];
    }
    forall d | !Member(h, d) ensures Untouched(start, now, d) {
      NotMember(group, i, d);
    }
  }

  lemma SourceUntouched(start: map<string, Tree>, before: map<string, Tree>, group: seq<Item>, i: nat)
    requires 0 < i < |group| && Present(start, group) && DistinctNames(group) && group[i].name in before
    requires forall d :: !Member(group[..i], d) ==> Untouched(start, before, d)
    ensures before[group[i].name] == start[group[i].name] && group[0].name != group[i].name
  {
    assert !Member(group[..i], group[i].name);
    assert Untouched(start, before, group[i].name);
  }

  lemma MergeStepKeeps(start: map<string, Tree>, before: map<string, Tree>, now: map<string, Tree>, group: seq<Item>, i: nat, j: nat, p: string)
    requires 0 < i < |group| && Present(start, group) && DistinctNames(group) && !Overlapping(start, group)
    requires Merged(start, before, group[..i]) && group[i].name in before
    requires forall d :: !Member(group[..i], d) ==> Untouched(start, before, d)
    requires now == before[group[0].name := before[group[0].name] + before[group[i].name]] - {group[i].name}
    requires j <= i && p in start[group[j].name]
    ensures var head := group[0].name;
            head in now && p in now[head] && now[head][p] == start[group[j].name][p]
  {
    SourceUntouched(start, before, group, i);
    if j < i {
      assert group[..i][j] == group[j];
      assert p !in start[group[i].name];
    }
  }

  lemma MergeStepOnly(start: map<string, Tree>, before: map<string, Tree>, now: map<string, Tree>, group: seq<Item>, i: nat, p: string)
    requires 0 < i < |group| && Present(start, group) && DistinctNames(group) && !Overlapping(start, group)
    requires Merged(start, before, group[..i]) && group[i].name in before
    requires forall d :: !Member(group[..i], d) ==> Untouched(start, before, d)
    requires now == before[group[0].name := before[group[0].name] + before[group[i].name]] - {group[i].name}
    requires group[0].name in now && p in now[group[0].name]
    ensures exists j :: 0 <= j <= i && p in start[group[j].name]
  {
    SourceUntouched(start, before, group, i);
    var g := group[..i];
    if p in before[group[0].name] {
      var j :| 0 <= j < |g| && p in start[g[j].name];
      assert g[j] == group[j];
    }
  }

  lemma NotMember(group: seq<Item>, i: nat, d: string)
    requires i < |group| && !Member(group[..i + 1], d)
    ensures d != group[0].name && d != group[i].name && !Member(group[..i], d)
  {
    var h := group[..i + 1];
    assert h[0] == group[0] && h[i] == group[i];
    assert forall j :: 0 <= j < i ==> group[..i][j] == h[j];
  }

  lemma ReadableNames(data: seq<string>, stamp: string -> Option<int>)
    requires forall i, j :: 0 <= i < j < |data| ==> data[i] != data[j]
    ensures DistinctNames(Readable(data, stamp))
    ensures forall i :: 0 <= i < |Readable(data, stamp)| ==> Readable(data, stamp)[i].name in data
  {
    var at := ReadableExact(data, stamp);
    var r := Readable(data, stamp);
    assert forall i :: 0 <= i < |r| ==> IsStamped(r[i], data[at[i]], stamp);
  }

  lemma GroupsPresent(fs: map<string, Tree>, groups: seq<seq<Item>>, data: seq<string>, stamp: string -> Option<int>)
    requires forall d :: d in data <==> d in fs
    requires forall i, j :: 0 <= i < j < |data| ==> data[i] != data[j]
    requires Flatten(groups) == Readable(data, stamp)
    ensures forall g :: 0 <= g < |groups| ==> Present(fs, groups[g])
  {
    ReadableNames(data, stamp);
    forall g, i | 0 <= g < |groups| && 0 <= i < |groups[g]| ensures groups[g][i].name in fs {
      HeadAtExact(groups, g, i);
    }
  }

  /** Groups still to be merged are as they were. */
  lemma StillThere(start: map<string, Tree>, now: map<string, Tree>, groups: seq<seq<Item>>, i: nat)
    requires i < |groups| && Disjoint(groups) && Present(start, groups[i])
    requires now == start || IsMergedPrefix(start, now, groups, i)
    ensures Present(now, groups[i]) && DistinctNames(groups[i])
    ensures forall j :: 0 <= j < |groups[i]| ==> start[groups[i][j].name] == now[groups[i][j].name]
    ensures Overlapping(now, groups[i]) <==> Overlapping(start, groups[i])
  {
    forall j | 0 <= j < |groups[i]| ensures Untouched(start, now, groups[i][j].name) {
      assert Member(groups[i], groups[i][j].name);
    }
  }

  lemma MergeKeepsOthers(start: map<string, Tree>, before: map<string, Tree>, now: map<string, Tree>,
                         groups: seq<seq<Item>>, i: nat)
    requires i < |groups| && Disjoint(groups)
    requires forall g :: 0 <= g < |groups| ==> Present(start, groups[g])
    requires IsMergedPrefix(start, before, groups, i)
    requires Present(before, groups[i]) && Merged(before, now, groups[i])
    requires forall d :: !Member(groups[i], d) ==> Untouched(before, now, d)
    ensures IsMergedPrefix(start, now, groups, i + 1)
  {
    StillThere(start, before, groups, i);
    forall g | 0 <= g < i ensures Merged(start, now, groups[g]) {
      forall j | 0 <= j < |groups[g]| ensures Untouched(before, now, groups[g][j].name) {
        assert Member(groups[g], groups[g][j].name);
      }
    }
    assert Merged(start, now, groups[i]);
    forall d | forall g :: 0 <= g < i + 1 ==> !Member(groups[g], d) ensures Untouched(start, now, d) {
      assert !Member(groups[i], d);
      assert Untouched(start, before, d);
    }
  }

  /** Conservation: given what every exit of `DoMerge` guarantees, each file that existed still exists with its
      content, under the head of its group if that group was merged and in its own directory otherwise. */
  lemma NothingLost(start: map<string, Tree>, now: map<string, Tree>, groups: seq<seq<Item>>, k: nat, d: string, p: string)
    returns (home: string)
    requires IsMergedPrefix(start, now, groups, k)
    requires d in start && p in start[d]
    ensures home in now && p in now[home] && now[home][p] == start[d][p]
    ensures home == d || exists g :: 0 <= g < k && Member(groups[g], d) && home == groups[g][0].name
  {
    if g :| 0 <= g < k && Member(groups[g], d) {
      home := groups[g][0].name;
    } else {
      home := d;
      assert Untouched(start, now, d);
    }
  }
}
