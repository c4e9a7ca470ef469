/** Plans of a predefined application: a plan is checked against the pod specification, expanded to cover all its
    containers and persistent volumes, priced, and finally applied to the specification. */
module Plans {
  import opened Wrappers

  /** A container or a persistent disk of a plan; the amount (kubes, or disk size) is None when it is missing or not an
      integer. */
  datatype Item = Item(name: string, amount: Option<int>)

  datatype Container = Container(name: string, kubes: int)

  /** `size` is None for a volume that is not a persistent disk. */
  datatype Volume = Volume(name: string, size: Option<int>)

  // ---------------------------------------------------------------- expansion

  function Default1(i: Item): Item {
    if i.amount.Some? then i else i.(amount := Some(1))
  }

  function Defaulted(items: seq<Item>): seq<Item> {
    if items == [] then [] else Defaulted(items[..|items| - 1]) + [Default1(items[|items| - 1])]
  }

  /** `list.remove`, when the name is in the list. */
  function Remove(names: seq<string>, n: string): seq<string> {
    if names == [] then [] else if names[0] == n then names[1..] else [names[0]] + Remove(names[1..], n)
  }

  /** The names of the specification that no item of the plan has taken. */
  function Remaining(names: seq<string>, items: seq<Item>): seq<string> {
    if items == [] then names else Remove(Remaining(names, items[..|items| - 1]), items[|items| - 1].name)
  }

  function Ones(names: seq<string>): seq<Item> {
    if names == [] then [] else [Item(names[0], Some(1))] + Ones(names[1..])
  }

  /** The expanded list: missing amounts are one, and so are the amounts of names the plan left out. */
  function Equalized(names: seq<string>, items: seq<Item>): seq<Item> {
    Defaulted(items) + Ones(Remaining(names, items))
  }

  lemma {:induction false} RemainingConcat(names: seq<string>, a: seq<Item>, b: seq<Item>)
    ensures Remaining(names, a + b) == Remaining(Remaining(names, a), b)
  {
    if b == [] {
      assert a + b == a;
    } else {
      assert (a + b)[..|a + b| - 1] == a + b[..|b| - 1];
      RemainingConcat(names, a, b[..|b| - 1]);
    }
  }

  lemma {:induction false} RemainingAll(names: seq<string>)
    ensures Remaining(names, Ones(names)) == []
  {
    if names != [] {
      var first, rest := [Item(names[0], Some(1))], Ones(names[1..]);
      RemainingConcat(names, first, rest);
      assert first[..0] == [];
      assert Remaining(names, first) == Remove(names, names[0]) == names[1..];
      RemainingAll(names[1..]);
    }
  }

  lemma {:induction false} DefaultedSame(names: seq<string>, items: seq<Item>)
    ensures Defaulted(Defaulted(items)) == Defaulted(items)
    ensures Remaining(names, Defaulted(items)) == Remaining(names, items)
    ensures |Defaulted(items)| == |items|
    ensures forall i :: 0 <= i < |items| ==> Defaulted(items)[i] == Default1(items[i])
  {
    if items != [] {
      var init := items[..|items| - 1];
      DefaultedSame(names, init);
      var d := Defaulted(items);
      assert d[..|d| - 1] == Defaulted(init);
    }
  }

  lemma {:induction false} DefaultedConcat(a: seq<Item>, b: seq<Item>)
    ensures Defaulted(a + b) == Defaulted(a) + Defaulted(b)
  {
    if b == [] {
      assert a + b == a;
    } else {
      assert (a + b)[..|a + b| - 1] == a + b[..|b| - 1];
      DefaultedConcat(a, b[..|b| - 1]);
    }
  }

  lemma {:induction false} OnesExact(names: seq<string>)
    ensures |Ones(names)| == |names|
    ensures forall i :: 0 <= i < |names| ==> Ones(names)[i] == Item(names[i], Some(1))
    ensures Defaulted(Ones(names)) == Ones(names)
  {
    if names != [] {
      OnesExact(names[1..]);
      var one, more := [Item(names[0], Some(1))], Ones(names[1..]);
      DefaultedConcat(one, more);
      assert Defaulted(one) == one by {
        assert one[..0] == [];
      }
      assert Ones(names) == one + more;
    }
  }

  /** Expansion is idempotent, whatever the plan and the specification. */
  lemma ExpansionIsIdempotent(names: seq<string>, items: seq<Item>)
    ensures Equalized(names, Equalized(names, items)) == Equalized(names, items)
  {
    var d, rest := Defaulted(items), Remaining(names, items);
    DefaultedSame(names, items);
    OnesExact(rest);
    DefaultedConcat(d, Ones(rest));
    RemainingConcat(names, d, Ones(rest));
    RemainingAll(rest);
  }

  // ---------------------------------------------------------------- totals

  /** The total the price is computed from. */
  function Total(items: seq<Item>): int {
    if items == [] then 0
    else Total(items[..|items| - 1]) + if items[|items| - 1].amount.Some? then items[|items| - 1].amount.value else 0
  }

  /** The dictionary built by the update loops: the last amount given for each name. */
  function Amounts(items: seq<Item>): map<string, int> {
    if items == [] then map[]
    else
      var i := items[|items| - 1];
      Amounts(items[..|items| - 1])[i.name := if i.amount.Some? then i.amount.value else 0]
  }

  /** What the targets get. */
  function Applied(names: seq<string>, m: map<string, int>): int {
    if names == [] then 0
    else Applied(names[..|names| - 1], m) + if names[|names| - 1] in m then m[names[|names| - 1]] else 0
  }

  /** The amounts of items that are not among the targets. */
  function Stray(items: seq<Item>, names: seq<string>): int {
    if items == [] then 0
    else
      var i := items[|items| - 1];
      Stray(items[..|items| - 1], names) + if i.name in names || i.amount.None? then 0 else i.amount.value
  }

  ghost predicate Distinct(names: seq<string>) {
    forall i, j :: 0 <= i < j < |names| ==> names[i] != names[j]
  }

  ghost predicate DistinctItems(items: seq<Item>) {
    forall i, j :: 0 <= i < j < |items| ==> items[i].name != items[j].name
  }

  ghost predicate HasName(items: seq<Item>, n: string) {
    exists i :: 0 <= i < |items| && items[i].name == n
  }

  lemma HasNameSnoc(items: seq<Item>, n: string)
    requires items != []
    ensures HasName(items, n) <==> HasName(items[..|items| - 1], n) || items[|items| - 1].name == n
  {
    var init := items[..|items| - 1];
    assert forall i :: 0 <= i < |init| ==> init[i] == items[i];
  }

  lemma {:induction false} AppliedAdds(names: seq<string>, m: map<string, int>, n: string, x: int)
    requires Distinct(names) && n !in m
    ensures Applied(names, m[n := x]) == Applied(names, m) + if n in names then x else 0
  {
    if names != [] {
      var init, last := names[..|names| - 1], names[|names| - 1];
      assert names == init + [last];
      AppliedAdds(init, m, n, x);
    }
  }

  lemma {:induction false} AmountsKeys(items: seq<Item>, n: string)
    ensures n in Amounts(items) <==> HasName(items, n)
  {
    if items != [] {
      AmountsKeys(items[..|items| - 1], n);
      HasNameSnoc(items, n);
    }
  }

  /** Conservation: what the targets get, plus what goes astray, is the total. */
  lemma {:induction false} AppliedIsTotal(names: seq<string>, items: seq<Item>)
    requires Distinct(names) && DistinctItems(items)
    ensures Applied(names, Amounts(items)) + Stray(items, names) == Total(items)
  {
    if items == [] {
      AppliedToNothing(names);
    } else {
      var init, last := items[..|items| - 1], items[|items| - 1];
      AppliedIsTotal(names, init);
      AmountsKeys(init, last.name);
      AppliedAdds(names, Amounts(init), last.name, if last.amount.Some? then last.amount.value else 0);
    }
  }

  lemma {:induction false} AppliedToNothing(names: seq<string>)
    ensures Applied(names, map[]) == 0
  {
    if names != [] {
      AppliedToNothing(names[..|names| - 1]);
    }
  }

  // ---------------------------------------------------------------- the expanded plan covers the specification

  lemma {:induction false} RemoveExact(names: seq<string>, n: string)
    requires Distinct(names)
    ensures Distinct(Remove(names, n))
    ensures forall x :: x in Remove(names, n) <==> x in names && x != n
  {
    if names != [] {
      RemoveExact(names[1..], n);
      assert names == [names[0]] + names[1..];
      assert names[0] !in names[1..];
      var r := Remove(names[1..], n);
      assert forall i :: 0 <= i < |r| ==> r[i] in r;
    }
  }

  lemma {:induction false} RemainingExact(names: seq<string>, items: seq<Item>)
    requires Distinct(names)
    ensures Distinct(Remaining(names, items))
    ensures forall x :: x in Remaining(names, items) <==> x in names && !HasName(items, x)
  {
    if items != [] {
      var init, last := items[..|items| - 1], items[|items| - 1];
      RemainingExact(names, init);
      RemoveExact(Remaining(names, init), last.name);
      forall x ensures HasName(items, x) <==> HasName(init, x) || last.name == x {
        HasNameSnoc(items, x);
      }
    }
  }

  /** The expanded list is the plan's items, then one item for each name that was left. */
  lemma EqualizedShape(names: seq<string>, items: seq<Item>)
    ensures var e, rest, k := Equalized(names, items), Remaining(names, items), |items|;
            && |e| == k + |rest|
            && (forall i :: 0 <= i < k ==> IsCompleted(items[i], e[i]))
            && (forall i :: 0 <= i < |rest| ==> e[k + i] == Item(rest[i], Some(1)))
  {
    DefaultedSame(names, items);
    OnesExact(Remaining(names, items));
    forall x: Item ensures IsCompleted(x, Default1(x)) {
    }
  }

  /** The same name, with the amount that was given, or one. */
  predicate IsCompleted(given: Item, expanded: Item) {
    && expanded.name == given.name && expanded.amount.Some?
    && expanded.amount.value == if given.amount.Some? then given.amount.value else 1
  }

  /** It has distinct names. */
  lemma EqualizedDistinct(names: seq<string>, items: seq<Item>)
    requires Distinct(names) && DistinctItems(items)
    ensures DistinctItems(Equalized(names, items))
  {
    var e, rest, k := Equalized(names, items), Remaining(names, items), |items|;
    EqualizedShape(names, items);
    RemainingExact(names, items);
    forall i, j | 0 <= i < j < |e| ensures e[i].name != e[j].name {
      if i < k <= j {
        assert e[j].name == rest[j - k] && rest[j - k] in rest;
        assert HasName(items, e[i].name) by {
          assert items[i].name == e[i].name;
        }
      } else if k <= i {
        assert e[i].name == e[k + (i - k)].name == rest[i - k] && e[j].name == e[k + (j - k)].name == rest[j - k];
      }
    }
  }

  /** It has every name of the specification. */
  lemma EqualizedCovers(names: seq<string>, items: seq<Item>, n: string)
    requires Distinct(names) && n in names
    ensures n in Amounts(Equalized(names, items))
  {
    AmountsKeys(Equalized(names, items), n);
    EqualizedHas(names, items, n);
  }

  lemma EqualizedHas(names: seq<string>, items: seq<Item>, n: string)
    requires Distinct(names) && n in names
    ensures HasName(Equalized(names, items), n)
  {
    var e, rest, k := Equalized(names, items), Remaining(names, items), |items|;
    EqualizedShape(names, items);
    RemainingExact(names, items);
    if n in rest {
      var i :| 0 <= i < |rest| && rest[i] == n;
      assert e[k + i].name == n;
    } else {
      var i :| 0 <= i < |items| && items[i].name == n;
      assert e[i].name == n;
    }
  }

  // ---------------------------------------------------------------- the code

  /** `_check_names`: every plan item names an item of the specification, and none twice. */
  method CheckNames(names: seq<string>, items: seq<Item>) returns (ok: bool)
    ensures ok <==> DistinctItems(items) && forall i :: 0 <= i < |items| ==> items[i].name in names
  {
    var used: set<string> := {};
    for i := 0 to |items|
      invariant forall n :: n in used <==> exists j :: 0 <= j < i && items[j].name == n
      invariant forall j, k :: 0 <= j < k < i ==> items[j].name != items[k].name
      invariant forall j :: 0 <= j < i ==> items[j].name in names
    {
      var name := items[i].name;
      if name !in names {
        return false;
      }
      if name in used {
        return false;
      }
      used := used + {name};
    }
    ok := true;
  }

  /** The loop shared by `_equalize_containers` and `_fill_persistent_disks`. */
  method Equalize(specNames: seq<string>, items: seq<Item>) returns (r: seq<Item>)
    ensures r == Equalized(specNames, items)
  {
    var names := specNames;
    r := [];
    for i := 0 to |items|
      invariant r == Defaulted(items[..i]) && names == Remaining(specNames, items[..i])
    {
      assert items[..i + 1][..i] == items[..i];
      r := r + [Default1(items[i])];
      if items[i].name in names {
        names := Remove(names, items[i].name);
      } else {
        RemoveAbsent(names, items[i].name);
      }
    }
    assert items[..|items|] == items;
    r := r + Ones(names);
  }

  lemma {:induction false} RemoveAbsent(names: seq<string>, n: string)
    requires n !in names
    ensures Remove(names, n) == names
  {
    if names != [] {
      assert names == [names[0]] + names[1..];
      RemoveAbsent(names[1..], n);
    }
  }

  function ContainerNames(cs: seq<Container>): seq<string> {
    seq(|cs|, i requires 0 <= i < |cs| => cs[i].name)
  }

  function VolumeNames(vs: seq<Volume>): seq<string> {
    seq(|vs|, i requires 0 <= i < |vs| => vs[i].name)
  }

  /** Names of the persistent volumes. */
  function DiskNames(vs: seq<Volume>): seq<string> {
    if vs == [] then []
    else DiskNames(vs[..|vs| - 1]) + if vs[|vs| - 1].size.Some? then [vs[|vs| - 1].name] else []
  }

  function KubesInSpec(cs: seq<Container>): int {
    if cs == [] then 0 else KubesInSpec(cs[..|cs| - 1]) + cs[|cs| - 1].kubes
  }

  function DiskInSpec(vs: seq<Volume>): int {
    if vs == [] then 0
    else DiskInSpec(vs[..|vs| - 1]) + if vs[|vs| - 1].size.Some? then vs[|vs| - 1].size.value else 0
  }

  /** The lists of names are the names, in order. */
  lemma NamesExact(cs: seq<Container>, vs: seq<Volume>, n: string)
    ensures |ContainerNames(cs)| == |cs| && forall i :: 0 <= i < |cs| ==> ContainerNames(cs)[i] == cs[i].name
    ensures n in VolumeNames(vs) <==> exists i :: 0 <= i < |vs| && vs[i].name == n
    ensures n in DiskNames(vs) <==> exists i :: 0 <= i < |vs| && vs[i].name == n && vs[i].size.Some?
  {
    assert forall i :: 0 <= i < |vs| ==> VolumeNames(vs)[i] == vs[i].name;
    DiskNamesExact(vs, n);
  }

  lemma {:induction false} DiskNamesExact(vs: seq<Volume>, n: string)
    ensures n in DiskNames(vs) <==> exists i :: 0 <= i < |vs| && vs[i].name == n && vs[i].size.Some?
  {
    if vs != [] {
      var init, last := vs[..|vs| - 1], vs[|vs| - 1];
      DiskNamesExact(init, n);
      assert forall i :: 0 <= i < |init| ==> init[i] == vs[i];
    }
  }

  /** The pod specification of the template. */
  class Spec {
    var containers: seq<Container>
    var volumes: seq<Volume>

    constructor (containers: seq<Container>, volumes: seq<Volume>)
      ensures this.containers == containers && this.volumes == volumes
    {
      this.containers, this.volumes := containers, volumes;
    }

    /** `_update_kubes`: containers the plan names get its amount, the others keep theirs. */
    method UpdateKubes(items: seq<Item>)
      requires Expanded(items)
      modifies this`containers
      ensures KubesUpdated(old(containers), containers, Amounts(items))
    {
      var byName := Amounts(items);
      var out: seq<Container> := [];
      for i := 0 to |containers|
        invariant containers == old(containers) && KubesUpdated(containers[..i], out, byName)
      {
        var c := containers[i];
        out := out + [if c.name in byName then c.(kubes := byName[c.name]) else c];
      }
      assert containers[..|containers|] == containers;
      containers := out;
    }

    /** `_update_volumes`: only persistent volumes are touched, and a name the plan lacks gets one. */
    method UpdateVolumes(items: seq<Item>)
      requires Expanded(items)
      modifies this`volumes
      ensures VolumesUpdated(old(volumes), volumes, Amounts(items))
    {
      var byName := Amounts(items);
      var out: seq<Volume> := [];
      for i := 0 to |volumes|
        invariant volumes == old(volumes) && VolumesUpdated(volumes[..i], out, byName)
      {
        var v := volumes[i];
        out := out + [if v.size.Some? then v.(size := Some(if v.name in byName then byName[v.name] else 1)) else v];
      }
      assert volumes[..|volumes|] == volumes;
      volumes := out;
    }
  }

  /** Expansion leaves an amount on every item. */
  ghost predicate Expanded(items: seq<Item>) {
    forall i :: 0 <= i < |items| ==> items[i].amount.Some?
  }

  ghost predicate KubesUpdated(before: seq<Container>, after: seq<Container>, m: map<string, int>) {
    && |after| == |before|
    && forall i :: 0 <= i < |before| ==>
         after[i] == if before[i].name in m then before[i].(kubes := m[before[i].name]) else before[i]
  }

  ghost predicate VolumesUpdated(before: seq<Volume>, after: seq<Volume>, m: map<string, int>) {
    && |after| == |before|
    && forall i :: 0 <= i < |before| ==>
         after[i] == if before[i].size.None? then before[i]
                     else before[i].(size := Some(if before[i].name in m then m[before[i].name] else 1))
  }

  lemma {:induction false} KubesApplied(before: seq<Container>, after: seq<Container>, m: map<string, int>)
    requires KubesUpdated(before, after, m) && forall n :: n in ContainerNames(before) ==> n in m
    ensures KubesInSpec(after) == Applied(ContainerNames(before), m)
  {
    if before != [] {
      var init := before[..|before| - 1];
      assert ContainerNames(before)[..|before| - 1] == ContainerNames(init);
      assert ContainerNames(before)[|before| - 1] in ContainerNames(before);
      KubesApplied(init, after[..|after| - 1], m);
    }
  }

  lemma {:induction false} DisksApplied(before: seq<Volume>, after: seq<Volume>, m: map<string, int>)
    requires VolumesUpdated(before, after, m) && forall n :: n in DiskNames(before) ==> n in m
    ensures DiskInSpec(after) == Applied(DiskNames(before), m)
  {
    if before != [] {
      var init, last := before[..|before| - 1], before[|before| - 1];
      DisksApplied(init, after[..|after| - 1], m);
      if last.size.Some? {
        assert DiskNames(before)[..|DiskNames(init)|] == DiskNames(init);
        assert last.name in DiskNames(before);
      } else {
        assert DiskNames(init) + [] == DiskNames(init);
      }
    }
  }

  /** Kubes: when the plan's containers are checked against a specification with distinct containers, the total that is
      priced is the total that the specification holds once the plan is applied. */
  method ExpandAndApplyKubes(spec: Spec, items: seq<Item>) returns (ok: bool, totalKubes: int)
    requires Distinct(ContainerNames(spec.containers))
    modifies spec`containers
    ensures ok <==> DistinctItems(items) && forall i :: 0 <= i < |items| ==> items[i].name in ContainerNames(old(spec.containers))
    ensures ok ==> totalKubes == KubesInSpec(spec.containers)
    ensures !ok ==> spec.containers == old(spec.containers)
  {
    totalKubes := 0;
    var names := ContainerNames(spec.containers);
    ok := CheckNames(names, items);
    if ok {
      var expanded := Equalize(names, items);
      totalKubes := Total(expanded);
      AppliedTotals(names, items);
      spec.UpdateKubes(expanded);
      KubesApplied(old(spec.containers), spec.containers, Amounts(expanded));
    }
  }

  /** Disks: the names are checked against all volumes, but only persistent ones take a size. The priced total exceeds
      what the specification holds by exactly the sizes given to volumes that are not persistent. */
  method ExpandAndApplyDisks(spec: Spec, items: seq<Item>) returns (ok: bool, totalPd: int)
    requires Distinct(DiskNames(spec.volumes))
    modifies spec`volumes
    ensures ok <==> DistinctItems(items) && forall i :: 0 <= i < |items| ==> items[i].name in VolumeNames(old(spec.volumes))
    ensures ok ==> totalPd == DiskInSpec(spec.volumes)
                              + Stray(Equalized(DiskNames(old(spec.volumes)), items), DiskNames(old(spec.volumes)))
    ensures ok && (forall i :: 0 <= i < |items| ==> items[i].name in DiskNames(old(spec.volumes))) ==>
              totalPd == DiskInSpec(spec.volumes)
    ensures !ok ==> spec.volumes == old(spec.volumes)
  {
    totalPd := 0;
    ok := CheckNames(VolumeNames(spec.volumes), items);
    if ok {
      var names := DiskNames(spec.volumes);
      var expanded := Equalize(names, items);
      totalPd := Total(expanded);
      AppliedTotals(names, items);
      spec.UpdateVolumes(expanded);
      DisksApplied(old(spec.volumes), spec.volumes, Amounts(expanded));
    }
  }

  lemma {:induction false} StrayFree(items: seq<Item>, names: seq<string>)
    requires forall i :: 0 <= i < |items| ==> items[i].name in names
    ensures Stray(items, names) == 0
  {
    if items != [] {
      StrayFree(items[..|items| - 1], names);
    }
  }

  /** It has an amount everywhere. */
  lemma EqualizedExpanded(names: seq<string>, items: seq<Item>)
    ensures Expanded(Equalized(names, items))
  {
    var e, rest, k := Equalized(names, items), Remaining(names, items), |items|;
    EqualizedShape(names, items);
    forall i | 0 <= i < |e| ensures e[i].amount.Some? {
      if i < k {
        assert e[i].name == items[i].name;
      } else {
        var j := i - k;
        assert e[k + j] == Item(rest[j], Some(1));
      }
    }
  }

  /** The total of an expanded plan is what its targets get, plus what goes to names that are no targets, which is
      nothing when every plan item names a target. */
  lemma AppliedTotals(names: seq<string>, items: seq<Item>)
    requires Distinct(names) && DistinctItems(items)
    ensures var e := Equalized(names, items);
            && Expanded(e)
            && (forall n :: n in names ==> n in Amounts(e))
            && Total(e) == Applied(names, Amounts(e)) + Stray(e, names)
            && ((forall i :: 0 <= i < |items| ==> items[i].name in names) ==> Stray(e, names) == 0)
  {
    var e, rest := Equalized(names, items), Remaining(names, items);
    forall n | n in names ensures n in Amounts(e) {
      EqualizedCovers(names, items, n);
    }
    EqualizedDistinct(names, items);
    AppliedIsTotal(names, e);
    EqualizedShape(names, items);
    RemainingExact(names, items);
    EqualizedExpanded(names, items);
    if forall i :: 0 <= i < |items| ==> items[i].name in names {
      forall i | 0 <= i < |e| ensures e[i].name in names {
        assert i >= |items| ==> e[i] == e[|items| + (i - |items|)] && rest[i - |items|] in rest;
      }
      StrayFree(e, names);
    }
  }

  /** A plan that sizes a volume which is not persistent is overpriced: the check accepts it, and the disk total is the
      size of nothing. */
  lemma NonPersistentDiskIsPriced(size: int)
    ensures var vs := [Volume("data", None)];
            var items := [Item("data", Some(size))];
            && items[0].name in VolumeNames(vs)
            && Total(Equalized(DiskNames(vs), items)) == size
            && DiskInSpec(vs) == 0
  {
    var vs := [Volume("data", None)];
    var items := [Item("data", Some(size))];
    assert vs[..0] == [] && items[..0] == [];
    assert VolumeNames(vs)[0] == "data";
    assert DiskNames(vs) == [];
    assert Remaining([], items) == Remove(Remaining([], items[..0]), "data") == [];
    assert Defaulted(items) == Defaulted(items[..0]) + [Default1(items[0])] == items;
    assert Equalized([], items) == items + Ones([]) == items;
    assert Total(items) == Total(items[..0]) + size;
  }
}
