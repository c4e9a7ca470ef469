/** Quota projects: the allocation of project ids and the clean-up of the two files that record them,
    `/etc/projects` (id and path) and `/etc/projid` (name and id). */
module FsLimit {
  import opened Wrappers
  import opened ProjectLines

  /** The two files as the script reads them. */
  datatype Files = Files(projects: seq<ProjectLine>, projid: seq<ProjidLine>)

  /** The two files as they are written. */
  datatype Texts = Texts(projects: seq<string>, projid: seq<string>)

  function ReadProjects(lines: seq<string>): seq<ProjectLine> {
    seq(|lines|, i requires 0 <= i < |lines| => ReadProject(lines[i]))
  }

  function ReadProjids(lines: seq<string>): seq<ProjidLine> {
    seq(|lines|, i requires 0 <= i < |lines| => ReadProjid(lines[i]))
  }

  function Read(f: Texts): Files {
    Files(ReadProjects(f.projects), ReadProjids(f.projid))
  }

  /** `containers` names a project after the last component of its path, `storage` after the whole path. */
  datatype Target = Target(parent: string, abspath: bool)

  function BaseName(path: string): string {
    if path == [] || path[|path| - 1] == '/' then [] else BaseName(path[..|path| - 1]) + [path[|path| - 1]]
  }

  function NameOf(t: Target, path: string): string {
    if t.abspath then path else BaseName(path)
  }

  /** The path recorded for a name given on the command line. */
  function PathOf(t: Target, name: string): string {
    if name != [] && name[0] == '/' then name else t.parent + "/" + name
  }

  /** The line belongs to the target and its directory is not listed. */
  predicate Dropped(l: ProjectLine, t: Target, dirs: set<string>) {
    l.Project? && t.parent <= l.path && NameOf(t, l.path) !in dirs
  }

  // ---------------------------------------------------------------- the run as a function

  function KeptProjects(ps: seq<ProjectLine>, t: Target, dirs: set<string>): seq<ProjectLine> {
    if ps == [] then []
    else KeptProjects(ps[..|ps| - 1], t, dirs) + if Dropped(ps[|ps| - 1], t, dirs) then [] else [ps[|ps| - 1]]
  }

  function Deleted(ps: seq<ProjectLine>, t: Target, dirs: set<string>): set<nat> {
    if ps == [] then {}
    else Deleted(ps[..|ps| - 1], t, dirs) + if Dropped(ps[|ps| - 1], t, dirs) then {ps[|ps| - 1].id} else {}
  }

  /** Names of the kept projects of the target. */
  function Known(ps: seq<ProjectLine>, t: Target, dirs: set<string>): set<string> {
    if ps == [] then {}
    else
      var l := ps[|ps| - 1];
      Known(ps[..|ps| - 1], t, dirs) +
      if l.Project? && t.parent <= l.path && NameOf(t, l.path) in dirs then {NameOf(t, l.path)} else {}
  }

  predicate InDeleted(q: ProjidLine, deleted: set<nat>) {
    q.Projid? && q.id in deleted
  }

  function KeptProjid(qs: seq<ProjidLine>, deleted: set<nat>): seq<ProjidLine> {
    if qs == [] then []
    else KeptProjid(qs[..|qs| - 1], deleted) + if InDeleted(qs[|qs| - 1], deleted) then [] else [qs[|qs| - 1]]
  }

  function Max(a: nat, b: nat): nat {
    if a < b then b else a
  }

  function MaxProject(ps: seq<ProjectLine>): nat {
    if ps == [] then 0
    else Max(MaxProject(ps[..|ps| - 1]), if ps[|ps| - 1].Project? then ps[|ps| - 1].id else 0)
  }

  function MaxProjid(qs: seq<ProjidLine>): nat {
    if qs == [] then 0
    else Max(MaxProjid(qs[..|qs| - 1]), if qs[|qs| - 1].Projid? then qs[|qs| - 1].id else 0)
  }

  /** The files after the clean-up, before new projects are added. */
  function Cleaned(f: Files, t: Target, dirs: set<string>): Files {
    Files(KeptProjects(f.projects, t, dirs), KeptProjid(f.projid, Deleted(f.projects, t, dirs)))
  }

  function MaxId(f: Files): nat {
    Max(MaxProject(f.projects), MaxProjid(f.projid))
  }

  /** New projects, numbered from `maxId + 1` on. */
  function Added(f: Files, t: Target, names: seq<string>, known: set<string>, maxId: nat): Files
    decreases names
  {
    if names == [] then f
    else if names[0] in known then Added(f, t, names[1..], known, maxId)
    else
      Added(With(f, t, names[0], maxId + 1), t, names[1..], known, maxId + 1)
  }

  /** One more project. The line of an empty name is not read back as a name line. */
  function With(f: Files, t: Target, n: string, id: nat): Files {
    Files(f.projects + [Project(id, PathOf(t, n))], f.projid + [NameLine(n, id)])
  }

  function NameLine(n: string, id: nat): ProjidLine {
    if n == [] then OtherProjid(WriteProjid(n, id)) else Projid(n, id)
  }

  /** One run; `files` is None when one of the two files is missing. */
  function Run(files: Option<Files>, t: Target, dirs: set<string>, names: seq<string>): Files {
    if files.None? then Added(Files([], []), t, names, {}, 0)
    else
      var f := Cleaned(files.value, t, dirs);
      Added(f, t, names, Known(files.value.projects, t, dirs), MaxId(f))
  }

  /** A missing file counts as two empty ones, so what is shown below about runs from consistent files covers it. */
  lemma MissingFilesAreEmpty(t: Target, dirs: set<string>, names: seq<string>)
    ensures Run(None, t, dirs, names) == Run(Some(Files([], [])), t, dirs, names)
    ensures Consistent(Files([], []))
  {
    assert Cleaned(Files([], []), t, dirs) == Files([], []);
  }

  // ---------------------------------------------------------------- the run as the script does it

  lemma ReadSnoc(ps: seq<string>, p: string, qs: seq<string>, q: string)
    ensures ReadProjects(ps + [p]) == ReadProjects(ps) + [ReadProject(p)]
    ensures ReadProjids(qs + [q]) == ReadProjids(qs) + [ReadProjid(q)]
  {
  }

  lemma ProjectStep(ps: seq<ProjectLine>, i: nat, t: Target, dirs: set<string>)
    requires i < |ps|
    ensures KeptProjects(ps[..i + 1], t, dirs) == KeptProjects(ps[..i], t, dirs) + if Dropped(ps[i], t, dirs) then [] else [ps[i]]
    ensures Deleted(ps[..i + 1], t, dirs) == Deleted(ps[..i], t, dirs) + if Dropped(ps[i], t, dirs) then {ps[i].id} else {}
    ensures Known(ps[..i + 1], t, dirs) ==
            Known(ps[..i], t, dirs)
            + if ps[i].Project? && t.parent <= ps[i].path && NameOf(t, ps[i].path) in dirs then {NameOf(t, ps[i].path)} else {}
  {
    assert ps[..i + 1][..i] == ps[..i];
  }

  lemma ProjidStep(qs: seq<ProjidLine>, i: nat, deleted: set<nat>)
    requires i < |qs|
    ensures KeptProjid(qs[..i + 1], deleted) == KeptProjid(qs[..i], deleted) + if InDeleted(qs[i], deleted) then [] else [qs[i]]
  {
    assert qs[..i + 1][..i] == qs[..i];
  }

  lemma MaxSnoc(ps: seq<ProjectLine>, l: ProjectLine, qs: seq<ProjidLine>, q: ProjidLine)
    ensures MaxProject(ps + [l]) == Max(MaxProject(ps), if l.Project? then l.id else 0)
    ensures MaxProjid(qs + [q]) == Max(MaxProjid(qs), if q.Projid? then q.id else 0)
  {
    assert (ps + [l])[..|ps|] == ps && (qs + [q])[..|qs|] == qs;
  }

  /** The loop over `/etc/projects`. */
  method ScanProjects(ps: seq<string>, t: Target, dirs: set<string>)
    returns (lines: seq<string>, delete: set<nat>, projects: set<string>, maxId: nat)
    ensures ReadProjects(lines) == KeptProjects(ReadProjects(ps), t, dirs) && delete == Deleted(ReadProjects(ps), t, dirs)
    ensures projects == Known(ReadProjects(ps), t, dirs) && maxId == MaxProject(ReadProjects(lines))
  {
    lines, delete, projects, maxId := [], {}, {}, 0;
    ghost var all, kept: seq<ProjectLine> := ReadProjects(ps), [];
    for i := 0 to |ps|
      invariant delete == Deleted(all[..i], t, dirs) && projects == Known(all[..i], t, dirs)
      invariant kept == KeptProjects(all[..i], t, dirs) && maxId == MaxProject(kept)
      invariant ReadProjects(lines) == kept
    {
      var l := ReadProject(ps[i]);
      ProjectStep(all, i, t, dirs);
      MaxSnoc(kept, l, [], ReadProjid(""));
      if Dropped(l, t, dirs) {
        delete := delete + {l.id};
        continue;
      }
      if l.Project? {
        if t.parent <= l.path {
          projects := projects + {NameOf(t, l.path)};
        }
        maxId := Max(maxId, l.id);
      }
      ReadSnoc(lines, ps[i], [], "");
      lines, kept := lines + [ps[i]], kept + [l];
    }
    assert all[..|ps|] == all;
  }

  /** The loop over `/etc/projid`. */
  method ScanProjid(qs: seq<string>, delete: set<nat>, start: nat) returns (lines: seq<string>, maxId: nat)
    ensures ReadProjids(lines) == KeptProjid(ReadProjids(qs), delete)
    ensures maxId == Max(start, MaxProjid(ReadProjids(lines)))
  {
    lines, maxId := [], start;
    ghost var all, kept: seq<ProjidLine> := ReadProjids(qs), [];
    for i := 0 to |qs|
      invariant kept == KeptProjid(all[..i], delete) && maxId == Max(start, MaxProjid(kept))
      invariant ReadProjids(lines) == kept
    {
      var q := ReadProjid(qs[i]);
      ProjidStep(all, i, delete);
      MaxSnoc([], ReadProject(""), kept, q);
      if InDeleted(q, delete) {
        continue;
      }
      if q.Projid? {
        maxId := Max(maxId, q.id);
      }
      ReadSnoc([], "", lines, qs[i]);
      lines, kept := lines + [qs[i]], kept + [q];
    }
    assert all[..|qs|] == all;
  }

  lemma WrittenIsRead(f: Texts, t: Target, n: string, id: nat)
    ensures Read(Texts(f.projects + [WriteProject(id, PathOf(t, n))], f.projid + [WriteProjid(n, id)]))
            == With(Read(f), t, n, id)
  {
    ProjectReadsBack(id, PathOf(t, n));
    ProjidReadsBack(n, id);
    ReadSnoc(f.projects, WriteProject(id, PathOf(t, n)), f.projid, WriteProjid(n, id));
  }

  function ReadIfThere(files: Option<Texts>): Option<Files> {
    if files.Some? then Some(Read(files.value)) else None
  }

  /** The whole run, on the text of the files. */
  method FsLimit(files: Option<Texts>, t: Target, dirs: set<string>, names: seq<string>) returns (r: Texts)
    ensures Read(r) == Run(ReadIfThere(files), t, dirs, names)
  {
    var maxId, projects: set<string> := 0, {};
    r := Texts([], []);
    assert Read(r) == Files([], []);
    if files.Some? {
      var projectsLines, delete, known, highest := ScanProjects(files.value.projects, t, dirs);
      var projidLines, highestOfBoth := ScanProjid(files.value.projid, delete, highest);
      r, projects, maxId := Texts(projectsLines, projidLines), known, highestOfBoth;
      assert Read(r) == Cleaned(Read(files.value), t, dirs);
    }
    assert names[0..] == names;
    for i := 0 to |names|
      invariant Added(Read(r), t, names[i..], projects, maxId) == Run(ReadIfThere(files), t, dirs, names)
    {
      assert names[i..][1..] == names[i + 1..];
      if names[i] !in projects {
        maxId := maxId + 1;
        WrittenIsRead(r, t, names[i], maxId);
        r := Texts(r.projects + [WriteProject(maxId, PathOf(t, names[i]))], r.projid + [WriteProjid(names[i], maxId)]);
      }
    }
  }

  // ---------------------------------------------------------------- consistency

  function ProjectIds(ps: seq<ProjectLine>): set<nat> {
    set i | 0 <= i < |ps| && ps[i].Project? :: ps[i].id
  }

  function ProjidIds(qs: seq<ProjidLine>): set<nat> {
    set i | 0 <= i < |qs| && qs[i].Projid? :: qs[i].id
  }

  ghost predicate DistinctProjects(ps: seq<ProjectLine>) {
    forall i, j :: 0 <= i < j < |ps| && ps[i].Project? && ps[j].Project? ==> ps[i].id != ps[j].id
  }

  ghost predicate DistinctProjid(qs: seq<ProjidLine>) {
    forall i, j :: 0 <= i < j < |qs| && qs[i].Projid? && qs[j].Projid? ==> qs[i].id != qs[j].id
  }

  ghost predicate DistinctPaths(ps: seq<ProjectLine>) {
    forall i, j :: 0 <= i < j < |ps| && ps[i].Project? && ps[j].Project? ==> ps[i].path != ps[j].path
  }

  /** Ids are pairwise distinct in each file, and every id with a name has a path. */
  ghost predicate Sound(f: Files) {
    DistinctProjects(f.projects) && DistinctProjid(f.projid) && ProjidIds(f.projid) <= ProjectIds(f.projects)
  }

  /** Moreover the two files have the same ids. */
  ghost predicate Consistent(f: Files) {
    Sound(f) && ProjectIds(f.projects) == ProjidIds(f.projid)
  }

  lemma ProjectSnoc(ps: seq<ProjectLine>, l: ProjectLine)
    ensures ProjectIds(ps + [l]) == ProjectIds(ps) + if l.Project? then {l.id} else {}
    ensures DistinctProjects(ps) && (l.Project? ==> l.id !in ProjectIds(ps)) <==> DistinctProjects(ps + [l])
  {
    var qs := ps + [l];
    assert forall i :: 0 <= i < |ps| ==> qs[i] == ps[i];
    assert qs[|ps|] == l;
    assert l.Project? ==> l.id in ProjectIds(qs);
    forall x | x in ProjectIds(ps) ensures x in ProjectIds(qs) {
      var i :| 0 <= i < |ps| && ps[i].Project? && ps[i].id == x;
      assert qs[i].Project? && qs[i].id == x;
    }
    forall i | 0 <= i < |ps| && ps[i].Project? ensures ps[i].id in ProjectIds(ps) {
    }
  }

  lemma ProjidSnoc(qs: seq<ProjidLine>, l: ProjidLine)
    ensures ProjidIds(qs + [l]) == ProjidIds(qs) + if l.Projid? then {l.id} else {}
    ensures DistinctProjid(qs) && (l.Projid? ==> l.id !in ProjidIds(qs)) <==> DistinctProjid(qs + [l])
  {
    var rs := qs + [l];
    assert forall i :: 0 <= i < |qs| ==> rs[i] == qs[i];
    assert rs[|qs|] == l;
    assert l.Projid? ==> l.id in ProjidIds(rs);
    forall x | x in ProjidIds(qs) ensures x in ProjidIds(rs) {
      var i :| 0 <= i < |qs| && qs[i].Projid? && qs[i].id == x;
      assert rs[i].Projid? && rs[i].id == x;
    }
    forall i | 0 <= i < |qs| && qs[i].Projid? ensures qs[i].id in ProjidIds(qs) {
    }
  }

  lemma {:induction false} KeptProjectsIds(ps: seq<ProjectLine>, t: Target, dirs: set<string>)
    requires DistinctProjects(ps)
    ensures DistinctProjects(KeptProjects(ps, t, dirs))
    ensures ProjectIds(KeptProjects(ps, t, dirs)) == ProjectIds(ps) - Deleted(ps, t, dirs)
    ensures Deleted(ps, t, dirs) <= ProjectIds(ps)
  {
    if ps != [] {
      var init, l := ps[..|ps| - 1], ps[|ps| - 1];
      assert ps == init + [l];
      ProjectSnoc(init, l);
      KeptProjectsIds(init, t, dirs);
      ProjectSnoc(KeptProjects(init, t, dirs), l);
      assert KeptProjects(init, t, dirs) + [] == KeptProjects(init, t, dirs);
    }
  }

  lemma {:induction false} KeptProjidIds(qs: seq<ProjidLine>, deleted: set<nat>)
    requires DistinctProjid(qs)
    ensures DistinctProjid(KeptProjid(qs, deleted))
    ensures ProjidIds(KeptProjid(qs, deleted)) == ProjidIds(qs) - deleted
  {
    if qs != [] {
      var init, l := qs[..|qs| - 1], qs[|qs| - 1];
      assert qs == init + [l];
      ProjidSnoc(init, l);
      KeptProjidIds(init, deleted);
      ProjidSnoc(KeptProjid(init, deleted), l);
      assert KeptProjid(init, deleted) + [] == KeptProjid(init, deleted);
    }
  }

  lemma CleanedIsSound(f: Files, t: Target, dirs: set<string>)
    requires Sound(f)
    ensures Sound(Cleaned(f, t, dirs)) && (Consistent(f) ==> Consistent(Cleaned(f, t, dirs)))
  {
    KeptProjectsIds(f.projects, t, dirs);
    KeptProjidIds(f.projid, Deleted(f.projects, t, dirs));
  }

  lemma {:induction false} MaxIdIsMax(f: Files)
    ensures forall x :: x in ProjectIds(f.projects) || x in ProjidIds(f.projid) ==> x <= MaxId(f)
    decreases |f.projects| + |f.projid|
  {
    if f.projects != [] {
      var init, l := f.projects[..|f.projects| - 1], f.projects[|f.projects| - 1];
      assert f.projects == init + [l];
      ProjectSnoc(init, l);
      MaxIdIsMax(Files(init, f.projid));
    } else if f.projid != [] {
      var init, l := f.projid[..|f.projid| - 1], f.projid[|f.projid| - 1];
      assert f.projid == init + [l];
      ProjidSnoc(init, l);
      MaxIdIsMax(Files(f.projects, init));
    }
  }

  /** All ids of the files are at most `maxId`. */
  ghost predicate Below(f: Files, maxId: nat) {
    forall x :: x in ProjectIds(f.projects) || x in ProjidIds(f.projid) ==> x <= maxId
  }

  lemma WithIsSound(f: Files, t: Target, n: string, maxId: nat)
    requires Sound(f) && Below(f, maxId)
    ensures var h := With(f, t, n, maxId + 1);
            Sound(h) && Below(h, maxId + 1) && (Consistent(h) <==> Consistent(f) && n != [])
  {
    var l, q := Project(maxId + 1, PathOf(t, n)), NameLine(n, maxId + 1);
    ProjectSnoc(f.projects, l);
    ProjidSnoc(f.projid, q);
    var p, r := ProjectIds(f.projects), ProjidIds(f.projid);
    assert maxId + 1 !in p && maxId + 1 !in r;
    assert p == (p + {maxId + 1}) - {maxId + 1} && r == (r + {maxId + 1}) - {maxId + 1};
  }

  /** Adding projects keeps the files sound, keeps every old line, and gives the new lines ids above `maxId`; the files
      stay consistent exactly if no new name is empty. */
  lemma {:induction false} AddedKeeps(f: Files, t: Target, names: seq<string>, known: set<string>, maxId: nat)
    requires Sound(f) && Below(f, maxId)
    ensures var g := Added(f, t, names, known, maxId);
            && Sound(g)
            && (Consistent(g) <==> Consistent(f) && ([] in names ==> [] in known))
            && f.projects <= g.projects && f.projid <= g.projid
            && (forall i :: |f.projects| <= i < |g.projects| ==>
                  g.projects[i].Project? && g.projects[i].id > maxId
                  && exists n :: n in names && n !in known && g.projects[i].path == PathOf(t, n))
    decreases names
  {
    if names != [] {
      var n := names[0];
      assert [] in names <==> n == [] || [] in names[1..];
      if n in known {
        AddedKeeps(f, t, names[1..], known, maxId);
      } else {
        var h := With(f, t, n, maxId + 1);
        WithIsSound(f, t, n, maxId);
        AddedKeeps(h, t, names[1..], known, maxId + 1);
        var g := Added(h, t, names[1..], known, maxId + 1);
        assert g.projects[|f.projects|] == h.projects[|f.projects|] == Project(maxId + 1, PathOf(t, n));
      }
    }
  }

  /** Every name that is not known gets a new id, recorded in both files. */
  lemma {:induction false} AddedRecords(f: Files, t: Target, names: seq<string>, known: set<string>, maxId: nat, n: string)
    returns (id: nat)
    requires Sound(f) && Below(f, maxId) && n in names && n !in known
    ensures id > maxId
    ensures Project(id, PathOf(t, n)) in Added(f, t, names, known, maxId).projects
    ensures NameLine(n, id) in Added(f, t, names, known, maxId).projid
    decreases names
  {
    if names[0] in known {
      id := AddedRecords(f, t, names[1..], known, maxId, n);
    } else {
      var h := With(f, t, names[0], maxId + 1);
      WithIsSound(f, t, names[0], maxId);
      if names[0] == n {
        id := maxId + 1;
        AddedKeeps(h, t, names[1..], known, maxId + 1);
        assert Project(id, PathOf(t, n)) in h.projects && NameLine(n, id) in h.projid;
      } else {
        id := AddedRecords(h, t, names[1..], known, maxId + 1, n);
      }
    }
  }

  /** After a run every name on the command line has a project: the one it had, if its directory was known, or a new
      one in both files. */
  lemma EveryNameHasAProject(f: Files, t: Target, dirs: set<string>, names: seq<string>, n: string)
    requires Sound(f) && n in names
    ensures var g := Run(Some(f), t, dirs, names);
            if n in Known(f.projects, t, dirs)
            then exists l :: l in f.projects && l in g.projects && l.Project? && t.parent <= l.path && NameOf(t, l.path) == n
            else exists id: nat :: Project(id, PathOf(t, n)) in g.projects && NameLine(n, id) in g.projid
                              && id > MaxId(Cleaned(f, t, dirs))
  {
    var kept, known := Cleaned(f, t, dirs), Known(f.projects, t, dirs);
    CleanedIsSound(f, t, dirs);
    MaxIdIsMax(kept);
    if n in known {
      var l := KnownLine(f.projects, t, dirs, n);
      RunKeepsSound(f, t, dirs, names);
    } else {
      var id := AddedRecords(kept, t, names, known, MaxId(kept), n);
    }
  }

  lemma {:induction false} KnownLine(ps: seq<ProjectLine>, t: Target, dirs: set<string>, n: string)
    returns (l: ProjectLine)
    requires n in Known(ps, t, dirs)
    ensures l in ps && l in KeptProjects(ps, t, dirs) && l.Project? && t.parent <= l.path && NameOf(t, l.path) == n
  {
    var init, last := ps[..|ps| - 1], ps[|ps| - 1];
    assert ps == init + [last];
    if n in Known(init, t, dirs) {
      l := KnownLine(init, t, dirs, n);
    } else {
      l := last;
    }
  }

  /** One run: ids stay distinct, the lines kept are exactly the clean-up's, and every new id is greater than every kept
      id. */
  lemma RunKeepsSound(f: Files, t: Target, dirs: set<string>, names: seq<string>)
    requires Sound(f)
    ensures var g := Run(Some(f), t, dirs, names);
            var kept := Cleaned(f, t, dirs);
            && Sound(g)
            && kept.projects <= g.projects && kept.projid <= g.projid
            && (forall i, x :: |kept.projects| <= i < |g.projects| && x in ProjectIds(kept.projects) ==>
                  g.projects[i].Project? && g.projects[i].id > x)
  {
    var kept := Cleaned(f, t, dirs);
    CleanedIsSound(f, t, dirs);
    MaxIdIsMax(kept);
    AddedKeeps(kept, t, names, Known(f.projects, t, dirs), MaxId(kept));
  }

  /** From consistent files a run leaves the same ids in both files if and only if it adds no empty name, as the argument
      `=1g` would. */
  lemma RunKeepsConsistentIff(f: Files, t: Target, dirs: set<string>, names: seq<string>)
    requires Consistent(f)
    ensures Consistent(Run(Some(f), t, dirs, names)) <==> ([] in names ==> [] in Known(f.projects, t, dirs))
  {
    var kept := Cleaned(f, t, dirs);
    CleanedIsSound(f, t, dirs);
    MaxIdIsMax(kept);
    AddedKeeps(kept, t, names, Known(f.projects, t, dirs), MaxId(kept));
  }

  // ---------------------------------------------------------------- stability of ids

  /** A name is canonical for a target when the recorded path leads back to it. */
  predicate Canonical(t: Target, name: string) {
    t.parent <= PathOf(t, name) && NameOf(t, PathOf(t, name)) == name
  }

  lemma {:induction false} BaseNameOfJoin(prefix: string, name: string)
    requires '/' !in name
    ensures BaseName(prefix + "/" + name) == name
  {
    var s := prefix + "/" + name;
    if name == [] {
      assert s[|s| - 1] == '/';
    } else {
      var init := name[..|name| - 1];
      assert s[..|s| - 1] == prefix + "/" + init;
      assert s[|s| - 1] == name[|name| - 1] && name[|name| - 1] in name;
      assert '/' !in init;
      BaseNameOfJoin(prefix, init);
      assert init + [name[|name| - 1]] == name;
    }
  }

  /** The parent directories of both targets are absolute. */
  predicate Absolute(t: Target) {
    t.parent != [] && t.parent[0] == '/'
  }

  lemma {:induction false} BaseNameHasNoSlash(path: string)
    ensures '/' !in BaseName(path)
  {
    if path != [] && path[|path| - 1] != '/' {
      BaseNameHasNoSlash(path[..|path| - 1]);
    }
  }

  /** Canonical are exactly the container names without a slash and the storage names that are paths under the
      storage directory. */
  lemma CanonicalExactly(t: Target, name: string)
    requires Absolute(t)
    ensures Canonical(t, name) <==> if t.abspath then t.parent <= name else '/' !in name
  {
    BaseNameHasNoSlash(PathOf(t, name));
    if '/' !in name {
      BaseNameOfJoin(t.parent, name);
    }
    if t.parent <= name {
      assert name[0] == t.parent[0];
    }
  }

  lemma {:induction false} KeptLines(ps: seq<ProjectLine>, t: Target, dirs: set<string>)
    ensures forall l :: l in KeptProjects(ps, t, dirs) <==> l in ps && !Dropped(l, t, dirs)
    ensures DistinctPaths(ps) ==> DistinctPaths(KeptProjects(ps, t, dirs))
    ensures forall l :: l in ps && l.Project? && t.parent <= l.path && NameOf(t, l.path) in dirs ==>
              NameOf(t, l.path) in Known(ps, t, dirs)
  {
    if ps != [] {
      var init, l := ps[..|ps| - 1], ps[|ps| - 1];
      assert ps == init + [l];
      KeptLines(init, t, dirs);
      var kept := KeptProjects(init, t, dirs);
      if DistinctPaths(ps) {
        assert forall i :: 0 <= i < |init| ==> init[i] == ps[i];
        assert forall k :: k in init && k.Project? && l.Project? ==> k.path != l.path;
        assert forall i :: 0 <= i < |kept| ==> kept[i] in kept;
      }
    }
  }

  /** In the second file exactly the name lines of deleted ids go. */
  lemma {:induction false} KeptNameLines(qs: seq<ProjidLine>, deleted: set<nat>)
    ensures forall q :: q in KeptProjid(qs, deleted) <==> q in qs && !(q.Projid? && q.id in deleted)
  {
    if qs != [] {
      var init, last := qs[..|qs| - 1], qs[|qs| - 1];
      assert qs == init + [last];
      KeptNameLines(init, deleted);
    }
  }

  /** The deleted ids are those of the dropped lines. */
  lemma {:induction false} DeletedExactly(ps: seq<ProjectLine>, t: Target, dirs: set<string>, id: nat)
    ensures id in Deleted(ps, t, dirs) <==>
            exists l :: l in ps && l.Project? && l.id == id && t.parent <= l.path && NameOf(t, l.path) !in dirs
  {
    if ps != [] {
      var init, last := ps[..|ps| - 1], ps[|ps| - 1];
      assert ps == init + [last];
      DeletedExactly(init, t, dirs, id);
    }
  }

  /** No recorded path is that of a name still to be added. */
  ghost predicate FreshPaths(ps: seq<ProjectLine>, t: Target, names: seq<string>, known: set<string>) {
    forall i, j :: 0 <= i < |ps| && 0 <= j < |names| && ps[i].Project? && names[j] !in known ==>
                     ps[i].path != PathOf(t, names[j])
  }

  ghost predicate GoodNames(t: Target, names: seq<string>) {
    && (forall i :: 0 <= i < |names| ==> Canonical(t, names[i]))
    && forall i, j :: 0 <= i < j < |names| ==> names[i] != names[j]
  }

  lemma FreshPathsStep(ps: seq<ProjectLine>, t: Target, names: seq<string>, known: set<string>, id: nat)
    requires names != [] && GoodNames(t, names) && DistinctPaths(ps) && FreshPaths(ps, t, names, known)
    requires names[0] !in known
    ensures DistinctPaths(ps + [Project(id, PathOf(t, names[0]))])
    ensures FreshPaths(ps + [Project(id, PathOf(t, names[0]))], t, names[1..], known)
  {
    var n := names[0];
    var qs := ps + [Project(id, PathOf(t, n))];
    forall i, j | 0 <= i < |qs| && 0 <= j < |names[1..]| && qs[i].Project? && names[1..][j] !in known
      ensures qs[i].path != PathOf(t, names[1..][j])
    {
      var m := names[j + 1];
      assert m == names[1..][j] && NameOf(t, PathOf(t, m)) == m && NameOf(t, PathOf(t, n)) == n;
    }
  }

  /** Adding canonical, unknown names never repeats a path. */
  lemma {:induction false} AddedPaths(f: Files, t: Target, names: seq<string>, known: set<string>, maxId: nat)
    requires DistinctPaths(f.projects) && GoodNames(t, names) && FreshPaths(f.projects, t, names, known)
    ensures DistinctPaths(Added(f, t, names, known, maxId).projects)
    decreases names
  {
    if names != [] {
      var n := names[0];
      assert forall j :: 0 <= j < |names[1..]| ==> names[1..][j] == names[j + 1];
      if n in known {
        AddedPaths(f, t, names[1..], known, maxId);
      } else {
        FreshPathsStep(f.projects, t, names, known, maxId + 1);
        AddedPaths(With(f, t, n, maxId + 1), t, names[1..], known, maxId + 1);
      }
    }
  }

  /** One run with canonical names: no path is recorded twice, and a project whose directory is listed (or that belongs
      to the other target) keeps its line. */
  lemma RunKeepsPaths(f: Files, t: Target, dirs: set<string>, names: seq<string>)
    requires Sound(f) && DistinctPaths(f.projects) && GoodNames(t, names)
    ensures var g := Run(Some(f), t, dirs, names);
            && DistinctPaths(g.projects)
            && forall l :: l in f.projects && !Dropped(l, t, dirs) ==> l in g.projects
  {
    var kept, known := Cleaned(f, t, dirs), Known(f.projects, t, dirs);
    KeptLines(f.projects, t, dirs);
    RunKeepsSound(f, t, dirs, names);
    forall i, j | 0 <= i < |kept.projects| && 0 <= j < |names| && kept.projects[i].Project? && names[j] !in known
      ensures kept.projects[i].path != PathOf(t, names[j])
    {
      assert kept.projects[i] in kept.projects && Canonical(t, names[j]);
    }
    AddedPaths(kept, t, names, known, MaxId(kept));
  }

  // ---------------------------------------------------------------- sequences of runs

  datatype Call = Call(target: Target, dirs: set<string>, names: seq<string>)

  function Runs(f: Files, calls: seq<Call>): Files {
    if calls == [] then f
    else
      var c := calls[|calls| - 1];
      Run(Some(Runs(f, calls[..|calls| - 1])), c.target, c.dirs, c.names)
  }

  /** The script called again and again on the files that the call before left. */
  method FsLimits(files: Texts, calls: seq<Call>) returns (r: Texts)
    ensures Read(r) == Runs(Read(files), calls)
  {
    r := files;
    for i := 0 to |calls|
      invariant Read(r) == Runs(Read(files), calls[..i])
    {
      assert calls[..i + 1][..i] == calls[..i];
      r := FsLimit(Some(r), calls[i].target, calls[i].dirs, calls[i].names);
    }
    assert calls[..|calls|] == calls;
  }

  ghost predicate GoodCall(c: Call) {
    GoodNames(c.target, c.names)
  }

  /** Over every sequence of runs: ids stay pairwise distinct; the two files keep the same ids when no name is empty; with
      canonical names no path has two ids, and a project whose directory every run lists keeps its id. */
  lemma {:induction false} RunsKeepIds(f: Files, calls: seq<Call>)
    requires Sound(f)
    ensures Sound(Runs(f, calls))
    ensures Consistent(f) && (forall i :: 0 <= i < |calls| ==> [] !in calls[i].names) ==> Consistent(Runs(f, calls))
    ensures DistinctPaths(f.projects) && (forall i :: 0 <= i < |calls| ==> GoodCall(calls[i])) ==>
              && DistinctPaths(Runs(f, calls).projects)
              && forall l :: l in f.projects
                             && (forall i :: 0 <= i < |calls| ==> !Dropped(l, calls[i].target, calls[i].dirs)) ==>
                             l in Runs(f, calls).projects
  {
    if calls != [] {
      var init, c := calls[..|calls| - 1], calls[|calls| - 1];
      assert forall i :: 0 <= i < |init| ==> init[i] == calls[i];
      RunsKeepIds(f, init);
      RunKeepsSound(Runs(f, init), c.target, c.dirs, c.names);
      if Consistent(f) && forall i :: 0 <= i < |calls| ==> [] !in calls[i].names {
        RunKeepsConsistentIff(Runs(f, init), c.target, c.dirs, c.names);
      }
      if DistinctPaths(f.projects) && forall i :: 0 <= i < |calls| ==> GoodCall(calls[i]) {
        assert GoodCall(c);
        RunKeepsPaths(Runs(f, init), c.target, c.dirs, c.names);
      }
    }
  }

  // ---------------------------------------------------------------- which names keep their id

  /** A name that is known is canonical, whatever the files hold. */
  lemma KnownIsCanonical(ps: seq<ProjectLine>, t: Target, dirs: set<string>, n: string)
    requires Absolute(t) && n in Known(ps, t, dirs)
    ensures Canonical(t, n)
  {
    var l := KnownLine(ps, t, dirs, n);
    BaseNameHasNoSlash(l.path);
    CanonicalExactly(t, n);
  }

  lemma {:induction false} KnownIsListed(ps: seq<ProjectLine>, t: Target, dirs: set<string>)
    ensures Known(ps, t, dirs) <= dirs
  {
    if ps != [] {
      KnownIsListed(ps[..|ps| - 1], t, dirs);
    }
  }

  /** Lines for `n` come from the old file or from an unknown name of the command line. */
  lemma {:induction false} AddedProjid(f: Files, t: Target, names: seq<string>, known: set<string>, maxId: nat,
                                       n: string, id: nat)
    requires Projid(n, id) in Added(f, t, names, known, maxId).projid
    ensures Projid(n, id) in f.projid || (n != [] && n in names && n !in known)
    decreases names
  {
    if names != [] {
      if names[0] in known {
        AddedProjid(f, t, names[1..], known, maxId, n, id);
      } else {
        AddedProjid(With(f, t, names[0], maxId + 1), t, names[1..], known, maxId + 1, n, id);
      }
    }
  }

  /** The run gives `n` an id that no kept project has. */
  ghost predicate GetsNewId(f: Files, t: Target, dirs: set<string>, names: seq<string>, n: string) {
    exists id: nat :: id > MaxId(Cleaned(f, t, dirs)) && Projid(n, id) in Run(Some(f), t, dirs, names).projid
  }

  lemma NewIdExactly(f: Files, t: Target, dirs: set<string>, names: seq<string>, n: string)
    requires Sound(f)
    ensures GetsNewId(f, t, dirs, names, n) <==> n != [] && n in names && n !in Known(f.projects, t, dirs)
  {
    var kept, known := Cleaned(f, t, dirs), Known(f.projects, t, dirs);
    MaxIdIsMax(kept);
    forall q | q in kept.projid && q.Projid? ensures q.id <= MaxId(kept) {
      assert q.id in ProjidIds(kept.projid);
    }
    if n in names && n !in known {
      EveryNameHasAProject(f, t, dirs, names, n);
    }
    if id: nat :| id > MaxId(kept) && Projid(n, id) in Run(Some(f), t, dirs, names).projid {
      AddedProjid(kept, t, names, known, MaxId(kept), n, id);
    }
  }

  /** A name given to one run is known to the next run exactly if it is canonical and listed by then. */
  lemma KnownAgainIff(f: Files, t: Target, dirs: set<string>, names: seq<string>, later: set<string>, n: string)
    requires Sound(f) && Absolute(t) && n in names
    ensures n in Known(Run(Some(f), t, dirs, names).projects, t, later) <==> Canonical(t, n) && n in later
  {
    var g := Run(Some(f), t, dirs, names);
    KnownIsListed(g.projects, t, later);
    if Canonical(t, n) && n in later {
      EveryNameHasAProject(f, t, dirs, names, n);
      KeptLines(g.projects, t, later);
    } else if n in Known(g.projects, t, later) {
      KnownIsCanonical(g.projects, t, later, n);
    }
  }

  /** The condition for stable ids, over two runs: a name given to both gets another id in the second exactly if it is not
      canonical or the second run does not list it. */
  lemma SecondRunMovesIff(f: Files, t: Target, dirs: set<string>, names: seq<string>,
                          later: set<string>, again: seq<string>, n: string)
    requires Sound(f) && Absolute(t) && n in names && n in again
    ensures GetsNewId(Run(Some(f), t, dirs, names), t, later, again, n) <==> n != [] && !(Canonical(t, n) && n in later)
  {
    RunKeepsSound(f, t, dirs, names);
    KnownAgainIff(f, t, dirs, names, later, n);
    NewIdExactly(Run(Some(f), t, dirs, names), t, later, again, n);
  }

  /** A name that is not canonical gets a new id in every run, listed or not; and if the line of its path survives the
      clean-up, the path has two ids from then on. */
  lemma OtherNamesMoveInEveryRun(f: Files, t: Target, dirs: set<string>, names: seq<string>, n: string) returns (id: nat)
    requires Sound(f) && Absolute(t) && n in names && !Canonical(t, n)
    ensures var g := Run(Some(f), t, dirs, names);
            && id > MaxId(Cleaned(f, t, dirs)) && Project(id, PathOf(t, n)) in g.projects && NameLine(n, id) in g.projid
            && forall l :: l in f.projects && l.Project? && l.path == PathOf(t, n) && !Dropped(l, t, dirs) ==>
                 l in g.projects && l.id != id
  {
    var kept, known := Cleaned(f, t, dirs), Known(f.projects, t, dirs);
    if n in known {
      KnownIsCanonical(f.projects, t, dirs, n);
    }
    CleanedIsSound(f, t, dirs);
    MaxIdIsMax(kept);
    id := AddedRecords(kept, t, names, known, MaxId(kept), n);
    RunKeepsSound(f, t, dirs, names);
    KeptLines(f.projects, t, dirs);
    forall l | l in kept.projects && l.Project? ensures l.id <= MaxId(kept) {
      assert l.id in ProjectIds(kept.projects);
    }
  }

  /** Relative storage names, which the usage text offers, are an instance. */
  lemma RelativeStorageNameMoves(f: Files, t: Target, dirs: set<string>, names: seq<string>, n: string) returns (id: nat)
    requires Sound(f) && Absolute(t) && t.abspath && n in names && (n == [] || n[0] != '/')
    ensures var g := Run(Some(f), t, dirs, names);
            id > MaxId(Cleaned(f, t, dirs)) && Project(id, t.parent + "/" + n) in g.projects && NameLine(n, id) in g.projid
  {
    CanonicalExactly(t, n);
    id := OtherNamesMoveInEveryRun(f, t, dirs, names, n);
  }

  /** So are absolute storage names outside the storage directory; their old lines are never cleaned up, so that the
      path gathers ids. */
  lemma StorageElsewhereGathersIds(f: Files, t: Target, dirs: set<string>, names: seq<string>, n: string) returns (id: nat)
    requires Sound(f) && Absolute(t) && t.abspath && n in names && n != [] && n[0] == '/' && !(t.parent <= n)
    ensures var g := Run(Some(f), t, dirs, names);
            && Project(id, n) in g.projects
            && forall i: nat :: Project(i, n) in f.projects ==> Project(i, n) in g.projects && i != id
  {
    CanonicalExactly(t, n);
    id := OtherNamesMoveInEveryRun(f, t, dirs, names, n);
  }

  // ---------------------------------------------------------------- what the two targets list

  const OVERLAY := "/var/lib/docker/overlay"
  const STORAGE := "/var/lib/kuberdock/storage"
  const CONTAINERS_TARGET := Target(OVERLAY, false)
  const STORAGE_TARGET := Target(STORAGE, true)

  /** A path component that the pattern `*` matches. */
  predicate Globbed(x: string) {
    x != [] && x[0] != '.' && '/' !in x
  }

  /** `<storage>/<integer>/<entry>`; `isInt` is what `int` accepts. */
  ghost predicate IsUserStorage(p: string, isInt: string -> bool) {
    exists user, entry :: Globbed(user) && Globbed(entry) && isInt(user) && p == UserStorage(user, entry)
  }

  function UserStorage(user: string, entry: string): string {
    STORAGE + "/" + (user + "/" + entry)
  }

  /** `_storage`, for the paths that exist. */
  ghost predicate IsStorageListing(dirs: set<string>, existing: set<string>, isInt: string -> bool) {
    forall p :: p in dirs <==> p in existing && IsUserStorage(p, isInt)
  }

  predicate EndsWith(s: string, t: string) {
    |t| <= |s| && s[|s| - |t|..] == t
  }

  /** `_containers`, for the paths that exist. */
  ghost predicate IsContainerListing(dirs: set<string>, existing: set<string>) {
    forall n :: n in dirs <==>
      Globbed(n) && OVERLAY + "/" + n + "/upper" in existing && !EndsWith(OVERLAY + "/" + n, "-init")
  }

  /** What a target lists is canonical. */
  lemma ListedIsCanonical(dirs: set<string>, existing: set<string>, isInt: string -> bool, n: string)
    ensures IsStorageListing(dirs, existing, isInt) && n in dirs ==> Canonical(STORAGE_TARGET, n)
    ensures IsContainerListing(dirs, existing) && n in dirs ==> Canonical(CONTAINERS_TARGET, n)
  {
    assert Absolute(STORAGE_TARGET) && Absolute(CONTAINERS_TARGET);
    CanonicalExactly(STORAGE_TARGET, n);
    CanonicalExactly(CONTAINERS_TARGET, n);
    if IsUserStorage(n, isInt) {
      var user, entry :| Globbed(user) && Globbed(entry) && isInt(user) && n == UserStorage(user, entry);
      assert STORAGE <= UserStorage(user, entry);
    }
  }

  /** With the listings of the script, a name given to two runs gets another id in the second if and only if that run does
      not list it. */
  lemma KeepsIdIffListed(f: Files, t: Target, dirs: set<string>, names: seq<string>, later: set<string>,
                         again: seq<string>, n: string, existing: set<string>, isInt: string -> bool)
    requires Sound(f) && n in names && n in again
    requires || (t == STORAGE_TARGET && IsStorageListing(later, existing, isInt))
             || (t == CONTAINERS_TARGET && IsContainerListing(later, existing))
    ensures GetsNewId(Run(Some(f), t, dirs, names), t, later, again, n) <==> n != [] && n !in later
  {
    assert Absolute(STORAGE_TARGET) && Absolute(CONTAINERS_TARGET);
    ListedIsCanonical(later, existing, isInt, n);
    SecondRunMovesIff(f, t, dirs, names, later, again, n);
  }

  lemma FirstComponent(user: string, entry: string, u: string, e: string)
    requires '/' !in user && '/' !in u && user + "/" + entry == u + "/" + e
    ensures user == u
  {
    var s, r := user + "/" + entry, u + "/" + e;
    assert s[|user|] == '/' && forall i :: 0 <= i < |user| ==> s[i] == user[i] != '/';
    assert r[|u|] == '/' && forall i :: 0 <= i < |u| ==> r[i] == u[i] != '/';
    assert s[..|user|] == user && r[..|u|] == u;
  }

  /** A storage directory that exists and whose name is canonical, but that is not listed, since its parent is not named by
      a number: it gets a new id in the second run. */
  lemma UnlistedDirectoryMoves(f: Files, dirs: set<string>, names: seq<string>, later: set<string>, again: seq<string>,
                               existing: set<string>, isInt: string -> bool)
    requires Sound(f) && UserStorage("shared", "data") in names && UserStorage("shared", "data") in again
    requires UserStorage("shared", "data") in existing && !isInt("shared") && IsStorageListing(later, existing, isInt)
    ensures var n := UserStorage("shared", "data");
            Canonical(STORAGE_TARGET, n) && GetsNewId(Run(Some(f), STORAGE_TARGET, dirs, names), STORAGE_TARGET, later, again, n)
  {
    var n := UserStorage("shared", "data");
    assert Absolute(STORAGE_TARGET) && STORAGE <= n;
    CanonicalExactly(STORAGE_TARGET, n);
    if IsUserStorage(n, isInt) {
      var user, entry :| Globbed(user) && Globbed(entry) && isInt(user) && n == UserStorage(user, entry);
      SameTail(STORAGE + "/", user + "/" + entry, "shared" + "/" + "data");
      FirstComponent(user, entry, "shared", "data");
    }
    KeepsIdIffListed(f, STORAGE_TARGET, dirs, names, later, again, n, existing, isInt);
  }

  lemma SameTail(p: string, x: string, y: string)
    requires p + x == p + y
    ensures x == y
  {
    assert (p + x)[|p|..] == x && (p + y)[|p|..] == y;
  }

  /** Directories that are listed, and entries that are not: a hidden one, and the initial layer of a container. */
  lemma ListingExamples(storage: set<string>, containers: set<string>, existing: set<string>, isInt: string -> bool)
    requires IsStorageListing(storage, existing, isInt) && IsContainerListing(containers, existing) && isInt("23")
    ensures "/var/lib/kuberdock/storage/23/mydrive1" in existing ==> "/var/lib/kuberdock/storage/23/mydrive1" in storage
    ensures "/var/lib/docker/overlay/ab/upper" in existing ==> "ab" in containers
    ensures "/var/lib/kuberdock/storage/23/.x" !in storage && ".x" !in containers
    ensures "ab-init" !in containers && "-init" !in containers
  {
    var p := UserStorage("23", "mydrive1");
    assert p == "/var/lib/kuberdock/storage/23/mydrive1";
    assert Globbed("23") && Globbed("mydrive1") && IsUserStorage(p, isInt);
    assert OVERLAY + "/" + "ab" + "/upper" == "/var/lib/docker/overlay/ab/upper";
    assert Globbed("ab") && !EndsWith(OVERLAY + "/" + "ab", "-init") by {
      assert (OVERLAY + "/" + "ab")[|OVERLAY| + 2] == 'b';
    }
    HiddenIsNotListed(isInt);
    InitialLayer("ab-init");
    InitialLayer("-init");
  }

  lemma HiddenIsNotListed(isInt: string -> bool)
    ensures !IsUserStorage("/var/lib/kuberdock/storage/23/.x", isInt)
  {
    var p := UserStorage("23", ".x");
    assert p == "/var/lib/kuberdock/storage/23/.x";
    forall user, entry | Globbed(user) && Globbed(entry) && p == UserStorage(user, entry) ensures false {
      SameTail(STORAGE + "/", user + "/" + entry, "23" + "/" + ".x");
      FirstComponent(user, entry, "23", ".x");
      SameTail("23" + "/", entry, ".x");
    }
  }

  lemma InitialLayer(n: string)
    requires n == "ab-init" || n == "-init"
    ensures EndsWith(OVERLAY + "/" + n, "-init")
  {
    var s := OVERLAY + "/" + n;
    assert s[|s| - 5..] == n[|n| - 5..];
  }
}
