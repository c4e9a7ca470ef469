/** Image references: the parser with its regular expression
    `^(?:(.+(?:\..+?)+)\/)?(.+?)(?:\:(.+))?$`, and the printer.

    The functions follow the backtracking matcher on strings without line breaks, where `.` matches every
    character and `$` matches only at the end. */
module Images {
  import opened Wrappers

  const DEFAULT_REGISTRY := "https://registry-1.docker.io"
  const DEFAULT_REGISTRY_HOST := "registry-1.docker.io"
  const DOCKER_IO := "docker.io"
  const LIBRARY := "library/"
  const LATEST := "latest"

  // ---------------------------------------------------------------- the registry group, by backtracking

  /** One more round of `(?:\..+?)+` from position `k`; the result is the position of the slash behind the group. */
  function DotGroup(s: string, k: nat): Option<nat>
    decreases |s| - k, 1
  {
    if k < |s| && s[k] == '.' then LazyEnd(s, k + 2) else None
  }

  /** The lazy `.+?` of the current round ends at `e`: first another round is tried (`+` is greedy), then the
      slash with something behind it, and only then a longer `.+?`. */
  function LazyEnd(s: string, e: nat): Option<nat>
    decreases |s| - e, 2
  {
    if e > |s| then None
    else
      var more := DotGroup(s, e);
      if more.Some? then more
      else if e < |s| && s[e] == '/' && e + 1 < |s| then Some(e)
      else if e < |s| then LazyEnd(s, e + 1)
      else None
  }

  /** The greedy `.+` in front: the longest prefix is tried first. */
  function GreedyPrefix(s: string, i: nat): Option<nat> {
    if i == 0 then None
    else
      var r := DotGroup(s, i);
      if r.Some? then r else GreedyPrefix(s, i - 1)
  }

  /** Position of the slash that ends the registry, if the optional group matches. */
  function RegistryEnd(s: string): Option<nat> {
    GreedyPrefix(s, |s|)
  }

  /** The lazy repository group ends at the first position from which `:tag` or the end of the string follows. */
  function RepoEnd(s: string, n: nat): (r: nat)
    requires n <= |s|
    ensures n <= r <= |s|
    decreases |s| - n
  {
    if n == |s| || (s[n] == ':' && n + 1 < |s|) then n else RepoEnd(s, n + 1)
  }

  // ---------------------------------------------------------------- the parser and the printer

  datatype Image = Image(fullRegistry: string, registry: string, repo: string, tag: string)

  predicate EndsWith(s: string, t: string) {
    |t| <= |s| && s[|s| - |t|..] == t
  }

  function RStrip(s: string, c: char): string {
    if s != [] && s[|s| - 1] == c then RStrip(s[..|s| - 1], c) else s
  }

  /** `hasScheme` is whether `urlparse` finds a scheme. */
  function ComplementRegistry(registry: string, hasScheme: string -> bool): string {
    RStrip(if hasScheme(registry) then registry else "https://" + registry, '/')
  }

  /** The full registry: `https://` in front exactly when there is no scheme, and no slash at the end; nothing else is
      taken away. */
  lemma ComplementExact(registry: string, hasScheme: string -> bool) returns (slashes: string)
    ensures forall i :: 0 <= i < |slashes| ==> slashes[i] == '/'
    ensures ComplementRegistry(registry, hasScheme) + slashes ==
            if hasScheme(registry) then registry else "https://" + registry
    ensures var full := ComplementRegistry(registry, hasScheme); full == [] || full[|full| - 1] != '/'
  {
    slashes := StripExact(if hasScheme(registry) then registry else "https://" + registry, '/');
  }

  lemma {:induction false} StripExact(s: string, c: char) returns (tail: string)
    ensures RStrip(s, c) + tail == s && forall i :: 0 <= i < |tail| ==> tail[i] == c
    ensures RStrip(s, c) == [] || RStrip(s, c)[|RStrip(s, c)| - 1] != c
  {
    if s != [] && s[|s| - 1] == c {
      var init := s[..|s| - 1];
      var t := StripExact(init, c);
      tail := t + [c];
      assert s == init + [c];
    } else {
      tail := [];
    }
  }

  function RepoTag(rest: string): (string, string)
    requires rest != []
  {
    var n := RepoEnd(rest, 1);
    (rest[..n], if n == |rest| then LATEST else rest[n + 1..])
  }

  function Make(registry: Option<string>, repo: string, tag: string, hasScheme: string -> bool): Image {
    if registry.None? || EndsWith(registry.value, DOCKER_IO) then
      Image(DEFAULT_REGISTRY, DEFAULT_REGISTRY_HOST, if '/' in repo then repo else LIBRARY + repo, tag)
    else Image(ComplementRegistry(registry.value, hasScheme), registry.value, repo, tag)
  }

  /** `Image.__new__`; None is the APIError for an empty string. */
  function Parse(s: string, hasScheme: string -> bool): Option<Image> {
    if s == [] then None
    else
      match RegistryEnd(s)
      case None => Some(Read(None, s, hasScheme))
      case Some(j) =>
        RegistryEndInside(s);
        Some(Read(Some(s[..j]), s[j + 1..], hasScheme))
  }

  function Read(registry: Option<string>, rest: string, hasScheme: string -> bool): Image
    requires rest != []
  {
    Make(registry, RepoTag(rest).0, RepoTag(rest).1, hasScheme)
  }

  predicate IsDockerhub(im: Image) {
    EndsWith(im.registry, DOCKER_IO)
  }

  function Tail(repo: string, tag: string): string {
    if tag == LATEST then repo else repo + ":" + tag
  }

  /** `Image.__str__`. */
  function Print(im: Image): string {
    var repo := if IsDockerhub(im) && LIBRARY <= im.repo then im.repo[|LIBRARY|..] else im.repo;
    (if im.fullRegistry != DEFAULT_REGISTRY then im.registry + "/" else "") + Tail(repo, im.tag)
  }

  // ---------------------------------------------------------------- what the backtracking finds

  /** A way to match the registry group: `.+` ends at the dot `i`, the group ends at the slash `j`. */
  ghost predicate Candidate(s: string, i: int, j: int) {
    1 <= i && i + 2 <= j && j + 1 < |s| && s[i] == '.' && s[j] == '/'
  }

  ghost predicate HasSlash(s: string, from: int) {
    exists j :: from <= j && j + 1 < |s| && j >= 0 && s[j] == '/'
  }

  ghost predicate HasDotGroup(s: string, k: nat) {
    k < |s| && s[k] == '.' && HasSlash(s, k + 2)
  }

  lemma {:induction false} DotGroupExact(s: string, k: nat)
    ensures DotGroup(s, k).Some? <==> HasDotGroup(s, k)
    ensures DotGroup(s, k).Some? ==> var j := DotGroup(s, k).value; k + 2 <= j && j + 1 < |s| && s[j] == '/'
    decreases |s| - k, 1
  {
    if k < |s| && s[k] == '.' {
      LazyEndExact(s, k + 2);
    }
  }

  lemma {:induction false} LazyEndExact(s: string, e: nat)
    ensures LazyEnd(s, e).Some? <==> HasSlash(s, e)
    ensures LazyEnd(s, e).Some? ==> var j := LazyEnd(s, e).value; e <= j && j + 1 < |s| && s[j] == '/'
    decreases |s| - e, 2
  {
    if e <= |s| {
      DotGroupExact(s, e);
      if e < |s| && DotGroup(s, e).None? && !(s[e] == '/' && e + 1 < |s|) {
        LazyEndExact(s, e + 1);
      }
    }
  }

  /** With no later dot group, the slash found is the first one. */
  lemma {:induction false} LazyEndFirst(s: string, e: nat, j: nat)
    requires e <= j && j + 1 < |s| && s[j] == '/' && forall x :: e <= x < j ==> s[x] != '/'
    requires forall k :: e <= k ==> !HasDotGroup(s, k)
    ensures LazyEnd(s, e) == Some(j)
    decreases j - e
  {
    DotGroupExact(s, e);
    if e < j {
      LazyEndFirst(s, e + 1, j);
    }
  }

  lemma {:induction false} GreedyPrefixExact(s: string, i: nat, last: nat, j: nat)
    requires last <= i && Candidate(s, last, j) && forall k :: last < k ==> !HasDotGroup(s, k)
    requires forall x :: last + 2 <= x < j ==> s[x] != '/'
    ensures GreedyPrefix(s, i) == Some(j)
    decreases i
  {
    DotGroupExact(s, i);
    if i == last {
      LazyEndFirst(s, last + 2, j);
    } else {
      GreedyPrefixExact(s, i - 1, last, j);
    }
  }

  lemma {:induction false} GreedyPrefixNone(s: string, i: nat)
    ensures GreedyPrefix(s, i).None? <==> forall k :: 1 <= k <= i ==> !HasDotGroup(s, k)
  {
    if i > 0 {
      DotGroupExact(s, i);
      GreedyPrefixNone(s, i - 1);
    }
  }

  lemma {:induction false} LastDotGroup(s: string, i: nat) returns (last: nat)
    requires GreedyPrefix(s, i).Some?
    ensures 1 <= last <= i && HasDotGroup(s, last) && forall k :: last < k <= i ==> !HasDotGroup(s, k)
  {
    DotGroupExact(s, i);
    if DotGroup(s, i).Some? {
      last := i;
    } else {
      last := LastDotGroup(s, i - 1);
    }
  }

  lemma {:induction false} FirstSlash(s: string, from: nat, j: nat) returns (f: nat)
    requires from <= j && j + 1 < |s| && s[j] == '/'
    ensures from <= f <= j && s[f] == '/' && forall x :: from <= x < f ==> s[x] != '/'
    decreases j - from
  {
    if s[from] == '/' {
      f := from;
    } else {
      f := FirstSlash(s, from + 1, j);
    }
  }

  ghost predicate NoCandidate(s: string) {
    forall k :: 1 <= k ==> !HasDotGroup(s, k)
  }

  /** The chosen split: the last usable dot, and the first slash at least two behind it. */
  ghost predicate Chosen(s: string, last: nat, j: nat) {
    && Candidate(s, last, j)
    && (forall k :: last < k ==> !HasDotGroup(s, k))
    && forall x :: last + 2 <= x < j ==> s[x] != '/'
  }

  /** The backtracking match of the registry group, declaratively: there is none when no dot can start it, and
      otherwise it is the chosen split, which is unique. */
  lemma RegistryEndExact(s: string)
    ensures RegistryEnd(s).None? <==> NoCandidate(s)
    ensures RegistryEnd(s).Some? ==> exists last: nat :: Chosen(s, last, RegistryEnd(s).value)
    ensures forall last: nat, j: nat :: Chosen(s, last, j) ==> RegistryEnd(s) == Some(j)
  {
    GreedyPrefixNone(s, |s|);
    forall last: nat, j: nat | Chosen(s, last, j) ensures RegistryEnd(s) == Some(j) {
      GreedyPrefixExact(s, |s|, last, j);
    }
    if RegistryEnd(s).Some? {
      var last := LastDotGroup(s, |s|);
      var j :| last + 2 <= j && j + 1 < |s| && s[j] == '/';
      var f := FirstSlash(s, last + 2, j);
      assert Chosen(s, last, f);
    }
  }

  lemma RegistryEndInside(s: string)
    requires RegistryEnd(s).Some?
    ensures 3 <= RegistryEnd(s).value && RegistryEnd(s).value + 1 < |s|
  {
    RegistryEndExact(s);
  }

  // ---------------------------------------------------------------- repository and tag

  lemma {:induction false} RepoEndExact(s: string, n: nat, r: nat)
    requires n <= r <= |s| && (r == |s| || (s[r] == ':' && r + 1 < |s|))
    requires forall m :: n <= m < r ==> !(s[m] == ':' && m + 1 < |s|)
    ensures RepoEnd(s, n) == r
    decreases r - n
  {
    if n < r {
      RepoEndExact(s, n + 1, r);
    }
  }

  lemma {:induction false} RepoEndFound(s: string, n: nat)
    requires n <= |s|
    ensures var r := RepoEnd(s, n);
            && (r == |s| || (s[r] == ':' && r + 1 < |s|))
            && forall m :: n <= m < r ==> !(s[m] == ':' && m + 1 < |s|)
    decreases |s| - n
  {
    if !(n == |s| || (s[n] == ':' && n + 1 < |s|)) {
      RepoEndFound(s, n + 1);
    }
  }

  /** A repository as the parser delivers it: no colon inside, except a last one when there is no tag. */
  ghost predicate PlainRepo(repo: string, tag: string) {
    && repo != [] && tag != []
    && forall m :: 1 <= m < |repo| && repo[m] == ':' ==> m + 1 == |repo| && tag == LATEST
  }

  /** What follows the registry is the printed tail, or the printed tail with an explicit `:latest`. */
  lemma RepoTagSplits(rest: string)
    requires rest != []
    ensures var (repo, tag) := RepoTag(rest);
            && PlainRepo(repo, tag)
            && (rest == Tail(repo, tag) || rest == Tail(repo, tag) + ":" + LATEST)
  {
    RepoEndFound(rest, 1);
    var n := RepoEnd(rest, 1);
    assert rest == rest[..n] + rest[n..];
    if n < |rest| {
      assert rest[n..] == ":" + rest[n + 1..];
      assert rest == rest[..n] + ":" + rest[n + 1..];
    }
  }

  /** A plain repository and its tag are read back from the printed tail. */
  lemma TailReadsBack(repo: string, tag: string)
    requires PlainRepo(repo, tag)
    ensures Tail(repo, tag) != [] && RepoTag(Tail(repo, tag)) == (repo, tag)
  {
    var p := Tail(repo, tag);
    if tag == LATEST {
      RepoEndExact(p, 1, |repo|);
      assert p[..|repo|] == repo;
    } else {
      assert p[|repo|] == ':' && p[..|repo|] == repo && p[|repo| + 1..] == tag;
      assert forall m :: 1 <= m < |repo| ==> p[m] == repo[m];
      RepoEndExact(p, 1, |repo|);
    }
  }

  // ---------------------------------------------------------------- stability of the registry split

  lemma SliceDotGroup(s: string, a: nat, b: nat, k: nat)
    requires a <= b <= |s|
    ensures HasDotGroup(s[a..b], k) ==> HasDotGroup(s, a + k)
  {
    var t := s[a..b];
    if HasDotGroup(t, k) {
      var j :| k + 2 <= j && j + 1 < |t| && t[j] == '/';
      assert s[a + j] == '/';
    }
  }

  lemma SliceHasNoCandidate(s: string, a: nat, b: nat)
    requires a <= b <= |s| && forall k :: a < k ==> !HasDotGroup(s, k)
    ensures NoCandidate(s[a..b])
  {
    forall k: nat | 1 <= k ensures !HasDotGroup(s[a..b], k) {
      SliceDotGroup(s, a, b, k);
    }
  }

  /** Cutting text off the end, but not the whole repository, keeps the chosen split. */
  lemma PrefixKeepsChoice(s: string, b: nat, last: nat, j: nat)
    requires Chosen(s, last, j) && j + 1 < b <= |s|
    ensures Chosen(s[..b], last, j)
  {
    assert s[..b] == s[0..b];
    forall k | last < k ensures !HasDotGroup(s[..b], k) {
      SliceDotGroup(s, 0, b, k);
    }
  }

  /** The default registry is printed away only for Docker Hub. */
  lemma OtherRegistriesDiffer(s: string, last: nat, j: nat, hasScheme: string -> bool)
    requires Chosen(s, last, j) && !EndsWith(s[..j], DOCKER_IO)
    ensures ComplementRegistry(s[..j], hasScheme) != DEFAULT_REGISTRY
  {
    var r := s[..j];
    var full := if hasScheme(r) then r else "https://" + r;
    assert full[|full| - 1] == r[j - 1];
    if r[j - 1] == '/' {
      assert j - 1 == last + 1;
      var cut := full[..|full| - 1];
      assert cut[|cut| - 1] == r[last] == '.';
      assert RStrip(full, '/') == cut;
    } else {
      assert RStrip(full, '/') == full;
      if full == DEFAULT_REGISTRY {
        SameEnd(full, r);
      }
    }
  }

  lemma SameEnd(full: string, r: string)
    requires |r| >= 3 && (full == r || full == "https://" + r) && full == DEFAULT_REGISTRY
    ensures EndsWith(r, DOCKER_IO)
  {
    assert DEFAULT_REGISTRY[|DEFAULT_REGISTRY| - |DOCKER_IO|..] == DOCKER_IO;
    if full != r {
      assert full[8..] == r;
    }
  }

  // ---------------------------------------------------------------- the round trip

  /** The Docker Hub names that printing cannot express: `library/` in front of nothing or of a longer path. */
  predicate LibraryClash(im: Image) {
    && IsDockerhub(im) && LIBRARY <= im.repo
    && (im.repo[|LIBRARY|..] == [] || '/' in im.repo[|LIBRARY|..])
  }

  lemma DefaultIsDockerhub()
    ensures EndsWith(DEFAULT_REGISTRY_HOST, DOCKER_IO)
  {
    assert DEFAULT_REGISTRY_HOST[|DEFAULT_REGISTRY_HOST| - |DOCKER_IO|..] == DOCKER_IO;
  }

  lemma ChosenEnd(s: string, last: nat, j: nat)
    requires Chosen(s, last, j)
    ensures RegistryEnd(s) == Some(j)
  {
    GreedyPrefixExact(s, |s|, last, j);
  }

  lemma ParseAt(s: string, j: nat, hasScheme: string -> bool)
    requires RegistryEnd(s) == Some(j) && j + 1 < |s|
    ensures Parse(s, hasScheme) == Some(Read(Some(s[..j]), s[j + 1..], hasScheme))
  {
  }

  lemma ParseChosen(s: string, last: nat, j: nat, hasScheme: string -> bool)
    requires Chosen(s, last, j)
    ensures Parse(s, hasScheme) == Some(Read(Some(s[..j]), s[j + 1..], hasScheme))
  {
    ChosenEnd(s, last, j);
    ParseAt(s, j, hasScheme);
  }

  lemma ParsePlain(s: string, hasScheme: string -> bool)
    requires s != [] && NoCandidate(s)
    ensures Parse(s, hasScheme) == Some(Read(None, s, hasScheme))
  {
    GreedyPrefixNone(s, |s|);
  }

  /** Reading a printed reference to another registry. */
  lemma ElsewhereReadsBack(s: string, last: nat, j: nat, repo: string, tag: string, hasScheme: string -> bool)
    requires Chosen(s, last, j) && RepoTag(s[j + 1..]) == (repo, tag)
    ensures Parse(s[..j] + "/" + Tail(repo, tag), hasScheme) == Some(Make(Some(s[..j]), repo, tag, hasScheme))
  {
    RepoTagSplits(s[j + 1..]);
    TailReadsBack(repo, tag);
    PrintedIsChosen(s, last, j, Tail(repo, tag));
    ParseChosen(s[..j] + "/" + Tail(repo, tag), last, j, hasScheme);
  }

  lemma PrintedIsChosen(s: string, last: nat, j: nat, tail: string)
    requires Chosen(s, last, j) && tail != [] && tail <= s[j + 1..]
    ensures var p := s[..j] + "/" + tail;
            Chosen(p, last, j) && p[..j] == s[..j] && p[j + 1..] == tail
  {
    PrintedIsPrefix(s, j, tail);
    PrefixKeepsChoice(s, j + 1 + |tail|, last, j);
  }

  lemma PrintedIsPrefix(s: string, j: nat, tail: string)
    requires j + 1 < |s| && s[j] == '/' && tail <= s[j + 1..]
    ensures s[..j + 1 + |tail|] == s[..j] + "/" + tail
  {
    assert s == s[..j] + "/" + s[j + 1..];
    assert s[j + 1..][..|tail|] == tail;
  }

  lemma RoundTripElsewhere(s: string, last: nat, j: nat, hasScheme: string -> bool)
    requires Chosen(s, last, j) && !EndsWith(s[..j], DOCKER_IO)
    ensures var im := Read(Some(s[..j]), s[j + 1..], hasScheme);
            !IsDockerhub(im) && Parse(Print(im), hasScheme) == Some(im)
  {
    var (repo, tag) := RepoTag(s[j + 1..]);
    OtherRegistriesDiffer(s, last, j, hasScheme);
    ElsewhereReadsBack(s, last, j, repo, tag, hasScheme);
  }

  /** What is printed for a Docker Hub image, read again. */
  lemma HubReadsBack(rest: string, repo: string, tag: string, name: string, hasScheme: string -> bool)
    requires rest != [] && NoCandidate(rest) && RepoTag(rest) == (repo, tag)
    requires name != [] && (name == repo || (LIBRARY <= repo && name == repo[|LIBRARY|..]))
    ensures Parse(Tail(name, tag), hasScheme) == Some(Make(None, name, tag, hasScheme))
  {
    RepoTagSplits(rest);
    PlainSuffix(repo, name, tag);
    TailReadsBack(name, tag);
    HubTailHasNoCandidate(rest, repo, tag, name);
    ParsePlain(Tail(name, tag), hasScheme);
  }

  lemma PlainSuffix(repo: string, name: string, tag: string)
    requires PlainRepo(repo, tag) && name != [] && (name == repo || (LIBRARY <= repo && name == repo[|LIBRARY|..]))
    ensures PlainRepo(name, tag)
  {
    var a := |repo| - |name|;
    assert forall m :: 1 <= m < |name| ==> name[m] == repo[a + m];
  }

  lemma HubTailHasNoCandidate(rest: string, repo: string, tag: string, name: string)
    requires NoCandidate(rest) && (rest == Tail(repo, tag) || rest == Tail(repo, tag) + ":" + LATEST)
    requires name == repo || (LIBRARY <= repo && name == repo[|LIBRARY|..])
    ensures NoCandidate(Tail(name, tag))
  {
    var a, tail := |repo| - |name|, Tail(repo, tag);
    assert rest[..|tail|] == tail;
    assert Tail(name, tag) == tail[a..] == rest[a..|tail|];
    assert forall k :: a < k ==> !HasDotGroup(rest, k);
    SliceHasNoCandidate(rest, a, |tail|);
  }

  /** An empty library name is printed as nothing, or as a lone tag, which is read as something else. */
  lemma EmptyNameIsLost(rest: string, tag: string, hasScheme: string -> bool)
    requires rest != [] && NoCandidate(rest) && RepoTag(rest) == (LIBRARY, tag)
    ensures Parse(Tail("", tag), hasScheme) != Some(Image(DEFAULT_REGISTRY, DEFAULT_REGISTRY_HOST, LIBRARY, tag))
  {
    RepoTagSplits(rest);
    if tag != LATEST {
      var p := ":" + tag;
      assert Tail("", tag) == p;
      var tail := Tail(LIBRARY, tag);
      assert rest[..|tail|] == tail;
      assert p == tail[|LIBRARY|..] == rest[|LIBRARY|..|tail|];
      SliceHasNoCandidate(rest, |LIBRARY|, |tail|);
      ParsePlain(p, hasScheme);
      var (repo, t) := RepoTag(p);
      assert repo != [] && repo[0] == ':';
      assert LIBRARY[0] == 'l';
    }
  }

  lemma PrintHub(repo: string, tag: string, hasScheme: string -> bool)
    requires repo != []
    ensures var im := Make(None, repo, tag, hasScheme);
            && IsDockerhub(im)
            && Print(im) == Tail(if LIBRARY <= repo then repo[|LIBRARY|..] else repo, tag)
            && (LibraryClash(im) <==> LIBRARY <= repo && (repo[|LIBRARY|..] == [] || '/' in repo[|LIBRARY|..]))
  {
    DefaultIsDockerhub();
    var im := Make(None, repo, tag, hasScheme);
    assert (LIBRARY + repo)[|LIBRARY|..] == repo;
    assert LIBRARY[7] == '/';
    assert LIBRARY <= repo ==> repo[7] == '/';
    assert "" + Tail(repo, tag) == Tail(repo, tag);
  }

  lemma RoundTripHub(rest: string, hasScheme: string -> bool)
    requires rest != [] && NoCandidate(rest)
    ensures var im := Read(None, rest, hasScheme);
            Parse(Print(im), hasScheme) == Some(im) <==> !LibraryClash(im)
  {
    var (repo, tag) := RepoTag(rest);
    RepoTagSplits(rest);
    PrintHub(repo, tag, hasScheme);
    if LIBRARY <= repo {
      LibraryHub(rest, repo, tag, hasScheme);
    } else {
      HubReadsBack(rest, repo, tag, repo, hasScheme);
    }
  }

  lemma LibraryHub(rest: string, repo: string, tag: string, hasScheme: string -> bool)
    requires rest != [] && NoCandidate(rest) && RepoTag(rest) == (repo, tag) && LIBRARY <= repo
    ensures var name := repo[|LIBRARY|..];
            Parse(Tail(name, tag), hasScheme) == Some(Make(None, repo, tag, hasScheme))
            <==> name != [] && '/' !in name
  {
    var name := repo[|LIBRARY|..];
    assert repo == LIBRARY + name;
    assert repo[7] == LIBRARY[7] == '/';
    if name == [] {
      assert repo == LIBRARY;
      EmptyNameIsLost(rest, tag, hasScheme);
    } else {
      HubReadsBack(rest, repo, tag, name, hasScheme);
    }
  }

  /** Parsing what an image prints gives back the same image if and only if its Docker Hub repository is not
      `library/` followed by an empty or slash-containing name. */
  lemma RoundTrip(s: string, hasScheme: string -> bool)
    requires Parse(s, hasScheme).Some?
    ensures var im := Parse(s, hasScheme).value;
            Parse(Print(im), hasScheme) == Some(im) <==> !LibraryClash(im)
  {
    RegistryEndExact(s);
    match RegistryEnd(s)
    case None =>
      ParsePlain(s, hasScheme);
      RoundTripHub(s, hasScheme);
    case Some(j) =>
      var last: nat :| Chosen(s, last, j);
      ParseChosen(s, last, j, hasScheme);
      RoundTripChosen(s, last, j, hasScheme);
  }

  lemma RoundTripChosen(s: string, last: nat, j: nat, hasScheme: string -> bool)
    requires Chosen(s, last, j)
    ensures var im := Read(Some(s[..j]), s[j + 1..], hasScheme);
            Parse(Print(im), hasScheme) == Some(im) <==> !LibraryClash(im)
  {
    if EndsWith(s[..j], DOCKER_IO) {
      assert s[j + 1..|s|] == s[j + 1..];
      SliceHasNoCandidate(s, j + 1, |s|);
      RoundTripHub(s[j + 1..], hasScheme);
    } else {
      RoundTripElsewhere(s, last, j, hasScheme);
    }
  }

  // ---------------------------------------------------------------- what printing drops

  /** What is left of `s` when text that only names defaults is dropped: a Docker Hub registry, the library prefix
      and an explicit latest tag. */
  ghost predicate Reduces(s: string, printed: string, registry: string, library: string, tag: string) {
    && s == registry + (library + printed + tag)
    && (registry == "" || (exists host :: registry == host + "/" && EndsWith(host, DOCKER_IO)))
    && (library == "" || library == LIBRARY)
    && (tag == "" || tag == ":" + LATEST)
  }

  lemma TailAndTag(rest: string) returns (tag: string)
    requires rest != []
    ensures rest == Tail(RepoTag(rest).0, RepoTag(rest).1) + tag
    ensures tag == "" || tag == ":" + LATEST
  {
    RepoTagSplits(rest);
    var tail := Tail(RepoTag(rest).0, RepoTag(rest).1);
    if rest == tail {
      tag := "";
    } else {
      tag := ":" + LATEST;
      assert tail + ":" + LATEST == tail + tag;
    }
  }

  lemma LibraryTail(name: string, tag: string)
    ensures Tail(LIBRARY + name, tag) == LIBRARY + Tail(name, tag)
  {
    assert LIBRARY + name + ":" + tag == LIBRARY + (name + ":" + tag);
  }

  function HubName(repo: string): string {
    if LIBRARY <= repo then repo[|LIBRARY|..] else repo
  }

  lemma HubTail(repo: string, tag: string) returns (library: string)
    ensures Tail(repo, tag) == library + Tail(HubName(repo), tag) && (library == "" || library == LIBRARY)
  {
    library := "";
    if LIBRARY <= repo {
      library := LIBRARY;
      assert repo == LIBRARY + repo[|LIBRARY|..];
      LibraryTail(repo[|LIBRARY|..], tag);
    }
  }

  lemma WithoutRegistry(s: string, printed: string, library: string, tag: string)
    requires s == library + printed + tag
    requires (library == "" || library == LIBRARY) && (tag == "" || tag == ":" + LATEST)
    ensures Reduces(s, printed, "", library, tag)
  {
    assert "" + s == s;
  }

  lemma PrintedHub(rest: string, hasScheme: string -> bool)
    requires rest != []
    ensures Print(Read(None, rest, hasScheme)) == Tail(HubName(RepoTag(rest).0), RepoTag(rest).1)
  {
    RepoTagSplits(rest);
    PrintHub(RepoTag(rest).0, RepoTag(rest).1, hasScheme);
  }

  lemma HubReduces(rest: string, hasScheme: string -> bool) returns (library: string, tag: string)
    requires rest != []
    ensures Reduces(rest, Print(Read(None, rest, hasScheme)), "", library, tag)
  {
    tag := TailAndTag(rest);
    library := HubTail(RepoTag(rest).0, RepoTag(rest).1);
    PrintedHub(rest, hasScheme);
    WithoutRegistry(rest, Print(Read(None, rest, hasScheme)), library, tag);
  }

  lemma PrintedElsewhere(s: string, last: nat, j: nat, hasScheme: string -> bool)
    requires Chosen(s, last, j) && !EndsWith(s[..j], DOCKER_IO)
    ensures Print(Read(Some(s[..j]), s[j + 1..], hasScheme))
            == s[..j] + "/" + Tail(RepoTag(s[j + 1..]).0, RepoTag(s[j + 1..]).1)
  {
    OtherRegistriesDiffer(s, last, j, hasScheme);
  }

  lemma ElsewhereReduces(s: string, last: nat, j: nat, hasScheme: string -> bool) returns (tag: string)
    requires Chosen(s, last, j) && !EndsWith(s[..j], DOCKER_IO)
    ensures Reduces(s, Print(Read(Some(s[..j]), s[j + 1..], hasScheme)), "", "", tag)
  {
    tag := TailAndTag(s[j + 1..]);
    var tail := Tail(RepoTag(s[j + 1..]).0, RepoTag(s[j + 1..]).1);
    PrintedElsewhere(s, last, j, hasScheme);
    SlashSplits(s, j, tail, tag);
    NothingInFront(s[..j] + "/" + tail, tag);
    WithoutRegistry(s, s[..j] + "/" + tail, "", tag);
  }

  lemma NothingInFront(x: string, y: string)
    ensures "" + x + y == x + y
  {
  }

  lemma SlashSplits(s: string, j: nat, tail: string, tag: string)
    requires j < |s| && s[j] == '/' && s[j + 1..] == tail + tag
    ensures s == s[..j] + "/" + tail + tag
  {
    assert s == s[..j] + "/" + s[j + 1..];
  }

  /** Printing what was parsed gives the reference back, up to a Docker Hub registry, the library prefix and an
      explicit latest tag. */
  lemma PrintDropsOnlyDefaults(s: string, hasScheme: string -> bool)
    returns (registry: string, library: string, tag: string)
    requires s != []
    ensures Parse(s, hasScheme).Some?
    ensures Reduces(s, Print(Parse(s, hasScheme).value), registry, library, tag)
  {
    RegistryEndExact(s);
    registry, library, tag := "", "", "";
    match RegistryEnd(s)
    case None =>
      ParsePlain(s, hasScheme);
      library, tag := HubReduces(s, hasScheme);
    case Some(j) =>
      var last: nat :| Chosen(s, last, j);
      ParseChosen(s, last, j, hasScheme);
      if EndsWith(s[..j], DOCKER_IO) {
        library, tag := HubReduces(s[j + 1..], hasScheme);
        registry := s[..j] + "/";
        WithRegistry(s, j, library, tag, Print(Read(None, s[j + 1..], hasScheme)));
      } else {
        tag := ElsewhereReduces(s, last, j, hasScheme);
      }
  }

  lemma WithRegistry(s: string, j: nat, library: string, tag: string, printed: string)
    requires j < |s| && s[j] == '/' && EndsWith(s[..j], DOCKER_IO)
    requires Reduces(s[j + 1..], printed, "", library, tag)
    ensures Reduces(s, printed, s[..j] + "/", library, tag)
  {
    assert s == s[..j] + "/" + s[j + 1..];
  }

  /** Such names exist: `library/a/b` comes back as `a/b`. */
  lemma ClashExists(hasScheme: string -> bool)
    ensures var im := Parse("library/a/b", hasScheme);
            im.Some? && LibraryClash(im.value)
  {
    var s := "library/a/b";
    RegistryEndExact(s);
    assert NoCandidate(s);
    RepoEndExact(s, 1, |s|);
    assert s[..|s|] == s;
    DefaultIsDockerhub();
    assert s[|LIBRARY|..][1] == '/';
  }

  // ---------------------------------------------------------------- the documented forms

  lemma EndsWithExact(s: string, t: string)
    ensures EndsWith(s, t) <==> exists pre :: s == pre + t
  {
    if EndsWith(s, t) {
      assert s == s[..|s| - |t|] + t;
    }
    if pre :| s == pre + t {
      assert s[|pre|..] == t;
    }
  }

  lemma NoDotNoCandidate(s: string)
    requires '.' !in s
    ensures NoCandidate(s)
  {
  }

  /** A reference without a dot is an image of Docker Hub: an official one without a slash, or that of a user. */
  lemma HubReference(repo: string, tag: string, hasScheme: string -> bool)
    requires PlainRepo(repo, tag) && '.' !in repo && '.' !in tag && tag != "latest"
    ensures Parse(repo + ":" + tag, hasScheme) == Some(HubImage(repo, tag))
    ensures Parse(repo, hasScheme) == Some(HubImage(repo, "latest"))
  {
    TailReadsBack(repo, tag);
    TailReadsBack(repo, "latest");
    assert Tail(repo, tag) == repo + ":" + tag && Tail(repo, "latest") == repo;
    NoDotNoCandidate(repo + ":" + tag);
    NoDotNoCandidate(repo);
    ParsePlain(repo + ":" + tag, hasScheme);
    ParsePlain(repo, hasScheme);
  }

  function HubImage(repo: string, tag: string): Image {
    Image("https://registry-1.docker.io", "registry-1.docker.io", if '/' in repo then repo else "library/" + repo, tag)
  }

  /** A registry with a dot in its last part, in front of a repository without one. */
  lemma RegistryReference(a: string, b: string, repo: string, hasScheme: string -> bool)
    requires a != [] && b != [] && '.' !in b && '/' !in b && PlainRepo(repo, "latest") && '.' !in repo
    ensures var registry := a + "." + b;
            Parse(registry + "/" + repo, hasScheme) ==
            if exists pre :: registry == pre + "docker.io" then Some(HubImage(repo, "latest"))
            else Some(Image(ComplementRegistry(registry, hasScheme), registry, repo, "latest"))
  {
    var registry := a + "." + b;
    var s := registry + "/" + repo;
    SplitsAtRegistry(a, b, repo);
    ParseChosen(s, |a|, |registry|, hasScheme);
    assert s[..|registry|] == registry && s[|registry| + 1..] == repo;
    TailReadsBack(repo, "latest");
    assert Tail(repo, "latest") == repo;
    EndsWithExact(registry, "docker.io");
  }

  lemma SplitsAtRegistry(a: string, b: string, repo: string)
    requires a != [] && b != [] && '.' !in b && '/' !in b && repo != [] && '.' !in repo
    ensures Chosen(a + "." + b + "/" + repo, |a|, |a + "." + b|)
  {
    var s, last, j := a + "." + b + "/" + repo, |a|, |a + "." + b|;
    assert s[last] == '.' && s[j] == '/';
    assert forall x :: last < x < j ==> s[x] == b[x - last - 1];
    assert forall x :: j < x < |s| ==> s[x] == repo[x - j - 1];
    assert forall k :: last < k < |s| ==> s[k] != '.';
    assert Candidate(s, last, j);
  }
}
