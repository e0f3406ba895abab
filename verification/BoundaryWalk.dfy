/** The check that a target path stays inside the project root and crosses no symbolic
    link, with and without the cache of directories already verified. */
module BoundaryWalk {
  import opened Options
  import opened Workspace

  datatype Verdict =
    | Allowed
    | NoRoot              // the project root cannot be resolved
    | LexicallyOutside
    | LinkOnPath(at: Path)
    | ResolvesOutside
    | Unresolvable
    | NotBelowRoot
    | RuntimeInternal
    | SecretFile

  // ----- containment -----

  predicate IsLetter(c: char) { 'a' <= c <= 'z' || 'A' <= c <= 'Z' }

  /** The relative path is judged by its text: a first segment that merely begins with
      two dots, or looks like a drive letter, counts as leaving the root. */
  predicate LeavesRoot(segment: string) {
    ".." <= segment || (|segment| >= 2 && IsLetter(segment[0]) && segment[1] == ':')
  }

  predicate IsOutsideRoot(p: Path, root: Path) {
    p != root && (!(root <= p) || LeavesRoot(p[|root|]))
  }

  // ----- one step of the walk -----

  /** Why the walk stops at `p`, if it does. A missing path is passed over. */
  function DenialAt(w: World, root: Path, rootReal: Path, p: Path): Option<Verdict> {
    match Lstat(w, p)
    case Absent => None
    case Unreadable => Some(Unresolvable)
    case Found(link) =>
      if p != root && link then Some(LinkOnPath(p))
      else match w.realpath(p)
        case RealAbsent => None
        case RealUnreadable => Some(Unresolvable)
        case RealAt(place) => if IsOutsideRoot(place, rootReal) then Some(ResolvesOutside) else None
  }

  /** The path exists and was resolved, so the walk may remember it. */
  predicate Verified(w: World, p: Path) {
    Lstat(w, p).Found? && w.realpath(p).RealAt?
  }

  /** The walk with no memory: every path from `p` up to the root is examined. */
  function Walk(w: World, root: Path, rootReal: Path, p: Path): Verdict
    decreases |p|
  {
    var denial := DenialAt(w, root, rootReal, p);
    if denial.Some? then denial.value
    else if p == root then Allowed
    else if p == [] then NotBelowRoot
    else Walk(w, root, rootReal, Parent(p))
  }

  /** What the memoryless walk accepts, said without walking: the path lies below the
      root, and nothing from it up to the root is denied. */
  lemma {:induction false} WalkAllows(w: World, root: Path, rootReal: Path, p: Path)
    ensures Walk(w, root, rootReal, p).Allowed? <==>
            root <= p && forall n :: |root| <= n <= |p| ==> DenialAt(w, root, rootReal, p[..n]).None?
    decreases |p|
  {
    assert p[..|p|] == p;
    if DenialAt(w, root, rootReal, p).None? && p != root && p != [] {
      WalkAllows(w, root, rootReal, Parent(p));
      var up := Parent(p);
      if root <= p {
        assert |root| == |p| ==> root == p;
        assert root <= up;
        assert forall n :: |root| <= n <= |up| ==> up[..n] == p[..n];
      }
      if root <= up {
        assert forall n :: |root| <= n <= |up| ==> up[..n] == p[..n];
      }
    } else if p == root {
      assert forall n :: |root| <= n <= |p| ==> p[..n] == p;
    }
  }

  // ----- the walk with memory -----

  /** The verdict of the cached walk from `p`, met at distance `depth` from the target,
      and the existing paths it verified on the way. Once past the target itself, the
      walk stops early at a remembered path. */
  function CachedWalk(w: World, root: Path, rootReal: Path, safe: set<Path>, p: Path,
                      depth: nat): (r: (Verdict, set<Path>))
    decreases |p|
  {
    var denial := DenialAt(w, root, rootReal, p);
    var here := if Verified(w, p) then {p} else {};
    if denial.Some? then (denial.value, {})
    else if Verified(w, p) && p in safe && depth >= 1 then (Allowed, here)
    else if p == root then (Allowed, here)
    else if p == [] then (NotBelowRoot, here)
    else
      var rest := CachedWalk(w, root, rootReal, safe, Parent(p), depth + 1);
      (rest.0, here + rest.1)
  }

  /** The remembered paths after a walk from `p`: only an allowed walk adds any. */
  function Remembered(w: World, root: Path, rootReal: Path, safe: set<Path>, p: Path): set<Path> {
    var (verdict, seen) := CachedWalk(w, root, rootReal, safe, p, 0);
    if verdict.Allowed? then safe + seen else safe
  }

  /** The memory is right about `w`: the memoryless walk accepts each remembered path.
      The root, remembered from the start, is examined anew each time it is met. */
  ghost predicate Sound(w: World, root: Path, rootReal: Path, safe: set<Path>) {
    forall p :: p in safe ==> p == root || Walk(w, root, rootReal, p).Allowed?
  }

  lemma {:induction false} CachedWalkAgrees(w: World, root: Path, rootReal: Path, safe: set<Path>, p: Path, depth: nat)
    requires Sound(w, root, rootReal, safe)
    ensures CachedWalk(w, root, rootReal, safe, p, depth).0 == Walk(w, root, rootReal, p)
    ensures Walk(w, root, rootReal, p).Allowed? ==>
              forall q :: q in CachedWalk(w, root, rootReal, safe, p, depth).1 ==> Walk(w, root, rootReal, q).Allowed?
    decreases |p|
  {
    if DenialAt(w, root, rootReal, p).None? && p != root && p != [] {
      if Verified(w, p) && p in safe && depth >= 1 {
        assert Walk(w, root, rootReal, p).Allowed?;
      } else {
        CachedWalkAgrees(w, root, rootReal, safe, Parent(p), depth + 1);
      }
    }
  }

  /** Where the cached walk stops early: the first existing remembered path it reaches past
      the target with nothing denied on the way. */
  function EarlyStop(w: World, root: Path, rootReal: Path, safe: set<Path>, p: Path, depth: nat): Option<Path>
    decreases |p|
  {
    if DenialAt(w, root, rootReal, p).Some? then None
    else if Verified(w, p) && p in safe && depth >= 1 then Some(p)
    else if p == root || p == [] then None
    else EarlyStop(w, root, rootReal, safe, Parent(p), depth + 1)
  }

  /** Whatever the memory holds and however the tree has changed since: the cached walk
      agrees with the memoryless one exactly when it does not stop early, or the memoryless
      walk accepts the path it stops at. */
  lemma {:induction false} CachedWalkAgreesExactlyWhen(w: World, root: Path, rootReal: Path, safe: set<Path>, p: Path,
                                                       depth: nat)
    ensures var stop := EarlyStop(w, root, rootReal, safe, p, depth);
            CachedWalk(w, root, rootReal, safe, p, depth).0 == Walk(w, root, rootReal, p)
            <==> stop.None? || Walk(w, root, rootReal, stop.value).Allowed?
    decreases |p|
  {
    if DenialAt(w, root, rootReal, p).None? && p != root && p != [] {
      if !(Verified(w, p) && p in safe && depth >= 1) {
        CachedWalkAgreesExactlyWhen(w, root, rootReal, safe, Parent(p), depth + 1);
      }
    }
  }

  /** When they differ the cached walk is the one that accepts. */
  lemma {:induction false} DisagreementMeansAllowed(w: World, root: Path, rootReal: Path, safe: set<Path>, p: Path,
                                                    depth: nat)
    requires CachedWalk(w, root, rootReal, safe, p, depth).0 != Walk(w, root, rootReal, p)
    ensures CachedWalk(w, root, rootReal, safe, p, depth).0.Allowed?
    decreases |p|
  {
    if !(Verified(w, p) && p in safe && depth >= 1) {
      DisagreementMeansAllowed(w, root, rootReal, safe, Parent(p), depth + 1);
    }
  }

  // ----- a whole run of checks -----

  function CachedRun(w: World, root: Path, rootReal: Path, safe: set<Path>, targets: seq<Path>): seq<Verdict>
    decreases |targets|
  {
    if targets == [] then []
    else [CachedWalk(w, root, rootReal, safe, targets[0], 0).0]
         + CachedRun(w, root, rootReal, Remembered(w, root, rootReal, safe, targets[0]), targets[1..])
  }

  /** On an unchanged file system the cache never shows: any sequence of targets gets
      the verdicts, denial reasons included, that the memoryless walk gives. */
  lemma {:induction false} CachedRunAgrees(w: World, root: Path, rootReal: Path, safe: set<Path>, targets: seq<Path>)
    requires Sound(w, root, rootReal, safe)
    ensures CachedRun(w, root, rootReal, safe, targets)
            == seq(|targets|, i requires 0 <= i < |targets| => Walk(w, root, rootReal, targets[i]))
    decreases |targets|
  {
    if targets != [] {
      CachedWalkAgrees(w, root, rootReal, safe, targets[0], 0);
      CachedRunAgrees(w, root, rootReal, Remembered(w, root, rootReal, safe, targets[0]), targets[1..]);
    }
  }

  /** The memory outlives any change of the file system after which nothing that used
      to pass is denied; new directories and files inside the root are such changes. */
  lemma {:induction false} SoundSurvives(w: World, later: World, root: Path, rootReal: Path, safe: set<Path>)
    requires Sound(w, root, rootReal, safe)
    requires forall p :: DenialAt(w, root, rootReal, p).None? ==> DenialAt(later, root, rootReal, p).None?
    ensures Sound(later, root, rootReal, safe)
  {
    forall p | p in safe && p != root ensures Walk(later, root, rootReal, p).Allowed? {
      WalkAllows(w, root, rootReal, p);
      WalkAllows(later, root, rootReal, p);
    }
  }

  /** Whatever the memory holds, even about a file system that has changed since, an
      allowed walk has just examined the target and its directory. */
  lemma AllowedMeansTargetAndParentExamined(w: World, root: Path, rootReal: Path, safe: set<Path>, p: Path)
    requires CachedWalk(w, root, rootReal, safe, p, 0).0.Allowed?
    ensures DenialAt(w, root, rootReal, p).None?
    ensures p != root ==> p != [] && DenialAt(w, root, rootReal, Parent(p)).None?
  {
    if p != root && p != [] {
      assert CachedWalk(w, root, rootReal, safe, Parent(p), 1).0.Allowed?;
    }
  }

  /** A stale memory does change the verdict: here a grandparent became a link after it
      was remembered, and the cached walk no longer climbs that far. */
  lemma StaleMemoryMissesGrandparentLink()
    ensures exists w: World, root: Path, rootReal: Path, safe: set<Path>, p: Path ::
              CachedWalk(w, root, rootReal, safe, p, 0).0.Allowed?
              && Walk(w, root, rootReal, p) == LinkOnPath(["r", "a"])
  {
    var root: Path := ["r"];
    var target: Path := ["r", "a", "b", "c"];
    var tree: map<Path, Node> := map[["r"] := Dir, ["r", "a"] := Link, ["r", "a", "b"] := Dir];
    var w := World(tree, (p: Path) => false, (p: Path) => RealAt(["r"]));
    assert Parent(target) == ["r", "a", "b"] && Parent(["r", "a", "b"]) == ["r", "a"];
    assert CachedWalk(w, root, root, {["r", "a", "b"]}, ["r", "a", "b"], 1).0.Allowed?;
    assert CachedWalk(w, root, root, {["r", "a", "b"]}, target, 0).0.Allowed?;
    assert Walk(w, root, root, ["r", "a"]) == LinkOnPath(["r", "a"]);
    assert Walk(w, root, root, ["r", "a", "b"]) == LinkOnPath(["r", "a"]);
    assert Walk(w, root, root, target) == LinkOnPath(["r", "a"]);
  }

  // ----- the names that are never written -----

  function Joined(segments: seq<string>): string {
    if segments == [] then ""
    else if |segments| == 1 then segments[0]
    else segments[0] + "/" + Joined(segments[1..])
  }

  function Lower(s: string): string {
    seq(|s|, i requires 0 <= i < |s| => if 'A' <= s[i] <= 'Z' then ((s[i] as int) + 32) as char
                                        else if s[i] == '\\' then '/' else s[i])
  }

  /** Directories of the runtime and of version control, in any letter case. */
  predicate IsRuntimeInternal(relative: Path) {
    var name := Lower(Joined(relative));
    || name in {".gitignore", ".gitattributes", ".gitmodules"}
    || ".git/" <= name || ".orcana/" <= name || "node_modules/" <= name || ".codegraph/" <= name || ".wolf/" <= name
  }

  const PROTECTED_DIRECTORIES := {".git", ".orcana", "node_modules", ".codegraph", ".wolf"}
  const PROTECTED_FILES := {".gitignore", ".gitattributes", ".gitmodules"}

  /** The whole forbidden-file check around a walk's verdict. */
  function Judge(walk: Verdict, target: Path, root: Path, secret: Path -> bool): Verdict {
    if IsOutsideRoot(target, root) then LexicallyOutside
    else if !walk.Allowed? then walk
    else if IsRuntimeInternal(target[|root|..]) then RuntimeInternal
    else if secret(target[|root|..]) then SecretFile
    else Allowed
  }

  lemma LowerJoins(a: string, b: string)
    ensures Lower(a + b) == Lower(a) + Lower(b)
  {
  }

  lemma LowerOfJoined(first: string, below: Path)
    requires |below| >= 1
    ensures Lower(Joined([first] + below)) == Lower(first) + "/" + Lower(Joined(below))
  {
    assert ([first] + below)[1..] == below;
    LowerJoins(first + "/", Joined(below));
    LowerJoins(first, "/");
    assert Lower("/") == "/";
  }

  /** A protected name: a file at the root, or a directory with something below it, in
      whatever letter case it is spelled. */
  predicate IsProtected(first: string, below: Path) {
    if below == [] then Lower(first) in PROTECTED_FILES else Lower(first) in PROTECTED_DIRECTORIES
  }

  lemma ProtectedIsInternal(first: string, below: Path)
    requires IsProtected(first, below)
    ensures IsRuntimeInternal([first] + below)
  {
    if below == [] {
      assert [first] + below == [first];
    } else {
      LowerOfJoined(first, below);
      var dir, rest := Lower(first), Lower(Joined(below));
      assert (dir + "/" + rest)[..|dir| + 1] == dir + "/";
    }
  }

  /** No protected name is ever an allowed target. */
  lemma ProtectedNamesAreOffLimits(walk: Verdict, root: Path, secret: Path -> bool, first: string, below: Path)
    requires IsProtected(first, below)
    ensures !Judge(walk, root + ([first] + below), root, secret).Allowed?
  {
    assert (root + ([first] + below))[|root|..] == [first] + below;
    ProtectedIsInternal(first, below);
  }

  /** Where the first name holds no separator, nothing else is protected. */
  lemma RuntimeInternalExactlyWhen(first: string, below: Path)
    requires forall c :: c in first ==> c != '/' && c != '\\'
    ensures IsRuntimeInternal([first] + below) <==> IsProtected(first, below)
  {
    var head := Lower(first);
    forall i | 0 <= i < |head| ensures head[i] != '/' { assert first[i] in first; }
    if below == [] {
      assert [first] + below == [first] && head + "" == head;
      DirectoriesBeforeSlash(head, "");
    } else {
      var tail := Lower(Joined(below));
      LowerOfJoined(first, below);
      DirectoriesBeforeSlash(head, "/" + tail);
      Regroup(head, "/", tail);
      assert '/' in head + "/" + tail by { assert (head + "/")[|head|] == '/'; }
    }
  }

  lemma DirectoriesBeforeSlash(head: string, tail: string)
    requires '/' !in head && (tail == "" || tail[0] == '/')
    ensures var name := head + tail;
            || ".git/" <= name || ".orcana/" <= name || "node_modules/" <= name
            || ".codegraph/" <= name || ".wolf/" <= name
            <==> tail != "" && head in PROTECTED_DIRECTORIES
  {
    SlashComesAfter(".git", head, tail);
    SlashComesAfter(".orcana", head, tail);
    SlashComesAfter("node_modules", head, tail);
    SlashComesAfter(".codegraph", head, tail);
    SlashComesAfter(".wolf", head, tail);
    assert ".git" + "/" == ".git/" && ".orcana" + "/" == ".orcana/" && "node_modules" + "/" == "node_modules/";
    assert ".codegraph" + "/" == ".codegraph/" && ".wolf" + "/" == ".wolf/";
  }

  lemma Regroup(a: string, b: string, c: string)
    ensures a + b + c == a + (b + c)
  {
  }

  lemma FirstSlash(s: string, n: nat, m: nat)
    requires n < |s| && m < |s| && s[n] == s[m] == '/' && '/' !in s[..n] && '/' !in s[..m]
    ensures n == m
  {
    forall k | 0 <= k < n ensures s[k] != '/' { assert s[..n][k] == s[k]; }
    forall k | 0 <= k < m ensures s[k] != '/' { assert s[..m][k] == s[k]; }
  }

  /** A slash-free name stands before a slash only where the first slash is. */
  lemma SlashComesAfter(dir: string, head: string, tail: string)
    requires '/' !in dir && '/' !in head && (tail == "" || tail[0] == '/')
    ensures dir + "/" <= head + tail <==> tail != "" && dir == head
  {
    var whole := head + tail;
    if tail == "" {
      assert whole == head;
      assert (dir + "/")[|dir|] == '/';
    } else {
      assert whole[|head|] == '/' && whole[..|head|] == head;
      if dir + "/" <= whole {
        assert whole[|dir|] == (dir + "/")[|dir|] == '/' && whole[..|dir|] == dir;
        FirstSlash(whole, |dir|, |head|);
      }
    }
  }

  // ----- the check as the patch layer makes it -----

  /** What a cache holds; there is none when the root could not be resolved. */
  datatype Memory = Memory(rootReal: Path, safe: set<Path>)

  function FreshMemory(w: World, root: Path): Option<Memory> {
    match w.realpath(root)
    case RealAt(place) => Some(Memory(place, {root}))
    case _ => None
  }

  /** The forbidden-file check and the memory it leaves. Without a usable cache a new
      one is made for this check alone. */
  function CheckForbidden(w: World, root: Path, memory: Option<Memory>, target: Path, secret: Path -> bool)
    : (Verdict, Option<Memory>)
  {
    if IsOutsideRoot(target, root) then (LexicallyOutside, memory)
    else match (if memory.Some? then memory else FreshMemory(w, root))
      case None => (NoRoot, memory)
      case Some(m) =>
        var walk := CachedWalk(w, root, m.rootReal, m.safe, target, 0).0;
        (Judge(walk, target, root, secret),
         if memory.Some? then Some(Memory(m.rootReal, Remembered(w, root, m.rootReal, m.safe, target))) else None)
  }

  /** What an allowed check guarantees at the moment it is made, however stale the
      cache: the target lies below the root by name; the target and its directory are
      not links and lead inside the resolved root, as far as they exist; and the name
      is none of the protected ones. */
  ghost predicate Contained(w: World, root: Path, rootReal: Path, target: Path, secret: Path -> bool) {
    && root <= target
    && !IsRuntimeInternal(target[|root|..]) && !secret(target[|root|..])
    && DenialAt(w, root, rootReal, target).None?
    && (target != root ==> DenialAt(w, root, rootReal, Parent(target)).None?)
  }

  /** Where the root leads: as found when the cache was made or, without one, now. */
  predicate RootLeadsTo(w: World, root: Path, memory: Option<Memory>, place: Path) {
    if memory.Some? then memory.value.rootReal == place else w.realpath(root) == RealAt(place)
  }

  lemma AllowedMeansContained(w: World, root: Path, memory: Option<Memory>, target: Path, secret: Path -> bool)
    returns (rootReal: Path)
    requires CheckForbidden(w, root, memory, target, secret).0.Allowed?
    ensures RootLeadsTo(w, root, memory, rootReal) && Contained(w, root, rootReal, target, secret)
    ensures RootLeadsTo(w, root, CheckForbidden(w, root, memory, target, secret).1, rootReal)
  {
    var m := (if memory.Some? then memory else FreshMemory(w, root)).value;
    rootReal := m.rootReal;
    AllowedMeansTargetAndParentExamined(w, root, m.rootReal, m.safe, target);
  }

  // ----- the cache as an object -----

  class ResolvedBoundaryCache {
    const root: Path
    const rootReal: Path
    var safeExistingPaths: set<Path>

    constructor (root: Path, rootReal: Path)
      ensures this.root == root && this.rootReal == rootReal && safeExistingPaths == {root}
    {
      this.root, this.rootReal, safeExistingPaths := root, rootReal, {root};
    }

    /** Climbs from the target towards the root, and remembers what it verified when
        nothing on the way is denied. */
    method CheckResolvedBoundary(w: World, absolute: Path) returns (verdict: Verdict)
      modifies this
      ensures verdict == CachedWalk(w, root, rootReal, old(safeExistingPaths), absolute, 0).0
      ensures safeExistingPaths == Remembered(w, root, rootReal, old(safeExistingPaths), absolute)
    {
      var cursor, depth: nat := absolute, 0;
      var verifiedExisting: set<Path> := {};
      while true
        invariant safeExistingPaths == old(safeExistingPaths)
        invariant var whole := CachedWalk(w, root, rootReal, safeExistingPaths, absolute, 0);
                  var rest := CachedWalk(w, root, rootReal, safeExistingPaths, cursor, depth);
                  whole.0 == rest.0 && (whole.0.Allowed? ==> whole.1 == verifiedExisting + rest.1)
        decreases |cursor|
      {
        var denial := DenialAt(w, root, rootReal, cursor);
        if denial.Some? { return denial.value; }
        if Verified(w, cursor) {
          verifiedExisting := verifiedExisting + {cursor};
          if cursor in safeExistingPaths && depth >= 1 { break; }
        }
        if cursor == root { break; }
        if cursor == [] { return NotBelowRoot; }
        cursor, depth := Parent(cursor), depth + 1;
      }
      safeExistingPaths := safeExistingPaths + verifiedExisting;
      return Allowed;
    }
  }

  function MemoryOf(cache: ResolvedBoundaryCache?): Option<Memory>
    reads if cache == null then {} else {cache}
  {
    if cache == null then None else Some(Memory(cache.rootReal, cache.safeExistingPaths))
  }

  method CreateResolvedBoundaryCache(w: World, root: Path) returns (cache: ResolvedBoundaryCache?)
    ensures cache != null ==> fresh(cache) && cache.root == root
    ensures MemoryOf(cache) == FreshMemory(w, root)
  {
    match w.realpath(root) {
      case RealAt(place) => cache := new ResolvedBoundaryCache(root, place);
      case _ => cache := null;
    }
  }

  method CheckForbiddenFileWithCache(w: World, root: Path, cache: ResolvedBoundaryCache?, target: Path,
                                     secret: Path -> bool) returns (verdict: Verdict)
    requires cache != null ==> cache.root == root
    modifies if cache == null then {} else {cache}
    ensures (verdict, MemoryOf(cache)) == CheckForbidden(w, root, old(MemoryOf(cache)), target, secret)
  {
    if IsOutsideRoot(target, root) { return LexicallyOutside; }
    var used := cache;
    if used == null {
      used := CreateResolvedBoundaryCache(w, root);
      if used == null { return NoRoot; }
    }
    var walk := used.CheckResolvedBoundary(w, target);
    verdict := Judge(walk, target, root, secret);
  }
}
