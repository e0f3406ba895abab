/** What staging and installing keep, under failing system calls and interfering processes:
    temp files, targets and every other path; and what guards each overwriting. */
module PatchInstall {
  import opened Options
  import opened Workspace
  import opened BoundaryWalk
  import opened PatchCommit
  import TransactionHistory

  // ----- the patches and the interference the claims are about -----

  /** Targets are distinct, none is a directory of another or of the temp directory, and
      none lies below the runtime's own directory. */
  ghost predicate WellFormed(job: Job) {
    && (forall i: nat, j: nat :: i < |job.entries| && j < |job.entries| && i != j ==> !(job.Target(i) <= job.Target(j)))
    && (forall i: nat :: i < |job.entries| ==> job.entries[i].relative != [] && !(job.Target(i) <= job.TempDir())
                                               && !(job.root + [".orcana"] < job.Target(i)))
  }

  /** The checks made at the proposal see to most of it: what is left to the caller is
      that no target is the root, the runtime's own directory, or above another target. */
  lemma AllowedIsWellFormed(job: Job, w: World, secret: Path -> bool)
    requires forall i: nat :: i < |job.entries| ==> CheckForbidden(w, job.root, None, job.Target(i), secret).0.Allowed?
    requires forall i: nat :: i < |job.entries| ==>
               job.entries[i].relative != [] && job.entries[i].relative != [".orcana"]
    requires forall i: nat, j: nat :: i < |job.entries| && j < |job.entries| && i != j ==>
               !(job.Target(i) <= job.Target(j))
    ensures WellFormed(job)
  {
    forall i: nat | i < |job.entries|
      ensures !(job.root + [".orcana"] < job.Target(i)) && !(job.Target(i) <= job.TempDir())
    {
      BelowRuntimeDirectoryIsDenied(w, job.root, job.Target(i), secret);
      var relative, temp := job.entries[i].relative, [".orcana", "patches", job.txId];
      assert job.Target(i) <= job.TempDir() ==> relative <= temp by {
        assert job.Target(i)[|job.root|..] == relative && job.TempDir()[|job.root|..] == temp;
      }
    }
  }

  lemma BelowRuntimeDirectoryIsDenied(w: World, root: Path, target: Path, secret: Path -> bool)
    ensures root + [".orcana"] < target ==> !CheckForbidden(w, root, None, target, secret).0.Allowed?
  {
    if root + [".orcana"] < target && FreshMemory(w, root).Some? {
      var below, m := target[|root| + 1..], FreshMemory(w, root).value;
      assert target == root + ([".orcana"] + below) && Lower(".orcana") == ".orcana";
      ProtectedNamesAreOffLimits(CachedWalk(w, root, m.rootReal, m.safe, target, 0).0, root, secret, ".orcana", below);
    }
  }

  /** Other processes write nothing into the temp directory and do not rewrite the snapshot
      record (they may remove from the one and the other). */
  ghost predicate Spares(job: Job, foreign: Interference) {
    && (forall p :: p in foreign.edits && job.TempDir() <= p ==> foreign.edits[p].None?)
    && (job.RecordPath() in foreign.edits ==> foreign.edits[job.RecordPath()].None?)
  }

  ghost predicate AllSpare(job: Job, others: seq<Interference>) {
    forall f :: f in others ==> Spares(job, f)
  }

  ghost predicate HandsOff(job: Job, script: Script) {
    Spares(job, script.duringVerify) && StepsSpare(job, script.steps)
  }

  ghost predicate StepsSpare(job: Job, steps: nat -> Step) {
    forall k: nat :: k < |job.entries| ==> AllSpare(job, steps(k).Others())
  }

  /** Nobody edits the `i`-th file once it is installed. */
  ghost predicate LeavesInstalled(job: Job, steps: nat -> Step, i: nat)
    requires i < |job.entries|
  {
    forall k: nat, f :: i < k < |job.entries| && f in steps(k).Others() ==> job.Target(i) !in f.edits
  }

  /** Not in the temp directory, and not a directory on the way to it or to a target. */
  ghost predicate Aside(job: Job, p: Path) {
    && !(p <= job.TempDir()) && !(job.TempDir() <= p)
    && (forall i: nat :: i < |job.entries| ==> !(p <= Parent(job.Target(i))))
  }

  /** Aside, and neither the snapshot record nor a directory on the way to it. */
  ghost predicate Bystander(job: Job, p: Path) {
    Aside(job, p) && !(p <= job.RecordPath())
  }

  /** What a path holds when only the other processes touched it. */
  function LeftBy(node: Option<Node>, p: Path, foreign: seq<Interference>): Option<Node>
    decreases |foreign|
  {
    if foreign == [] then node else LeftBy(Disturbed(node, p, foreign[0]), p, foreign[1..])
  }

  /** The content a file had when the patch was proposed. */
  function Snapshot(e: Entry): Option<Node> {
    if e.oldContent.None? then None else Some(File(e.oldContent.value))
  }

  lemma TargetIsAside(job: Job, i: nat)
    requires WellFormed(job) && i < |job.entries|
    ensures Aside(job, job.Target(i))
  {
    var t := job.Target(i);
    forall j: nat | j < |job.entries| ensures !(t <= Parent(job.Target(j))) {
      var u := job.Target(j);
      assert i == j ==> |Parent(u)| < |t|;
      assert t <= Parent(u) ==> t <= u;
    }
    assert job.TempDir() <= t ==> job.root + [".orcana"] < t;
  }

  lemma LeftByJoins(node: Option<Node>, p: Path, first: seq<Interference>, second: seq<Interference>)
    ensures LeftBy(node, p, first + second) == LeftBy(LeftBy(node, p, first), p, second)
    decreases |first|
  {
    if first == [] {
      assert first + second == second;
    } else {
      assert (first + second)[1..] == first[1..] + second;
      LeftByJoins(Disturbed(node, p, first[0]), p, first[1..], second);
    }
  }

  // ----- staging -----

  ghost predicate TempsIntact(job: Job, w: World) {
    forall i: nat :: i < |job.entries| && job.TempPath(i) in w.tree ==>
      w.tree[job.TempPath(i)] == File(job.entries[i].newContent)
  }

  lemma TempPathsDiffer(job: Job, i: nat, j: nat)
    requires WellFormed(job) && i < |job.entries| && j < |job.entries| && i != j
    ensures !(job.TempPath(i) <= job.TempPath(j))
  {
    var a, b := job.entries[i].relative, job.entries[j].relative;
    assert !(job.Target(i) <= job.Target(j));
    assert a <= b ==> job.root + a <= job.root + b;
    assert job.TempPath(i)[|job.TempDir()|..] == a && job.TempPath(j)[|job.TempDir()|..] == b;
  }

  lemma ApartFromTemp(job: Job, p: Path, i: nat)
    requires i < |job.entries| && job.entries[i].relative != []
    requires !(p <= job.TempDir()) && !(job.TempDir() <= p)
    ensures p != job.TempPath(i) && !(p <= Parent(job.TempPath(i)))
  {
    var dir, temp := job.TempDir(), job.TempPath(i);
    assert dir <= temp;
    assert p <= temp ==> p <= dir || dir <= p;
    assert p <= Parent(temp) ==> p <= temp;
  }

  lemma StageOneAt(job: Job, w: World, i: nat, p: Path)
    requires i < |job.entries| && StageOne(job, w, i).Some? && p != job.TempPath(i)
    requires !(p <= Parent(job.TempPath(i))) || p in w.tree
    ensures At(StageOne(job, w, i).value, p) == At(w, p)
  {
    MkdirAt(w, Parent(job.TempPath(i)), p);
  }

  lemma {:induction false} StagingKeeps(job: Job, w: World, i: nat, fault: Option<nat>, p: Path)
    requires i <= |job.entries| && forall j: nat :: j < |job.entries| ==> job.entries[j].relative != []
    requires !(p <= job.TempDir()) && !(job.TempDir() <= p)
    ensures At(StageFrom(job, w, i, fault).0, p) == At(w, p)
    decreases |job.entries| - i
  {
    if i < |job.entries| && fault != Some(i) {
      var staged := StageOne(job, w, i);
      if staged.Some? {
        ApartFromTemp(job, p, i);
        StageOneAt(job, w, i, p);
        StagingKeeps(job, staged.value, i + 1, fault, p);
      }
    }
  }

  ghost predicate TempWritten(job: Job, w: World, j: nat)
    requires j < |job.entries|
  {
    At(w, job.TempPath(j)) == Some(File(job.entries[j].newContent))
  }

  ghost predicate FirstTempsWritten(job: Job, w: World, n: nat)
    requires n <= |job.entries|
  {
    forall j: nat :: j < n ==> TempWritten(job, w, j)
  }

  lemma StageOneWrites(job: Job, w: World, i: nat)
    requires WellFormed(job) && i < |job.entries| && StageOne(job, w, i).Some? && FirstTempsWritten(job, w, i)
    ensures FirstTempsWritten(job, StageOne(job, w, i).value, i + 1)
  {
    forall j: nat | j < i ensures TempWritten(job, StageOne(job, w, i).value, j) {
      TempPathsDiffer(job, j, i);
      assert TempWritten(job, w, j);
      StageOneAt(job, w, i, job.TempPath(j));
    }
  }

  /** What holds before staging and is kept by each temp file holds when all are staged. */
  lemma {:induction false} StagingInvariant(job: Job, w: World, i: nat, fault: Option<nat>, inv: (World, nat) -> bool)
    requires i <= |job.entries| && inv(w, i) && StageFrom(job, w, i, fault).1
    requires forall v, j: nat | j < |job.entries| && inv(v, j) :: StageOne(job, v, j).Some? ==>
               inv(StageOne(job, v, j).value, j + 1)
    ensures inv(StageFrom(job, w, i, fault).0, |job.entries|)
    decreases |job.entries| - i
  {
    if i < |job.entries| { StagingInvariant(job, StageOne(job, w, i).value, i + 1, fault, inv); }
  }

  lemma StagingFillsTemps(job: Job, w: World, fault: Option<nat>)
    requires WellFormed(job) && StageFrom(job, w, 0, fault).1
    ensures FirstTempsWritten(job, StageFrom(job, w, 0, fault).0, |job.entries|)
  {
    var inv := (v: World, j: nat) => j <= |job.entries| && FirstTempsWritten(job, v, j);
    forall v, j: nat | j < |job.entries| && inv(v, j)
      ensures StageOne(job, v, j).Some? ==> inv(StageOne(job, v, j).value, j + 1)
    {
      if StageOne(job, v, j).Some? { StageOneWrites(job, v, j); }
    }
    StagingInvariant(job, w, 0, fault, inv);
  }

  // ----- one installation -----

  lemma LeftByShort(node: Option<Node>, p: Path, first: Interference, second: Interference)
    ensures LeftBy(node, p, [first]) == Disturbed(node, p, first)
    ensures LeftBy(node, p, [first, second]) == Disturbed(Disturbed(node, p, first), p, second)
  {
    assert [first][1..] == [] && [first, second][1..] == [second];
    var one := Disturbed(node, p, first);
    assert LeftBy(one, p, [second]) == LeftBy(Disturbed(one, p, second), p, []);
  }

  lemma {:induction false} LeftBySpared(node: Option<Node>, p: Path, foreign: seq<Interference>)
    requires forall f :: f in foreign ==> p !in f.edits
    ensures LeftBy(node, p, foreign) == node
    decreases |foreign|
  {
    if foreign != [] { LeftBySpared(Disturbed(node, p, foreign[0]), p, foreign[1..]); }
  }

  /** What a run leaves of a path once earlier interference is counted in. */
  lemma AfterLeaves(earlier: seq<Interference>, run: StepRun, node: Option<Node>, p: Path)
    requires At(run.world, p) == LeftBy(LeftBy(node, p, earlier), p, run.foreign)
    ensures At(After(earlier, run).world, p) == LeftBy(node, p, After(earlier, run).foreign)
  {
    LeftByJoins(node, p, earlier, run.foreign);
  }

  lemma DisturbTwiceAt(w: World, first: Interference, second: Interference, p: Path)
    ensures At(Disturb(Disturb(w, first), second), p) == LeftBy(At(w, p), p, [first, second])
  {
    LeftByShort(At(w, p), p, first, second);
    DisturbAt(w, first, p);
    DisturbAt(Disturb(w, first), second, p);
  }

  lemma AfterMkdirAt(w: World, target: Path, step: Step, p: Path)
    requires AfterMkdir(w, target, step).Some? && !(p <= Parent(target))
    ensures At(AfterMkdir(w, target, step).value, p) == LeftBy(At(w, p), p, [step.beforeMkdir, step.beforeSecond])
  {
    var w1 := Disturb(w, step.beforeMkdir);
    LeftByShort(At(w, p), p, step.beforeMkdir, step.beforeSecond);
    DisturbAt(w, step.beforeMkdir, p);
    MkdirAt(w1, Parent(target), p);
    DisturbAt(Mkdir(w1, Parent(target)).value, step.beforeSecond, p);
  }

  ghost predicate IsStaged(job: Job, k: nat) {
    k < |job.entries| && job.entries[k].tempPath == Some(job.TempPath(k)) && job.entries[k].relative != []
  }

  lemma CheckedKeeps(job: Job, w: World, k: nat, step: Step, p: Path)
    requires IsStaged(job, k) && p != job.TempPath(k)
    ensures var r := InstallChecked(job, w, k, step);
            r.Stopped? || p != job.Target(k) ==> At(r.world, p) == LeftBy(At(w, p), p, r.foreign)
  {
    LeftByShort(At(w, p), p, step.beforeHash, step.beforeRename);
    DisturbAt(w, step.beforeHash, p);
    DisturbAt(Disturb(w, step.beforeHash), step.beforeRename, p);
  }

  lemma InsideKeeps(job: Job, w: World, k: nat, step: Step, second: Verdict, p: Path)
    requires IsStaged(job, k) && Aside(job, p)
    ensures var r := InstallInside(job, w, k, step, second);
            r.Stopped? || p != job.Target(k) ==> At(r.world, p) == LeftBy(At(w, p), p, r.foreign)
  {
    var after := AfterMkdir(w, job.Target(k), step);
    if after.None? {
      DisturbAt(w, step.beforeMkdir, p);
      LeftByShort(At(w, p), p, step.beforeMkdir, step.beforeSecond);
    } else {
      AfterMkdirAt(w, job.Target(k), step, p);
      if second.Allowed? {
        ApartFromTemp(job, p, k);
        CheckedKeeps(job, after.value, k, step, p);
        var run := InstallChecked(job, after.value, k, step);
        if run.Stopped? || p != job.Target(k) {
          AfterLeaves([step.beforeMkdir, step.beforeSecond], run, At(w, p), p);
        }
      }
    }
  }

  /** Every path but the target, the temp file and missing directories is left to the
      other processes; when the step stops, so is the target. */
  lemma InstallKeeps(job: Job, w: World, k: nat, step: Step, checks: Checks, p: Path)
    requires IsStaged(job, k) && Aside(job, p)
    ensures var r := InstallOne(job, w, k, step, checks);
            r.Stopped? || p != job.Target(k) ==> At(r.world, p) == LeftBy(At(w, p), p, r.foreign)
  {
    var w0, w1 := Disturb(w, step.beforeTemp), AtFirstCheck(w, step);
    DisturbAt(w, step.beforeTemp, p);
    LeftByShort(At(w, p), p, step.beforeTemp, step.beforeFirst);
    DisturbTwiceAt(w, step.beforeTemp, step.beforeFirst, p);
    if job.TempPath(k) in w0.tree && checks.first.Allowed? {
      InsideKeeps(job, w1, k, step, checks.second, p);
      var run := InstallInside(job, w1, k, step, checks.second);
      if run.Stopped? || p != job.Target(k) {
        AfterLeaves([step.beforeTemp, step.beforeFirst], run, At(w, p), p);
      }
    }
  }

  ghost predicate Within(foreign: seq<Interference>, others: seq<Interference>) {
    forall f :: f in foreign ==> f in others
  }

  lemma CheckedMeets(job: Job, w: World, k: nat, step: Step)
    requires k < |job.entries| && job.entries[k].tempPath.Some?
    ensures Within(InstallChecked(job, w, k, step).foreign, step.Others())
  {
  }

  lemma InsideMeets(job: Job, w: World, k: nat, step: Step, second: Verdict)
    requires k < |job.entries| && job.entries[k].tempPath.Some?
    ensures Within(InstallInside(job, w, k, step, second).foreign, step.Others())
  {
    var after := AfterMkdir(w, job.Target(k), step);
    if after.Some? { CheckedMeets(job, after.value, k, step); }
  }

  /** Only what the step lists happens during it. */
  lemma InstallMeets(job: Job, w: World, k: nat, step: Step, checks: Checks)
    requires k < |job.entries|
    ensures Within(InstallOne(job, w, k, step, checks).foreign, step.Others())
  {
    if job.entries[k].tempPath.Some? { InsideMeets(job, AtFirstCheck(w, step), k, step, checks.second); }
  }

  lemma DisturbKeepsTemps(job: Job, w: World, foreign: Interference)
    requires TempsIntact(job, w) && Spares(job, foreign)
    ensures TempsIntact(job, Disturb(w, foreign))
  {
    forall i: nat | i < |job.entries| && job.TempPath(i) in Disturb(w, foreign).tree
      ensures Disturb(w, foreign).tree[job.TempPath(i)] == File(job.entries[i].newContent)
    {
      assert job.TempDir() <= job.TempPath(i);
    }
  }

  lemma MkdirKeepsTemps(job: Job, w: World, k: nat)
    requires k < |job.entries| && Aside(job, job.Target(k)) && TempsIntact(job, w)
             && Mkdir(w, Parent(job.Target(k))).Some?
    ensures TempsIntact(job, Mkdir(w, Parent(job.Target(k))).value)
  {
    var w1 := Mkdir(w, Parent(job.Target(k))).value;
    forall i: nat | i < |job.entries| && job.TempPath(i) in w1.tree
      ensures w1.tree[job.TempPath(i)] == File(job.entries[i].newContent)
    {
      assert job.TempDir() <= job.TempPath(i) && Parent(job.Target(k)) <= job.Target(k);
      MkdirAt(w, Parent(job.Target(k)), job.TempPath(i));
    }
  }

  lemma RenameKeepsTemps(job: Job, w: World, k: nat)
    requires k < |job.entries| && Aside(job, job.Target(k)) && TempsIntact(job, w)
    requires Rename(w, job.TempPath(k), job.Target(k)).Some?
    ensures TempsIntact(job, Rename(w, job.TempPath(k), job.Target(k)).value)
    ensures At(Rename(w, job.TempPath(k), job.Target(k)).value, job.Target(k)) == Some(File(job.entries[k].newContent))
  {
    forall i: nat | i < |job.entries| ensures job.TempPath(i) != job.Target(k) {
      assert job.TempDir() <= job.TempPath(i);
    }
  }

  lemma AfterMkdirKeepsTemps(job: Job, w: World, k: nat, step: Step)
    requires k < |job.entries| && Aside(job, job.Target(k)) && TempsIntact(job, w)
    requires Spares(job, step.beforeMkdir) && Spares(job, step.beforeSecond)
    requires AfterMkdir(w, job.Target(k), step).Some?
    ensures TempsIntact(job, AfterMkdir(w, job.Target(k), step).value)
  {
    var w1 := Disturb(w, step.beforeMkdir);
    DisturbKeepsTemps(job, w, step.beforeMkdir);
    MkdirKeepsTemps(job, w1, k);
    DisturbKeepsTemps(job, Mkdir(w1, Parent(job.Target(k))).value, step.beforeSecond);
  }

  /** The new content is in the target, if it was installed, and the other temp files are
      as they were. */
  ghost predicate Wrote(job: Job, k: nat, r: StepRun)
    requires k < |job.entries|
  {
    && TempsIntact(job, r.world)
    && (r.Installed? ==> At(r.world, job.Target(k)) == Some(File(job.entries[k].newContent)))
  }

  lemma CheckedWrites(job: Job, w: World, k: nat, step: Step)
    requires IsStaged(job, k) && Aside(job, job.Target(k)) && TempsIntact(job, w) && AllSpare(job, step.Others())
    ensures Wrote(job, k, InstallChecked(job, w, k, step))
  {
    assert step.beforeHash in step.Others() && step.beforeRename in step.Others();
    var hashed := Disturb(w, step.beforeHash);
    var found := Disturb(hashed, step.beforeRename);
    DisturbKeepsTemps(job, w, step.beforeHash);
    DisturbKeepsTemps(job, hashed, step.beforeRename);
    if Rename(found, job.TempPath(k), job.Target(k)).Some? { RenameKeepsTemps(job, found, k); }
  }

  lemma InsideWrites(job: Job, w: World, k: nat, step: Step, second: Verdict)
    requires IsStaged(job, k) && Aside(job, job.Target(k)) && TempsIntact(job, w) && AllSpare(job, step.Others())
    ensures Wrote(job, k, InstallInside(job, w, k, step, second))
  {
    assert step.beforeMkdir in step.Others() && step.beforeSecond in step.Others();
    DisturbKeepsTemps(job, w, step.beforeMkdir);
    var after := AfterMkdir(w, job.Target(k), step);
    if after.Some? {
      AfterMkdirKeepsTemps(job, w, k, step);
      CheckedWrites(job, after.value, k, step);
    }
  }

  /** An installation leaves the new content in the target and the other temp files as
      they were. */
  lemma InstallWrites(job: Job, w: World, k: nat, step: Step, checks: Checks)
    requires IsStaged(job, k) && Aside(job, job.Target(k)) && TempsIntact(job, w) && AllSpare(job, step.Others())
    ensures Wrote(job, k, InstallOne(job, w, k, step, checks))
  {
    assert step.beforeTemp in step.Others() && step.beforeFirst in step.Others();
    DisturbKeepsTemps(job, w, step.beforeTemp);
    DisturbKeepsTemps(job, Disturb(w, step.beforeTemp), step.beforeFirst);
    if job.TempPath(k) in Disturb(w, step.beforeTemp).tree {
      InsideWrites(job, AtFirstCheck(w, step), k, step, checks.second);
    }
  }

  // ----- the commit loop -----

  ghost predicate AllStaged(job: Job) {
    forall i: nat :: i < |job.entries| ==> job.entries[i].tempPath == Some(job.TempPath(i))
  }

  /** `p` is the `i`-th target, or no target at all when there is no `i`-th file. */
  ghost predicate IsTarget(job: Job, p: Path, i: nat) {
    && Aside(job, p)
    && (forall j: nat :: j < |job.entries| ==> (p == job.Target(j) <==> i == j))
  }

  /** What the `i`-th target holds after its installation: the new content, as other
      processes left it during the steps since then. */
  ghost predicate SinceInstalled(job: Job, steps: nat -> Step, i: nat, node: Option<Node>, past: seq<Interference>)
    requires i < |job.entries|
  {
    exists cut: nat :: cut <= |past| && NewSince(job, steps, i, node, past, cut)
  }

  ghost predicate NewSince(job: Job, steps: nat -> Step, i: nat, node: Option<Node>, past: seq<Interference>, cut: nat)
    requires i < |job.entries| && cut <= |past|
  {
    && node == LeftBy(Some(File(job.entries[i].newContent)), job.Target(i), past[cut..])
    && forall f :: f in past[cut..] ==> InLaterStep(job, steps, i, f)
  }

  ghost predicate InLaterStep(job: Job, steps: nat -> Step, i: nat, f: Interference) {
    exists k: nat :: i < k < |job.entries| && f in steps(k).Others()
  }

  /** If nobody edits it any more, that is the new content. */
  lemma SinceInstalledIsNew(job: Job, steps: nat -> Step, i: nat, node: Option<Node>, past: seq<Interference>)
    requires i < |job.entries| && SinceInstalled(job, steps, i, node, past) && LeavesInstalled(job, steps, i)
    ensures node == Some(File(job.entries[i].newContent))
  {
    var cut: nat :| cut <= |past| && NewSince(job, steps, i, node, past, cut);
    forall f | f in past[cut..] ensures job.Target(i) !in f.edits { assert InLaterStep(job, steps, i, f); }
    LeftBySpared(Some(File(job.entries[i].newContent)), job.Target(i), past[cut..]);
  }

  lemma NewSinceGrows(job: Job, steps: nat -> Step, i: nat, node: Option<Node>, past: seq<Interference>,
                      more: seq<Interference>)
    requires i < |job.entries| && SinceInstalled(job, steps, i, node, past)
    requires forall f :: f in more ==> InLaterStep(job, steps, i, f)
    ensures SinceInstalled(job, steps, i, LeftBy(node, job.Target(i), more), past + more)
  {
    var cut: nat :| cut <= |past| && NewSince(job, steps, i, node, past, cut);
    assert (past + more)[cut..] == past[cut..] + more;
    LeftByJoins(Some(File(job.entries[i].newContent)), job.Target(i), past[cut..], more);
    assert NewSince(job, steps, i, LeftBy(node, job.Target(i), more), past + more, cut);
  }

  lemma NewNow(job: Job, steps: nat -> Step, i: nat, past: seq<Interference>)
    requires i < |job.entries|
    ensures SinceInstalled(job, steps, i, Some(File(job.entries[i].newContent)), past)
  {
    assert past[|past|..] == [];
    assert NewSince(job, steps, i, Some(File(job.entries[i].newContent)), past, |past|);
  }

  /** At the head of the loop before file `j`: the `i`-th target has its new content since
      it was installed, and until then only other processes have touched it. */
  ghost predicate LoopHolds(job: Job, was: World, p: Path, i: nat, v: World, j: nat, past: seq<Interference>,
                            steps: nat -> Step)
  {
    && TempsIntact(job, v)
    && (if i < j && i < |job.entries| then SinceInstalled(job, steps, i, At(v, p), past)
        else At(v, p) == LeftBy(At(was, p), p, past))
  }

  lemma StepHolds(job: Job, was: World, p: Path, i: nat, v: World, m: Option<Memory>, j: nat,
                  past: seq<Interference>, steps: nat -> Step)
    requires AllStaged(job) && StepsSpare(job, steps) && IsTarget(job, p, i) && j < |job.entries|
    requires Aside(job, job.Target(j)) && job.entries[j].relative != []
    requires LoopHolds(job, was, p, i, v, j, past, steps)
    ensures var one := InstallerOf(job, steps)(v, m, j).0;
            LoopHolds(job, was, p, i, one.world, if one.Installed? then j + 1 else j, past + one.foreign, steps)
  {
    var step, checks := steps(j), ChecksAt(job, v, m, j, steps(j));
    var one := InstallOne(job, v, j, step, checks);
    assert AllSpare(job, step.Others());
    InstallerIs(job, steps, v, m, j);
    InstallWrites(job, v, j, step, checks);
    InstallKeeps(job, v, j, step, checks, p);
    if i < j {
      InstallMeets(job, v, j, step, checks);
      assert p == job.Target(i);
      forall f | f in one.foreign ensures InLaterStep(job, steps, i, f) { assert f in steps(j).Others(); }
      NewSinceGrows(job, steps, i, At(v, p), past, one.foreign);
    } else if i == j && one.Installed? {
      NewNow(job, steps, i, past + one.foreign);
    } else {
      LeftByJoins(At(was, p), p, past, one.foreign);
    }
  }

  lemma CommitHolds(job: Job, w: World, p: Path, i: nat, steps: nat -> Step)
    requires WellFormed(job) && AllStaged(job) && StepsSpare(job, steps) && IsTarget(job, p, i) && TempsIntact(job, w)
    ensures var run := Commit(job, w, steps); LoopHolds(job, w, p, i, run.world, |run.installed|, run.foreign, steps)
  {
    var inv := (v: World, j: nat, past: seq<Interference>) => LoopHolds(job, w, p, i, v, j, past, steps);
    var install, memory := InstallerOf(job, steps), FreshMemory(w, job.root);
    forall v, m, j: nat, past | 0 <= j < |job.entries| && inv(v, j, past)
      ensures var one := install(v, m, j).0;
              LoopHolds(job, w, p, i, one.world, if one.Installed? then j + 1 else j, past + one.foreign, steps)
    {
      TargetIsAside(job, j);
      StepHolds(job, w, p, i, v, m, j, past, steps);
    }
    LoopInvariant(install, |job.entries|, w, memory, 0, [], inv);
    var run := Commit(job, w, steps);
    assert [] + run.foreign == run.foreign;
  }

  /** What guarded the `j`-th installation, whatever other processes did: at the second
      boundary check name, links and resolved place were inside the root; at the check of
      the base hash the file had the approved content, or was absent when it is to be
      created; and between each of these and the rename only the other processes acted. */
  ghost predicate Guarded(job: Job, j: nat, at: Installation, step: Step, memory: Option<Memory>, rootReal: Path,
                          secret: Path -> bool)
    requires j < |job.entries|
  {
    var target := job.Target(j);
    && RootLeadsTo(at.checked, job.root, memory, rootReal)
    && Contained(at.checked, job.root, rootReal, target, secret)
    && at.hashed == Disturb(at.checked, step.beforeHash)
    && BaseHashMatches(at.hashed, target, job.entries[j].expectedBaseHash, job.hash)
    && at.found == Disturb(at.hashed, step.beforeRename)
    && Parent(target) in at.found.tree && !(target in at.found.tree && at.found.tree[target].Dir?)
  }

  /** Every overwriting is guarded. */
  lemma InstalledIsGuarded(job: Job, w: World, steps: nat -> Step, j: nat, secret: Path -> bool)
    returns (rootReal: Path)
    requires GuardsBoundary(job, secret) && j < |Commit(job, w, steps).installed| && j < |job.entries|
    ensures Guarded(job, j, Commit(job, w, steps).installed[j], steps(j), FreshMemory(w, job.root), rootReal, secret)
  {
    var v, m := InstalledByInstaller(job, w, steps, j, secret);
    rootReal := InstallerIsGuarded(job, steps, v, m, j, FreshMemory(w, job.root), secret);
  }

  lemma InstalledByInstaller(job: Job, w: World, steps: nat -> Step, j: nat, secret: Path -> bool)
    returns (v: World, m: Option<Memory>)
    requires GuardsBoundary(job, secret) && j < |Commit(job, w, steps).installed| && j < |job.entries|
    ensures SameRoot(m, FreshMemory(w, job.root)) && InstallerOf(job, steps)(v, m, j).0.Installed?
    ensures InstallerOf(job, steps)(v, m, j).0.installation == Commit(job, w, steps).installed[j]
  {
    InstallsKeepRoot(job, steps, FreshMemory(w, job.root), secret);
    v, m := RecordsWithRoot(InstallerOf(job, steps), |job.entries|, w, FreshMemory(w, job.root), j);
  }

  lemma RecordsWithRoot(install: Installer, n: nat, w: World, memory: Option<Memory>, j: nat)
    returns (v: World, m: Option<Memory>)
    requires j < |CommitFrom(install, n, w, memory, 0).installed| && KeepsMemory(install, n, RootIs(memory))
    ensures j < n && SameRoot(m, memory)
    ensures install(v, m, j).0.Installed?
    ensures install(v, m, j).0.installation == CommitFrom(install, n, w, memory, 0).installed[j]
  {
    v, m := LoopRecords(install, n, w, memory, 0, j, RootIs(memory));
  }

  function RootIs(memory: Option<Memory>): Option<Memory> -> bool {
    (m: Option<Memory>) => SameRoot(m, memory)
  }

  lemma InstallsKeepRoot(job: Job, steps: nat -> Step, memory: Option<Memory>, secret: Path -> bool)
    requires GuardsBoundary(job, secret)
    ensures KeepsMemory(InstallerOf(job, steps), |job.entries|, RootIs(memory))
  {
    var install, kept := InstallerOf(job, steps), RootIs(memory);
    forall v, m, k: nat | k < |job.entries| && kept(m) ensures kept(install(v, m, k).1) {
      InstallerKeepsRoot(job, steps, v, m, k, memory, secret);
    }
  }

  lemma InstallerKeepsRoot(job: Job, steps: nat -> Step, w: World, m: Option<Memory>, k: nat, memory: Option<Memory>,
                           secret: Path -> bool)
    requires GuardsBoundary(job, secret) && k < |job.entries| && SameRoot(m, memory)
    ensures SameRoot(InstallerOf(job, steps)(w, m, k).1, memory)
  {
    InstallerIs(job, steps, w, m, k);
    ChecksKeepRoot(job, w, m, k, steps(k), secret);
  }

  predicate SameRoot(m: Option<Memory>, memory: Option<Memory>) {
    m.Some? == memory.Some? && (m.Some? ==> m.value.rootReal == memory.value.rootReal)
  }

  lemma ChecksKeepRoot(job: Job, w: World, memory: Option<Memory>, k: nat, step: Step, secret: Path -> bool)
    requires GuardsBoundary(job, secret) && k < |job.entries|
    ensures SameRoot(ChecksAt(job, w, memory, k, step).memory, memory)
  {
  }

  lemma InstallerIsGuarded(job: Job, steps: nat -> Step, w: World, m: Option<Memory>, k: nat, memory: Option<Memory>,
                           secret: Path -> bool) returns (rootReal: Path)
    requires GuardsBoundary(job, secret) && k < |job.entries| && SameRoot(m, memory)
    requires InstallerOf(job, steps)(w, m, k).0.Installed?
    ensures var at := InstallerOf(job, steps)(w, m, k).0.installation;
            Guarded(job, k, at, steps(k), memory, rootReal, secret)
  {
    InstallerIs(job, steps, w, m, k);
    rootReal := InstallationIsGuarded(job, w, m, k, steps(k), secret);
  }

  /** What a file goes through before it is installed. */
  lemma InstalledMeans(job: Job, w: World, k: nat, step: Step, checks: Checks)
    requires k < |job.entries| && InstallOne(job, w, k, step, checks).Installed?
    ensures var at, target := InstallOne(job, w, k, step, checks).installation, job.Target(k);
            && checks.second.Allowed? && AfterMkdir(AtFirstCheck(w, step), target, step) == Some(at.checked)
            && at.hashed == Disturb(at.checked, step.beforeHash)
            && BaseHashMatches(at.hashed, target, job.entries[k].expectedBaseHash, job.hash)
            && at.found == Disturb(at.hashed, step.beforeRename)
            && Parent(target) in at.found.tree && !(target in at.found.tree && at.found.tree[target].Dir?)
  {
  }

  lemma InstallationIsGuarded(job: Job, w: World, memory: Option<Memory>, k: nat, step: Step, secret: Path -> bool)
    returns (rootReal: Path)
    requires GuardsBoundary(job, secret) && k < |job.entries|
    requires InstallOne(job, w, k, step, ChecksAt(job, w, memory, k, step)).Installed?
    ensures var one := InstallOne(job, w, k, step, ChecksAt(job, w, memory, k, step));
            Guarded(job, k, one.installation, step, memory, rootReal, secret)
  {
    var checks := ChecksAt(job, w, memory, k, step);
    var checked := InstallOne(job, w, k, step, checks).installation.checked;
    var m1 := CheckForbidden(AtFirstCheck(w, step), job.root, memory, job.Target(k), secret).1;
    InstalledMeans(job, w, k, step, checks);
    assert checks.second == CheckForbidden(checked, job.root, m1, job.Target(k), secret).0;
    rootReal := AllowedMeansContained(checked, job.root, m1, job.Target(k), secret);
  }
}
