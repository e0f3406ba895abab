/** What a multi-file patch does to the tree: staging, the commit loop, the restore
    after a failure, and the whole life of one patch from proposal to outcome. */
module PatchCommit {
  import opened Options
  import opened Workspace
  import opened BoundaryWalk
  import TransactionHistory

  /** One file of a patch; its target is the project root followed by `relative`. */
  datatype Entry = Entry(relative: Path, oldContent: Option<string>, newContent: string,
                         expectedBaseHash: Option<string>, tempPath: Option<Path>)

  /** A boundary check: its verdict, and what it leaves in the cache. */
  type Guard = (World, Option<Memory>, Path) -> (Verdict, Option<Memory>)

  /** The fixed surroundings of one patch. `record` is the text of the snapshot record,
      `hash` the truncated content hash and `guard` the boundary check of every target. */
  datatype Job = Job(root: Path, txId: string, fileTxId: string, record: string, entries: seq<Entry>,
                     hash: string -> string, guard: Guard)
  {
    function Target(i: nat): Path
      requires i < |entries|
    {
      root + entries[i].relative
    }

    function TempDir(): Path { root + [".orcana", "patches", txId] }

    function RecordDir(): Path { root + [".orcana", "transactions"] }

    /** Where the snapshots are kept for a restore. */
    function RecordPath(): Path { RecordDir() + [fileTxId + ".json"] }

    function TempPath(i: nat): Path
      requires i < |entries|
    {
      TempDir() + entries[i].relative
    }

    /** The entries once every temp file has been written. */
    function Staged(): Job {
      this.(entries := seq(|entries|, i requires 0 <= i < |entries| => entries[i].(tempPath := Some(TempPath(i)))))
    }
  }

  /** The guard is the forbidden-file check, with `secret` the table of credential names. */
  ghost predicate GuardsBoundary(job: Job, secret: Path -> bool) {
    forall w, memory, target :: job.guard(w, memory, target) == CheckForbidden(w, job.root, memory, target, secret)
  }

  // ----- what the patch does not control -----

  /** Around the installation of one file: what other processes do before each of its
      checks and each of its system calls, and which of these calls fail. */
  datatype Step = Step(beforeTemp: Interference, beforeFirst: Interference,
                       beforeMkdir: Interference, mkdirFails: bool, beforeSecond: Interference,
                       beforeHash: Interference, beforeRename: Interference, renameFails: bool)
  {
    function Others(): seq<Interference> {
      [beforeTemp, beforeFirst, beforeMkdir, beforeSecond, beforeHash, beforeRename]
    }
  }

  datatype Answer = Approves | Declines | Throws

  datatype Script = Script(recordFails: bool, tempFault: Option<nat>, duringVerify: Interference, answer: Answer,
                           steps: nat -> Step, restoreFault: Option<nat>)

  // ----- the snapshot record -----

  /** Writes the snapshot record; the flag tells whether it was written. */
  function Propose(job: Job, w: World, fails: bool): (World, bool) {
    match Mkdir(w, job.RecordDir())
    case None => (w, false)
    case Some(made) =>
      if fails then (made, false)
      else match WriteFile(made, job.RecordPath(), job.record)
        case None => (made, false)
        case Some(written) => (written, true)
  }

  /** A restore reads the record first. One that somebody rewrote counts as unreadable. */
  predicate RecordReadable(job: Job, w: World) {
    !w.locked(job.RecordPath()) && At(w, job.RecordPath()) == Some(File(job.record))
  }

  // ----- base hash -----

  /** A new file must still be absent; an old one must be a readable regular file whose
      content has the approved hash. */
  predicate BaseHashMatches(w: World, p: Path, expected: Option<string>, hash: string -> string) {
    match expected
    case None => Lstat(w, p).Absent?
    case Some(h) => !w.locked(p) && p in w.tree && w.tree[p].File? && hash(w.tree[p].content) == h
  }

  // ----- staging -----

  /** Writes one temp file. */
  function StageOne(job: Job, w: World, i: nat): Option<World>
    requires i < |job.entries|
  {
    match Mkdir(w, Parent(job.TempPath(i)))
    case None => None
    case Some(made) => WriteFile(made, job.TempPath(i), job.entries[i].newContent)
  }

  /** Writes the temp files from the `i`-th on; the flag tells whether all were written. */
  function StageFrom(job: Job, w: World, i: nat, fault: Option<nat>): (World, bool)
    requires i <= |job.entries|
    decreases |job.entries| - i
  {
    if i == |job.entries| then (w, true)
    else if fault == Some(i) then (w, false)
    else match StageOne(job, w, i)
      case None => (w, false)
      case Some(staged) => StageFrom(job, staged, i + 1, fault)
  }

  // ----- the commit loop -----

  datatype Failure =
    | FreshnessConflict(committedCount: nat)
    | PathConflict(reason: Verdict, committedCount: nat)
    | OtherFailure

  /** The worlds one installation met: at its second boundary check, at the check of the
      base hash, and just before the rename. */
  datatype Installation = Installation(checked: World, hashed: World, found: World)

  /** What the installation of one file leads to; `foreign` is what other processes did
      meanwhile. */
  datatype StepRun =
    | Installed(world: World, installation: Installation, foreign: seq<Interference>)
    | Stopped(world: World, failure: Failure, foreign: seq<Interference>)

  /** The same run, preceded by what other processes did earlier. */
  function After(earlier: seq<Interference>, run: StepRun): StepRun {
    run.(foreign := earlier + run.foreign)
  }

  /** The two boundary checks of one installation, and the memory they leave. */
  datatype Checks = Checks(first: Verdict, second: Verdict, memory: Option<Memory>)

  /** The world of the first boundary check. */
  function AtFirstCheck(w: World, step: Step): World {
    Disturb(Disturb(w, step.beforeTemp), step.beforeFirst)
  }

  /** From the first boundary check to the second: the target's directory is made. */
  function AfterMkdir(w: World, target: Path, step: Step): Option<World> {
    if step.mkdirFails then None
    else match Mkdir(Disturb(w, step.beforeMkdir), Parent(target))
      case None => None
      case Some(made) => Some(Disturb(made, step.beforeSecond))
  }

  /** Installs the `k`-th file: temp file there, boundary, directory, boundary again,
      base hash, rename. */
  function InstallOne(job: Job, w: World, k: nat, step: Step, checks: Checks): StepRun
    requires k < |job.entries|
  {
    var temp := job.entries[k].tempPath;
    var w0, w1 := Disturb(w, step.beforeTemp), AtFirstCheck(w, step);
    if temp.None? || temp.value !in w0.tree then Stopped(w0, OtherFailure, [step.beforeTemp])
    else
      var foreign := [step.beforeTemp, step.beforeFirst];
      if !checks.first.Allowed? then Stopped(w1, PathConflict(checks.first, k), foreign)
      else After(foreign, InstallInside(job, w1, k, step, checks.second))
  }

  /** The installation from the directory on. */
  function InstallInside(job: Job, w: World, k: nat, step: Step, second: Verdict): StepRun
    requires k < |job.entries| && job.entries[k].tempPath.Some?
  {
    match AfterMkdir(w, job.Target(k), step)
    case None => Stopped(Disturb(w, step.beforeMkdir), OtherFailure, [step.beforeMkdir])
    case Some(checked) =>
      var foreign := [step.beforeMkdir, step.beforeSecond];
      if !second.Allowed? then Stopped(checked, PathConflict(second, k), foreign)
      else After(foreign, InstallChecked(job, checked, k, step))
  }

  /** The installation from the base hash on. */
  function InstallChecked(job: Job, checked: World, k: nat, step: Step): StepRun
    requires k < |job.entries| && job.entries[k].tempPath.Some?
  {
    var e, target := job.entries[k], job.Target(k);
    var hashed := Disturb(checked, step.beforeHash);
    if !BaseHashMatches(hashed, target, e.expectedBaseHash, job.hash) then
      Stopped(hashed, FreshnessConflict(k), [step.beforeHash])
    else
      var found, foreign := Disturb(hashed, step.beforeRename), [step.beforeHash, step.beforeRename];
      if step.renameFails || Rename(found, e.tempPath.value, target).None? then Stopped(found, OtherFailure, foreign)
      else Installed(Rename(found, e.tempPath.value, target).value, Installation(checked, hashed, found), foreign)
  }

  /** What the checks say, made where the installation makes them. */
  function ChecksAt(job: Job, w: World, memory: Option<Memory>, k: nat, step: Step): Checks
    requires k < |job.entries|
  {
    var w1 := AtFirstCheck(w, step);
    var (first, m1) := job.guard(w1, memory, job.Target(k));
    match AfterMkdir(w1, job.Target(k), step)
    case None => Checks(first, first, m1)
    case Some(checked) =>
      var (second, m2) := job.guard(checked, m1, job.Target(k));
      Checks(first, second, m2)
  }

  /** The installation of the `k`-th file, as a function of the tree and the cache. */
  type Installer = (World, Option<Memory>, nat) -> (StepRun, Option<Memory>)

  function InstallerOf(job: Job, steps: nat -> Step): Installer {
    (w: World, memory: Option<Memory>, k: nat) =>
      if k < |job.entries| then
        var checks := ChecksAt(job, w, memory, k, steps(k));
        (InstallOne(job, w, k, steps(k), checks), checks.memory)
      else (Stopped(w, OtherFailure, []), memory)
  }

  /** A run of the commit loop: the tree it leaves, the worlds of each installation, what
      other processes did meanwhile, and why it stopped, if it did. */
  datatype CommitRun = CommitRun(world: World, installed: seq<Installation>, foreign: seq<Interference>,
                                 failure: Option<Failure>)

  /** Installs files `k` up to `n`, stopping at the first that fails. */
  function CommitFrom(install: Installer, n: nat, w: World, memory: Option<Memory>, k: nat): CommitRun
    requires k <= n
    decreases n - k
  {
    if k == n then CommitRun(w, [], [], None)
    else
      var (one, m1) := install(w, memory, k);
      if one.Stopped? then CommitRun(one.world, [], one.foreign, Some(one.failure))
      else
        var rest := CommitFrom(install, n, one.world, m1, k + 1);
        CommitRun(rest.world, [one.installation] + rest.installed, one.foreign + rest.foreign, rest.failure)
  }

  // ----- restoring snapshots -----

  /** Puts one snapshot back: the old content, or no file where there was none. */
  function RestoreOne(w: World, target: Path, oldContent: Option<string>): Option<World> {
    match oldContent
    case Some(content) =>
      (match Mkdir(w, Parent(target)) case None => None case Some(w1) => WriteFile(w1, target, content))
    case None =>
      if target !in w.tree then Some(w) else if w.tree[target].Dir? then None else Some(Remove(w, target))
  }

  /** Restores files `i` up to `n`; the flag tells whether all were restored. */
  function RestoreFrom(job: Job, w: World, i: nat, n: nat, fault: Option<nat>): (World, bool)
    requires i <= n <= |job.entries|
    decreases n - i
  {
    if i == n then (w, true)
    else if fault == Some(i) then (w, false)
    else match RestoreOne(w, job.Target(i), job.entries[i].oldContent)
      case None => (w, false)
      case Some(w1) => RestoreFrom(job, w1, i + 1, n, fault)
  }

  /** When one snapshot can be put back: for old content, no file stands on the way to the
      target and nothing but a file in its place; for a new file, no directory in its
      place. */
  predicate Restorable(w: World, target: Path, oldContent: Option<string>) {
    match oldContent
    case Some(_) => Mkdir(w, Parent(target)).Some? && (target in w.tree ==> w.tree[target].File?)
    case None => target in w.tree ==> !w.tree[target].Dir?
  }

  predicate RestorableAt(job: Job, w: World, i: nat)
    requires i < |job.entries|
  {
    Restorable(w, job.Target(i), job.entries[i].oldContent)
  }

  /** When the first `n` files can all be put back, as the tree stands before the restore:
      the record is there, no write fails, and every file is restorable. */
  predicate RestoresAll(job: Job, w: World, n: nat, fault: Option<nat>)
    requires n <= |job.entries|
  {
    && RecordReadable(job, w) && (fault.None? || fault.value >= n)
    && forall i: nat :: i < n ==> RestorableAt(job, w, i)
  }

  /** A whole restore of the first `n` files: the record is read, then each snapshot put
      back. */
  function RestoreSnapshots(job: Job, w: World, n: nat, fault: Option<nat>): (World, bool)
    requires n <= |job.entries|
  {
    if RecordReadable(job, w) then RestoreFrom(job, w, 0, n, fault) else (w, false)
  }

  // ----- the whole life of a patch -----

  /** How a patch ends; it is not even proposed when its record cannot be written. A
      failed restore is swallowed: the caller sees only the first failure either way. */
  datatype Ending = NotProposed | Done | Declined | Failed(failure: Failure, restored: bool)

  datatype Outcome = Outcome(world: World, ending: Ending, installed: seq<Installation>,
                             foreign: seq<Interference>, events: seq<TransactionHistory.Event>)

  /** How many files a failure makes the patch restore: after a conflict those already
      installed, after anything else all of them. */
  function RestoreCount(job: Job, failure: Failure): nat {
    match failure
    case FreshnessConflict(k) => k
    case PathConflict(_, k) => k
    case OtherFailure => |job.entries|
  }

  /** The tree a recovery leaves, whether it restored all it had to, and what it adds to
      the history. */
  function Recovered(job: Job, w: World, failure: Failure, fault: Option<nat>)
    : (World, bool, seq<TransactionHistory.Event>)
    requires RestoreCount(job, failure) <= |job.entries|
  {
    var n := RestoreCount(job, failure);
    if n == 0 && !failure.OtherFailure? then (RemoveTree(w, job.TempDir()), true, [])
    else
      var (w1, restored) := RestoreSnapshots(job, w, n, fault);
      (RemoveTree(w1, job.TempDir()), restored,
       if restored then [TransactionHistory.RolledBack(job.fileTxId)] else [])
  }

  function Recover(job: Job, w: World, failure: Failure, installed: seq<Installation>, foreign: seq<Interference>,
                   fault: Option<nat>): Outcome
    requires RestoreCount(job, failure) <= |job.entries|
  {
    var (w1, restored, events) := Recovered(job, w, failure, fault);
    Outcome(w1, Failed(failure, restored), installed, foreign, events)
  }

  /** All that follows the proposal. */
  function RunProposed(job: Job, w: World, script: Script): Outcome {
    var (w2, staged) := StageFrom(job, RemoveTree(w, job.TempDir()), 0, script.tempFault);
    if staged then RunStaged(job, Disturb(w2, script.duringVerify), script)
    else Recover(job, w2, OtherFailure, [], [], script.restoreFault)
  }

  /** All that follows the verification. */
  function RunStaged(job: Job, w: World, script: Script): Outcome {
    match script.answer
    case Throws => Recover(job, w, OtherFailure, [], [script.duringVerify], script.restoreFault)
    case Declines => Outcome(RemoveTree(w, job.TempDir()), Declined, [], [script.duringVerify], [])
    case Approves =>
      var run := Commit(job.Staged(), w, script.steps);
      var foreign := [script.duringVerify] + run.foreign;
      match run.failure
      case None =>
        Outcome(RemoveTree(run.world, job.TempDir()), Done, run.installed, foreign,
                [TransactionHistory.Committed(job.txId)])
      case Some(failure) =>
        ConflictCountsInstalled(job.Staged(), w, FreshMemory(w, job.root), 0, script.steps);
        Recover(job, run.world, failure, run.installed, foreign, script.restoreFault)
  }

  /** The tree a failed patch hands to its recovery: as staging, the verification or the
      commit loop left it. */
  function TreeAtFailure(job: Job, w: World, script: Script): World {
    var (w2, staged) := StageFrom(job, RemoveTree(w, job.TempDir()), 0, script.tempFault);
    var w3 := Disturb(w2, script.duringVerify);
    if !staged then w2
    else if script.answer.Approves? then Commit(job.Staged(), w3, script.steps).world
    else w3
  }

  function ApplyAndCommitOutcome(job: Job, w: World, script: Script): Outcome {
    var (w1, recorded) := Propose(job, w, script.recordFails);
    if recorded then RunProposed(job, w1, script) else Outcome(w1, NotProposed, [], [], [])
  }

  /** The whole commit loop, with a cache made at its start. */
  function Commit(job: Job, w: World, steps: nat -> Step): CommitRun {
    CommitFrom(InstallerOf(job, steps), |job.entries|, w, FreshMemory(w, job.root), 0)
  }

  /** The `k`-th installation, when it stops at a conflict, reports `k`. */
  ghost predicate ReportsPosition(install: Installer, n: nat) {
    forall v, m, j: nat | j < n ::
      var one := install(v, m, j).0;
      one.Stopped? && !one.failure.OtherFailure? ==> one.failure.committedCount == j
  }

  lemma InstallerIs(job: Job, steps: nat -> Step, w: World, memory: Option<Memory>, k: nat)
    requires k < |job.entries|
    ensures var checks := ChecksAt(job, w, memory, k, steps(k));
            InstallerOf(job, steps)(w, memory, k) == (InstallOne(job, w, k, steps(k), checks), checks.memory)
  {
  }

  lemma OneReportsPosition(job: Job, w: World, k: nat, step: Step, checks: Checks)
    requires k < |job.entries|
    ensures var one := InstallOne(job, w, k, step, checks);
            one.Stopped? && !one.failure.OtherFailure? ==> one.failure.committedCount == k
  {
  }

  lemma InstallerReportsPosition(job: Job, steps: nat -> Step)
    ensures ReportsPosition(InstallerOf(job, steps), |job.entries|)
  {
    var install := InstallerOf(job, steps);
    forall v, m, j: nat | j < |job.entries|
      ensures var one := install(v, m, j).0;
              one.Stopped? && !one.failure.OtherFailure? ==> one.failure.committedCount == j
    {
      InstallerIs(job, steps, v, m, j);
      OneReportsPosition(job, v, j, steps(j), ChecksAt(job, v, m, j, steps(j)));
    }
  }

  lemma {:induction false} ConflictTellsPosition(install: Installer, n: nat, w: World, memory: Option<Memory>, k: nat)
    requires k <= n && ReportsPosition(install, n)
    ensures var run := CommitFrom(install, n, w, memory, k);
            && k + |run.installed| <= n
            && (run.failure.None? <==> k + |run.installed| == n)
            && (run.failure.Some? && !run.failure.value.OtherFailure? ==>
                  run.failure.value.committedCount == k + |run.installed|)
    decreases n - k
  {
    if k < n {
      var (one, m1) := install(w, memory, k);
      if one.Installed? { ConflictTellsPosition(install, n, one.world, m1, k + 1); }
    }
  }

  /** A conflict reports exactly how many files were installed before it. */
  lemma ConflictCountsInstalled(job: Job, w: World, memory: Option<Memory>, k: nat, steps: nat -> Step)
    requires k <= |job.entries|
    ensures var run := CommitFrom(InstallerOf(job, steps), |job.entries|, w, memory, k);
            && k + |run.installed| <= |job.entries|
            && (run.failure.None? <==> k + |run.installed| == |job.entries|)
            && (run.failure.Some? && !run.failure.value.OtherFailure? ==>
                  RestoreCount(job, run.failure.value) == k + |run.installed|)
  {
    InstallerReportsPosition(job, steps);
    ConflictTellsPosition(InstallerOf(job, steps), |job.entries|, w, memory, k);
  }

  /** One turn of the loop. */
  lemma CommitUnfolds(install: Installer, n: nat, w: World, memory: Option<Memory>, k: nat, one: StepRun,
                      m1: Option<Memory>)
    requires k < n && install(w, memory, k) == (one, m1)
    ensures var run := CommitFrom(install, n, w, memory, k);
            && (one.Stopped? ==> run.world == one.world && run.failure == Some(one.failure))
            && (one.Installed? ==>
                  var rest := CommitFrom(install, n, one.world, m1, k + 1);
                  run.world == rest.world && run.failure == rest.failure)
  {
  }

  /** An induction principle for the loop: what holds before the first installation and
      is kept by each holds, for the files installed, when the loop ends. The last
      argument of `inv` is what other processes have done so far. */
  lemma {:induction false} LoopInvariant(install: Installer, n: nat, w: World, memory: Option<Memory>, k: nat,
                                         past: seq<Interference>, inv: (World, nat, seq<Interference>) -> bool)
    requires k <= n && inv(w, k, past)
    requires forall v, m, j: nat, f | k <= j < n && inv(v, j, f) :: install(v, m, j).0.Installed? ==>
               inv(install(v, m, j).0.world, j + 1, f + install(v, m, j).0.foreign)
    requires forall v, m, j: nat, f | k <= j < n && inv(v, j, f) :: install(v, m, j).0.Stopped? ==>
               inv(install(v, m, j).0.world, j, f + install(v, m, j).0.foreign)
    ensures var run := CommitFrom(install, n, w, memory, k); inv(run.world, k + |run.installed|, past + run.foreign)
    decreases n - k
  {
    if k == n {
      assert past + [] == past;
    } else {
      var (one, m1) := install(w, memory, k);
      if one.Installed? {
        var rest := CommitFrom(install, n, one.world, m1, k + 1);
        LoopInvariant(install, n, one.world, m1, k + 1, past + one.foreign, inv);
        assert past + one.foreign + rest.foreign == past + (one.foreign + rest.foreign);
      }
    }
  }

  ghost predicate KeepsMemory(install: Installer, n: nat, kept: Option<Memory> -> bool) {
    forall v, m, j: nat | j < n && kept(m) :: kept(install(v, m, j).1)
  }

  /** Each recorded installation was made by the installer, from a cache for which
      whatever every installation keeps still holds. */
  lemma {:induction false} LoopRecords(install: Installer, n: nat, w: World, memory: Option<Memory>, k: nat, j: nat,
                                       kept: Option<Memory> -> bool)
    returns (v: World, m: Option<Memory>)
    requires k <= n && j < |CommitFrom(install, n, w, memory, k).installed| && kept(memory)
    requires KeepsMemory(install, n, kept)
    ensures k + j < n && kept(m)
    ensures install(v, m, k + j).0.Installed?
            && install(v, m, k + j).0.installation == CommitFrom(install, n, w, memory, k).installed[j]
    decreases n - k
  {
    var (one, m1) := install(w, memory, k);
    if j == 0 {
      v, m := w, memory;
    } else {
      v, m := LoopRecords(install, n, one.world, m1, k + 1, j - 1, kept);
    }
  }
}
