/** All-or-nothing, what a restore undoes, and the commit history of a patch, for every
    file list, every tree, every failing system call and every interfering process. */
module PatchProofs {
  import opened Options
  import opened Workspace
  import opened BoundaryWalk
  import opened PatchCommit
  import opened PatchInstall
  import TransactionHistory

  // ----- restoring -----

  lemma RestoreOneAt(w: World, target: Path, oldContent: Option<string>, p: Path)
    requires RestoreOne(w, target, oldContent).Some? && p != target && !(p <= Parent(target))
    ensures At(RestoreOne(w, target, oldContent).value, p) == At(w, p)
  {
    if oldContent.Some? { MkdirAt(w, Parent(target), p); }
  }

  lemma {:induction false} RestoreKeeps(job: Job, w: World, i: nat, n: nat, fault: Option<nat>, p: Path)
    requires i <= n <= |job.entries|
    requires forall j: nat :: j < |job.entries| ==> !(p <= Parent(job.Target(j)))
    requires forall j: nat :: i <= j < n ==> p != job.Target(j)
    ensures At(RestoreFrom(job, w, i, n, fault).0, p) == At(w, p)
    decreases n - i
  {
    if i < n && fault != Some(i) {
      var one := RestoreOne(w, job.Target(i), job.entries[i].oldContent);
      if one.Some? {
        RestoreOneAt(w, job.Target(i), job.entries[i].oldContent, p);
        RestoreKeeps(job, one.value, i + 1, n, fault, p);
      }
    }
  }

  lemma RestoreOneRestores(w: World, target: Path, oldContent: Option<string>)
    requires RestoreOne(w, target, oldContent).Some?
    ensures At(RestoreOne(w, target, oldContent).value, target)
            == (if oldContent.None? then None else Some(File(oldContent.value)))
  {
  }

  lemma RestoreUnfolds(job: Job, w: World, i: nat, n: nat, fault: Option<nat>)
    requires i < n <= |job.entries| && RestoreFrom(job, w, i, n, fault).1
    ensures var one := RestoreOne(w, job.Target(i), job.entries[i].oldContent);
            one.Some? && RestoreFrom(job, w, i, n, fault) == RestoreFrom(job, one.value, i + 1, n, fault)
  {
  }

  lemma {:induction false} RestoreRestores(job: Job, w: World, i: nat, n: nat, fault: Option<nat>, j: nat)
    requires i <= j < n <= |job.entries| && RestoreFrom(job, w, i, n, fault).1
    requires Aside(job, job.Target(j))
    requires forall k: nat :: k < |job.entries| && k != j ==> job.Target(k) != job.Target(j)
    ensures At(RestoreFrom(job, w, i, n, fault).0, job.Target(j)) == Snapshot(job.entries[j])
    decreases n - i
  {
    var one := RestoreOne(w, job.Target(i), job.entries[i].oldContent);
    RestoreUnfolds(job, w, i, n, fault);
    if i == j {
      RestoreOneRestores(w, job.Target(j), job.entries[j].oldContent);
      RestoreKeeps(job, one.value, i + 1, n, fault, job.Target(j));
    } else {
      RestoreRestores(job, one.value, i + 1, n, fault, j);
    }
  }

  // ----- when a restore goes through -----

  lemma MkdirMakes(w: World, dir: Path)
    requires Mkdir(w, dir).Some?
    ensures dir in Mkdir(w, dir).value.tree && !Mkdir(w, dir).value.tree[dir].File?
  {
  }

  /** Where a directory can be made, making it does not decide about others. */
  lemma {:induction false} NewDirKeepsMkdir(w: World, dir: Path, q: Path)
    requires dir !in w.tree && Mkdir(w, dir).Some?
    ensures Mkdir(w.(tree := w.tree[dir := Dir]), q).Some? <==> Mkdir(w, q).Some?
    decreases |q|
  {
    if q !in w.tree && q != dir && q != [] { NewDirKeepsMkdir(w, dir, Parent(q)); }
  }

  lemma {:induction false} MkdirKeepsMkdir(w: World, dir: Path, q: Path)
    requires Mkdir(w, dir).Some?
    ensures Mkdir(Mkdir(w, dir).value, q).Some? <==> Mkdir(w, q).Some?
    decreases |dir|
  {
    if dir !in w.tree {
      if dir == [] {
        NewDirKeepsMkdir(w, dir, q);
      } else {
        var above := Mkdir(w, Parent(dir)).value;
        MkdirKeepsMkdir(w, Parent(dir), q);
        MkdirMakes(w, Parent(dir));
        MkdirAt(w, Parent(dir), dir);
        NewDirKeepsMkdir(above, dir, q);
      }
    }
  }

  /** What happens at `t` does not matter for directories that are not below it. */
  lemma {:induction false} ElsewhereKeepsMkdir(w: World, v: World, t: Path, q: Path)
    requires !(t <= q) && forall p :: p != t ==> At(v, p) == At(w, p)
    ensures Mkdir(v, q).Some? <==> Mkdir(w, q).Some?
    decreases |q|
  {
    assert At(v, q) == At(w, q);
    if q !in w.tree && q != [] {
      assert Parent(q) <= q;
      ElsewhereKeepsMkdir(w, v, t, Parent(q));
    }
  }

  lemma RestoreOneExactly(w: World, t: Path, oldContent: Option<string>)
    requires t != []
    ensures RestoreOne(w, t, oldContent).Some? <==> Restorable(w, t, oldContent)
  {
    if oldContent.Some? && Mkdir(w, Parent(t)).Some? {
      assert !(t <= Parent(t));
      MkdirMakes(w, Parent(t));
      MkdirAt(w, Parent(t), t);
    }
  }

  /** Putting one file back does not decide about another. */
  lemma RestoreOneKeepsRestorable(w: World, t: Path, oldContent: Option<string>, u: Path, other: Option<string>)
    requires t != [] && u != [] && !(t <= u) && !(u <= t) && RestoreOne(w, t, oldContent).Some?
    ensures Restorable(RestoreOne(w, t, oldContent).value, u, other) <==> Restorable(w, u, other)
  {
    var v := RestoreOne(w, t, oldContent).value;
    assert Parent(u) <= u && Parent(t) <= t;
    RestoreOneAt(w, t, oldContent, u);
    var made := if oldContent.Some? then Mkdir(w, Parent(t)).value else w;
    if oldContent.Some? { MkdirKeepsMkdir(w, Parent(t), Parent(u)); }
    forall p | p != t ensures At(v, p) == At(made, p) {
    }
    ElsewhereKeepsMkdir(made, v, t, Parent(u));
  }

  lemma RestoringKeepsRestorable(job: Job, w: World, i: nat, k: nat)
    requires WellFormed(job) && i < |job.entries| && k < |job.entries| && i != k
    requires RestoreOne(w, job.Target(i), job.entries[i].oldContent).Some?
    ensures RestorableAt(job, RestoreOne(w, job.Target(i), job.entries[i].oldContent).value, k)
       <==> RestorableAt(job, w, k)
  {
    RestoreOneKeepsRestorable(w, job.Target(i), job.entries[i].oldContent, job.Target(k), job.entries[k].oldContent);
  }

  /** Files `i` up to `n` are all put back exactly when none of their writes fails and each
      was restorable to begin with. */
  lemma {:induction false} RestoreFromExactly(job: Job, w: World, i: nat, n: nat, fault: Option<nat>)
    requires WellFormed(job) && i <= n <= |job.entries|
    ensures RestoreFrom(job, w, i, n, fault).1 <==>
            && (fault.None? || fault.value < i || fault.value >= n)
            && forall k: nat :: i <= k < n ==> RestorableAt(job, w, k)
    decreases n - i
  {
    if i < n && fault != Some(i) {
      RestoreOneExactly(w, job.Target(i), job.entries[i].oldContent);
      var one := RestoreOne(w, job.Target(i), job.entries[i].oldContent);
      if one.Some? {
        RestoreFromExactly(job, one.value, i + 1, n, fault);
        forall k: nat | i + 1 <= k < n ensures RestorableAt(job, one.value, k) <==> RestorableAt(job, w, k) {
          RestoringKeepsRestorable(job, w, i, k);
        }
      } else {
        assert !RestorableAt(job, w, i);
      }
    }
  }

  /** A restore goes through exactly when the record can be read, no write fails and every
      file is restorable in the tree it starts from. */
  lemma RestoresExactlyWhen(job: Job, w: World, n: nat, fault: Option<nat>)
    requires WellFormed(job) && n <= |job.entries|
    ensures RestoreSnapshots(job, w, n, fault).1 <==> RestoresAll(job, w, n, fault)
  {
    RestoreFromExactly(job, w, 0, n, fault);
  }

  /** Otherwise it stops at the first file that stands in the way, or at once. */
  ghost predicate StopsAt(job: Job, w: World, n: nat, fault: Option<nat>, j: nat)
    requires n <= |job.entries|
  {
    if !RecordReadable(job, w) then j == 0
    else
      && j < n && (fault == Some(j) || !RestorableAt(job, w, j))
      && forall k: nat :: k < j ==> fault != Some(k) && RestorableAt(job, w, k)
  }

  lemma {:induction false} RestoreStops(job: Job, w: World, i: nat, n: nat, fault: Option<nat>) returns (j: nat)
    requires WellFormed(job) && i <= n <= |job.entries| && !RestoreFrom(job, w, i, n, fault).1
    ensures i <= j < n && (fault == Some(j) || !RestorableAt(job, w, j))
    ensures forall k: nat :: i <= k < j ==> fault != Some(k) && RestorableAt(job, w, k)
    ensures RestoreFrom(job, w, i, j, fault) == (RestoreFrom(job, w, i, n, fault).0, true)
    decreases n - i
  {
    var one := RestoreOne(w, job.Target(i), job.entries[i].oldContent);
    RestoreOneExactly(w, job.Target(i), job.entries[i].oldContent);
    if fault == Some(i) || one.None? {
      j := i;
    } else {
      j := RestoreStops(job, one.value, i + 1, n, fault);
      forall k: nat | i + 1 <= k <= j ensures RestorableAt(job, one.value, k) <==> RestorableAt(job, w, k) {
        RestoringKeepsRestorable(job, w, i, k);
      }
    }
  }

  lemma SnapshotsStop(job: Job, w: World, n: nat, fault: Option<nat>) returns (j: nat)
    requires WellFormed(job) && n <= |job.entries| && !RestoreSnapshots(job, w, n, fault).1
    ensures j <= n && StopsAt(job, w, n, fault, j)
    ensures RestoreFrom(job, w, 0, j, fault) == (RestoreSnapshots(job, w, n, fault).0, true)
  {
    if RecordReadable(job, w) { j := RestoreStops(job, w, 0, n, fault); } else { j := 0; }
  }

  // ----- the proposal -----

  lemma ProposeAt(job: Job, w: World, fails: bool, p: Path)
    requires !(p <= job.RecordPath())
    ensures At(Propose(job, w, fails).0, p) == At(w, p)
  {
    assert job.RecordDir() <= job.RecordPath();
    if Mkdir(w, job.RecordDir()).Some? { MkdirAt(w, job.RecordDir(), p); }
  }

  /** Targets, temp files and the snapshot record do not get in one another's way. */
  lemma RecordIsApart(job: Job)
    requires WellFormed(job)
    ensures Aside(job, job.RecordPath())
    ensures forall i: nat :: i < |job.entries| ==>
              !(job.Target(i) <= job.RecordPath()) && job.RecordPath() != job.Target(i)
  {
    var record, temp, own := job.RecordPath(), job.TempDir(), job.root + [".orcana"];
    assert record[|job.root| + 1] == "transactions" && temp[|job.root| + 1] == "patches";
    assert own <= record && own <= temp;
    forall i: nat | i < |job.entries|
      ensures !(job.Target(i) <= record) && !(record <= Parent(job.Target(i)))
    {
      var t := job.Target(i);
      assert t <= record ==> t <= own || own < t;
      assert t <= own ==> t <= temp;
      assert Parent(t) <= t;
      assert record <= t ==> own < t;
    }
  }

  lemma TargetIsBystander(job: Job, i: nat)
    requires WellFormed(job) && i < |job.entries|
    ensures Bystander(job, job.Target(i))
  {
    TargetIsAside(job, i);
    RecordIsApart(job);
  }

  // ----- from the proposal to the end -----

  lemma StagedIsWellFormed(job: Job, steps: nat -> Step)
    requires WellFormed(job) && StepsSpare(job, steps)
    ensures WellFormed(job.Staged()) && StepsSpare(job.Staged(), steps) && AllStaged(job.Staged())
  {
    var s := job.Staged();
    assert s.TempDir() == job.TempDir() && s.RecordPath() == job.RecordPath();
    assert forall i: nat :: i < |job.entries| ==> s.Target(i) == job.Target(i) && s.TempPath(i) == job.TempPath(i);
    forall k: nat, f | k < |s.entries| && f in steps(k).Others() ensures Spares(s, f) {
      assert AllSpare(job, steps(k).Others()) && Spares(job, f);
    }
  }

  lemma TargetIsTarget(job: Job, i: nat)
    requires WellFormed(job) && i < |job.entries|
    ensures IsTarget(job, job.Target(i), i) && IsTarget(job.Staged(), job.Target(i), i)
  {
    TargetIsAside(job, i);
    var s := job.Staged();
    assert s.TempDir() == job.TempDir();
    assert forall j: nat :: j < |job.entries| ==> s.Target(j) == job.Target(j);
  }

  /** The tree handed to the commit loop. */
  lemma BeforeCommit(job: Job, w: World, script: Script, p: Path)
    requires WellFormed(job) && Aside(job, p) && HandsOff(job, script)
    ensures var (w2, staged) := StageFrom(job, RemoveTree(w, job.TempDir()), 0, script.tempFault);
            && At(w2, p) == At(w, p)
            && At(Disturb(w2, script.duringVerify), p) == LeftBy(At(w, p), p, [script.duringVerify])
            && (staged ==> TempsIntact(job, Disturb(w2, script.duringVerify)))
  {
    var w1 := RemoveTree(w, job.TempDir());
    StagingKeeps(job, w1, 0, script.tempFault, p);
    var (w2, staged) := StageFrom(job, w1, 0, script.tempFault);
    DisturbAt(w2, script.duringVerify, p);
    LeftByShort(At(w, p), p, script.duringVerify, script.duringVerify);
    if staged {
      StagingFillsTemps(job, w1, script.tempFault);
      forall i: nat | i < |job.entries| ensures At(w2, job.TempPath(i)) == Some(File(job.entries[i].newContent)) {
        assert TempWritten(job, w2, i);
      }
      DisturbKeepsTemps(job, w2, script.duringVerify);
    }
  }

  lemma RemoveTempAt(job: Job, w: World, p: Path)
    requires Aside(job, p)
    ensures At(RemoveTree(w, job.TempDir()), p) == At(w, p)
  {
  }

  // ----- recovery -----

  lemma RecoverAt(job: Job, w: World, failure: Failure, installed: seq<Installation>, foreign: seq<Interference>,
                  fault: Option<nat>, i: nat)
    requires WellFormed(job) && i < |job.entries| && RestoreCount(job, failure) <= |job.entries|
    ensures var o, n := Recover(job, w, failure, installed, foreign, fault), RestoreCount(job, failure);
            && (i >= n ==> At(o.world, job.Target(i)) == At(w, job.Target(i)))
            && (i < n && RestoresAll(job, w, n, fault) ==> At(o.world, job.Target(i)) == Snapshot(job.entries[i]))
  {
    var n, p := RestoreCount(job, failure), job.Target(i);
    TargetIsTarget(job, i);
    RemoveTempAt(job, w, p);
    RemoveTempAt(job, RestoreSnapshots(job, w, n, fault).0, p);
    RestoresExactlyWhen(job, w, n, fault);
    if i >= n {
      RestoreKeeps(job, w, 0, n, fault, p);
    } else if RestoreSnapshots(job, w, n, fault).1 {
      RestoreRestores(job, w, 0, n, fault, i);
    }
  }

  /** What a recovery reports: that all was put back, exactly when there was nothing to do
      or it could all be put back; and it adds to the history exactly in the second case. */
  ghost predicate TellsRestored(job: Job, w: World, o: Outcome, failure: Failure, fault: Option<nat>)
    requires RestoreCount(job, failure) <= |job.entries|
  {
    var n := RestoreCount(job, failure);
    var something, all := n > 0 || failure.OtherFailure?, RestoresAll(job, w, n, fault);
    && o.ending == Failed(failure, !something || all)
    && o.events == if something && all then [TransactionHistory.RolledBack(job.fileTxId)] else []
  }

  lemma RecoverTells(job: Job, w: World, failure: Failure, installed: seq<Installation>, foreign: seq<Interference>,
                     fault: Option<nat>)
    requires WellFormed(job) && RestoreCount(job, failure) <= |job.entries|
    ensures TellsRestored(job, w, Recover(job, w, failure, installed, foreign, fault), failure, fault)
  {
    RestoresExactlyWhen(job, w, RestoreCount(job, failure), fault);
  }

  /** What a failed restore leaves: the files before `j` put back, the others as they were. */
  lemma RecoverStopsAt(job: Job, w: World, failure: Failure, installed: seq<Installation>, foreign: seq<Interference>,
                       fault: Option<nat>) returns (j: nat)
    requires WellFormed(job) && RestoreCount(job, failure) <= |job.entries|
    requires RestoreCount(job, failure) > 0 || failure.OtherFailure?
    requires !RestoresAll(job, w, RestoreCount(job, failure), fault)
    ensures j <= RestoreCount(job, failure) && StopsAt(job, w, RestoreCount(job, failure), fault, j)
    ensures var o := Recover(job, w, failure, installed, foreign, fault);
            forall i: nat :: i < |job.entries| ==>
              At(o.world, job.Target(i)) == if i < j then Snapshot(job.entries[i]) else At(w, job.Target(i))
  {
    var o, n := Recover(job, w, failure, installed, foreign, fault), RestoreCount(job, failure);
    RestoresExactlyWhen(job, w, n, fault);
    j := SnapshotsStop(job, w, n, fault);
    forall i: nat | i < |job.entries|
      ensures At(o.world, job.Target(i)) == if i < j then Snapshot(job.entries[i]) else At(w, job.Target(i))
    {
      TargetIsTarget(job, i);
      RemoveTempAt(job, RestoreSnapshots(job, w, n, fault).0, job.Target(i));
      if i < j {
        RestoreRestores(job, w, 0, j, fault, i);
      } else {
        RestoreKeeps(job, w, 0, j, fault, job.Target(i));
      }
    }
  }

  lemma AsideUntouchedByRecovery(job: Job, w: World, failure: Failure, installed: seq<Installation>,
                                 foreign: seq<Interference>, fault: Option<nat>, p: Path)
    requires Aside(job, p) && (forall i: nat :: i < |job.entries| ==> p != job.Target(i))
    requires RestoreCount(job, failure) <= |job.entries|
    ensures var o := Recover(job, w, failure, installed, foreign, fault);
            At(o.world, p) == At(w, p) && o.foreign == foreign
  {
    var n := RestoreCount(job, failure);
    RestoreKeeps(job, w, 0, n, fault, p);
    RemoveTempAt(job, w, p);
    RemoveTempAt(job, RestoreSnapshots(job, w, n, fault).0, p);
  }

  // ----- from the proposal to the recovery -----

  /** A failed patch is recovered from the tree its failure left, and a conflict restores
      what was installed. */
  ghost predicate FailsInRecovery(job: Job, w: World, script: Script, o: Outcome) {
    o.ending.Failed? ==>
      var failure := o.ending.failure;
      && RestoreCount(job, failure) <= |job.entries|
      && (!failure.OtherFailure? ==> RestoreCount(job, failure) == |o.installed|)
      && o == Recover(job, TreeAtFailure(job, w, script), failure, o.installed, o.foreign, script.restoreFault)
  }

  lemma RecoverNames(job: Job, w: World, failure: Failure, installed: seq<Installation>, foreign: seq<Interference>,
                     fault: Option<nat>)
    requires RestoreCount(job, failure) <= |job.entries|
    ensures var o := Recover(job, w, failure, installed, foreign, fault);
            o.ending.Failed? && o.ending.failure == failure && o.installed == installed && o.foreign == foreign
  {
  }

  lemma FailureIsRecovered(job: Job, w: World, script: Script)
    ensures FailsInRecovery(job, w, script, RunProposed(job, w, script))
  {
    var (w2, staged) := StageFrom(job, RemoveTree(w, job.TempDir()), 0, script.tempFault);
    var w3 := Disturb(w2, script.duringVerify);
    if !staged {
      RecoverNames(job, w2, OtherFailure, [], [], script.restoreFault);
    } else if script.answer.Throws? {
      RecoverNames(job, w3, OtherFailure, [], [script.duringVerify], script.restoreFault);
    } else if script.answer.Approves? {
      var run := Commit(job.Staged(), w3, script.steps);
      ConflictCountsInstalled(job.Staged(), w3, FreshMemory(w3, job.root), 0, script.steps);
      if run.failure.Some? {
        RecoverNames(job, run.world, run.failure.value, run.installed, [script.duringVerify] + run.foreign,
                     script.restoreFault);
      }
    }
  }

  /** What a target holds before any recovery: the new content since it was installed, and
      until then only other processes have touched it. */
  ghost predicate LeftInstalled(job: Job, was: World, steps: nat -> Step, i: nat, w: World, installed: nat,
                                foreign: seq<Interference>)
    requires i < |job.entries|
  {
    var p := job.Target(i);
    if i < installed then SinceInstalled(job, steps, i, At(w, p), foreign)
    else At(w, p) == LeftBy(At(was, p), p, foreign)
  }

  lemma SinceStaged(job: Job, steps: nat -> Step, i: nat, node: Option<Node>, foreign: seq<Interference>,
                    first: Interference)
    requires i < |job.entries| && SinceInstalled(job.Staged(), steps, i, node, foreign)
    ensures SinceInstalled(job, steps, i, node, [first] + foreign)
  {
    var s := job.Staged();
    var cut: nat :| cut <= |foreign| && NewSince(s, steps, i, node, foreign, cut);
    assert s.Target(i) == job.Target(i) && s.entries[i].newContent == job.entries[i].newContent;
    assert ([first] + foreign)[cut + 1..] == foreign[cut..];
    forall f | f in foreign[cut..] ensures InLaterStep(job, steps, i, f) { assert InLaterStep(s, steps, i, f); }
    assert NewSince(job, steps, i, node, [first] + foreign, cut + 1);
  }

  /** The end of the commit loop: what was installed is there, the rest is left to the
      other processes. */
  lemma CommitLeaves(job: Job, w: World, script: Script, i: nat)
    requires WellFormed(job) && HandsOff(job, script)
    requires i < |job.entries| && StageFrom(job, RemoveTree(w, job.TempDir()), 0, script.tempFault).1
    ensures var w2 := StageFrom(job, RemoveTree(w, job.TempDir()), 0, script.tempFault).0;
            var run := Commit(job.Staged(), Disturb(w2, script.duringVerify), script.steps);
            && (run.failure.None? ==> |run.installed| == |job.entries|)
            && LeftInstalled(job, w, script.steps, i, run.world, |run.installed|, [script.duringVerify] + run.foreign)
  {
    var s, p := job.Staged(), job.Target(i);
    var w3 := Disturb(StageFrom(job, RemoveTree(w, job.TempDir()), 0, script.tempFault).0, script.duringVerify);
    var run := Commit(s, w3, script.steps);
    TargetIsTarget(job, i);
    BeforeCommit(job, w, script, p);
    StagedIsWellFormed(job, script.steps);
    ConflictCountsInstalled(s, w3, FreshMemory(w3, job.root), 0, script.steps);
    CommitHolds(s, w3, p, i, script.steps);
    if i < |run.installed| {
      SinceStaged(job, script.steps, i, At(run.world, p), run.foreign, script.duringVerify);
    } else {
      LeftByJoins(At(w, p), p, [script.duringVerify], run.foreign);
    }
  }

  /** The tree handed to the recovery. */
  lemma TreeAtFailureIs(job: Job, w: World, script: Script, i: nat)
    requires WellFormed(job) && HandsOff(job, script) && i < |job.entries|
    ensures var o := RunProposed(job, w, script);
            o.ending.Failed? ==>
              LeftInstalled(job, w, script.steps, i, TreeAtFailure(job, w, script), |o.installed|, o.foreign)
  {
    var p := job.Target(i);
    var (w2, staged) := StageFrom(job, RemoveTree(w, job.TempDir()), 0, script.tempFault);
    TargetIsAside(job, i);
    BeforeCommit(job, w, script, p);
    FailureIsRecovered(job, w, script);
    if staged && script.answer.Approves? { CommitLeaves(job, w, script, i); }
  }

  lemma ProposedDone(job: Job, w: World, script: Script, i: nat)
    requires WellFormed(job) && HandsOff(job, script) && i < |job.entries|
    requires RunProposed(job, w, script).ending.Done?
    ensures var o := RunProposed(job, w, script);
            SinceInstalled(job, script.steps, i, At(o.world, job.Target(i)), o.foreign)
  {
    TargetIsAside(job, i);
    CommitLeaves(job, w, script, i);
    var w2 := StageFrom(job, RemoveTree(w, job.TempDir()), 0, script.tempFault).0;
    RemoveTempAt(job, Commit(job.Staged(), Disturb(w2, script.duringVerify), script.steps).world, job.Target(i));
  }

  lemma ProposedDeclined(job: Job, w: World, script: Script, p: Path)
    requires WellFormed(job) && HandsOff(job, script) && Aside(job, p)
    requires RunProposed(job, w, script).ending.Declined?
    ensures var o := RunProposed(job, w, script);
            At(o.world, p) == LeftBy(At(w, p), p, [script.duringVerify]) && o.foreign == [script.duringVerify]
  {
    BeforeCommit(job, w, script, p);
    var w2 := StageFrom(job, RemoveTree(w, job.TempDir()), 0, script.tempFault).0;
    RemoveTempAt(job, Disturb(w2, script.duringVerify), p);
  }

  /** What a failed patch leaves at its `i`-th target. */
  ghost predicate FailsWell(job: Job, was: World, tree: World, script: Script, o: Outcome, i: nat)
    requires i < |job.entries| && o.ending.Failed? && RestoreCount(job, o.ending.failure) <= |job.entries|
  {
    var n, p := RestoreCount(job, o.ending.failure), job.Target(i);
    && (i < n && RestoresAll(job, tree, n, script.restoreFault) ==> At(o.world, p) == Snapshot(job.entries[i]))
    && (i >= n ==> At(o.world, p) == LeftBy(At(was, p), p, o.foreign))
  }

  lemma ProposedFails(job: Job, w: World, script: Script, i: nat)
    requires WellFormed(job) && HandsOff(job, script) && i < |job.entries|
    requires var o := RunProposed(job, w, script);
             o.ending.Failed? && RestoreCount(job, o.ending.failure) <= |job.entries|
    ensures FailsWell(job, w, TreeAtFailure(job, w, script), script, RunProposed(job, w, script), i)
  {
    var o := RunProposed(job, w, script);
    FailureIsRecovered(job, w, script);
    TreeAtFailureIs(job, w, script, i);
    RecoverAt(job, TreeAtFailure(job, w, script), o.ending.failure, o.installed, o.foreign, script.restoreFault, i);
  }

  /** A path aside is left to the other processes from the proposal on. */
  lemma AsideUntouched(job: Job, w: World, script: Script, p: Path)
    requires WellFormed(job) && HandsOff(job, script)
    requires Aside(job, p) && forall i: nat :: i < |job.entries| ==> p != job.Target(i)
    ensures var o := RunProposed(job, w, script); At(o.world, p) == LeftBy(At(w, p), p, o.foreign)
  {
    var o := RunProposed(job, w, script);
    BeforeCommit(job, w, script, p);
    var (w2, staged) := StageFrom(job, RemoveTree(w, job.TempDir()), 0, script.tempFault);
    if o.ending.Declined? {
      ProposedDeclined(job, w, script, p);
    } else {
      if staged && script.answer.Approves? {
        AsideUntouchedByCommit(job, w, script, p);
        RemoveTempAt(job, TreeAtFailure(job, w, script), p);
      }
      FailureIsRecovered(job, w, script);
      if o.ending.Failed? {
        AsideUntouchedByRecovery(job, TreeAtFailure(job, w, script), o.ending.failure, o.installed, o.foreign,
                                 script.restoreFault, p);
      }
    }
  }

  lemma AsideUntouchedByCommit(job: Job, w: World, script: Script, p: Path)
    requires WellFormed(job) && HandsOff(job, script)
    requires StageFrom(job, RemoveTree(w, job.TempDir()), 0, script.tempFault).1 && script.answer.Approves?
    requires Aside(job, p) && forall i: nat :: i < |job.entries| ==> p != job.Target(i)
    ensures At(TreeAtFailure(job, w, script), p) == LeftBy(At(w, p), p, RunProposed(job, w, script).foreign)
  {
    var s := job.Staged();
    var w3 := Disturb(StageFrom(job, RemoveTree(w, job.TempDir()), 0, script.tempFault).0, script.duringVerify);
    var run := Commit(s, w3, script.steps);
    BeforeCommit(job, w, script, p);
    StagedIsWellFormed(job, script.steps);
    assert forall j: nat :: j < |job.entries| ==> s.Target(j) == job.Target(j);
    assert s.TempDir() == job.TempDir();
    assert IsTarget(s, p, |job.entries|);
    CommitHolds(s, w3, p, |job.entries|, script.steps);
    ConflictCountsInstalled(s, w3, FreshMemory(w3, job.root), 0, script.steps);
    LeftByJoins(At(w, p), p, [script.duringVerify], run.foreign);
  }

  // ----- the main results -----

  /** The tree the restore of a failed patch starts from. */
  function TreeToRestore(job: Job, w: World, script: Script): World {
    TreeAtFailure(job, Propose(job, w, script.recordFails).0, script)
  }

  /** What the `i`-th target holds in the end, given what it held at the proposal. */
  ghost predicate EndsWell(job: Job, was: World, tree: World, script: Script, o: Outcome, i: nat)
    requires i < |job.entries| && (o.ending.Failed? ==> RestoreCount(job, o.ending.failure) <= |job.entries|)
  {
    var p := job.Target(i);
    match o.ending
    case NotProposed => At(o.world, p) == At(was, p)
    case Done => SinceInstalled(job, script.steps, i, At(o.world, p), o.foreign)
    case Declined => At(o.world, p) == LeftBy(At(was, p), p, [script.duringVerify])
    case Failed(_, _) => FailsWell(job, was, tree, script, o, i)
  }

  /** All or nothing, for the `i`-th file of any patch:
      - when the record could not be written it is untouched;
      - after success it holds its new content, as others left it since;
      - after a declined verification only other processes have touched it;
      - after a conflict at file `k` it holds its snapshot again if it came before `k`,
        and only other processes have touched it otherwise;
      - after any other failure it holds its snapshot.
      A snapshot is promised when all files to be put back can be, as the tree stood at the
      failure; if they cannot, see `SwallowedRestoreLeavesNewContent`. */
  lemma AllOrNothing(job: Job, w: World, script: Script, i: nat)
    requires WellFormed(job) && HandsOff(job, script) && i < |job.entries|
    ensures var o := ApplyAndCommitOutcome(job, w, script);
            && (o.ending.Failed? ==> RestoreCount(job, o.ending.failure) <= |job.entries|)
            && EndsWell(job, w, TreeToRestore(job, w, script), script, o, i)
            && (o.ending.Done? && LeavesInstalled(job, script.steps, i) ==>
                  At(o.world, job.Target(i)) == Some(File(job.entries[i].newContent)))
  {
    EndingIsWell(job, w, script, i);
    var o := ApplyAndCommitOutcome(job, w, script);
    if o.ending.Done? && LeavesInstalled(job, script.steps, i) {
      SinceInstalledIsNew(job, script.steps, i, At(o.world, job.Target(i)), o.foreign);
    }
  }

  lemma EndingIsWell(job: Job, w: World, script: Script, i: nat)
    requires WellFormed(job) && HandsOff(job, script) && i < |job.entries|
    ensures var o := ApplyAndCommitOutcome(job, w, script);
            && (o.ending.Failed? ==> RestoreCount(job, o.ending.failure) <= |job.entries|)
            && EndsWell(job, w, TreeToRestore(job, w, script), script, o, i)
  {
    var (w1, recorded) := Propose(job, w, script.recordFails);
    TargetIsBystander(job, i);
    ProposeAt(job, w, script.recordFails, job.Target(i));
    if recorded {
      ProposedEndsWell(job, w1, script, i);
      WellFromThere(job, w, w1, TreeAtFailure(job, w1, script), script, RunProposed(job, w1, script), i);
    }
  }

  lemma ProposedEndsWell(job: Job, w: World, script: Script, i: nat)
    requires WellFormed(job) && HandsOff(job, script) && i < |job.entries|
    ensures var o := RunProposed(job, w, script);
            && !o.ending.NotProposed?
            && (o.ending.Failed? ==> RestoreCount(job, o.ending.failure) <= |job.entries|)
            && EndsWell(job, w, TreeAtFailure(job, w, script), script, o, i)
  {
    FailureIsRecovered(job, w, script);
    var ending := RunProposed(job, w, script).ending;
    if ending.Done? {
      ProposedDone(job, w, script, i);
    } else if ending.Declined? {
      TargetIsAside(job, i);
      ProposedDeclined(job, w, script, job.Target(i));
    } else {
      ProposedFails(job, w, script, i);
    }
  }

  /** Only what the target held counts. */
  lemma WellFromThere(job: Job, was: World, w: World, tree: World, script: Script, o: Outcome, i: nat)
    requires i < |job.entries| && At(was, job.Target(i)) == At(w, job.Target(i))
    requires o.ending.Failed? ==> RestoreCount(job, o.ending.failure) <= |job.entries|
    requires EndsWell(job, w, tree, script, o, i)
    ensures EndsWell(job, was, tree, script, o, i)
  {
  }

  /** A restore that goes through undoes whatever was done to the files it puts back, by
      whomever and whenever: nothing is asked of other processes here. */
  lemma RestoreUndoesAllEdits(job: Job, w: World, script: Script, i: nat)
    requires WellFormed(job) && i < |job.entries|
    requires var o, tree := ApplyAndCommitOutcome(job, w, script), TreeToRestore(job, w, script);
             && o.ending.Failed? && i < RestoreCount(job, o.ending.failure) <= |job.entries|
             && RestoresAll(job, tree, RestoreCount(job, o.ending.failure), script.restoreFault)
    ensures At(ApplyAndCommitOutcome(job, w, script).world, job.Target(i)) == Snapshot(job.entries[i])
  {
    var o, tree := ApplyAndCommitOutcome(job, w, script), TreeToRestore(job, w, script);
    FailureIsRecovered(job, Propose(job, w, script.recordFails).0, script);
    RecoverAt(job, tree, o.ending.failure, o.installed, o.foreign, script.restoreFault, i);
  }

  /** Nothing else is written: a path that is no target, no missing directory, not in the
      temp directory and not the snapshot record is left to the other processes, however
      the patch ends. */
  lemma OtherPathsUntouched(job: Job, w: World, script: Script, p: Path)
    requires WellFormed(job) && HandsOff(job, script)
    requires Bystander(job, p) && forall i: nat :: i < |job.entries| ==> p != job.Target(i)
    ensures var o := ApplyAndCommitOutcome(job, w, script); At(o.world, p) == LeftBy(At(w, p), p, o.foreign)
  {
    var (w1, recorded) := Propose(job, w, script.recordFails);
    ProposeAt(job, w, script.recordFails, p);
    if recorded { AsideUntouched(job, w1, script, p); }
  }

  /** The record of a proposed patch stays as it was written, except that others may
      remove it; nobody cleans it up. */
  lemma RecordIsKept(job: Job, w: World, script: Script)
    requires WellFormed(job) && HandsOff(job, script)
    requires !ApplyAndCommitOutcome(job, w, script).ending.NotProposed?
    ensures var o, p := ApplyAndCommitOutcome(job, w, script), job.RecordPath();
            At(o.world, p) == LeftBy(Some(File(job.record)), p, o.foreign)
  {
    RecordIsApart(job);
    AsideUntouched(job, Propose(job, w, script.recordFails).0, script, job.RecordPath());
  }

  /** The tree the commit loop of a patch starts from. */
  function BeforeLoop(job: Job, w: World, script: Script): World {
    var w1 := Propose(job, w, script.recordFails).0;
    Disturb(StageFrom(job, RemoveTree(w1, job.TempDir()), 0, script.tempFault).0, script.duringVerify)
  }

  /** An ending in a conflict comes from the commit loop. */
  ghost predicate FromCommit(job: Job, o: Outcome, run: CommitRun) {
    o.ending.Failed? && !o.ending.failure.OtherFailure?
    ==> && o.installed == run.installed && run.failure == Some(o.ending.failure)
        && RestoreCount(job, o.ending.failure) == |run.installed| <= |job.entries|
  }

  lemma ConflictComesFromCommit(job: Job, w: World, script: Script)
    ensures FromCommit(job, ApplyAndCommitOutcome(job, w, script),
                       Commit(job.Staged(), BeforeLoop(job, w, script), script.steps))
  {
    var (w1, recorded) := Propose(job, w, script.recordFails);
    if recorded { ProposedConflictComesFromCommit(job, w1, script); }
  }

  lemma ProposedConflictComesFromCommit(job: Job, w: World, script: Script)
    ensures var w2 := StageFrom(job, RemoveTree(w, job.TempDir()), 0, script.tempFault).0;
            FromCommit(job, RunProposed(job, w, script),
                       Commit(job.Staged(), Disturb(w2, script.duringVerify), script.steps))
  {
    var (w2, staged) := StageFrom(job, RemoveTree(w, job.TempDir()), 0, script.tempFault);
    var w3 := Disturb(w2, script.duringVerify);
    ConflictCountsInstalled(job.Staged(), w3, FreshMemory(w3, job.root), 0, script.steps);
    if !staged {
      RecoverNames(job, w2, OtherFailure, [], [], script.restoreFault);
    } else if script.answer.Throws? {
      RecoverNames(job, w3, OtherFailure, [], [script.duringVerify], script.restoreFault);
    } else if script.answer.Approves? {
      var run := Commit(job.Staged(), w3, script.steps);
      if run.failure.Some? {
        RecoverNames(job, run.world, run.failure.value, run.installed, [script.duringVerify] + run.foreign,
                     script.restoreFault);
      }
    }
  }

  /** The hash to be approved if the snapshot is. */
  function HashOfSnapshot(e: Entry, hash: string -> string): Option<string> {
    if e.oldContent.None? then None else Some(hash(e.oldContent.value))
  }

  lemma HashMeansContent(w: World, target: Path, e: Entry, hash: string -> string)
    requires forall s, t :: hash(s) == hash(t) ==> s == t
    requires BaseHashMatches(w, target, e.expectedBaseHash, hash)
    ensures At(w, target) == Snapshot(e) <==> e.expectedBaseHash == HashOfSnapshot(e, hash)
  {
  }

  /** After a conflict that could be undone, a file already overwritten holds again what it
      held when its base hash was checked exactly when the approved hash is that of the
      snapshot, provided the hash has no collisions. It holds what it held just before it
      was overwritten exactly when that is so and nobody changed it in between, or somebody
      made it the snapshot. */
  lemma ConflictUndoesExactly(job: Job, w: World, script: Script, i: nat, secret: Path -> bool)
    requires WellFormed(job) && GuardsBoundary(job, secret)
    requires forall s, t :: job.hash(s) == job.hash(t) ==> s == t
    requires var o, tree := ApplyAndCommitOutcome(job, w, script), TreeToRestore(job, w, script);
             && o.ending.Failed? && !o.ending.failure.OtherFailure?
             && i < RestoreCount(job, o.ending.failure) <= |job.entries|
             && RestoresAll(job, tree, RestoreCount(job, o.ending.failure), script.restoreFault)
    ensures var o, p, e := ApplyAndCommitOutcome(job, w, script), job.Target(i), job.entries[i];
            var between := script.steps(i).beforeRename.edits;
            var approved := e.expectedBaseHash == HashOfSnapshot(e, job.hash);
            && i < |o.installed|
            && (At(o.world, p) == At(o.installed[i].hashed, p) <==> approved)
            && (At(o.world, p) == At(o.installed[i].found, p) <==>
                  if p in between then between[p] == Snapshot(e) else approved)
  {
    var w3, s := BeforeLoop(job, w, script), job.Staged();
    RestoreUndoesAllEdits(job, w, script, i);
    ConflictComesFromCommit(job, w, script);
    assert GuardsBoundary(s, secret) && s.Target(i) == job.Target(i);
    var rootReal := InstalledIsGuarded(s, w3, script.steps, i, secret);
    var at := Commit(s, w3, script.steps).installed[i];
    HashMeansContent(at.hashed, job.Target(i), s.entries[i], job.hash);
    DisturbAt(at.hashed, script.steps(i).beforeRename, job.Target(i));
  }

  // ----- the commit history -----

  /** A commit on success; a rollback after a failure that had something to put back and
      could put back all of it; otherwise nothing. */
  function EventsOf(job: Job, tree: World, o: Outcome, fault: Option<nat>): seq<TransactionHistory.Event>
    requires o.ending.Failed? ==> RestoreCount(job, o.ending.failure) <= |job.entries|
  {
    if o.ending.Done? then [TransactionHistory.Committed(job.txId)]
    else if !o.ending.Failed? then []
    else
      var n := RestoreCount(job, o.ending.failure);
      if (n > 0 || o.ending.failure.OtherFailure?) && RestoresAll(job, tree, n, fault) then
        [TransactionHistory.RolledBack(job.fileTxId)]
      else []
  }

  /** When the history moves, from the tree the failure left. Whenever a target was
      overwritten it moves, except that a restore that cannot go through is swallowed
      without a trace. */
  lemma HistoryMoves(job: Job, w: World, script: Script)
    requires WellFormed(job)
    ensures var o, tree := ApplyAndCommitOutcome(job, w, script), TreeToRestore(job, w, script);
            && (o.ending.Failed? ==> RestoreCount(job, o.ending.failure) <= |job.entries|)
            && o.events == EventsOf(job, tree, o, script.restoreFault)
            && (o.installed != [] ==>
                  || o.ending.Done?
                  || (o.ending.Failed? && (RestoreCount(job, o.ending.failure) > 0 || o.ending.failure.OtherFailure?)))
  {
    var (w1, recorded) := Propose(job, w, script.recordFails);
    if recorded {
      var o := RunProposed(job, w1, script);
      FailureIsRecovered(job, w1, script);
      ProposedMovesHistory(job, w1, script);
      if o.ending.Failed? {
        RecoverTells(job, TreeAtFailure(job, w1, script), o.ending.failure, o.installed, o.foreign,
                     script.restoreFault);
      }
    }
  }

  /** The same by what the patch itself tells of its restore, whatever the targets are. */
  ghost predicate MovesRightly(job: Job, o: Outcome) {
    && (o.ending.Failed? && o.events != [] ==> o.events == [TransactionHistory.RolledBack(job.fileTxId)])
    && (o.events != [] <==>
          || o.ending.Done?
          || (o.ending.Failed? && o.ending.restored
              && (o.ending.failure.OtherFailure? || RestoreCount(job, o.ending.failure) > 0)))
    && (o.ending.Done? ==> o.events == [TransactionHistory.Committed(job.txId)])
    && (o.installed != [] ==> !o.ending.NotProposed? && !o.ending.Declined?)
    && (o.installed != [] ==> (o.events != [] <==> o.ending.Done? || o.ending.restored))
  }

  lemma ProposedMovesHistory(job: Job, w: World, script: Script)
    ensures MovesRightly(job, RunProposed(job, w, script))
  {
    var o := RunProposed(job, w, script);
    FailureIsRecovered(job, w, script);
    if o.ending.Failed? {
      RecoveryMovesHistory(job, TreeAtFailure(job, w, script), o.ending.failure, o.installed, o.foreign,
                           script.restoreFault);
    }
  }

  lemma RecoveryMovesHistory(job: Job, w: World, failure: Failure, installed: seq<Installation>,
                             foreign: seq<Interference>, fault: Option<nat>)
    requires RestoreCount(job, failure) <= |job.entries|
    ensures var o := Recover(job, w, failure, installed, foreign, fault);
            && (o.events != [] ==> o.events == [TransactionHistory.RolledBack(job.fileTxId)])
            && (o.events != [] <==> o.ending.restored && (failure.OtherFailure? || RestoreCount(job, failure) > 0))
  {
  }

  lemma AnyPatchMovesHistory(job: Job, w: World, script: Script)
    ensures MovesRightly(job, ApplyAndCommitOutcome(job, w, script))
  {
    var (w1, recorded) := Propose(job, w, script.recordFails);
    if recorded { ProposedMovesHistory(job, w1, script); }
  }

  /** A patch that overwrote something and did not lose its restore puts every binding
      captured before it out of date, even if all was put back. */
  lemma OverwritingExpiresBindings(job: Job, w: World, script: Script, digest: string -> string,
                                   log: seq<TransactionHistory.Event>, unmanaged: bool, unmanagedLater: bool)
    requires var o := ApplyAndCommitOutcome(job, w, script);
             o.installed != [] && (o.ending.Done? || (o.ending.Failed? && o.ending.restored))
    ensures var o := ApplyAndCommitOutcome(job, w, script);
            var captured := TransactionHistory.CurrentBinding(TransactionHistory.Replay(digest, log), unmanaged);
            var later := TransactionHistory.Replay(digest, log + o.events);
            captured.Some? ==> captured != TransactionHistory.CurrentBinding(later, unmanagedLater)
  {
    AnyPatchMovesHistory(job, w, script);
    var o := ApplyAndCommitOutcome(job, w, script);
    TransactionHistory.LaterBindingDiffers(digest, log, log + o.events, unmanaged, unmanagedLater);
  }

  /** What a failed patch leaves whose files cannot all be put back: the history has not
      moved; the files before the first that stands in the way have their snapshots back;
      from there on, those installed keep their new content, as others left it since, and
      the others are left to other processes. */
  ghost predicate HalfRestored(job: Job, was: World, tree: World, script: Script, o: Outcome, j: nat) {
    && o.ending.Failed? && RestoreCount(job, o.ending.failure) <= |job.entries| && o.events == []
    && j <= RestoreCount(job, o.ending.failure)
    && StopsAt(job, tree, RestoreCount(job, o.ending.failure), script.restoreFault, j)
    && (!o.ending.failure.OtherFailure? ==> RestoreCount(job, o.ending.failure) == |o.installed|)
    && forall i: nat :: i < |job.entries| ==> TargetHalfRestored(job, was, script, o, j, i)
  }

  ghost predicate TargetHalfRestored(job: Job, was: World, script: Script, o: Outcome, j: nat, i: nat)
    requires i < |job.entries|
  {
    var p := job.Target(i);
    if i < j then At(o.world, p) == Snapshot(job.entries[i])
    else
      && LeftInstalled(job, was, script.steps, i, o.world, |o.installed|, o.foreign)
      && (i < |o.installed| && LeavesInstalled(job, script.steps, i) ==>
            At(o.world, p) == Some(File(job.entries[i].newContent)))
  }

  /** The exception in full: a restore that stops at file `j` leaves the installed files
      from `j` on with their new content and the history where it was. */
  lemma SwallowedRestoreLeavesNewContent(job: Job, w: World, script: Script) returns (j: nat)
    requires WellFormed(job) && HandsOff(job, script)
    requires var o, tree := ApplyAndCommitOutcome(job, w, script), TreeToRestore(job, w, script);
             && o.ending.Failed? && RestoreCount(job, o.ending.failure) <= |job.entries|
             && (RestoreCount(job, o.ending.failure) > 0 || o.ending.failure.OtherFailure?)
             && !RestoresAll(job, tree, RestoreCount(job, o.ending.failure), script.restoreFault)
    ensures HalfRestored(job, w, TreeToRestore(job, w, script), script, ApplyAndCommitOutcome(job, w, script), j)
  {
    var w1, o, tree := Propose(job, w, script.recordFails).0, ApplyAndCommitOutcome(job, w, script),
                       TreeToRestore(job, w, script);
    FailureIsRecovered(job, w1, script);
    HistoryMoves(job, w, script);
    j := RecoverStopsAt(job, tree, o.ending.failure, o.installed, o.foreign, script.restoreFault);
    forall i: nat | i < |job.entries| ensures TargetHalfRestored(job, w, script, o, j, i) {
      TargetIsBystander(job, i);
      ProposeAt(job, w, script.recordFails, job.Target(i));
      TreeAtFailureIs(job, w1, script, i);
      assert At(o.world, job.Target(i)) == if i < j then Snapshot(job.entries[i]) else At(tree, job.Target(i));
      if j <= i < |o.installed| && LeavesInstalled(job, script.steps, i) {
        SinceInstalledIsNew(job, script.steps, i, At(o.world, job.Target(i)), o.foreign);
      }
    }
  }
}
