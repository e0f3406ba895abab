/** Patches among the steps of a run: which step each is, and what a run that ends done
    says about the files of its patches. */
module PatchRuns {
  import opened Options
  import opened Workspace
  import opened PatchCommit
  import opened PatchInstall
  import opened PatchProofs
  import CompletionOrchestrator
  import EvidenceLedger
  import PatchExample
  import Runs = EvidenceRuns
  import TransactionHistory

  // ----- one patch -----

  /** The step a patch is in its run. */
  function StepOf(job: Job, o: Outcome): Option<Runs.Step> {
    if o.ending.Done? then Some(Runs.CommitPatch(job.txId))
    else if !o.ending.Failed? then None
    else if o.events != [] then Some(Runs.RollBack(job.fileTxId))
    else if o.ending.restored then None
    else Some(Runs.LoseRestore)
  }

  /** The step moves the run as the patch moves its runtime: the history by the events of
      the patch, the write generation by its rollbacks. A patch that is no step moved
      nothing and installed nothing. */
  lemma PatchIsStep(job: Job, w: World, script: Script, digest: string -> string, r: Runs.Run, n: nat)
    ensures var o := ApplyAndCommitOutcome(job, w, script);
            match StepOf(job, o)
            case None => o.events == [] && o.installed == []
            case Some(step) =>
              Runs.Do(digest, r, step, n)
              == r.(log := r.log + o.events, generation := r.generation + TransactionHistory.Rollbacks(o.events))
  {
    AnyPatchMovesHistory(job, w, script);
    MovingIsStep(job, ApplyAndCommitOutcome(job, w, script), digest, r, n);
  }

  lemma MovingIsStep(job: Job, o: Outcome, digest: string -> string, r: Runs.Run, n: nat)
    requires MovesRightly(job, o)
    ensures match StepOf(job, o)
            case None => o.events == [] && o.installed == []
            case Some(step) =>
              Runs.Do(digest, r, step, n)
              == r.(log := r.log + o.events, generation := r.generation + TransactionHistory.Rollbacks(o.events))
  {
    TransactionHistory.OneEvent(TransactionHistory.Committed(job.txId));
    TransactionHistory.OneEvent(TransactionHistory.RolledBack(job.fileTxId));
    assert r.log + [] == r.log;
  }

  /** A failure left files to put back, and they cannot all be put back. */
  predicate CannotPutBack(job: Job, w: World, script: Script, o: Outcome) {
    && o.ending.Failed? && RestoreCount(job, o.ending.failure) <= |job.entries|
    && (RestoreCount(job, o.ending.failure) > 0 || o.ending.failure.OtherFailure?)
    && !RestoresAll(job, TreeToRestore(job, w, script), RestoreCount(job, o.ending.failure), script.restoreFault)
  }

  /** When a patch is a lost restore, from the tree its failure left. */
  lemma LosesRestoreExactlyWhen(job: Job, w: World, script: Script)
    requires WellFormed(job)
    ensures var o := ApplyAndCommitOutcome(job, w, script);
            StepOf(job, o) == Some(Runs.LoseRestore) <==> CannotPutBack(job, w, script, o)
  {
    HistoryMoves(job, w, script);
    AnyPatchMovesHistory(job, w, script);
    NothingToRestoreIsRestored(job, w, script);
  }

  lemma NothingToRestoreIsRestored(job: Job, w: World, script: Script)
    ensures var o := ApplyAndCommitOutcome(job, w, script);
            o.ending.Failed? && !o.ending.restored ==>
              RestoreCount(job, o.ending.failure) > 0 || o.ending.failure.OtherFailure?
  {
    var (w1, recorded) := Propose(job, w, script.recordFails);
    if recorded { FailureIsRecovered(job, w1, script); }
  }

  /** Every target is left to the other processes. */
  ghost predicate SparesTargets(job: Job, w: World, o: Outcome) {
    forall i: nat :: i < |job.entries| ==>
      At(o.world, job.Target(i)) == LeftBy(At(w, job.Target(i)), job.Target(i), o.foreign)
  }

  /** A patch that is no step in its run writes no target. */
  lemma NoStepSparesTargets(job: Job, w: World, script: Script)
    requires WellFormed(job) && HandsOff(job, script)
    requires StepOf(job, ApplyAndCommitOutcome(job, w, script)).None?
    ensures SparesTargets(job, w, ApplyAndCommitOutcome(job, w, script))
  {
    var o := ApplyAndCommitOutcome(job, w, script);
    AnyPatchMovesHistory(job, w, script);
    forall i: nat | i < |job.entries|
      ensures At(o.world, job.Target(i)) == LeftBy(At(w, job.Target(i)), job.Target(i), o.foreign)
    {
      AllOrNothing(job, w, script, i);
      EndsAlone(job, w, script);
    }
  }

  lemma EndsAlone(job: Job, w: World, script: Script)
    ensures var o := ApplyAndCommitOutcome(job, w, script);
            && (o.ending.NotProposed? ==> o.foreign == [])
            && (o.ending.Declined? ==> o.foreign == [script.duringVerify])
  {
    var (w1, recorded) := Propose(job, w, script.recordFails);
    if recorded { FailureIsRecovered(job, w1, script); }
  }

  // ----- runs -----

  /** What happens in a run: a patch, from whatever tree it finds, or any other step. */
  datatype Act = Patch(job: Job, tree: World, script: Script) | Other(step: Runs.Step)

  function OutcomeOf(a: Act): Outcome
    requires a.Patch?
  {
    ApplyAndCommitOutcome(a.job, a.tree, a.script)
  }

  function StepsOfOne(a: Act): seq<Runs.Step> {
    match a
    case Other(step) => [step]
    case Patch(job, _, _) => match StepOf(job, OutcomeOf(a)) case None => [] case Some(step) => [step]
  }

  function StepsOf(acts: seq<Act>): seq<Runs.Step> {
    Flat(seq(|acts|, i requires 0 <= i < |acts| => StepsOfOne(acts[i])))
  }

  function Flat<T>(parts: seq<seq<T>>): seq<T> {
    if parts == [] then [] else Flat(parts[..|parts| - 1]) + parts[|parts| - 1]
  }

  lemma {:induction false} FlatSoFar<T>(parts: seq<seq<T>>, k: nat)
    requires k < |parts|
    ensures Flat(parts[..k]) + parts[k] <= Flat(parts)
    decreases |parts|
  {
    var n := |parts| - 1;
    if k < n {
      assert parts[..n][..k] == parts[..k];
      FlatSoFar(parts[..n], k);
    }
  }

  lemma {:induction false} FlatOfSingles<T>(parts: seq<seq<T>>, items: seq<T>)
    requires |parts| == |items| && forall i :: 0 <= i < |items| ==> parts[i] == [items[i]]
    ensures Flat(parts) == items
  {
    if items != [] { FlatOfSingles(parts[..|parts| - 1], items[..|items| - 1]); }
  }

  lemma StepsSoFar(acts: seq<Act>, k: nat)
    requires k < |acts|
    ensures StepsOf(acts[..k]) + StepsOfOne(acts[k]) <= StepsOf(acts)
  {
    var parts := seq(|acts|, i requires 0 <= i < |acts| => StepsOfOne(acts[i]));
    assert parts[..k] == seq(k, i requires 0 <= i < k => StepsOfOne(acts[..k][i]));
    FlatSoFar(parts, k);
  }

  /** The two changes that evidence behind a done run may be older than. */
  predicate Excused(r: Runs.Run, step: Runs.Step) {
    step.LoseRestore? || (Runs.HasCovered(r) && r.unmanagedObserved && step.CommitPatch?)
  }

  ghost predicate AllExcused(r: Runs.Run, steps: seq<Runs.Step>, at: nat) {
    forall j :: at <= j < |steps| && Runs.Changes(steps[j]) ==> Excused(r, steps[j])
  }

  lemma SomeExcused(r: Runs.Run, steps: seq<Runs.Step>, at: nat, before: seq<Runs.Step>, some: seq<Runs.Step>)
    requires AllExcused(r, steps, at) && at <= |before| && before + some <= steps
    ensures forall step :: step in some && Runs.Changes(step) ==> Excused(r, step)
  {
    forall i | 0 <= i < |some| ensures Runs.Changes(some[i]) ==> Excused(r, some[i]) {
      assert (before + some)[|before| + i] == some[i];
    }
  }

  /** A patch the results on single patches speak about. */
  ghost predicate Sound(a: Act) {
    a.Patch? && WellFormed(a.job) && HandsOff(a.job, a.script)
  }

  /** The files of a patch are settled when only others touched them, when they cannot all
      be put back, or when they were committed in a run whose shell writes are covered. */
  ghost predicate Settled(r: Runs.Run, a: Act)
    requires a.Patch?
  {
    var o := OutcomeOf(a);
    || SparesTargets(a.job, a.tree, o)
    || CannotPutBack(a.job, a.tree, a.script, o)
    || (o.ending.Done? && Runs.HasCovered(r) && r.unmanagedObserved)
  }

  lemma ExcusedIsSettled(r: Runs.Run, a: Act)
    requires Sound(a) && forall step :: step in StepsOfOne(a) && Runs.Changes(step) ==> Excused(r, step)
    ensures Settled(r, a)
  {
    var step := StepOf(a.job, OutcomeOf(a));
    if step.None? {
      NoStepSparesTargets(a.job, a.tree, a.script);
    } else {
      assert step.value in StepsOfOne(a);
      LosesRestoreExactlyWhen(a.job, a.tree, a.script);
    }
  }

  lemma ActIsSettled(r: Runs.Run, acts: seq<Act>, at: nat, k: nat)
    requires AllExcused(r, StepsOf(acts), at) && k < |acts| && at <= |StepsOf(acts[..k])| && Sound(acts[k])
    ensures Settled(r, acts[k])
  {
    StepsSoFar(acts, k);
    SomeExcused(r, StepsOf(acts), at, StepsOf(acts[..k]), StepsOfOne(acts[k]));
    ExcusedIsSettled(r, acts[k]);
  }

  /** What a done run says about its files: each required kind is backed by evidence, and
      no patch made since then wrote a file, except one that failed on files it cannot put
      back and, where shell writes are covered, one that was committed. */
  lemma DoneSparesFiles(digest: string -> string, acts: seq<Act>, input: CompletionOrchestrator.Input,
                        kind: EvidenceLedger.EvidenceKind) returns (at: nat)
    requires var steps := StepsOf(acts);
             Runs.NamedTransactions(steps) && Runs.EndsDone(digest, steps, input, kind)
    ensures var r := Runs.Exec(digest, StepsOf(acts));
            && Runs.BackedAt(r, kind, at) && at <= |StepsOf(acts)|
            && forall k :: 0 <= k < |acts| && at <= |StepsOf(acts[..k])| && Sound(acts[k]) ==> Settled(r, acts[k])
  {
    at := Runs.DoneIsFresh(digest, StepsOf(acts), input, kind);
    var r := Runs.Exec(digest, StepsOf(acts));
    forall k | 0 <= k < |acts| && at <= |StepsOf(acts[..k])| && Sound(acts[k]) ensures Settled(r, acts[k]) {
      ActIsSettled(r, acts, at, k);
    }
  }

  // ----- a lost restore in a done run -----

  /** The run's steps, each lost restore being that of one and the same patch. */
  function Acts(steps: seq<Runs.Step>, patch: Act): seq<Act> {
    seq(|steps|, i requires 0 <= i < |steps| => if steps[i].LoseRestore? then patch else Other(steps[i]))
  }

  lemma ActsAreSteps(steps: seq<Runs.Step>, patch: Act)
    requires StepsOfOne(patch) == [Runs.LoseRestore]
    ensures StepsOf(Acts(steps, patch)) == steps
  {
    var acts := Acts(steps, patch);
    FlatOfSingles(seq(|acts|, i requires 0 <= i < |acts| => StepsOfOne(acts[i])), steps);
  }

  /** It overwrote a file and could not put it back. */
  ghost predicate LeavesNew(a: Act) {
    && a.Patch? && StepsOfOne(a) == [Runs.LoseRestore]
    && At(a.tree, ["r", "a"]) == Some(File("old")) && At(OutcomeOf(a).world, ["r", "a"]) == Some(File("new"))
  }

  lemma LosingPatch() returns (a: Act)
    ensures LeavesNew(a)
  {
    a := Patch(PatchExample.TwoFiles(), PatchExample.Before(), PatchExample.ScriptWith(false, Some(0)));
    PatchExample.OverwrittenWithoutTrace();
  }

  /** A run that ends done although its last act, a patch, overwrote a file after the
      evidence was made and could not put it back. */
  lemma DoneOverOverwrittenFile(digest: string -> string)
    returns (acts: seq<Act>, input: CompletionOrchestrator.Input, at: nat)
    ensures var steps := StepsOf(acts);
            && Runs.NamedTransactions(steps)
            && Runs.EndsDone(digest, steps, input, EvidenceLedger.TypecheckEvidence)
            && Runs.BackedAt(Runs.Exec(digest, steps), EvidenceLedger.TypecheckEvidence, at) && at < |steps|
            && acts != [] && LeavesNew(acts[|acts| - 1])
  {
    var steps: seq<Runs.Step>;
    steps, input, at := Runs.LostRestoreMissed(digest);
    var patch := LosingPatch();
    ActsAreSteps(steps, patch);
    acts := Acts(steps, patch);
    assert acts[|acts| - 1] == patch;
  }
}
