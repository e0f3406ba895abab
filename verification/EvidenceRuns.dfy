/** Runs: commits, rollbacks, lost restores and writes of every sort, interleaved with
    verifications and their ingestion into the ledger. Evidence behind a done run is never
    older than the last change, with two exceptions that are stated exactly. */
module EvidenceRuns {
  import opened Options
  import opened TransactionHistory
  import opened EvidenceLedger
  import opened CompletionOrchestrator

  // ----- steps -----

  datatype Step =
    | CommitPatch(txId: string)                // the history moves, nothing else yet
    | RecordWrite                              // a managed write is recorded
    | RollBack(txId: string)                   // a restore, managed, of a committed patch
    | LoseRestore                              // a patch overwrote files and failed, and so did its restore
    | ObserveWrites(paths: set<string>)        // a shell command wrote known paths
    | ObserveUnknownWrite                      // something wrote, where is not known
    | CoverWrites(files: seq<string>)          // a passing targeted verification of files
    | Verify(kind: VerificationKind, passed: bool, artifact: Option<string>)  // stamped and kept for later
    | Ingest                                   // the kept results enter the ledger
    | BatchTypecheck(passed: bool, artifact: Option<string>)  // enters the ledger at once, without binding
    | InvalidateArtifact(artifactId: string)   // the files an artifact speaks for have changed

  predicate RaisesGeneration(step: Step) {
    match step
    case RecordWrite | RollBack(_) | ObserveUnknownWrite => true
    case ObserveWrites(paths) => paths != {}
    case _ => false
  }

  predicate MovesHistory(step: Step) {
    step.CommitPatch? || step.RollBack?
  }

  // ----- state -----

  /** A result on its way to the ledger, the artifact it is filed under, and the number of
      steps done when it was made. */
  datatype Kept = Kept(result: VerificationResult, artifact: Option<string>, at: nat)

  /** `capturedAt` holds, for each ledger entry, the number of steps done when the
      verification behind it was made; no gate reads it. */
  datatype Run = Run(log: seq<Event>, generation: nat, unmanagedObserved: bool,
                     unmanagedPaths: set<string>, covered: bool,
                     kept: seq<Kept>, entries: seq<EvidenceEntry>, capturedAt: seq<nat>)

  const START := Run([], 0, false, {}, false, [], [], [])

  function BindingOf(digest: string -> string, r: Run): Option<Binding> {
    CurrentBinding(Replay(digest, r.log), r.unmanagedObserved)
  }

  predicate HasCovered(r: Run) { r.covered && r.unmanagedPaths == {} }

  /** Ingestion in order, unknown kinds dropped, as the ledger does it. */
  function Ingested(kept: seq<Kept>, generation: nat): (seq<EvidenceEntry>, seq<nat>) {
    if kept == [] then ([], [])
    else
      var n := |kept| - 1;
      var (entries, at) := Ingested(kept[..n], generation);
      match ToEvidenceKind(kept[n].result.kind)
      case None => (entries, at)
      case Some(kind) => (entries + [EntryFor(kept[n], kind, generation)], at + [kept[n].at])
  }

  function EntryFor(k: Kept, kind: EvidenceKind, generation: nat): EvidenceEntry {
    EntryOf(k.result, kind, "", 0, None, Some(generation)).(artifactId := k.artifact)
  }

  /** The result of a verification, with the stamps of the moment. */
  function StampedResult(digest: string -> string, r: Run, kind: VerificationKind, passed: bool): VerificationResult {
    VerificationResult(kind, "", passed, "", Some(r.generation), BindingOf(digest, r))
  }

  function TypecheckAt(generation: nat, passed: bool, artifact: Option<string>): EvidenceEntry {
    TypecheckEntry(passed, None, 0, "", None, Some(generation), "", 0).(artifactId := artifact)
  }

  /** One step, taken when `n` steps have been done before. */
  function Do(digest: string -> string, r: Run, step: Step, n: nat): Run {
    match step
    case CommitPatch(txId) => r.(log := r.log + [Committed(txId)])
    case RecordWrite => r.(generation := r.generation + 1)
    case RollBack(txId) => r.(log := r.log + [RolledBack(txId)], generation := r.generation + 1)
    case ObserveWrites(paths) =>
      if paths == {} then r
      else r.(unmanagedPaths := r.unmanagedPaths + paths, covered := false,
              generation := r.generation + 1, unmanagedObserved := true)
    case ObserveUnknownWrite => r.(generation := r.generation + 1, unmanagedObserved := true)
    case CoverWrites(files) =>
      if files == [] || r.unmanagedPaths == {} then r
      else
        var left := set p | p in r.unmanagedPaths && p !in files;
        r.(unmanagedPaths := left, covered := r.covered || left == {})
    case LoseRestore => r
    case Verify(kind, passed, artifact) =>
      r.(kept := r.kept + [Kept(StampedResult(digest, r, kind, passed), artifact, n)])
    case Ingest =>
      var (entries, at) := Ingested(r.kept, r.generation);
      r.(kept := [], entries := r.entries + entries, capturedAt := r.capturedAt + at)
    case BatchTypecheck(passed, artifact) =>
      r.(entries := r.entries + [TypecheckAt(r.generation, passed, artifact)], capturedAt := r.capturedAt + [n])
    case InvalidateArtifact(artifactId) => r.(entries := MarkedStale(r.entries, artifactId))
  }

  function Exec(digest: string -> string, steps: seq<Step>): Run {
    if steps == [] then START
    else Do(digest, Exec(digest, steps[..|steps| - 1]), steps[|steps| - 1], |steps| - 1)
  }

  // ----- what a step can move -----

  lemma OneMoreStep(digest: string -> string, steps: seq<Step>, step: Step)
    ensures Exec(digest, steps + [step]) == Do(digest, Exec(digest, steps), step, |steps|)
  {
    assert (steps + [step])[..|steps|] == steps;
  }

  lemma StepMoves(digest: string -> string, r: Run, step: Step, n: nat)
    ensures var next := Do(digest, r, step, n);
            && next.generation == r.generation + (if RaisesGeneration(step) then 1 else 0)
            && r.log <= next.log && |next.log| == |r.log| + (if MovesHistory(step) then 1 else 0)
            && (r.unmanagedObserved ==> next.unmanagedObserved)
  {
  }

  lemma PrefixStep(digest: string -> string, steps: seq<Step>, k: nat)
    requires k < |steps|
    ensures var before, next := Exec(digest, steps[..k]), Exec(digest, steps[..k + 1]);
            && next.generation == before.generation + (if RaisesGeneration(steps[k]) then 1 else 0)
            && |next.log| == |before.log| + (if MovesHistory(steps[k]) then 1 else 0)
  {
    assert steps[..k + 1][..k] == steps[..k];
    StepMoves(digest, Exec(digest, steps[..k]), steps[k], k);
  }

  /** A counter that rises by one at the marked places only: if it has not risen, no place
      was marked. */
  lemma {:induction false} Climbs(level: seq<nat>, marked: seq<bool>, at: nat)
    requires |level| == |marked| + 1 && at <= |marked|
    requires forall k :: 0 <= k < |marked| ==> level[k + 1] == level[k] + (if marked[k] then 1 else 0)
    ensures level[at] <= level[|marked|]
    ensures level[at] == level[|marked|] ==> forall i :: at <= i < |marked| ==> !marked[i]
    decreases |marked| - at
  {
    if at < |marked| { Climbs(level, marked, at + 1); }
  }

  lemma UnchangedMeansQuiet(digest: string -> string, steps: seq<Step>, at: nat)
    requires at <= |steps|
    ensures Exec(digest, steps[..at]).generation <= Exec(digest, steps).generation
    ensures |Exec(digest, steps[..at]).log| <= |Exec(digest, steps).log|
    ensures Exec(digest, steps[..at]).generation == Exec(digest, steps).generation
        ==> forall i :: at <= i < |steps| ==> !RaisesGeneration(steps[i])
    ensures |Exec(digest, steps[..at]).log| == |Exec(digest, steps).log|
        ==> forall i :: at <= i < |steps| ==> !MovesHistory(steps[i])
  {
    var n := |steps|;
    assert steps[..n] == steps;
    var generations := seq(n + 1, k requires 0 <= k <= n => Exec(digest, steps[..k]).generation);
    var lengths := seq(n + 1, k requires 0 <= k <= n => |Exec(digest, steps[..k]).log|);
    var raises := seq(n, k requires 0 <= k < n => RaisesGeneration(steps[k]));
    var moves := seq(n, k requires 0 <= k < n => MovesHistory(steps[k]));
    forall k | 0 <= k < n
      ensures generations[k + 1] == generations[k] + (if raises[k] then 1 else 0)
      ensures lengths[k + 1] == lengths[k] + (if moves[k] then 1 else 0)
    {
      PrefixStep(digest, steps, k);
    }
    Climbs(generations, raises, at);
    Climbs(lengths, moves, at);
    assert forall i :: at <= i < n ==> raises[i] == RaisesGeneration(steps[i]) && moves[i] == MovesHistory(steps[i]);
  }

  /** The stamps of an entry or a kept result made when `at` steps had been done. */
  ghost predicate Stamped(digest: string -> string, steps: seq<Step>, at: nat, generation: Option<nat>,
                          binding: Option<Binding>) {
    && at <= |steps|
    && generation == Some(Exec(digest, steps[..at]).generation)
    && (binding.Some? ==> binding == BindingOf(digest, Exec(digest, steps[..at])))
  }

  ghost predicate AllStamped(digest: string -> string, steps: seq<Step>, entries: seq<EvidenceEntry>, at: seq<nat>) {
    && |at| == |entries|
    && forall i :: 0 <= i < |entries| ==> Stamped(digest, steps, at[i], entries[i].generation, entries[i].transaction)
  }

  ghost predicate KeptStamped(digest: string -> string, steps: seq<Step>, kept: seq<Kept>) {
    forall k :: k in kept ==> Stamped(digest, steps, k.at, k.result.generation, k.result.transaction)
  }

  /** Every entry carries the generation of its making and, at most, the binding. */
  ghost predicate Honest(digest: string -> string, steps: seq<Step>, r: Run) {
    AllStamped(digest, steps, r.entries, r.capturedAt) && KeptStamped(digest, steps, r.kept)
  }

  lemma StampsSurvive(digest: string -> string, steps: seq<Step>, r: Run)
    requires |steps| > 0 && Honest(digest, steps[..|steps| - 1], r)
    ensures Honest(digest, steps, r)
  {
    assert forall at: nat :: at < |steps| ==> steps[..|steps| - 1][..at] == steps[..at];
  }

  lemma {:induction false} IngestedStamped(digest: string -> string, steps: seq<Step>, kept: seq<Kept>, generation: nat)
    requires KeptStamped(digest, steps, kept)
    ensures var (entries, at) := Ingested(kept, generation); AllStamped(digest, steps, entries, at)
  {
    if kept != [] {
      assert kept[|kept| - 1] in kept;
      IngestedStamped(digest, steps, kept[..|kept| - 1], generation);
    }
  }

  lemma StepKeepsHonest(digest: string -> string, steps: seq<Step>, r: Run, step: Step, n: nat)
    requires Honest(digest, steps, r) && n <= |steps| && r == Exec(digest, steps[..n])
    ensures Honest(digest, steps, Do(digest, r, step, n))
  {
    match step
    case Ingest => IngestingKeepsHonest(digest, steps, r, n);
    case Verify(kind, passed, artifact) => VerifyingKeepsHonest(digest, steps, r, step, n);
    case _ =>
  }

  lemma IngestingKeepsHonest(digest: string -> string, steps: seq<Step>, r: Run, n: nat)
    requires Honest(digest, steps, r)
    ensures Honest(digest, steps, Do(digest, r, Ingest, n))
  {
    IngestedStamped(digest, steps, r.kept, r.generation);
  }

  lemma VerifyingKeepsHonest(digest: string -> string, steps: seq<Step>, r: Run, step: Step, n: nat)
    requires Honest(digest, steps, r) && n <= |steps| && r == Exec(digest, steps[..n]) && step.Verify?
    ensures Honest(digest, steps, Do(digest, r, step, n))
  {
    var k := Kept(StampedResult(digest, r, step.kind, step.passed), step.artifact, n);
    assert Stamped(digest, steps, n, k.result.generation, k.result.transaction);
  }

  lemma {:induction false} AlwaysHonest(digest: string -> string, steps: seq<Step>)
    ensures Honest(digest, steps, Exec(digest, steps))
    decreases |steps|
  {
    if steps != [] {
      var n := |steps| - 1;
      var before := Exec(digest, steps[..n]);
      AlwaysHonest(digest, steps[..n]);
      StampsSurvive(digest, steps, before);
      StepKeepsHonest(digest, steps, before, steps[n], n);
    }
  }

  // ----- freshness -----

  /** Evidence the gate accepts was made after the last step that raised the generation
      and, when there is a binding to match, after the last commit and rollback. */
  lemma AcceptedEvidenceIsFresh(digest: string -> string, steps: seq<Step>, kind: EvidenceKind, required: bool)
    returns (at: nat)
    requires var r := Exec(digest, steps); HasFresh(r.entries, kind, Some(r.generation), BindingOf(digest, r), required)
    ensures var r := Exec(digest, steps);
            var i := LatestIndex(r.entries, kind);
            && i >= 0 && r.entries[i].passed && !r.entries[i].stale
            && i < |r.capturedAt| && at == r.capturedAt[i] && at <= |steps|
            && (forall j :: at <= j < |steps| ==> !RaisesGeneration(steps[j]))
            && (required || BindingOf(digest, r).Some? ==> forall j :: at <= j < |steps| ==> !MovesHistory(steps[j]))
  {
    var r := Exec(digest, steps);
    var i := LatestIndex(r.entries, kind);
    AlwaysHonest(digest, steps);
    at := r.capturedAt[i];
    assert Stamped(digest, steps, at, r.entries[i].generation, r.entries[i].transaction);
    UnchangedMeansQuiet(digest, steps, at);
    if BindingOf(digest, r).Some? {
      ReplayCounts(digest, Exec(digest, steps[..at]).log);
      ReplayCounts(digest, r.log);
    }
  }

  predicate NamedTransactions(steps: seq<Step>) {
    forall s :: s in steps ==> (s.CommitPatch? || s.RollBack? ==> s.txId != "")
  }

  /** Without a binding, either something was written past the transactions or nothing was
      ever committed or rolled back. */
  lemma {:induction false} NoBindingMeans(digest: string -> string, steps: seq<Step>)
    requires NamedTransactions(steps)
    ensures var r := Exec(digest, steps);
            BindingOf(digest, r).None? && !r.unmanagedObserved ==>
              forall j :: 0 <= j < |steps| ==> !MovesHistory(steps[j])
  {
    UnchangedMeansQuiet(digest, steps, 0);
    var r := Exec(digest, steps);
    ReplayCounts(digest, r.log);
    if r.log != [] {
      LogNames(digest, steps);
      assert Replay(digest, r.log).latestTransactionId == Some(r.log[|r.log| - 1].txId);
    }
  }

  lemma StepLogs(digest: string -> string, r: Run, step: Step, n: nat)
    ensures var next := Do(digest, r, step, n);
            && next.log == (if step.CommitPatch? then r.log + [Committed(step.txId)]
                            else if step.RollBack? then r.log + [RolledBack(step.txId)] else r.log)
            && (next.unmanagedObserved ==> r.unmanagedObserved || next.generation > 0)
            && r.generation <= next.generation
  {
  }

  lemma {:induction false} LogNames(digest: string -> string, steps: seq<Step>)
    requires NamedTransactions(steps)
    ensures forall e :: e in Exec(digest, steps).log ==> e.txId != ""
    decreases |steps|
  {
    if steps != [] {
      var before, last := steps[..|steps| - 1], steps[|steps| - 1];
      assert steps == before + [last] && last in steps;
      LogNames(digest, before);
      OneMoreStep(digest, before, last);
      StepLogs(digest, Exec(digest, before), last, |before|);
    }
  }

  lemma {:induction false} UnmanagedRaises(digest: string -> string, steps: seq<Step>)
    ensures var r := Exec(digest, steps); r.unmanagedObserved ==> r.generation > 0
    decreases |steps|
  {
    if steps != [] {
      var before, last := steps[..|steps| - 1], steps[|steps| - 1];
      assert steps == before + [last];
      UnmanagedRaises(digest, before);
      OneMoreStep(digest, before, last);
      StepLogs(digest, Exec(digest, before), last, |before|);
    }
  }

  /** What the orchestrator is told about a run. */
  predicate Reports(input: Input, digest: string -> string, r: Run) {
    && input.generation == r.generation && input.binding == BindingOf(digest, r)
    && input.unmanagedWritesCovered == HasCovered(r)
  }

  /** A step after which older evidence no longer speaks for the files. */
  predicate Changes(step: Step) { RaisesGeneration(step) || MovesHistory(step) || step.LoseRestore? }

  /** The orchestrator says done with the run's ledger, and asks evidence of this kind. */
  ghost predicate EndsDone(digest: string -> string, steps: seq<Step>, input: Input, kind: EvidenceKind) {
    && Reports(input, digest, Exec(digest, steps))
    && Evaluation(input, Some(Exec(digest, steps).entries)).decision.Done?
    && IsRequired(kind, EvidenceClaim(input))
  }

  /** The latest entry of a kind passed, is not stale, and was made after `at` steps. */
  ghost predicate BackedAt(r: Run, kind: EvidenceKind, at: nat) {
    var i := LatestIndex(r.entries, kind);
    && i >= 0 && r.entries[i].passed && !r.entries[i].stale
    && i < |r.capturedAt| && at == r.capturedAt[i]
  }

  /** Done is never decided on stale evidence. In every run, if the orchestrator says done
      with a ledger present, each required kind's latest entry passed, is not stale, and
      was made after the last write, rollback and commit, with two exceptions: a patch
      whose restore was lost leaves no trace, and a commit is missed where the run's
      unmanaged writes count as covered. */
  lemma DoneIsFresh(digest: string -> string, steps: seq<Step>, input: Input, kind: EvidenceKind) returns (at: nat)
    requires NamedTransactions(steps) && EndsDone(digest, steps, input, kind)
    ensures var r := Exec(digest, steps);
            && BackedAt(r, kind, at) && at <= |steps|
            && (forall j :: at <= j < |steps| && Changes(steps[j]) ==>
                  steps[j].LoseRestore? || (HasCovered(r) && r.unmanagedObserved && steps[j].CommitPatch?))
  {
    var r := Exec(digest, steps);
    DoneHasFreshEvidence(input, r.entries, kind);
    at := AcceptedEvidenceIsFresh(digest, steps, kind, RequireBinding(input));
    NoBindingMeans(digest, steps);
    UnmanagedRaises(digest, steps);
  }

  /** As the callers do it: every commit is at once followed by the record of its write. */
  predicate RecordsCommits(steps: seq<Step>) {
    forall j :: 0 <= j < |steps| && steps[j].CommitPatch? ==> j + 1 < |steps| && steps[j + 1].RecordWrite?
  }

  /** Then no commit is missed, covered or not. */
  lemma DoneIsFreshWhenRecorded(digest: string -> string, steps: seq<Step>, input: Input, kind: EvidenceKind)
    returns (at: nat)
    requires NamedTransactions(steps) && RecordsCommits(steps) && EndsDone(digest, steps, input, kind)
    ensures BackedAt(Exec(digest, steps), kind, at) && at <= |steps|
    ensures forall j :: at <= j < |steps| && Changes(steps[j]) ==> steps[j].LoseRestore?
  {
    at := DoneIsFresh(digest, steps, input, kind);
    forall j | at <= j < |steps| && Changes(steps[j]) ensures steps[j].LoseRestore? {
      if steps[j].CommitPatch? { assert Changes(steps[j + 1]); }
    }
  }

  // ----- runs that end done -----

  function StampedTypecheck(generation: nat, binding: Option<Binding>): EvidenceEntry {
    EntryOf(VerificationResult(Typecheck, "", true, "", Some(generation), binding), TypecheckEvidence, "", 0, None,
            Some(generation))
  }

  /** A patch is committed and its write recorded. */
  lemma RecordedPatch(digest: string -> string) returns (steps: seq<Step>)
    ensures |steps| == 2 && NamedTransactions(steps) && CommitPatch("t") in steps && RecordWrite in steps
    ensures Exec(digest, steps) == START.(log := [Committed("t")], generation := 1)
  {
    steps := [CommitPatch("t")] + [RecordWrite];
    OneMoreStep(digest, [CommitPatch("t")], RecordWrite);
    assert [CommitPatch("t")][..0] == [];
  }

  /** A passing typecheck on its way to the ledger. */
  function KeptTypecheck(digest: string -> string, r: Run, at: nat): Kept {
    Kept(StampedResult(digest, r, Typecheck, true), None, at)
  }

  lemma IngestedOne(k: Kept, generation: nat)
    requires k.result.kind == Typecheck
    ensures Ingested([k], generation) == ([EntryFor(k, TypecheckEvidence, generation)], [k.at])
  {
    var e := EntryFor(k, TypecheckEvidence, generation);
    assert [k][..0] == [] && [] + [e] == [e] && [] + [k.at] == [k.at];
    assert Ingested([k][..0], generation) == ([], []);
  }

  lemma VerifiedOnce(digest: string -> string, r: Run, n: nat)
    requires r.kept == []
    ensures Do(digest, r, Verify(Typecheck, true, None), n) == r.(kept := [KeptTypecheck(digest, r, n)])
  {
  }

  lemma IngestedOnce(digest: string -> string, r: Run, k: Kept, n: nat)
    requires k.result.kind == Typecheck && r.kept == [k] && r.entries == [] && r.capturedAt == []
    ensures Do(digest, r, Ingest, n)
         == r.(kept := [], entries := [EntryFor(k, TypecheckEvidence, r.generation)], capturedAt := [k.at])
  {
    IngestedOne(k, r.generation);
  }

  /** From there on, a typecheck passes and is ingested. */
  lemma VerifiedAndIngested(digest: string -> string, steps: seq<Step>) returns (more: seq<Step>)
    requires var r := Exec(digest, steps); r.kept == [] && r.entries == [] && r.capturedAt == []
    ensures more == steps + [Verify(Typecheck, true, None)] + [Ingest]
    ensures var r := Exec(digest, steps);
            Exec(digest, more)
            == r.(entries := [StampedTypecheck(r.generation, BindingOf(digest, r))], capturedAt := [|steps|])
  {
    var r, verified := Exec(digest, steps), steps + [Verify(Typecheck, true, None)];
    var k := KeptTypecheck(digest, r, |steps|);
    OneMoreStep(digest, steps, Verify(Typecheck, true, None));
    VerifiedOnce(digest, r, |steps|);
    OneMoreStep(digest, verified, Ingest);
    IngestedOnce(digest, r.(kept := [k]), k, |verified|);
    more := verified + [Ingest];
  }

  lemma PlainRun(digest: string -> string) returns (steps: seq<Step>)
    ensures NamedTransactions(steps) && CommitPatch("t") in steps && RecordWrite in steps
    ensures var r := Exec(digest, steps);
            && r.generation == 1 && !HasCovered(r) && BindingOf(digest, r).Some?
            && r.entries == [StampedTypecheck(1, BindingOf(digest, r))] && |r.capturedAt| == 1
            && r.capturedAt[0] < |steps|
  {
    var recorded := RecordedPatch(digest);
    steps := VerifiedAndIngested(digest, recorded);
    ReplayCounts(digest, Exec(digest, recorded).log);
  }

  /** A run without a tracker, in its first round, that wrote something and is ready to
      end. */
  function Ready(generation: nat, binding: Option<Binding>, covered: bool): Input {
    Input(0, 5, false, None, Building, [], 0, 0, false, false, true, 0, 1, 1, [], 0, false, 0, false, Satisfied, [],
          generation, binding, covered)
  }

  /** It is done on one fresh typecheck. */
  lemma DoneOnTypecheck(input: Input, entries: seq<EvidenceEntry>)
    requires exists generation: nat, binding, covered :: input == Ready(generation, binding, covered)
    requires HasFresh(entries, TypecheckEvidence, Some(input.generation), input.binding, RequireBinding(input))
    ensures Evaluation(input, Some(entries)).decision.Done? && IsRequired(TypecheckEvidence, EvidenceClaim(input))
  {
    DoneExactlyWhen(input, Some(entries));
  }

  /** So runs exist that end done with fresh evidence. */
  lemma DoneRunExists(digest: string -> string) returns (steps: seq<Step>, input: Input)
    ensures NamedTransactions(steps) && EndsDone(digest, steps, input, TypecheckEvidence)
    ensures CommitPatch("t") in steps && RecordWrite in steps
  {
    steps := PlainRun(digest);
    var r := Exec(digest, steps);
    input := Ready(1, BindingOf(digest, r), false);
    assert LatestIndex(r.entries, TypecheckEvidence) == 0;
    DoneOnTypecheck(input, r.entries);
  }

  /** The first exception is real: a run that ends done after a patch overwrote files and
      lost its restore, on a typecheck made before. */
  lemma LostRestoreMissed(digest: string -> string) returns (steps: seq<Step>, input: Input, at: nat)
    ensures NamedTransactions(steps) && EndsDone(digest, steps, input, TypecheckEvidence)
    ensures BackedAt(Exec(digest, steps), TypecheckEvidence, at) && at < |steps| && steps[|steps| - 1] == LoseRestore
  {
    var plain := PlainRun(digest);
    OneMoreStep(digest, plain, LoseRestore);
    steps := plain + [LoseRestore];
    var r := Exec(digest, steps);
    input, at := Ready(1, BindingOf(digest, r), false), r.capturedAt[0];
    assert LatestIndex(r.entries, TypecheckEvidence) == 0;
    DoneOnTypecheck(input, r.entries);
  }

  /** So is the second: shell writes covered by a verification, a passing typecheck, then a
      commit whose write is not recorded; the run ends done all the same. */
  lemma CommitAfterCoverageMissed(digest: string -> string) returns (steps: seq<Step>, input: Input)
    ensures steps == [ObserveWrites({"a"}), CoverWrites(["a"]), BatchTypecheck(true, None), CommitPatch("t")]
    ensures EndsDone(digest, steps, input, TypecheckEvidence)
    ensures BackedAt(Exec(digest, steps), TypecheckEvidence, 2)
  {
    var r: Run;
    steps, r := CommittedAfterCoverage(digest);
    assert r.entries == [TypecheckAt(1, true, None)] && LatestIndex(r.entries, TypecheckEvidence) == 0;
    input := Ready(1, BindingOf(digest, r), true);
    DoneOnTypecheck(input, r.entries);
  }

  lemma CommittedAfterCoverage(digest: string -> string) returns (steps: seq<Step>, r: Run)
    ensures steps == [ObserveWrites({"a"}), CoverWrites(["a"]), BatchTypecheck(true, None), CommitPatch("t")]
    ensures r == Exec(digest, steps)
            == START.(log := [Committed("t")], generation := 1, unmanagedObserved := true, covered := true,
                      entries := [TypecheckAt(1, true, None)], capturedAt := [2])
  {
    var covered := CoveredShellWrite(digest);
    OneMoreStep(digest, covered, BatchTypecheck(true, None));
    OneMoreStep(digest, covered + [BatchTypecheck(true, None)], CommitPatch("t"));
    steps := covered + [BatchTypecheck(true, None)] + [CommitPatch("t")];
    r := Exec(digest, steps);
  }

  lemma CoveredShellWrite(digest: string -> string) returns (steps: seq<Step>)
    ensures steps == [ObserveWrites({"a"}), CoverWrites(["a"])]
    ensures Exec(digest, steps) == START.(generation := 1, unmanagedObserved := true, covered := true)
  {
    var first := [ObserveWrites({"a"})];
    assert first[..0] == [];
    assert Exec(digest, first) == START.(generation := 1, unmanagedObserved := true, unmanagedPaths := {"a"});
    OneMoreStep(digest, first, CoverWrites(["a"]));
    steps := first + [CoverWrites(["a"])];
  }

  // ----- what coverage means -----

  /** The `i`-th step observed a shell write of `p`, and some later step covered `p`. */
  ghost predicate CoveredLater(steps: seq<Step>, i: nat, p: string)
    requires i < |steps|
  {
    exists k :: i < k < |steps| && steps[k].CoverWrites? && p in steps[k].files
  }

  ghost predicate Observed(steps: seq<Step>, i: nat, p: string)
    requires i < |steps|
  {
    steps[i].ObserveWrites? && p in steps[i].paths
  }

  ghost predicate Uncovered(steps: seq<Step>, p: string) {
    exists i: nat :: i < |steps| && Observed(steps, i, p) && !CoveredLater(steps, i, p)
  }

  ghost predicate SomethingObserved(steps: seq<Step>) {
    exists i: nat :: i < |steps| && steps[i].ObserveWrites? && steps[i].paths != {}
  }

  /** The run's two fields say which observed paths await coverage and whether there are
      none left of some. */
  ghost predicate TracksCoverage(steps: seq<Step>, r: Run) {
    && (forall p :: p in r.unmanagedPaths <==> Uncovered(steps, p))
    && (r.covered <==> SomethingObserved(steps) && r.unmanagedPaths == {})
  }

  lemma UncoveredAfter(steps: seq<Step>, step: Step, p: string)
    ensures Uncovered(steps + [step], p) <==>
            || (step.ObserveWrites? && p in step.paths)
            || (Uncovered(steps, p) && !(step.CoverWrites? && p in step.files))
  {
    var n, more := |steps|, steps + [step];
    forall i: nat | i < n
      ensures Observed(more, i, p) == Observed(steps, i, p)
      ensures CoveredLater(more, i, p) <==> CoveredLater(steps, i, p) || (step.CoverWrites? && p in step.files)
    {
      if CoveredLater(steps, i, p) {
        var k :| i < k < n && steps[k].CoverWrites? && p in steps[k].files;
        assert more[k] == steps[k];
      }
      if step.CoverWrites? && p in step.files { assert more[n] == step; }
    }
    assert !CoveredLater(more, n, p) && (Observed(more, n, p) <==> step.ObserveWrites? && p in step.paths);
    if Uncovered(more, p) {
      var i: nat :| i < |more| && Observed(more, i, p) && !CoveredLater(more, i, p);
      if i < n { assert Observed(steps, i, p); }
    }
    if Uncovered(steps, p) {
      var i: nat :| i < n && Observed(steps, i, p) && !CoveredLater(steps, i, p);
      assert Observed(more, i, p);
    }
  }

  lemma ObservedAfter(steps: seq<Step>, step: Step)
    ensures SomethingObserved(steps + [step]) <==> SomethingObserved(steps) || (step.ObserveWrites? && step.paths != {})
  {
    var more := steps + [step];
    assert more[|steps|] == step;
    if SomethingObserved(steps) {
      var i: nat :| i < |steps| && steps[i].ObserveWrites? && steps[i].paths != {};
      assert more[i] == steps[i];
    }
  }

  /** What one step does to the coverage. */
  lemma StepCovers(digest: string -> string, r: Run, step: Step, n: nat)
    ensures var next := Do(digest, r, step, n);
            && (forall p :: p in next.unmanagedPaths <==>
                  || (step.ObserveWrites? && p in step.paths)
                  || (p in r.unmanagedPaths && !(step.CoverWrites? && p in step.files)))
            && (next.covered <==>
                  && (r.covered || (step.CoverWrites? && r.unmanagedPaths != {} && next.unmanagedPaths == {}))
                  && !(step.ObserveWrites? && step.paths != {}))
  {
  }

  lemma StepTracksCoverage(digest: string -> string, steps: seq<Step>, r: Run, step: Step)
    requires TracksCoverage(steps, r)
    ensures TracksCoverage(steps + [step], Do(digest, r, step, |steps|))
  {
    var next := Do(digest, r, step, |steps|);
    StepCovers(digest, r, step, |steps|);
    ObservedAfter(steps, step);
    forall p ensures p in next.unmanagedPaths <==> Uncovered(steps + [step], p) { UncoveredAfter(steps, step, p); }
    if step.ObserveWrites? && step.paths != {} {
      var p :| p in step.paths;
      assert p in next.unmanagedPaths;
    }
    if r.unmanagedPaths != {} {
      var p :| p in r.unmanagedPaths;
      assert !step.CoverWrites? ==> p in next.unmanagedPaths;
      assert Uncovered(steps, p);
      var i: nat :| i < |steps| && Observed(steps, i, p) && !CoveredLater(steps, i, p);
      assert SomethingObserved(steps);
    } else if !(step.ObserveWrites? && step.paths != {}) {
      assert next.unmanagedPaths == {};
    }
  }

  lemma {:induction false} CoverageIsTracked(digest: string -> string, steps: seq<Step>)
    ensures TracksCoverage(steps, Exec(digest, steps))
    decreases |steps|
  {
    if steps != [] {
      var before, last := steps[..|steps| - 1], steps[|steps| - 1];
      assert steps == before + [last];
      CoverageIsTracked(digest, before);
      OneMoreStep(digest, before, last);
      StepTracksCoverage(digest, before, Exec(digest, before), last);
    }
  }

  /** In every run: its shell writes count as covered exactly when some were observed and
      every path of each was in a passing targeted verification later on. Writes at
      unknown places do not enter into it. */
  lemma HasCoveredExactlyWhen(digest: string -> string, steps: seq<Step>)
    ensures HasCovered(Exec(digest, steps)) <==>
            && SomethingObserved(steps)
            && forall i: nat, p :: i < |steps| && Observed(steps, i, p) ==> CoveredLater(steps, i, p)
  {
    var r := Exec(digest, steps);
    CoverageIsTracked(digest, steps);
    if HasCovered(r) {
      forall i: nat, p | i < |steps| && Observed(steps, i, p) ensures CoveredLater(steps, i, p) {
        assert p !in r.unmanagedPaths && !Uncovered(steps, p);
      }
    } else if SomethingObserved(steps) {
      assert r.unmanagedPaths != {};
      var p :| p in r.unmanagedPaths;
      assert Uncovered(steps, p);
    }
  }

  /** So coverage outlives such a write, and leaving it out anywhere changes nothing: a run
      still counts as covered although the generation shows that something was written. */
  lemma {:induction false} UnknownWritesNeverCount(digest: string -> string, before: seq<Step>, after: seq<Step>)
    ensures var with, without := Exec(digest, before + [ObserveUnknownWrite] + after), Exec(digest, before + after);
            && with.unmanagedPaths == without.unmanagedPaths && with.covered == without.covered
            && with.generation == without.generation + 1
    decreases |after|
  {
    if after == [] {
      assert before + [ObserveUnknownWrite] + after == before + [ObserveUnknownWrite] && before + after == before;
      OneMoreStep(digest, before, ObserveUnknownWrite);
    } else {
      var some, last := after[..|after| - 1], after[|after| - 1];
      var a, b := before + [ObserveUnknownWrite] + some, before + some;
      assert before + [ObserveUnknownWrite] + after == a + [last] && before + after == b + [last];
      UnknownWritesNeverCount(digest, before, some);
      OneMoreStep(digest, a, last);
      OneMoreStep(digest, b, last);
      StepKeepsAlike(digest, Exec(digest, a), Exec(digest, b), last, |a|, |b|);
    }
  }

  lemma StepKeepsAlike(digest: string -> string, r: Run, s: Run, step: Step, n: nat, m: nat)
    requires r.unmanagedPaths == s.unmanagedPaths && r.covered == s.covered && r.generation == s.generation + 1
    ensures var x, y := Do(digest, r, step, n), Do(digest, s, step, m);
            x.unmanagedPaths == y.unmanagedPaths && x.covered == y.covered && x.generation == y.generation + 1
  {
  }

  // ----- when a run can still be done -----

  predicate NoShellWrites(steps: seq<Step>) { forall s :: s in steps ==> !s.ObserveWrites? }

  /** Some shell write is covered, or known and waiting to be. */
  predicate Coverable(r: Run) { r.covered || r.unmanagedPaths != {} }

  lemma StepKeepsUncoverable(digest: string -> string, r: Run, step: Step, n: nat)
    requires !step.ObserveWrites? && !Coverable(r)
    ensures !Coverable(Do(digest, r, step, n))
  {
  }

  lemma {:induction false} StaysUncoverable(digest: string -> string, steps: seq<Step>, more: seq<Step>)
    requires NoShellWrites(more) && !Coverable(Exec(digest, steps))
    ensures !Coverable(Exec(digest, steps + more))
    decreases |more|
  {
    if more == [] {
      assert steps + more == steps;
    } else {
      var some, last := more[..|more| - 1], more[|more| - 1];
      assert steps + more == (steps + some) + [last];
      StaysUncoverable(digest, steps, some);
      OneMoreStep(digest, steps + some, last);
      StepKeepsUncoverable(digest, Exec(digest, steps + some), last, |steps + some|);
    }
  }

  lemma {:induction false} StaysUnmanaged(digest: string -> string, steps: seq<Step>, more: seq<Step>)
    requires Exec(digest, steps).unmanagedObserved
    ensures Exec(digest, steps + more).unmanagedObserved
    decreases |more|
  {
    if more == [] {
      assert steps + more == steps;
    } else {
      var some, last := more[..|more| - 1], more[|more| - 1];
      assert steps + more == (steps + some) + [last];
      StaysUnmanaged(digest, steps, some);
      OneMoreStep(digest, steps + some, last);
      StepMoves(digest, Exec(digest, steps + some), last, |steps + some|);
    }
  }

  lemma {:induction false} Listed(s: set<string>) returns (q: seq<string>)
    ensures forall p :: p in q <==> p in s
    decreases |s|
  {
    if s == {} {
      q := [];
    } else {
      var p :| p in s;
      var rest := Listed(s - {p});
      q := rest + [p];
    }
  }

  /** One verification of all that waits covers it. */
  lemma CoverAll(digest: string -> string, steps: seq<Step>) returns (files: seq<string>)
    requires Coverable(Exec(digest, steps))
    ensures var r, next := Exec(digest, steps), Exec(digest, steps + [CoverWrites(files)]);
            HasCovered(next) && next == r.(unmanagedPaths := {}, covered := true)
  {
    var r := Exec(digest, steps);
    files := Listed(r.unmanagedPaths);
    OneMoreStep(digest, steps, CoverWrites(files));
    if r.unmanagedPaths != {} {
      var p :| p in r.unmanagedPaths;
      assert p in files;
      assert (set p | p in r.unmanagedPaths && p !in files) == {};
    }
  }

  /** Coverage can be reached without another shell write exactly when some shell write is
      covered or known. */
  lemma CoverableExactlyWhen(digest: string -> string, steps: seq<Step>)
    ensures (exists more :: NoShellWrites(more) && HasCovered(Exec(digest, steps + more)))
       <==> Coverable(Exec(digest, steps))
  {
    if Coverable(Exec(digest, steps)) {
      var files := CoverAll(digest, steps);
      assert NoShellWrites([CoverWrites(files)]);
    } else {
      forall more | NoShellWrites(more) ensures !HasCovered(Exec(digest, steps + more)) {
        StaysUncoverable(digest, steps, more);
      }
    }
  }

  /** Once something was written past the managed tools, a requirement is met by nothing
      but coverage. */
  lemma UnmanagedNeedsCoverage(digest: string -> string, steps: seq<Step>, input: Input, kind: EvidenceKind)
    requires Exec(digest, steps).unmanagedObserved && EndsDone(digest, steps, input, kind)
    ensures HasCovered(Exec(digest, steps))
  {
    UnmanagedRaises(digest, steps);
    DoneHasFreshEvidence(input, Exec(digest, steps).entries, kind);
  }

  /** The shortest way to the end: cover all that waits, and typecheck. */
  lemma CoverAndTypecheck(digest: string -> string, steps: seq<Step>) returns (more: seq<Step>, input: Input)
    requires var r := Exec(digest, steps); r.unmanagedObserved && Coverable(r)
    ensures NoShellWrites(more) && EndsDone(digest, steps + more, input, TypecheckEvidence)
  {
    var files := CoverAll(digest, steps);
    var covered := steps + [CoverWrites(files)];
    more := [CoverWrites(files), BatchTypecheck(true, None)];
    assert steps + more == covered + [BatchTypecheck(true, None)];
    OneMoreStep(digest, covered, BatchTypecheck(true, None));
    var was, r := Exec(digest, covered), Exec(digest, steps + more);
    input := Ready(r.generation, None, true);
    var e := TypecheckAt(was.generation, true, None);
    LatestEntryDecides(was.entries, e, TypecheckEvidence, Some(r.generation), None, false);
    DoneOnTypecheck(input, r.entries);
  }

  /** After a write past the managed tools, a run that owes a typecheck can end done
      without another shell write exactly when some shell write is covered or known. A
      run whose only such writes are at unknown places is stuck for good. */
  lemma DoneReachableExactlyWhen(digest: string -> string, steps: seq<Step>)
    requires Exec(digest, steps).unmanagedObserved
    ensures (exists more, input :: NoShellWrites(more) && EndsDone(digest, steps + more, input, TypecheckEvidence))
       <==> Coverable(Exec(digest, steps))
  {
    if Coverable(Exec(digest, steps)) {
      var more, input := CoverAndTypecheck(digest, steps);
    } else {
      forall more, input | NoShellWrites(more) ensures !EndsDone(digest, steps + more, input, TypecheckEvidence) {
        UnknownWriteBlocksForGood(digest, steps, more, input, TypecheckEvidence);
      }
    }
  }

  /** The same for any requirement: nothing it verifies later helps. */
  lemma UnknownWriteBlocksForGood(digest: string -> string, steps: seq<Step>, more: seq<Step>, input: Input,
                                  kind: EvidenceKind)
    requires var r := Exec(digest, steps); r.unmanagedObserved && !Coverable(r)
    requires NoShellWrites(more)
    ensures !EndsDone(digest, steps + more, input, kind)
  {
    StaysUncoverable(digest, steps, more);
    StaysUnmanaged(digest, steps, more);
    if EndsDone(digest, steps + more, input, kind) { UnmanagedNeedsCoverage(digest, steps + more, input, kind); }
  }

  /** Evidence brought over from another run matches a binding here only if both runs had
      the same commits and rollbacks, transaction by transaction. */
  lemma ForeignEvidenceNeedsSameHistory(digest: string -> string, entries: seq<EvidenceEntry>, kind: EvidenceKind,
                                        captured: seq<Event>, log: seq<Event>, required: bool)
    requires CollisionFree(digest) && Readable(captured) && Readable(log)
    requires HasFresh(entries, kind, None, CurrentBinding(Replay(digest, log), false), required)
    requires entries[LatestIndex(entries, kind)].transaction == CurrentBinding(Replay(digest, captured), false)
    requires CurrentBinding(Replay(digest, log), false).Some?
    ensures captured == log
  {
    StateIdNamesHistory(digest, captured, log);
  }
}
