/** The ledger of verification evidence and the hard check that a task may be called
    done: the latest entry of every required kind must be passing and fresh. */
module EvidenceLedger {
  import opened Options
  import opened TransactionHistory

  datatype VerificationKind = Typecheck | Test | Build | Lint | Smoke | Unknown

  datatype EvidenceKind =
    | TypecheckEvidence | TestEvidence | BuildEvidence | ManualEvidence | SandboxExecution | SandboxCleanup

  function ToEvidenceKind(kind: VerificationKind): Option<EvidenceKind> {
    match kind
    case Typecheck | Lint => Some(TypecheckEvidence)
    case Test | Smoke => Some(TestEvidence)
    case Build => Some(BuildEvidence)
    case Unknown => None
  }

  datatype EvidenceEntry = EvidenceEntry(
    id: string, kind: EvidenceKind, command: Option<string>, output: string, passed: bool,
    status: Option<string>, issues: Option<int>, timestamp: int,
    receiptDigest: Option<string>, backend: Option<string>, cleanupVerified: Option<bool>,
    networkMode: Option<string>, degraded: Option<bool>,
    txId: Option<string>, generation: Option<nat>, transaction: Option<Binding>,
    artifactId: Option<string>, stale: bool)

  datatype VerificationResult = VerificationResult(kind: VerificationKind, command: string, passed: bool,
                                                   summary: string, generation: Option<nat>,
                                                   transaction: Option<Binding>)

  // ----- the gate on one kind -----

  /** The index of the last entry of a kind, or -1. */
  function LatestIndex(entries: seq<EvidenceEntry>, kind: EvidenceKind): (r: int)
    ensures -1 <= r < |entries|
    ensures r >= 0 ==> entries[r].kind == kind
    ensures forall i :: r < i < |entries| ==> entries[i].kind != kind
  {
    if entries == [] then -1
    else if entries[|entries| - 1].kind == kind then |entries| - 1
    else LatestIndex(entries[..|entries| - 1], kind)
  }

  /** What the gate asks of an entry: it passed and is not stale (L1), carries the current
      write generation when that is known (L2), and the current binding when there is one,
      which there must be when one is required (L3). */
  predicate IsFresh(e: EvidenceEntry, generation: Option<nat>, binding: Option<Binding>, required: bool) {
    && e.passed && !e.stale
    && (generation.Some? ==> e.generation == generation)
    && (required ==> binding.Some?)
    && (binding.Some? ==> e.transaction == binding)
  }

  predicate HasFresh(entries: seq<EvidenceEntry>, kind: EvidenceKind, generation: Option<nat>, binding: Option<Binding>,
                     required: bool) {
    var i := LatestIndex(entries, kind);
    i >= 0 && IsFresh(entries[i], generation, binding, required)
  }

  /** A later failing, stale or outdated entry of the same kind closes the gate, and an
      entry of another kind never matters. */
  lemma LatestEntryDecides(entries: seq<EvidenceEntry>, e: EvidenceEntry, kind: EvidenceKind, generation: Option<nat>,
                           binding: Option<Binding>, required: bool)
    ensures HasFresh(entries + [e], kind, generation, binding, required)
            == if e.kind == kind then IsFresh(e, generation, binding, required)
               else HasFresh(entries, kind, generation, binding, required)
  {
    assert (entries + [e])[..|entries|] == entries;
  }

  // ----- the claim -----

  datatype TrackerStep = TrackerStep(title: string, done: bool)

  datatype Tracker = Tracker(steps: seq<TrackerStep>, requiredFiles: seq<string>,
                             requiredVerificationKinds: seq<VerificationKind>)

  datatype Missing = UndoneStep(title: string) | MissingFile(name: string) | MissingEvidence(kind: EvidenceKind)

  datatype Blocked = EvidenceBlocked(kinds: seq<EvidenceKind>) | StepsBlocked(count: nat)

  datatype Claim = Claim(canClaim: bool, missing: seq<Missing>, blocked: seq<Blocked>,
                         requiredKinds: seq<EvidenceKind>, satisfiedKinds: seq<EvidenceKind>,
                         unsatisfiedKinds: seq<EvidenceKind>)

  /** What a claim is judged by. `fileExists` is None when no directory is given. */
  datatype ClaimInput = ClaimInput(tracker: Option<Tracker>, fileExists: Option<string -> bool>,
                                   explicitKinds: seq<EvidenceKind>, generation: Option<nat>,
                                   binding: Option<Binding>, requireBinding: bool)

  predicate FileFound(exists_: string -> bool, name: string) {
    exists_(name) || exists_("blog/" + name) || exists_("client/" + name)
  }

  predicate Fresh(entries: seq<EvidenceEntry>, kind: EvidenceKind, claim: ClaimInput) {
    HasFresh(entries, kind, claim.generation, claim.binding, claim.requireBinding)
  }

  ghost predicate IsRequired(kind: EvidenceKind, claim: ClaimInput) {
    || kind in claim.explicitKinds
    || (claim.tracker.Some?
        && exists vk :: vk in claim.tracker.value.requiredVerificationKinds && ToEvidenceKind(vk) == Some(kind))
  }

  /** Nothing is asked of a run with neither a tracker nor explicit requirements. */
  predicate NothingAsked(claim: ClaimInput) {
    claim.tracker.None? && claim.explicitKinds == []
  }

  /** The claim may be made: every step is done, every required file found, and every
      required kind has fresh passing evidence. */
  ghost predicate MayClaim(entries: seq<EvidenceEntry>, claim: ClaimInput) {
    NothingAsked(claim) || (StepsDone(claim) && FilesFound(claim) && EvidenceHeld(entries, claim))
  }

  ghost predicate StepsDone(claim: ClaimInput) {
    claim.tracker.Some? ==> forall s :: s in claim.tracker.value.steps ==> s.done
  }

  ghost predicate FilesFound(claim: ClaimInput) {
    claim.tracker.Some? && claim.fileExists.Some? ==>
      forall f :: f in claim.tracker.value.requiredFiles ==> FileFound(claim.fileExists.value, f)
  }

  ghost predicate EvidenceHeld(entries: seq<EvidenceEntry>, claim: ClaimInput) {
    forall kind :: IsRequired(kind, claim) ==> Fresh(entries, kind, claim)
  }

  /** The list without repetitions, first occurrences kept. */
  function Distinct(kinds: seq<EvidenceKind>): (r: seq<EvidenceKind>)
    ensures forall k :: k in r <==> k in kinds
    ensures forall i, j :: 0 <= i < j < |r| ==> r[i] != r[j]
  {
    if kinds == [] then []
    else
      var before, last := Distinct(kinds[..|kinds| - 1]), kinds[|kinds| - 1];
      assert kinds == kinds[..|kinds| - 1] + [last];
      if last in before then before else before + [last]
  }

  function EvidenceKindsOf(kinds: seq<VerificationKind>): seq<EvidenceKind> {
    if kinds == [] then []
    else
      var before := EvidenceKindsOf(kinds[..|kinds| - 1]);
      match ToEvidenceKind(kinds[|kinds| - 1]) case None => before case Some(k) => before + [k]
  }

  function Undone(steps: seq<TrackerStep>): seq<Missing> {
    if steps == [] then []
    else
      var before, last := Undone(steps[..|steps| - 1]), steps[|steps| - 1];
      if last.done then before else before + [UndoneStep(last.title)]
  }

  function NotFound(exists_: string -> bool, names: seq<string>): seq<Missing> {
    if names == [] then []
    else
      var before, last := NotFound(exists_, names[..|names| - 1]), names[|names| - 1];
      if FileFound(exists_, last) then before else before + [MissingFile(last)]
  }

  function Kept(entries: seq<EvidenceEntry>, kinds: seq<EvidenceKind>, claim: ClaimInput,
                fresh_: bool): seq<EvidenceKind> {
    if kinds == [] then []
    else
      var before, last := Kept(entries, kinds[..|kinds| - 1], claim, fresh_), kinds[|kinds| - 1];
      if Fresh(entries, last, claim) == fresh_ then before + [last] else before
  }

  function Lacking(kinds: seq<EvidenceKind>): seq<Missing> {
    seq(|kinds|, i requires 0 <= i < |kinds| => MissingEvidence(kinds[i]))
  }

  function RequiredKinds(claim: ClaimInput): seq<EvidenceKind> {
    var tracked := if claim.tracker.None? then []
                   else Distinct(EvidenceKindsOf(claim.tracker.value.requiredVerificationKinds));
    Distinct(tracked + claim.explicitKinds)
  }

  function UndoneSteps(claim: ClaimInput): seq<Missing> {
    if claim.tracker.None? then [] else Undone(claim.tracker.value.steps)
  }

  function MissingFiles(claim: ClaimInput): seq<Missing> {
    if claim.tracker.None? || claim.fileExists.None? then []
    else NotFound(claim.fileExists.value, claim.tracker.value.requiredFiles)
  }

  /** The whole answer, list by list. */
  function ClaimOf(entries: seq<EvidenceEntry>, claim: ClaimInput): Claim {
    if NothingAsked(claim) then Claim(true, [], [], [], [], [])
    else
      var undone, required := UndoneSteps(claim), RequiredKinds(claim);
      var lacking := Kept(entries, required, claim, false);
      var missing := undone + MissingFiles(claim) + Lacking(lacking);
      Claim(missing == [], missing,
            (if lacking == [] then [] else [EvidenceBlocked(lacking)])
            + (if undone == [] then [] else [StepsBlocked(|undone|)]),
            required, Kept(entries, required, claim, true), lacking)
  }

  lemma {:induction false} UndoneMeans(steps: seq<TrackerStep>)
    ensures Undone(steps) == [] <==> forall s :: s in steps ==> s.done
  {
    if steps != [] {
      UndoneMeans(steps[..|steps| - 1]);
      assert steps == steps[..|steps| - 1] + [steps[|steps| - 1]];
    }
  }

  lemma {:induction false} NotFoundMeans(exists_: string -> bool, names: seq<string>)
    ensures NotFound(exists_, names) == [] <==> forall f :: f in names ==> FileFound(exists_, f)
  {
    if names != [] {
      NotFoundMeans(exists_, names[..|names| - 1]);
      assert names == names[..|names| - 1] + [names[|names| - 1]];
    }
  }

  lemma {:induction false} KeptMeans(entries: seq<EvidenceEntry>, kinds: seq<EvidenceKind>, claim: ClaimInput,
                                     fresh_: bool)
    ensures forall k :: k in Kept(entries, kinds, claim, fresh_) <==> k in kinds && Fresh(entries, k, claim) == fresh_
  {
    if kinds != [] {
      KeptMeans(entries, kinds[..|kinds| - 1], claim, fresh_);
      assert kinds == kinds[..|kinds| - 1] + [kinds[|kinds| - 1]];
    }
  }

  lemma {:induction false} EvidenceKindsOfMeans(kinds: seq<VerificationKind>)
    ensures forall k :: k in EvidenceKindsOf(kinds) <==> exists vk :: vk in kinds && ToEvidenceKind(vk) == Some(k)
  {
    if kinds != [] {
      EvidenceKindsOfMeans(kinds[..|kinds| - 1]);
      assert kinds == kinds[..|kinds| - 1] + [kinds[|kinds| - 1]];
    }
  }

  predicate NoRepeats(kinds: seq<EvidenceKind>) {
    forall i, j :: 0 <= i < j < |kinds| ==> kinds[i] != kinds[j]
  }

  lemma {:induction false} KeptOnce(entries: seq<EvidenceEntry>, kinds: seq<EvidenceKind>, claim: ClaimInput,
                                    fresh_: bool)
    requires NoRepeats(kinds)
    ensures NoRepeats(Kept(entries, kinds, claim, fresh_))
  {
    if kinds != [] {
      var n := |kinds| - 1;
      KeptOnce(entries, kinds[..n], claim, fresh_);
      KeptMeans(entries, kinds[..n], claim, fresh_);
      assert forall i :: 0 <= i < n ==> kinds[..n][i] != kinds[n];
    }
  }

  lemma RequiredMeans(claim: ClaimInput)
    ensures forall k :: k in RequiredKinds(claim) <==> IsRequired(k, claim)
  {
    if claim.tracker.Some? { EvidenceKindsOfMeans(claim.tracker.value.requiredVerificationKinds); }
  }

  lemma {:induction false} NotFoundHoldsFiles(exists_: string -> bool, names: seq<string>)
    ensures forall m :: m in NotFound(exists_, names) ==> m.MissingFile?
  {
    if names != [] { NotFoundHoldsFiles(exists_, names[..|names| - 1]); }
  }

  /** The required kinds are the tracker's and the explicit ones, and split into the
      satisfied and the unsatisfied. */
  lemma ClaimSplits(entries: seq<EvidenceEntry>, claim: ClaimInput)
    ensures var r := ClaimOf(entries, claim);
            && (!NothingAsked(claim) ==> forall k :: k in r.requiredKinds <==> IsRequired(k, claim))
            && (forall k :: k in r.satisfiedKinds <==> k in r.requiredKinds && Fresh(entries, k, claim))
            && (forall k :: k in r.unsatisfiedKinds <==> k in r.requiredKinds && !Fresh(entries, k, claim))
  {
    if !NothingAsked(claim) {
      var required := RequiredKinds(claim);
      KeptMeans(entries, required, claim, false);
      KeptMeans(entries, required, claim, true);
      RequiredMeans(claim);
    }
  }

  lemma ClaimListsOnce(entries: seq<EvidenceEntry>, claim: ClaimInput)
    ensures var r := ClaimOf(entries, claim);
            NoRepeats(r.requiredKinds) && NoRepeats(r.satisfiedKinds) && NoRepeats(r.unsatisfiedKinds)
  {
    if !NothingAsked(claim) {
      KeptOnce(entries, RequiredKinds(claim), claim, true);
      KeptOnce(entries, RequiredKinds(claim), claim, false);
    }
  }

  lemma NothingLacking(entries: seq<EvidenceEntry>, claim: ClaimInput)
    ensures Kept(entries, RequiredKinds(claim), claim, false) == [] <==> EvidenceHeld(entries, claim)
  {
    var lacking := Kept(entries, RequiredKinds(claim), claim, false);
    KeptMeans(entries, RequiredKinds(claim), claim, false);
    RequiredMeans(claim);
    if lacking != [] { assert lacking[0] in lacking; }
  }

  lemma NothingUndone(claim: ClaimInput)
    ensures UndoneSteps(claim) == [] <==> StepsDone(claim)
    ensures MissingFiles(claim) == [] <==> FilesFound(claim)
  {
    if claim.tracker.Some? {
      UndoneMeans(claim.tracker.value.steps);
      if claim.fileExists.Some? { NotFoundMeans(claim.fileExists.value, claim.tracker.value.requiredFiles); }
    }
  }

  lemma NothingMissing(undone: seq<Missing>, files: seq<Missing>, lacking: seq<EvidenceKind>)
    ensures undone + files + Lacking(lacking) == [] <==> undone == [] && files == [] && lacking == []
  {
    assert |undone + files + Lacking(lacking)| == |undone| + |files| + |lacking|;
  }

  lemma ClaimIsGranted(entries: seq<EvidenceEntry>, claim: ClaimInput)
    ensures ClaimOf(entries, claim).canClaim <==> MayClaim(entries, claim)
  {
    NothingLacking(entries, claim);
    NothingUndone(claim);
    NothingMissing(UndoneSteps(claim), MissingFiles(claim), Kept(entries, RequiredKinds(claim), claim, false));
  }

  /** A claim not granted names a blocker or a missing file. */
  lemma ClaimNamesReason(entries: seq<EvidenceEntry>, claim: ClaimInput)
    ensures var r := ClaimOf(entries, claim); !r.canClaim && r.blocked == [] ==> r.missing[0].MissingFile?
  {
    if claim.tracker.Some? && claim.fileExists.Some? {
      NotFoundHoldsFiles(claim.fileExists.value, claim.tracker.value.requiredFiles);
    }
  }

  /** The check is exact: a claim is granted if and only if it may be made; the required
      kinds are the tracker's and the explicit ones, and split into the satisfied and the
      unsatisfied, each listed once; a claim not granted names a blocker or a missing file. */
  lemma ClaimIsExact(entries: seq<EvidenceEntry>, claim: ClaimInput)
    ensures var r := ClaimOf(entries, claim);
            && (r.canClaim <==> MayClaim(entries, claim))
            && (!NothingAsked(claim) ==> forall k :: k in r.requiredKinds <==> IsRequired(k, claim))
            && (forall k :: k in r.satisfiedKinds <==> k in r.requiredKinds && Fresh(entries, k, claim))
            && (forall k :: k in r.unsatisfiedKinds <==> k in r.requiredKinds && !Fresh(entries, k, claim))
            && NoRepeats(r.requiredKinds) && NoRepeats(r.satisfiedKinds) && NoRepeats(r.unsatisfiedKinds)
            && (!r.canClaim && r.blocked == [] ==> r.missing[0].MissingFile?)
  {
    ClaimSplits(entries, claim);
    ClaimListsOnce(entries, claim);
    ClaimIsGranted(entries, claim);
    ClaimNamesReason(entries, claim);
  }

  // ----- checkpoints -----

  datatype SerializedEntry = SerializedEntry(
    id: string, kind: EvidenceKind, command: Option<string>, output: string, passed: bool, timestamp: int,
    txId: Option<string>, generation: Option<nat>, transaction: Option<Binding>, artifactId: Option<string>,
    stale: bool)

  function SerializeLedger(entries: seq<EvidenceEntry>): seq<SerializedEntry> {
    seq(|entries|, i requires 0 <= i < |entries| =>
      var e := entries[i];
      SerializedEntry(e.id, e.kind, e.command, e.output, e.passed, e.timestamp, e.txId, e.generation, e.transaction,
                      e.artifactId, e.stale))
  }

  function DeserializeLedger(data: seq<SerializedEntry>): seq<EvidenceEntry> {
    seq(|data|, i requires 0 <= i < |data| =>
      var e := data[i];
      EvidenceEntry(e.id, e.kind, e.command, e.output, e.passed, None, None, e.timestamp, None, None, None, None, None,
                    e.txId, e.generation, e.transaction, e.artifactId, e.stale))
  }

  lemma {:induction false} LatestSurvives(entries: seq<EvidenceEntry>, other: seq<EvidenceEntry>, kind: EvidenceKind)
    requires |entries| == |other| && forall i :: 0 <= i < |entries| ==> entries[i].kind == other[i].kind
    ensures LatestIndex(entries, kind) == LatestIndex(other, kind)
  {
    if entries != [] { LatestSurvives(entries[..|entries| - 1], other[..|other| - 1], kind); }
  }

  lemma {:induction false} KeptSurvives(entries: seq<EvidenceEntry>, other: seq<EvidenceEntry>,
                                        kinds: seq<EvidenceKind>, claim: ClaimInput, fresh_: bool)
    requires forall k :: Fresh(entries, k, claim) == Fresh(other, k, claim)
    ensures Kept(entries, kinds, claim, fresh_) == Kept(other, kinds, claim, fresh_)
  {
    if kinds != [] { KeptSurvives(entries, other, kinds[..|kinds| - 1], claim, fresh_); }
  }

  /** The claim looks at the latest entry of each kind only. */
  lemma ClaimSurvives(entries: seq<EvidenceEntry>, other: seq<EvidenceEntry>, claim: ClaimInput)
    requires forall k :: Fresh(entries, k, claim) == Fresh(other, k, claim)
    ensures ClaimOf(entries, claim) == ClaimOf(other, claim)
  {
    KeptSurvives(entries, other, RequiredKinds(claim), claim, true);
    KeptSurvives(entries, other, RequiredKinds(claim), claim, false);
  }

  predicate AlikeAt(entries: seq<EvidenceEntry>, other: seq<EvidenceEntry>, i: nat)
    requires i < |entries| == |other|
  {
    var e, f := entries[i], other[i];
    && e.kind == f.kind && e.passed == f.passed && e.stale == f.stale && e.generation == f.generation
    && e.transaction == f.transaction
  }

  lemma AlikeIsAsFresh(entries: seq<EvidenceEntry>, other: seq<EvidenceEntry>, kind: EvidenceKind,
                       generation: Option<nat>, binding: Option<Binding>, required: bool)
    requires |entries| == |other| && forall i :: 0 <= i < |entries| ==> AlikeAt(entries, other, i)
    ensures HasFresh(entries, kind, generation, binding, required)
         == HasFresh(other, kind, generation, binding, required)
  {
    assert forall i :: 0 <= i < |entries| ==> AlikeAt(entries, other, i) ==> entries[i].kind == other[i].kind;
    LatestSurvives(entries, other, kind);
    var i := LatestIndex(entries, kind);
    assert i >= 0 ==> AlikeAt(entries, other, i);
  }

  lemma RestoredIsAsFresh(entries: seq<EvidenceEntry>, kind: EvidenceKind, generation: Option<nat>,
                          binding: Option<Binding>, required: bool)
    ensures HasFresh(DeserializeLedger(SerializeLedger(entries)), kind, generation, binding, required)
         == HasFresh(entries, kind, generation, binding, required)
  {
    AlikeIsAsFresh(entries, DeserializeLedger(SerializeLedger(entries)), kind, generation, binding, required);
  }

  /** Restoring a checkpoint drops fields but changes no answer of the gate, for any kind,
      generation, binding or claim. */
  lemma RoundTripKeepsGate(entries: seq<EvidenceEntry>, kind: EvidenceKind, generation: Option<nat>,
                           binding: Option<Binding>, required: bool, claim: ClaimInput)
    ensures var restored := DeserializeLedger(SerializeLedger(entries));
            && HasFresh(restored, kind, generation, binding, required)
               == HasFresh(entries, kind, generation, binding, required)
            && ClaimOf(restored, claim) == ClaimOf(entries, claim)
  {
    RestoredIsAsFresh(entries, kind, generation, binding, required);
    var restored := DeserializeLedger(SerializeLedger(entries));
    forall k ensures Fresh(entries, k, claim) == Fresh(restored, k, claim) {
      RestoredIsAsFresh(entries, k, claim.generation, claim.binding, claim.requireBinding);
    }
    ClaimSurvives(entries, restored, claim);
  }

  // ----- ingesting -----

  /** The entry a verification result becomes: the result's own generation wins over the
      one at ingestion. */
  function EntryOf(result: VerificationResult, kind: EvidenceKind, id: string, now: int, txId: Option<string>,
                   generation: Option<nat>): EvidenceEntry {
    EvidenceEntry(id, kind, Some(result.command), result.summary, result.passed, None, None, now, None, None, None,
                  None, None, txId, if result.generation.Some? then result.generation else generation,
                  result.transaction, None, false)
  }

  function TypecheckEntry(passed: bool, status: Option<string>, issues: int, output: string, command: Option<string>,
                          generation: Option<nat>, id: string, now: int): EvidenceEntry {
    EvidenceEntry(id, TypecheckEvidence, command, output, passed, status, Some(issues), now, None, None, None, None,
                  None, None, generation, None, None, false)
  }

  function ManualEntry(description: string, passed: bool, txId: Option<string>, generation: Option<nat>,
                       transaction: Option<Binding>, id: string, now: int): EvidenceEntry {
    EvidenceEntry(id, ManualEvidence, None, description, passed, None, None, now, None, None, None, None, None,
                  txId, generation, transaction, None, false)
  }

  /** The entries of a batch of results; a result of unknown kind becomes none. */
  function EntriesOf(results: seq<VerificationResult>, ids: seq<string>, now: int, txId: Option<string>,
                     generation: Option<nat>): seq<EvidenceEntry>
    requires |ids| == |results|
  {
    if results == [] then []
    else
      var n := |results| - 1;
      var before := EntriesOf(results[..n], ids[..n], now, txId, generation);
      match ToEvidenceKind(results[n].kind)
      case None => before
      case Some(kind) => before + [EntryOf(results[n], kind, ids[n], now, txId, generation)]
  }

  function MarkedStale(entries: seq<EvidenceEntry>, artifactId: string): seq<EvidenceEntry> {
    seq(|entries|, i requires 0 <= i < |entries| =>
          if entries[i].artifactId == Some(artifactId) then entries[i].(stale := true) else entries[i])
  }

  // ----- the ledger as an object -----

  class Ledger {
    var entries: seq<EvidenceEntry>

    constructor ()
      ensures entries == []
    {
      entries := [];
    }

    method AddEvidence(e: EvidenceEntry)
      modifies this
      ensures entries == old(entries) + [e]
    {
      entries := entries + [e];
    }

    /** Everything an artifact supported turns stale; nothing else changes. */
    method MarkEvidenceStale(artifactId: string)
      modifies this
      ensures entries == MarkedStale(old(entries), artifactId)
    {
      for i := 0 to |entries|
        invariant |entries| == |old(entries)|
        invariant forall j :: 0 <= j < i ==> entries[j] == MarkedStale(old(entries), artifactId)[j]
        invariant forall j :: i <= j < |entries| ==> entries[j] == old(entries)[j]
      {
        if entries[i].artifactId == Some(artifactId) {
          entries := entries[i := entries[i].(stale := true)];
        }
      }
    }

    method LatestEvidence(kind: EvidenceKind) returns (latest: Option<EvidenceEntry>)
      ensures latest == (var i := LatestIndex(entries, kind); if i < 0 then None else Some(entries[i]))
    {
      var i := |entries| - 1;
      while i >= 0
        invariant -1 <= i < |entries|
        invariant forall j :: i < j < |entries| ==> entries[j].kind != kind
      {
        if entries[i].kind == kind { return Some(entries[i]); }
        i := i - 1;
      }
      return None;
    }

    method HasFreshPassingEvidence(kind: EvidenceKind, generation: Option<nat>, binding: Option<Binding>,
                                   required: bool) returns (r: bool)
      ensures r == HasFresh(entries, kind, generation, binding, required)
    {
      var latest := LatestEvidence(kind);
      if latest.None? || latest.value.stale || !latest.value.passed { return false; }
      if generation.Some? && latest.value.generation != generation { return false; }
      if required && binding.None? { return false; }
      if binding.Some? && latest.value.transaction != binding { return false; }
      return true;
    }

    method IngestVerificationResults(results: seq<VerificationResult>, ids: seq<string>, now: int, txId: Option<string>,
                                     generation: Option<nat>)
      requires |ids| == |results|
      modifies this
      ensures entries == old(entries) + EntriesOf(results, ids, now, txId, generation)
    {
      for i := 0 to |results|
        invariant entries == old(entries) + EntriesOf(results[..i], ids[..i], now, txId, generation)
      {
        assert results[..i + 1][..i] == results[..i] && ids[..i + 1][..i] == ids[..i];
        var kind := ToEvidenceKind(results[i].kind);
        if kind.Some? {
          AddEvidence(EntryOf(results[i], kind.value, ids[i], now, txId, generation));
        }
      }
      assert results[..|results|] == results && ids[..|ids|] == ids;
    }

    method IngestTypecheck(passed: bool, status: Option<string>, issues: int, output: string, command: Option<string>,
                           generation: Option<nat>, id: string, now: int)
      modifies this
      ensures entries == old(entries) + [TypecheckEntry(passed, status, issues, output, command, generation, id, now)]
    {
      AddEvidence(TypecheckEntry(passed, status, issues, output, command, generation, id, now));
    }

    method AddManualEvidence(description: string, passed: bool, txId: Option<string>, generation: Option<nat>,
                             transaction: Option<Binding>, id: string, now: int)
      modifies this
      ensures entries == old(entries) + [ManualEntry(description, passed, txId, generation, transaction, id, now)]
    {
      AddEvidence(ManualEntry(description, passed, txId, generation, transaction, id, now));
    }

    /** Sorts the required kinds into satisfied and unsatisfied. */
    method CollectEvidence(required: seq<EvidenceKind>, claim: ClaimInput)
      returns (satisfied: seq<EvidenceKind>, unsatisfied: seq<EvidenceKind>)
      ensures satisfied == Kept(entries, required, claim, true)
      ensures unsatisfied == Kept(entries, required, claim, false)
    {
      satisfied, unsatisfied := [], [];
      for i := 0 to |required|
        invariant satisfied == Kept(entries, required[..i], claim, true)
        invariant unsatisfied == Kept(entries, required[..i], claim, false)
      {
        assert required[..i + 1][..i] == required[..i];
        var ok := HasFreshPassingEvidence(required[i], claim.generation, claim.binding, claim.requireBinding);
        if ok {
          satisfied := satisfied + [required[i]];
        } else {
          unsatisfied := unsatisfied + [required[i]];
        }
      }
      assert required[..|required|] == required;
    }

    /** The hard check, collecting what is missing list by list. */
    method CanClaimDone(claim: ClaimInput) returns (r: Claim)
      ensures r == ClaimOf(entries, claim)
    {
      if NothingAsked(claim) { return Claim(true, [], [], [], [], []); }
      var undone: seq<Missing>, files: seq<Missing> := [], [];
      if claim.tracker.Some? {
        undone := CollectUndone(claim.tracker.value.steps);
        if claim.fileExists.Some? {
          files := CollectNotFound(claim.fileExists.value, claim.tracker.value.requiredFiles);
        }
      }
      var required := RequiredKinds(claim);
      var satisfied, unsatisfied := CollectEvidence(required, claim);
      var missing := undone + files + Lacking(unsatisfied);
      var blocked: seq<Blocked> := [];
      if unsatisfied != [] { blocked := [EvidenceBlocked(unsatisfied)]; }
      if undone != [] { blocked := blocked + [StepsBlocked(|undone|)]; }
      r := Claim(missing == [], missing, blocked, required, satisfied, unsatisfied);
    }
  }

  method CollectUndone(steps: seq<TrackerStep>) returns (missing: seq<Missing>)
    ensures missing == Undone(steps)
  {
    missing := [];
    for i := 0 to |steps|
      invariant missing == Undone(steps[..i])
    {
      assert steps[..i + 1][..i] == steps[..i];
      if !steps[i].done { missing := missing + [UndoneStep(steps[i].title)]; }
    }
    assert steps[..|steps|] == steps;
  }

  method CollectNotFound(exists_: string -> bool, names: seq<string>) returns (missing: seq<Missing>)
    ensures missing == NotFound(exists_, names)
  {
    missing := [];
    for i := 0 to |names|
      invariant missing == NotFound(exists_, names[..i])
    {
      assert names[..i + 1][..i] == names[..i];
      if !FileFound(exists_, names[i]) { missing := missing + [MissingFile(names[i])]; }
    }
    assert names[..|names|] == names;
  }
}
