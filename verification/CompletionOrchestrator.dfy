/** The single place where a run is declared done: a chain of synchronous gates, the
    external gate, the judge, the evidence gate and the truthfulness gate, in order. */
module CompletionOrchestrator {
  import opened Options
  import opened TransactionHistory
  import opened EvidenceLedger

  // ----- input -----

  datatype Phase = Planning | Building | Complete

  datatype JudgeVerdict = Satisfied | NotSatisfied | Impossible

  /** Claims found in the final text. */
  datatype TruthClaim =
    | TypecheckPassed | NoErrors | LintPassed | TestsPassed | AllVerificationPassed | BuildPassed
    | ImplementationCompleted

  /** All a decision depends on. The number of unmet exit criteria of the active mode,
      whether the judge is consulted, its verdict and the claims in the text may be
      anything. `tracker` is the one the evidence gate sees. */
  datatype Input = Input(
    round: nat, maxRounds: nat, readonly: bool, tracker: Option<Tracker>, phase: Phase, obligations: seq<string>,
    blockingRipple: nat, openDebts: nat, planApproved: bool, hasMasterPlan: bool,
    taskHadWrite: bool, toolErrors: nat, modifiedFiles: nat, changedFiles: nat,
    verificationResults: seq<VerificationResult>,
    trackerKindsUnproven: nat, modeHasExitCriteria: bool, modeUnmet: nat,
    judgeConsulted: bool, verdict: JudgeVerdict, claims: seq<TruthClaim>,
    generation: nat, binding: Option<Binding>, unmanagedWritesCovered: bool)

  predicate IsFinalRound(input: Input) { input.round + 1 >= input.maxRounds }

  /** A binding is required once anything was written, unless every unmanaged write has
      been covered by a verification. */
  predicate ShouldRequireBinding(taskHadWrite: bool, generation: nat, covered: bool) {
    (taskHadWrite || generation > 0) && !covered
  }

  predicate RequireBinding(input: Input) {
    ShouldRequireBinding(input.taskHadWrite, input.generation, input.unmanagedWritesCovered)
  }

  // ----- output -----

  datatype Decision = Done | Continue | BreakBlocked

  datatype Role = Assistant | User

  datatype Gate =
    | RippleExit | PlanningAccepted | TaskTracker | ContextDebt | ExternalCompletion | FlashJudge | Evidence
    | Truthfulness

  datatype Message = Message(role: Role, gate: Gate)

  /** `planningRejections` is the new count, if it is to be set. */
  datatype Output = Output(decision: Decision, injectMessages: seq<Message>, planningRejections: Option<nat>,
                           activateMasterPlan: bool, evidenceResult: Option<Claim>, tryNodeTransition: bool)

  const EMPTY_OUTPUT := Output(Done, [], None, false, None, false)

  /** A gate that sends the run back always injects the same pair. */
  function Prompt(gate: Gate): seq<Message> { [Message(Assistant, gate), Message(User, gate)] }

  // ----- phase 1: the synchronous chain -----

  datatype GateResult = Pass | Block(gate: Gate) | Incomplete(source: Option<Gate>)

  /** The latest typecheck entry, as the other gates see it. */
  function LastTypecheck(entries: Option<seq<EvidenceEntry>>): Option<bool> {
    if entries.None? then None
    else
      var i := LatestIndex(entries.value, TypecheckEvidence);
      if i < 0 then None else Some(entries.value[i].passed)
  }

  predicate HasPassingEvidence(input: Input, entries: Option<seq<EvidenceEntry>>) {
    LastTypecheck(entries) == Some(true) || exists r :: r in input.verificationResults && r.passed
  }

  /** In the last round a gate can no longer send the run back: with passing evidence it
      lets go, without any the run ends incomplete. */
  function FinalRound(input: Input, entries: Option<seq<EvidenceEntry>>): GateResult {
    if HasPassingEvidence(input, entries) then Pass else Incomplete(None)
  }

  function RippleExitGate(input: Input, entries: Option<seq<EvidenceEntry>>): GateResult {
    if input.readonly || input.blockingRipple == 0 then Pass
    else if IsFinalRound(input) then FinalRound(input, entries)
    else Block(RippleExit)
  }

  function PlanningArtifactGate(input: Input, entries: Option<seq<EvidenceEntry>>): GateResult {
    if input.tracker.None? || input.phase != Planning then Pass
    else if IsFinalRound(input) then FinalRound(input, entries)
    else if input.planApproved then Block(PlanningAccepted)
    else Pass
  }

  function TaskTrackerGate(input: Input, entries: Option<seq<EvidenceEntry>>): GateResult {
    if input.tracker.None? || input.phase == Complete || input.obligations == [] then Pass
    else if IsFinalRound(input) then FinalRound(input, entries)
    else Block(TaskTracker)
  }

  function ContextDebtGate(input: Input): GateResult {
    if input.openDebts == 0 then Pass
    else if IsFinalRound(input) then Incomplete(Some(ContextDebt))
    else Block(ContextDebt)
  }

  function QualityGate(input: Input, entries: Option<seq<EvidenceEntry>>): GateResult {
    if input.readonly || (!input.taskHadWrite && input.toolErrors == 0) then Pass
    else if IsFinalRound(input) then FinalRound(input, entries)
    else Pass
  }

  /** The first gate that does not pass decides. */
  function SyncChain(input: Input, entries: Option<seq<EvidenceEntry>>): GateResult {
    var ripple := RippleExitGate(input, entries);
    if !ripple.Pass? then ripple
    else
      var planning := PlanningArtifactGate(input, entries);
      if !planning.Pass? then planning
      else
        var tracker := TaskTrackerGate(input, entries);
        if !tracker.Pass? then tracker
        else
          var debt := ContextDebtGate(input);
          if !debt.Pass? then debt else QualityGate(input, entries)
  }

  /** A plan under way that nobody has approved is taken up as it is: the planning gate,
      when the chain gets to it, only notes it. */
  predicate PlanningNoted(input: Input, entries: Option<seq<EvidenceEntry>>) {
    && RippleExitGate(input, entries).Pass?
    && input.tracker.Some? && input.phase == Planning && !IsFinalRound(input) && !input.planApproved
  }

  /** What the orchestrator makes of the chain's answer, and whether it stops here. A
      block by the context-debt gate is among the answers it does not act on. */
  function SyncPhase(input: Input, entries: Option<seq<EvidenceEntry>>, out: Output): (Output, bool) {
    var noted := if PlanningNoted(input, entries) then out.(planningRejections := Some(0)) else out;
    match SyncChain(input, entries)
    case Pass => (noted, false)
    case Block(gate) =>
      var told := noted.(injectMessages := noted.injectMessages + Prompt(gate));
      if gate == PlanningAccepted then
        (told.(decision := Continue, planningRejections := Some(0), activateMasterPlan := true), true)
      else if gate in {RippleExit, TaskTracker} then (told.(decision := Continue), true)
      else (told, false)
    case Incomplete(_) => (noted.(decision := BreakBlocked), true)
  }

  // ----- phase 2: the external gate -----

  predicate NeedsExternalGate(input: Input) {
    input.tracker.Some? || input.taskHadWrite || input.toolErrors > 0 || input.modeHasExitCriteria
  }

  predicate ExternalAllowed(input: Input, entries: Option<seq<EvidenceEntry>>) {
    && input.obligations == [] && input.blockingRipple == 0
    && LastTypecheck(entries) != Some(false)
    && (input.taskHadWrite && input.verificationResults == [] ==> LastTypecheck(entries) == Some(true))
    && (input.tracker.Some? ==> input.trackerKindsUnproven == 0)
    && input.modeUnmet == 0
  }

  function ExternalPhase(input: Input, entries: Option<seq<EvidenceEntry>>, out: Output): (Output, bool) {
    if !NeedsExternalGate(input) || ExternalAllowed(input, entries) then (out, false)
    else if !IsFinalRound(input) then
      (out.(decision := Continue, injectMessages := out.injectMessages + Prompt(ExternalCompletion)), true)
    else (out.(decision := BreakBlocked), true)
  }

  // ----- phase 3: the judge -----

  function JudgePhase(input: Input, out: Output): (Output, bool) {
    if input.obligations != [] then (out, false)
    else if !input.judgeConsulted then (out.(tryNodeTransition := out.tryNodeTransition || input.hasMasterPlan), false)
    else match input.verdict
      case Satisfied => (out.(tryNodeTransition := out.tryNodeTransition || input.hasMasterPlan), false)
      case Impossible => (out.(decision := BreakBlocked), true)
      case NotSatisfied => (out.(decision := Continue, injectMessages := out.injectMessages + Prompt(FlashJudge)), true)
  }

  // ----- phase 4: the evidence gate -----

  /** A run without a tracker that wrote something owes a typecheck. */
  function EvidenceClaim(input: Input): ClaimInput {
    ClaimInput(input.tracker, None, if input.tracker.None? && input.taskHadWrite then [TypecheckEvidence] else [],
               Some(input.generation), input.binding, RequireBinding(input))
  }

  function EvidencePhase(input: Input, entries: Option<seq<EvidenceEntry>>, out: Output): (Output, bool) {
    if entries.None? then (out, false)
    else
      var claim := ClaimOf(entries.value, EvidenceClaim(input));
      var told := out.(evidenceResult := Some(claim));
      if claim.canClaim then (told, false)
      else if !IsFinalRound(input) then
        (told.(decision := Continue, injectMessages := out.injectMessages + Prompt(Evidence)), true)
      else (told.(decision := BreakBlocked), true)
  }

  // ----- phase 5: the truthfulness gate -----

  predicate Backed(input: Input, entries: Option<seq<EvidenceEntry>>, evidence: EvidenceKind,
                   kinds: set<VerificationKind>) {
    if entries.Some? then
      HasFresh(entries.value, evidence, Some(input.generation), input.binding, RequireBinding(input))
    else exists r :: r in input.verificationResults && r.kind in kinds && r.passed
  }

  predicate IsBacked(claim: TruthClaim, input: Input, entries: Option<seq<EvidenceEntry>>) {
    match claim
    case TypecheckPassed | NoErrors | LintPassed => Backed(input, entries, TypecheckEvidence, {Typecheck, Lint})
    case TestsPassed | AllVerificationPassed => Backed(input, entries, TestEvidence, {Test, Smoke})
    case BuildPassed => Backed(input, entries, BuildEvidence, {Build})
    case ImplementationCompleted => input.taskHadWrite || input.modifiedFiles > 0 || input.changedFiles > 0
  }

  function TruthPhase(input: Input, entries: Option<seq<EvidenceEntry>>, out: Output): (Output, bool) {
    if forall c :: c in input.claims ==> IsBacked(c, input, entries) then (out, false)
    else (out.(decision := BreakBlocked), true)
  }

  // ----- the whole evaluation -----

  function Evaluation(input: Input, entries: Option<seq<EvidenceEntry>>): Output {
    var (o1, stop1) := SyncPhase(input, entries, EMPTY_OUTPUT);
    if stop1 then o1
    else
      var (o2, stop2) := ExternalPhase(input, entries, o1);
      if stop2 then o2
      else
        var (o3, stop3) := JudgePhase(input, o2);
        if stop3 then o3
        else
          var (o4, stop4) := EvidencePhase(input, entries, o3);
          if stop4 then o4 else TruthPhase(input, entries, o4).0
  }

  // ----- when a run is done -----

  /** The chain answered with a context-debt block and was not heeded. */
  predicate DebtOverlooked(input: Input, entries: Option<seq<EvidenceEntry>>) {
    SyncChain(input, entries) == Block(ContextDebt)
  }

  predicate Told(o: Output) {
    |o.injectMessages| >= 2 && o.injectMessages[|o.injectMessages| - 1].role.User?
  }

  /** What a later phase does to the record it was handed. */
  ghost predicate Behaves(out: Output, next: Output, stopped: bool) {
    if stopped then !next.decision.Done? && (next.decision.Continue? ==> Told(next))
    else next.decision == out.decision && next.injectMessages == out.injectMessages
  }

  lemma ExternalBehaves(input: Input, entries: Option<seq<EvidenceEntry>>, out: Output)
    ensures var (o, stopped) := ExternalPhase(input, entries, out);
            Behaves(out, o, stopped) && (stopped <==> NeedsExternalGate(input) && !ExternalAllowed(input, entries))
  {
  }

  lemma EvidenceBehaves(input: Input, entries: Option<seq<EvidenceEntry>>, out: Output)
    ensures var (o, stopped) := EvidencePhase(input, entries, out);
            Behaves(out, o, stopped)
            && (stopped <==> entries.Some? && !ClaimOf(entries.value, EvidenceClaim(input)).canClaim)
  {
  }

  lemma JudgeBehaves(input: Input, out: Output)
    ensures var (o, stopped) := JudgePhase(input, out); Behaves(out, o, stopped)
  {
  }

  lemma TruthBehaves(input: Input, entries: Option<seq<EvidenceEntry>>, out: Output)
    ensures var (o, stopped) := TruthPhase(input, entries, out); Behaves(out, o, stopped)
  {
  }

  lemma SyncPhaseTells(input: Input, entries: Option<seq<EvidenceEntry>>)
    ensures var (o, stopped) := SyncPhase(input, entries, EMPTY_OUTPUT);
            if stopped then !o.decision.Done? && (o.decision.Continue? ==> Told(o))
            else o.decision.Done? && (o.injectMessages == [] <==> !DebtOverlooked(input, entries))
  {
  }

  /** A plan under way is dealt with once, before the final round and unless the ripple
      sends the run back first: approved, it is activated and the run goes on; otherwise
      it is only noted. Either way its rejections are forgotten. */
  lemma PlanningIsTakenUp(input: Input, entries: Option<seq<EvidenceEntry>>)
    ensures var o := Evaluation(input, entries);
            var planned := input.tracker.Some? && input.phase == Planning && !IsFinalRound(input)
                           && (input.readonly || input.blockingRipple == 0);
            && o.planningRejections == (if planned then Some(0) else None)
            && (o.activateMasterPlan <==> planned && input.planApproved)
            && (o.activateMasterPlan ==> o.decision.Continue?)
  {
    SyncTakesPlanningUp(input, entries);
    LaterPhasesKeepPlanning(input, entries);
  }

  lemma SyncTakesPlanningUp(input: Input, entries: Option<seq<EvidenceEntry>>)
    ensures var (o, stopped) := SyncPhase(input, entries, EMPTY_OUTPUT);
            var planned := input.tracker.Some? && input.phase == Planning && !IsFinalRound(input)
                           && (input.readonly || input.blockingRipple == 0);
            && o.planningRejections == (if planned then Some(0) else None)
            && (o.activateMasterPlan <==> planned && input.planApproved)
            && (o.activateMasterPlan ==> o.decision.Continue? && stopped)
  {
  }

  lemma LaterPhasesKeepPlanning(input: Input, entries: Option<seq<EvidenceEntry>>)
    ensures var (o1, stop1) := SyncPhase(input, entries, EMPTY_OUTPUT);
            SamePlanning(o1, Evaluation(input, entries)) && (stop1 ==> Evaluation(input, entries) == o1)
  {
    var (o1, stop1) := SyncPhase(input, entries, EMPTY_OUTPUT);
    if stop1 { return; }
    var (o2, stop2) := ExternalPhase(input, entries, o1);
    ExternalKeepsPlanning(input, entries, o1);
    if stop2 { return; }
    var (o3, stop3) := JudgePhase(input, o2);
    JudgeKeepsPlanning(input, o2);
    if stop3 { return; }
    var (o4, stop4) := EvidencePhase(input, entries, o3);
    EvidenceKeepsPlanning(input, entries, o3);
    if stop4 { return; }
    TruthKeepsPlanning(input, entries, o4);
  }

  predicate SamePlanning(out: Output, next: Output) {
    next.planningRejections == out.planningRejections && next.activateMasterPlan == out.activateMasterPlan
  }

  lemma ExternalKeepsPlanning(input: Input, entries: Option<seq<EvidenceEntry>>, out: Output)
    ensures SamePlanning(out, ExternalPhase(input, entries, out).0)
  {
  }

  lemma JudgeKeepsPlanning(input: Input, out: Output)
    ensures SamePlanning(out, JudgePhase(input, out).0)
  {
  }

  lemma EvidenceKeepsPlanning(input: Input, entries: Option<seq<EvidenceEntry>>, out: Output)
    ensures SamePlanning(out, EvidencePhase(input, entries, out).0)
  {
  }

  lemma TruthKeepsPlanning(input: Input, entries: Option<seq<EvidenceEntry>>, out: Output)
    ensures SamePlanning(out, TruthPhase(input, entries, out).0)
  {
  }

  /** A run is done exactly when every phase lets it pass. */
  lemma DoneExactlyWhen(input: Input, entries: Option<seq<EvidenceEntry>>)
    ensures Evaluation(input, entries).decision.Done? <==>
            && (SyncChain(input, entries).Pass? || DebtOverlooked(input, entries))
            && (NeedsExternalGate(input) ==> ExternalAllowed(input, entries))
            && (input.obligations == [] && input.judgeConsulted ==> input.verdict.Satisfied?)
            && (entries.Some? ==> MayClaim(entries.value, EvidenceClaim(input)))
            && (forall c :: c in input.claims ==> IsBacked(c, input, entries))
  {
    SyncPhaseTells(input, entries);
    var (o1, stop1) := SyncPhase(input, entries, EMPTY_OUTPUT);
    ExternalBehaves(input, entries, o1);
    var (o2, stop2) := ExternalPhase(input, entries, o1);
    JudgeBehaves(input, o2);
    var (o3, stop3) := JudgePhase(input, o2);
    EvidenceBehaves(input, entries, o3);
    var (o4, stop4) := EvidencePhase(input, entries, o3);
    TruthBehaves(input, entries, o4);
    if entries.Some? { ClaimIsExact(entries.value, EvidenceClaim(input)); }
  }

  /** The evidence behind a done run: each kind its tracker requires, and a typecheck for
      a write without a tracker, has fresh passing evidence, and so has each claim the
      final text makes about verification. */
  lemma DoneHasFreshEvidence(input: Input, entries: seq<EvidenceEntry>, kind: EvidenceKind)
    requires Evaluation(input, Some(entries)).decision.Done?
    requires IsRequired(kind, EvidenceClaim(input))
             || (kind == TypecheckEvidence && input.tracker.None? && input.taskHadWrite)
             || (kind == TypecheckEvidence
                 && (TypecheckPassed in input.claims || NoErrors in input.claims || LintPassed in input.claims))
             || (kind == TestEvidence && (TestsPassed in input.claims || AllVerificationPassed in input.claims))
             || (kind == BuildEvidence && BuildPassed in input.claims)
    ensures HasFresh(entries, kind, Some(input.generation), input.binding, RequireBinding(input))
  {
    DoneExactlyWhen(input, Some(entries));
    var claim := EvidenceClaim(input);
    if kind == TypecheckEvidence && input.tracker.None? && input.taskHadWrite { assert IsRequired(kind, claim); }
    if IsRequired(kind, claim) { assert Fresh(entries, kind, claim); }
    assert forall c :: c in input.claims ==> IsBacked(c, input, Some(entries));
  }

  /** A run is never sent back without being told why, and a done run carries no pending
      message unless a context debt was overlooked. */
  lemma MessagesMatchDecision(input: Input, entries: Option<seq<EvidenceEntry>>)
    ensures var o := Evaluation(input, entries);
            && (o.decision.Continue? ==> Told(o))
            && (o.decision.Done? ==> (o.injectMessages == [] <==> !DebtOverlooked(input, entries)))
  {
    SyncPhaseTells(input, entries);
    var (o1, stop1) := SyncPhase(input, entries, EMPTY_OUTPUT);
    ExternalBehaves(input, entries, o1);
    var (o2, stop2) := ExternalPhase(input, entries, o1);
    JudgeBehaves(input, o2);
    var (o3, stop3) := JudgePhase(input, o2);
    EvidenceBehaves(input, entries, o3);
    var (o4, stop4) := EvidencePhase(input, entries, o3);
    TruthBehaves(input, entries, o4);
  }

  /** Open context debts are meant to rule out a done run. They do in the final round;
      in every earlier round they have no influence on it at all. */
  lemma OpenDebtsBlockExactlyWhen(input: Input, entries: Option<seq<EvidenceEntry>>)
    requires input.openDebts > 0
    ensures IsFinalRound(input) ==> !Evaluation(input, entries).decision.Done?
    ensures !IsFinalRound(input) ==>
            (Evaluation(input, entries).decision.Done? <==> Evaluation(input.(openDebts := 0), entries).decision.Done?)
  {
    var free := input.(openDebts := 0);
    DoneExactlyWhen(input, entries);
    DoneExactlyWhen(free, entries);
    if !IsFinalRound(input) {
      DebtsDecideNothingElse(input, entries);
      assert QualityGate(input, entries).Pass?;
    }
  }

  lemma DebtsDecideNothingElse(input: Input, entries: Option<seq<EvidenceEntry>>)
    ensures var free := input.(openDebts := 0);
            && RippleExitGate(free, entries) == RippleExitGate(input, entries)
            && PlanningArtifactGate(free, entries) == PlanningArtifactGate(input, entries)
            && TaskTrackerGate(free, entries) == TaskTrackerGate(input, entries)
            && QualityGate(free, entries) == QualityGate(input, entries)
            && NeedsExternalGate(free) == NeedsExternalGate(input)
            && ExternalAllowed(free, entries) == ExternalAllowed(input, entries)
            && EvidenceClaim(free) == EvidenceClaim(input)
            && forall c :: IsBacked(c, free, entries) == IsBacked(c, input, entries)
  {
  }

  /** So a debt can be left open: a plain answer in round 0 of 5 with one open debt. */
  lemma OpenDebtOverlooked()
    ensures exists input: Input, entries: Option<seq<EvidenceEntry>> ::
              input.openDebts > 0 && Evaluation(input, entries).decision.Done?
              && Evaluation(input, entries).injectMessages == Prompt(ContextDebt)
  {
    var input := Input(0, 5, false, None, Building, [], 0, 1, false, false, false, 0, 0, 0, [], 0, false, 0, false,
                       Satisfied, [], 0, None, false);
    DoneExactlyWhen(input, Some([]));
    assert Evaluation(input, Some([])).injectMessages == Prompt(ContextDebt);
  }

  // ----- the orchestrator as an object -----

  class CompletionResult {
    var decision: Decision
    var injectMessages: seq<Message>
    var planningRejections: Option<nat>
    var activateMasterPlan: bool
    var evidenceResult: Option<Claim>
    var tryNodeTransition: bool

    constructor ()
      ensures View() == EMPTY_OUTPUT
    {
      decision, injectMessages, evidenceResult, tryNodeTransition := Done, [], None, false;
      planningRejections, activateMasterPlan := None, false;
    }

    function View(): Output
      reads this
    {
      Output(decision, injectMessages, planningRejections, activateMasterPlan, evidenceResult, tryNodeTransition)
    }
  }

  function EntriesIn(ledger: Ledger?): Option<seq<EvidenceEntry>>
    reads if ledger == null then {} else {ledger}
  {
    if ledger == null then None else Some(ledger.entries)
  }

  class Orchestrator {
    constructor () {}

    method Evaluate(input: Input, ledger: Ledger?) returns (out: CompletionResult)
      ensures fresh(out) && out.View() == Evaluation(input, EntriesIn(ledger))
    {
      out := new CompletionResult();
      var stopped := EvaluateSyncChain(input, ledger, out);
      if stopped { return; }
      stopped := EvaluateExternalGate(input, ledger, out);
      if stopped { return; }
      stopped := EvaluateFlashJudge(input, out);
      if stopped { return; }
      stopped := EvaluateEvidenceGate(input, ledger, out);
      if stopped { return; }
      stopped := EvaluateTruthfulnessGate(input, ledger, out);
    }

    method EvaluateSyncChain(input: Input, ledger: Ledger?, out: CompletionResult) returns (stopped: bool)
      modifies out
      ensures (out.View(), stopped) == SyncPhase(input, old(EntriesIn(ledger)), old(out.View()))
    {
      var noted, answer := PlanningNoted(input, EntriesIn(ledger)), SyncChain(input, EntriesIn(ledger));
      if answer.Block? { out.injectMessages := out.injectMessages + Prompt(answer.gate); }
      if noted { out.planningRejections := Some(0); }
      match answer {
        case Pass => return false;
        case Incomplete(_) => out.decision := BreakBlocked; return true;
        case Block(gate) =>
          if gate == PlanningAccepted {
            out.planningRejections, out.activateMasterPlan, out.decision := Some(0), true, Continue;
            return true;
          }
          if gate == RippleExit || gate == TaskTracker {
            out.decision := Continue;
            return true;
          }
          return false;
      }
    }

    method EvaluateExternalGate(input: Input, ledger: Ledger?, out: CompletionResult) returns (stopped: bool)
      modifies out
      ensures (out.View(), stopped) == ExternalPhase(input, old(EntriesIn(ledger)), old(out.View()))
    {
      if !NeedsExternalGate(input) || ExternalAllowed(input, EntriesIn(ledger)) { return false; }
      if !IsFinalRound(input) {
        out.injectMessages := out.injectMessages + Prompt(ExternalCompletion);
        out.decision := Continue;
      } else {
        out.decision := BreakBlocked;
      }
      return true;
    }

    method EvaluateFlashJudge(input: Input, out: CompletionResult) returns (stopped: bool)
      modifies out
      ensures (out.View(), stopped) == JudgePhase(input, old(out.View()))
    {
      if input.obligations != [] { return false; }
      if !input.judgeConsulted || input.verdict.Satisfied? {
        if input.hasMasterPlan { out.tryNodeTransition := true; }
        return false;
      }
      if input.verdict.Impossible? {
        out.decision := BreakBlocked;
      } else {
        out.injectMessages := out.injectMessages + Prompt(FlashJudge);
        out.decision := Continue;
      }
      return true;
    }

    method EvaluateEvidenceGate(input: Input, ledger: Ledger?, out: CompletionResult) returns (stopped: bool)
      modifies out
      ensures (out.View(), stopped) == EvidencePhase(input, old(EntriesIn(ledger)), old(out.View()))
    {
      if ledger == null { return false; }
      var claim := ledger.CanClaimDone(EvidenceClaim(input));
      out.evidenceResult := Some(claim);
      if claim.canClaim { return false; }
      if !IsFinalRound(input) {
        out.injectMessages := out.injectMessages + Prompt(Evidence);
        out.decision := Continue;
      } else {
        out.decision := BreakBlocked;
      }
      return true;
    }

    method EvaluateTruthfulnessGate(input: Input, ledger: Ledger?, out: CompletionResult) returns (stopped: bool)
      modifies out
      ensures (out.View(), stopped) == TruthPhase(input, old(EntriesIn(ledger)), old(out.View()))
    {
      for i := 0 to |input.claims|
        invariant out.View() == old(out.View())
        invariant forall j :: 0 <= j < i ==> IsBacked(input.claims[j], input, EntriesIn(ledger))
      {
        if !IsBacked(input.claims[i], input, EntriesIn(ledger)) {
          out.decision := BreakBlocked;
          return true;
        }
      }
      return false;
    }
  }
}
