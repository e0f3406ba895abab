/** Sharing one output envelope between thinking and action. */
module OutputBudget {
  import opened Options

  datatype Stage = Planning | Execution | Recovery | Verification

  datatype Effort = High | Highest

  datatype Thinking = Thinking(budget: int, effort: Effort)

  datatype Intent = Readonly | LongTask | OtherIntent

  datatype Profile = Profile(stage: Option<Stage>, intent: Intent, modifiedFiles: nat, providerCap: Option<int>,
                             actionFirst: bool, protocolRecovery: bool, livenessCap: Option<int>)

  datatype RoundState = RoundState(roundNum: nat, priorTools: seq<string>, priorFiles: nat, hadError: bool,
                                   hadFim: bool)

  function ActionRatio(s: Stage): real {
    match s case Planning => 0.25 case Execution => 0.4 case Recovery => 0.5 case Verification => 0.4
  }

  function ActionMinimum(s: Stage): int {
    if s.Planning? then 2048 else 4096
  }

  function Min(a: int, b: int): int { if a <= b then a else b }

  // ----- the plan for one envelope -----

  datatype Plan = Plan(thinkingTokens: int, actionTokens: int, total: int)

  function StageOf(state: RoundState, profile: Profile): Stage {
    if profile.stage.Some? then profile.stage.value else if state.hadError then Recovery else Execution
  }

  /** What the profile allows of the thinking that was asked for. */
  function Requested(intent: Option<Thinking>, profile: Profile): int {
    var asked := if intent.Some? then intent.value.budget else 0;
    var first := if profile.actionFirst then Min(asked, 2048) else asked;
    var recovering := if profile.protocolRecovery then Min(first, 1024) else first;
    if profile.livenessCap.Some? then Min(recovering, profile.livenessCap.value) else recovering
  }

  /** What the stage leaves for thinking: below its ratio, and above its minimum. */
  function ThinkingRoom(total: int, stage: Stage): int {
    Min((total as real * (1.0 - ActionRatio(stage))).Floor, total - ActionMinimum(stage))
  }

  function PlanOutputBudget(envelope: int, intent: Option<Thinking>, state: RoundState, profile: Profile): Plan {
    var total := if profile.providerCap.Some? then Min(envelope, profile.providerCap.value) else envelope;
    var room := ThinkingRoom(total, StageOf(state, profile));
    if room < 0 then Plan(0, total, total)
    else
      var thinking := Min(Requested(intent, profile), room);
      Plan(thinking, total - thinking, total)
  }

  function DecideMaxTokens(thinking: Option<Thinking>, state: RoundState): (n: int)
    ensures 4096 <= n <= 16384
  {
    if state.hadFim then 8192
    else if "write_file" in state.priorTools then 16384
    else if thinking.Some? && thinking.value.budget >= 16384 then 16384
    else if thinking.Some? then 12288
    else 4096
  }

  // ----- the decision -----

  /** No `thinking` means none is asked for. */
  datatype Decision = Decision(thinking: Option<Thinking>, plan: Plan)

  const READONLY_TOOLS := {"read_file", "find_symbol", "find_references", "project_structure", "read_definition",
                           "web_search", "git_status", "git_diff", "git_log", "git_blame", "request_deeper_thinking"}

  predicate HadWrite(state: RoundState) { exists tool :: tool in state.priorTools && tool !in READONLY_TOOLS }

  /** The thinking asked for. The score comes from patterns in the prompt and the state. */
  function ChosenIntent(state: RoundState, effort: Option<Effort>, profile: Profile, score: int): Option<Thinking> {
    if !profile.intent.Readonly? && profile.modifiedFiles >= 5 && effort != Some(High) then
      Some(Thinking(32768, Highest))
    else if state.roundNum == 0 && score < (if profile.intent.Readonly? then 7 else 6) then None
    else if state.roundNum != 0 && state.priorTools == [] then None
    else if state.roundNum != 0 && !HadWrite(state) && score < 7 then None
    else if effort == Some(Highest) || score >= 11 then Some(Thinking(32768, Highest))
    else if state.hadFim || state.hadError || state.priorFiles >= 3 || score >= 6 then
      Some(Thinking(16384, if effort.Some? then effort.value else Highest))
    else Some(Thinking(8192, if effort.Some? then effort.value else High))
  }

  function DecideThinkingPlan(state: RoundState, effort: Option<Effort>, profile: Profile, score: int): Decision {
    var intent := ChosenIntent(state, effort, profile, score);
    var plan := PlanOutputBudget(DecideMaxTokens(intent, state), intent, state, profile);
    Decision(if intent.Some? then Some(intent.value.(budget := plan.thinkingTokens)) else None, plan)
  }

  // ----- what every decision keeps -----

  lemma RoomLeavesReserve(total: int, stage: Stage)
    ensures ThinkingRoom(total, stage) <= total - ActionMinimum(stage)
    ensures (total - ThinkingRoom(total, stage)) as real >= total as real * ActionRatio(stage)
    ensures ThinkingRoom(total, stage) >= 0 <==> total >= ActionMinimum(stage)
  {
    var free := total as real * (1.0 - ActionRatio(stage));
    assert free == total as real - total as real * ActionRatio(stage);
    assert free.Floor as real <= free;
  }

  /** On every path thinking and action share the total, which stays within the provider's
      cap and 16384; below the stage's minimum there is no thinking, and from there on
      action gets the minimum and the stage's ratio. */
  lemma EveryDecisionLeavesRoom(state: RoundState, effort: Option<Effort>, profile: Profile, score: int)
    ensures var d, stage := DecideThinkingPlan(state, effort, profile, score), StageOf(state, profile);
            && d.plan.thinkingTokens + d.plan.actionTokens == d.plan.total <= 16384
            && (profile.providerCap.Some? ==> d.plan.total <= profile.providerCap.value)
            && (d.thinking.Some? ==> d.thinking.value.budget == d.plan.thinkingTokens)
            && (d.plan.total < ActionMinimum(stage) ==> d.plan.thinkingTokens == 0)
            && (d.plan.total >= ActionMinimum(stage) ==>
                  d.plan.actionTokens >= ActionMinimum(stage)
                  && d.plan.actionTokens as real >= d.plan.total as real * ActionRatio(stage))
  {
    RoomLeavesReserve(DecideThinkingPlan(state, effort, profile, score).plan.total, StageOf(state, profile));
  }

  /** Thinking comes out negative, and action above the total, exactly for a negative
      liveness cap where there is room to think. */
  lemma NegativeExactlyWhen(state: RoundState, effort: Option<Effort>, profile: Profile, score: int)
    ensures var d := DecideThinkingPlan(state, effort, profile, score);
            d.plan.thinkingTokens < 0
            <==>
            && profile.livenessCap.Some? && profile.livenessCap.value < 0
            && d.plan.total >= ActionMinimum(StageOf(state, profile))
  {
    RoomLeavesReserve(DecideThinkingPlan(state, effort, profile, score).plan.total, StageOf(state, profile));
  }

  // ----- what an error changes -----

  function Failing(state: RoundState): RoundState { state.(hadError := true) }

  /** The profile of the same round after an error: execution turns into recovery, unless
      the stage is left open, and planning goes on. */
  function AfterError(profile: Profile): Profile {
    if profile.stage == Some(Execution) then profile.(stage := Some(Recovery)) else profile
  }

  function ThinkingTokens(state: RoundState, effort: Option<Effort>, profile: Profile, score: int): int {
    DecideThinkingPlan(state, effort, profile, score).plan.thinkingTokens
  }

  predicate Executes(state: RoundState, profile: Profile) {
    !state.hadError && (profile.stage.None? || profile.stage == Some(Execution))
  }

  /** No cap, or one of at least so much. */
  predicate Leaves(cap: Option<int>, atLeast: int) {
    cap.None? || cap.value >= atLeast
  }

  /** Where thinking is asked for anyway, an error, which also raises the score, never
      leaves less for action. */
  lemma ErrorsKeepActionRoom(state: RoundState, effort: Option<Effort>, profile: Profile, score: int, raised: int)
    requires Executes(state, profile) && score <= raised
    requires ChosenIntent(state, effort, profile, score).Some? && Leaves(profile.livenessCap, 0)
    ensures DecideThinkingPlan(state, effort, profile, score).plan.actionTokens
         <= DecideThinkingPlan(Failing(state), effort, AfterError(profile), raised).plan.actionTokens
  {
    ErrorsKeepIntent(state, effort, profile, score, raised);
    var calm := ChosenIntent(state, effort, profile, score);
    var failed := ChosenIntent(Failing(state), effort, AfterError(profile), raised);
    ErrorsKeepPlan(calm, failed, state, profile);
  }

  lemma ErrorsKeepIntent(state: RoundState, effort: Option<Effort>, profile: Profile, score: int, raised: int)
    requires !state.hadError && score <= raised
    ensures var calm := ChosenIntent(state, effort, profile, score);
            var failed := ChosenIntent(Failing(state), effort, AfterError(profile), raised);
            && (failed.Some? ==> failed.value.budget in {16384, 32768})
            && (calm.Some? ==> failed.Some? && failed.value.budget >= calm.value.budget)
            && (calm.Some? ==> calm.value.budget in {8192, 16384, 32768})
  {
    assert HadWrite(state) == HadWrite(Failing(state));
  }

  /** The room in whole numbers. */
  lemma RoomIs(total: int, stage: Stage)
    ensures stage.Execution? ==> ThinkingRoom(total, stage) == Min(3 * total / 5, total - 4096)
    ensures stage.Recovery? ==> ThinkingRoom(total, stage) == Min(total / 2, total - 4096)
    ensures stage.Planning? ==> ThinkingRoom(total, stage) == Min(3 * total / 4, total - 2048)
  {
    assert (total as real * 0.6).Floor == 3 * total / 5;
    assert (total as real * 0.5).Floor == total / 2;
    assert (total as real * 0.75).Floor == 3 * total / 4;
  }

  /** What is thought of `asked` tokens, given the room. */
  function Share(room: int, asked: int): int {
    if room < 0 then 0 else Min(asked, room)
  }

  function Capped(envelope: int, cap: Option<int>): int {
    if cap.Some? then Min(envelope, cap.value) else envelope
  }

  /** The most the profile lets be asked for. */
  function Ceiling(profile: Profile): int { Requested(Some(Thinking(32768, High)), profile) }

  lemma CeilingIs(profile: Profile, least: int)
    requires least <= 32768
    ensures Ceiling(profile) >= least <==>
            && Leaves(profile.livenessCap, least)
            && (profile.actionFirst ==> least <= 2048) && (profile.protocolRecovery ==> least <= 1024)
  {
  }

  function Asked(intent: Option<Thinking>): int { if intent.Some? then intent.value.budget else 0 }

  lemma PlanIsShare(intent: Option<Thinking>, state: RoundState, profile: Profile)
    requires Asked(intent) <= 32768
    ensures var total := Capped(DecideMaxTokens(intent, state), profile.providerCap);
            var plan := PlanOutputBudget(DecideMaxTokens(intent, state), intent, state, profile);
            && plan.thinkingTokens
               == Share(ThinkingRoom(total, StageOf(state, profile)), Min(Asked(intent), Ceiling(profile)))
            && plan.actionTokens == total - plan.thinkingTokens
  {
  }

  lemma ErrorsKeepPlan(calm: Option<Thinking>, failed: Option<Thinking>, state: RoundState, profile: Profile)
    requires Executes(state, profile) && Leaves(profile.livenessCap, 0)
    requires calm.Some? && failed.Some? && failed.value.budget >= calm.value.budget
    requires calm.value.budget in {8192, 16384, 32768} && failed.value.budget in {16384, 32768}
    ensures PlanOutputBudget(DecideMaxTokens(calm, state), calm, state, profile).actionTokens
         <= PlanOutputBudget(DecideMaxTokens(failed, state), failed, Failing(state), AfterError(profile)).actionTokens
  {
    var a := Capped(DecideMaxTokens(calm, state), profile.providerCap);
    var b := Capped(DecideMaxTokens(failed, state), profile.providerCap);
    PlanIsShare(calm, state, profile);
    PlanIsShare(failed, Failing(state), AfterError(profile));
    RoomIs(a, Execution);
    RoomIs(b, Recovery);
    CeilingIs(profile, 0);
    ActionShare(a, b, calm.value.budget, failed.value.budget, Ceiling(profile));
  }

  lemma ActionShare(a: int, b: int, asked: int, more: int, ceiling: int)
    requires (a == b <= 16384 && asked <= more) || (a <= b <= 16384 && a <= 12288 && asked == 8192 < more)
    requires ceiling >= 0 && asked >= 8192 && (a < 12288 ==> a == b)
    ensures a - Share(Min(3 * a / 5, a - 4096), Min(asked, ceiling))
         <= b - Share(Min(b / 2, b - 4096), Min(more, ceiling))
  {
  }

  /** But thinking does not always get less. While executing, an error deepens it exactly
      when some is asked for now and
      - none was before, where the caps leave anything to think with; or
      - the edit was small (a budget of 8192, neither a whole file written nor a FIM edit),
        the provider's cap is at least 14746, and no other cap holds thinking down. */
  lemma ErrorsDeepenExactlyWhen(state: RoundState, effort: Option<Effort>, profile: Profile, score: int, raised: int)
    requires Executes(state, profile) && score <= raised
    ensures var calm := ChosenIntent(state, effort, profile, score);
            var failed := ChosenIntent(Failing(state), effort, AfterError(profile), raised);
            ThinkingTokens(state, effort, profile, score)
            < ThinkingTokens(Failing(state), effort, AfterError(profile), raised)
            <==>
            && failed.Some?
            && if calm.None? then Leaves(profile.providerCap, 4097) && Leaves(profile.livenessCap, 1)
               else
                 && calm.value.budget == 8192 && !state.hadFim && "write_file" !in state.priorTools
                 && Leaves(profile.providerCap, 14746) && Leaves(profile.livenessCap, 7373)
                 && !profile.actionFirst && !profile.protocolRecovery
  {
    ErrorsKeepIntent(state, effort, profile, score, raised);
    var calm := ChosenIntent(state, effort, profile, score);
    var failed := ChosenIntent(Failing(state), effort, AfterError(profile), raised);
    ExecutingPlan(calm, failed, state, profile);
  }

  lemma ExecutingPlan(calm: Option<Thinking>, failed: Option<Thinking>, state: RoundState, profile: Profile)
    requires Executes(state, profile) && (failed.Some? ==> failed.value.budget in {16384, 32768})
    requires calm.Some? ==>
               calm.value.budget in {8192, 16384, 32768} && failed.Some? && failed.value.budget >= calm.value.budget
    ensures PlanOutputBudget(DecideMaxTokens(calm, state), calm, state, profile).thinkingTokens
            < PlanOutputBudget(DecideMaxTokens(failed, Failing(state)), failed, Failing(state),
                               AfterError(profile)).thinkingTokens
            <==>
            && failed.Some?
            && if calm.None? then Leaves(profile.providerCap, 4097) && Leaves(profile.livenessCap, 1)
               else
                 && calm.value.budget == 8192 && !state.hadFim && "write_file" !in state.priorTools
                 && Leaves(profile.providerCap, 14746) && Leaves(profile.livenessCap, 7373)
                 && !profile.actionFirst && !profile.protocolRecovery
  {
    var a := Capped(DecideMaxTokens(calm, state), profile.providerCap);
    var b := Capped(DecideMaxTokens(failed, state), profile.providerCap);
    PlanIsShare(calm, state, profile);
    PlanIsShare(failed, Failing(state), AfterError(profile));
    ErrorsWiden(calm, failed, state, profile.providerCap);
    RoomIs(a, Execution);
    RoomIs(b, Recovery);
    CeilingIs(profile, 1);
    CeilingIs(profile, 7373);
    ExecutingShare(a, b, Asked(calm), Asked(failed), Ceiling(profile));
  }

  /** The totals before and after an error. */
  predicate Widens(a: int, b: int, asked: int) {
    a <= b <= 16384 && (a < b ==> asked in {0, 8192} && a == if asked == 0 then 4096 else 12288)
  }

  lemma ErrorsWiden(calm: Option<Thinking>, failed: Option<Thinking>, state: RoundState, cap: Option<int>)
    requires calm.Some? ==> calm.value.budget in {8192, 16384, 32768} && failed.Some?
    requires failed.Some? ==> failed.value.budget in {16384, 32768}
    ensures var a, b := Capped(DecideMaxTokens(calm, state), cap), Capped(DecideMaxTokens(failed, state), cap);
            && Widens(a, b, Asked(calm))
            && (failed.Some? ==> (b >= 4097 <==> Leaves(cap, 4097)) && (b >= 2049 <==> Leaves(cap, 2049)))
            && (failed.Some? && !state.hadFim ==>
                  (b >= 14746 <==> Leaves(cap, 14746)) && (b >= 10924 <==> Leaves(cap, 10924)))
            && (state.hadFim ==> b <= 8192)
            && (Asked(calm) == 8192 && b >= 14746 ==>
                  (a < b <==> !state.hadFim && "write_file" !in state.priorTools))
  {
  }

  /** The arithmetic of it; `a` and `b` are the totals before and after the error. */
  lemma ExecutingShare(a: int, b: int, asked: int, more: int, ceiling: int)
    requires asked in {0, 8192, 16384, 32768} && more in {0, 16384, 32768} && asked <= more
    requires Widens(a, b, asked)
    ensures Share(Min(3 * a / 5, a - 4096), Min(asked, ceiling)) < Share(Min(b / 2, b - 4096), Min(more, ceiling))
       <==> && more > 0
            && if asked == 0 then b >= 4097 && ceiling >= 1
               else asked == 8192 && a < b && b >= 14746 && ceiling >= 7373
  {
  }

  /** While planning, the stage stays and only the envelope grows: the same with its own
      bounds, whether a whole file was written or not. */
  lemma ErrorsDeepenPlanningExactlyWhen(state: RoundState, effort: Option<Effort>, profile: Profile, score: int,
                                        raised: int)
    requires !state.hadError && profile.stage == Some(Planning) && score <= raised
    ensures var calm := ChosenIntent(state, effort, profile, score);
            var failed := ChosenIntent(Failing(state), effort, AfterError(profile), raised);
            ThinkingTokens(state, effort, profile, score)
            < ThinkingTokens(Failing(state), effort, AfterError(profile), raised)
            <==>
            && failed.Some?
            && if calm.None? then Leaves(profile.providerCap, 2049) && Leaves(profile.livenessCap, 1)
               else
                 && calm.value.budget == 8192 && !state.hadFim
                 && Leaves(profile.providerCap, 10924) && Leaves(profile.livenessCap, 8193)
                 && !profile.actionFirst && !profile.protocolRecovery
  {
    ErrorsKeepIntent(state, effort, profile, score, raised);
    var calm := ChosenIntent(state, effort, profile, score);
    var failed := ChosenIntent(Failing(state), effort, AfterError(profile), raised);
    var a := Capped(DecideMaxTokens(calm, state), profile.providerCap);
    var b := Capped(DecideMaxTokens(failed, state), profile.providerCap);
    PlanIsShare(calm, state, profile);
    PlanIsShare(failed, Failing(state), AfterError(profile));
    ErrorsWiden(calm, failed, state, profile.providerCap);
    RoomIs(a, Planning);
    RoomIs(b, Planning);
    CeilingIs(profile, 1);
    CeilingIs(profile, 8193);
    PlanningShare(a, b, Asked(calm), Asked(failed), Ceiling(profile));
  }

  lemma PlanningShare(a: int, b: int, asked: int, more: int, ceiling: int)
    requires asked in {0, 8192, 16384, 32768} && more in {0, 16384, 32768} && asked <= more
    requires Widens(a, b, asked)
    ensures Share(Min(3 * a / 4, a - 2048), Min(asked, ceiling)) < Share(Min(3 * b / 4, b - 2048), Min(more, ceiling))
       <==> && more > 0
            && if asked == 0 then b >= 2049 && ceiling >= 1 else asked == 8192 && b >= 10924 && ceiling >= 8193
  {
  }

  /** A small edit without caps: 7372 tokens of thinking become 8192 when a call fails. */
  lemma SmallEditThinksDeeper()
    ensures var state := RoundState(1, ["edit_file"], 1, false, false);
            var profile := Profile(Some(Execution), OtherIntent, 1, None, false, false, None);
            && ThinkingTokens(state, None, profile, 0) == 7372
            && ThinkingTokens(Failing(state), None, AfterError(profile), 2) == 8192
  {
    var state := RoundState(1, ["edit_file"], 1, false, false);
    var profile := Profile(Some(Execution), OtherIntent, 1, None, false, false, None);
    assert "edit_file" in state.priorTools && "edit_file" !in READONLY_TOOLS;
    assert HadWrite(state) && HadWrite(Failing(state));
    RoomIs(12288, Execution);
    RoomIs(16384, Recovery);
    assert "write_file" !in ["edit_file"];
  }
}
