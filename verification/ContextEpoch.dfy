/** When a conversation is compacted and where it is cut: what goes to the archive, what
    stays, and which calls and results a cut can tear apart. */
module ContextEpoch {
  import opened Options
  import opened Transcript

  // ----- thresholds -----

  datatype Thresholds = Thresholds(compress: real, forceCompress: real, rollover: real)

  function Min(a: real, b: real): real { if a <= b then a else b }

  function Max(a: real, b: real): real { if a <= b then b else a }

  function FloorOf(x: real): real { x.Floor as real }

  function EpochThresholdsForContext(defaults: Thresholds, contextMaxTokens: real): Thresholds {
    var window := Max(3.0, contextMaxTokens * 3.0);
    var rollover := Min(defaults.rollover, FloorOf(window * 0.45));
    var forceCompress := Min(Min(defaults.forceCompress, FloorOf(window * 0.38)), FloorOf(rollover * 0.85));
    var compress := Min(Min(defaults.compress, FloorOf(window * 0.25)), FloorOf(forceCompress * 0.75));
    Thresholds(compress, forceCompress, rollover)
  }

  predicate Ordered(t: Thresholds) {
    0.0 <= t.compress <= t.forceCompress <= t.rollover
  }

  /** However small the window and whatever the order of the defaults, the thresholds come
      out in order, none above its default or its share of the window. */
  lemma ThresholdsAreOrdered(defaults: Thresholds, contextMaxTokens: real)
    requires NoneNegative(defaults)
    ensures var t := EpochThresholdsForContext(defaults, contextMaxTokens);
            Ordered(t) && t.compress <= defaults.compress && t.forceCompress <= defaults.forceCompress
            && t.rollover <= defaults.rollover
    ensures var t, window := EpochThresholdsForContext(defaults, contextMaxTokens), Max(3.0, contextMaxTokens * 3.0);
            t.compress <= window * 0.25 && t.forceCompress <= window * 0.38 && t.rollover <= window * 0.45
  {
    var t := EpochThresholdsForContext(defaults, contextMaxTokens);
    assert FloorOf(t.rollover * 0.85) <= t.rollover * 0.85;
    assert FloorOf(t.forceCompress * 0.75) <= t.forceCompress * 0.75;
  }

  /** `Math.round`: halves go up. */
  function Round(x: real): int { (x + 0.5).Floor }

  function FactorFor(charsPerToken: real): real {
    if charsPerToken > 0.0 then charsPerToken / 3.0 else 1.0
  }

  datatype Limits = Limits(compress: int, forceCompress: int, rollover: int)

  function CalibrateEpochThresholds(t: Thresholds, charsPerToken: real): Limits {
    var factor := FactorFor(charsPerToken);
    Limits(Scaled(t.compress, factor), Scaled(t.forceCompress, factor), Scaled(t.rollover, factor))
  }

  function Scaled(x: real, factor: real): int { Round(x * factor) }

  lemma ScaledIsMonotone(x: real, y: real, factor: real)
    requires x <= y && factor > 0.0
    ensures Scaled(x, factor) <= Scaled(y, factor)
    ensures x >= 0.0 ==> Scaled(x, factor) >= 0
  {
    assert x * factor <= y * factor;
    assert x >= 0.0 ==> x * factor >= 0.0;
  }

  lemma CalibrationKeepsOrder(t: Thresholds, charsPerToken: real)
    requires Ordered(t)
    ensures var l := CalibrateEpochThresholds(t, charsPerToken); 0 <= l.compress <= l.forceCompress <= l.rollover
  {
    var factor := FactorFor(charsPerToken);
    assert factor > 0.0;
    ScaledIsMonotone(t.compress, t.forceCompress, factor);
    ScaledIsMonotone(t.forceCompress, t.rollover, factor);
  }

  datatype Action = NoAction | Compress | ForceCompress | Rollover

  function ClassifyEpochAction(totalChars: int, t: Thresholds, charsPerToken: real): Action {
    ActionAt(totalChars, CalibrateEpochThresholds(t, charsPerToken))
  }

  function ActionAt(totalChars: int, l: Limits): Action {
    if totalChars >= l.rollover then Rollover
    else if totalChars >= l.forceCompress then ForceCompress
    else if totalChars >= l.compress then Compress
    else NoAction
  }

  function Severity(a: Action): nat {
    match a case NoAction => 0 case Compress => 1 case ForceCompress => 2 case Rollover => 3
  }

  lemma ActionAtIsMonotone(few: int, many: int, strict: Limits, lax: Limits)
    requires few <= many
    requires strict.compress <= lax.compress && strict.forceCompress <= lax.forceCompress
             && strict.rollover <= lax.rollover
    ensures Severity(ActionAt(few, lax)) <= Severity(ActionAt(many, strict))
  {
  }

  ghost predicate NoneNegative(t: Thresholds) {
    t.compress >= 0.0 && t.forceCompress >= 0.0 && t.rollover >= 0.0
  }

  /** More characters never make the action milder, for any thresholds. */
  lemma ActionIsMonotone(few: int, many: int, t: Thresholds, charsPerToken: real)
    requires few <= many
    ensures Severity(ClassifyEpochAction(few, t, charsPerToken))
         <= Severity(ClassifyEpochAction(many, t, charsPerToken))
  {
    var l := CalibrateEpochThresholds(t, charsPerToken);
    ActionAtIsMonotone(few, many, l, l);
  }

  /** Nor does text of which fewer characters make up a token. */
  lemma ActionFollowsDensity(chars: int, t: Thresholds, sparse: real, dense: real)
    requires NoneNegative(t) && 0.0 < sparse <= dense
    ensures Severity(ClassifyEpochAction(chars, t, dense)) <= Severity(ClassifyEpochAction(chars, t, sparse))
  {
    var lax, strict := CalibrateEpochThresholds(t, dense), CalibrateEpochThresholds(t, sparse);
    assert strict.compress <= lax.compress && strict.forceCompress <= lax.forceCompress
           && strict.rollover <= lax.rollover by {
      ScalesUp(t.compress, sparse, dense);
      ScalesUp(t.forceCompress, sparse, dense);
      ScalesUp(t.rollover, sparse, dense);
    }
    ActionAtIsMonotone(chars, chars, strict, lax);
  }

  lemma ScalesUp(x: real, sparse: real, dense: real)
    requires 0.0 <= x && 0.0 < sparse <= dense
    ensures Scaled(x, FactorFor(sparse)) <= Scaled(x, FactorFor(dense))
  {
    assert x * FactorFor(sparse) <= x * FactorFor(dense);
  }

  // ----- the cut -----

  function Chars(messages: seq<Message>): nat {
    if messages == [] then 0 else Chars(messages[..|messages| - 1]) + messages[|messages| - 1].chars
  }

  lemma {:induction false} CharsAdd(a: seq<Message>, b: seq<Message>)
    ensures Chars(a + b) == Chars(a) + Chars(b)
    decreases |b|
  {
    if b == [] {
      assert a + b == a;
    } else {
      CharsAdd(a, b[..|b| - 1]);
      assert (a + b)[..|a + b| - 1] == a + b[..|b| - 1];
    }
  }

  function Assistants(messages: seq<Message>): nat {
    if messages == [] then 0 else (if messages[0].role.Assistant? then 1 else 0) + Assistants(messages[1..])
  }

  /** Where the walk from the end stops: the largest index from which on there are
      `keepRecent` assistant messages, or the end. */
  function WalkBack(messages: seq<Message>, keepRecent: int, i: nat): (cut: nat)
    requires i <= |messages|
    ensures cut <= |messages|
    decreases i
  {
    if i == 0 then |messages|
    else if Assistants(messages[i - 1..]) >= keepRecent then i - 1
    else WalkBack(messages, keepRecent, i - 1)
  }

  /** The cut of the normal path: at least two messages stay. */
  function NormalCut(messages: seq<Message>, keepRecent: int): (cut: nat)
    ensures cut <= |messages|
  {
    var cut := WalkBack(messages, keepRecent, |messages|);
    if |messages| - cut < 2 then Minus(|messages|, 2) else cut
  }

  /** Plain text from the user, with every call before it answered. */
  predicate SafeBoundary(messages: seq<Message>, i: nat)
    requires i < |messages|
  {
    && Pending(0, messages[..i]) == 0 && messages[i].role.User?
    && forall b :: b in BlocksOf(messages[i]) ==> !b.ToolResult?
  }

  method FindSafeRolloverBoundary(messages: seq<Message>) returns (boundary: int)
    ensures -1 <= boundary < |messages|
    ensures boundary >= 0 ==> SafeBoundary(messages, boundary)
    ensures forall i :: boundary < i < |messages| ==> !SafeBoundary(messages, i)
  {
    var pending, k := 0, 0;
    boundary := -1;
    while k < |messages|
      invariant k <= |messages| && -1 <= boundary < k && pending == Pending(0, messages[..k])
      invariant boundary >= 0 ==> SafeBoundary(messages, boundary)
      invariant forall i :: boundary < i < k ==> !SafeBoundary(messages, i)
    {
      assert messages[..k + 1][..k] == messages[..k];
      if pending == 0 && messages[k].role.User? && forall b :: b in BlocksOf(messages[k]) ==> !b.ToolResult? {
        boundary := k;
      }
      pending := PendingAfterMessage(pending, messages[k]);
      k := k + 1;
    }
  }

  method FindCut(messages: seq<Message>, keepRecent: int) returns (cut: nat)
    ensures cut == NormalCut(messages, keepRecent)
  {
    var assistants: nat, i: nat := 0, |messages|;
    cut := |messages|;
    while i > 0
      invariant i <= |messages| && assistants == Assistants(messages[i..]) && cut == |messages|
      invariant WalkBack(messages, keepRecent, |messages|) == WalkBack(messages, keepRecent, i)
    {
      i := i - 1;
      assert messages[i..][1..] == messages[i + 1..];
      if messages[i].role.Assistant? { assistants := assistants + 1; }
      if assistants >= keepRecent {
        cut := i;
        break;
      }
    }
    assert cut == WalkBack(messages, keepRecent, |messages|);
    if |messages| - cut < 2 { cut := Minus(|messages|, 2); }
  }

  // ----- rollover -----

  datatype Result =
    | Blocked
    | RolledOver(messages: seq<Message>, archived: seq<Message>, charsTrimmed: nat, inFallback: bool)

  /** `preambleChars` is the length of the text put in front of what stays. */
  method EpochRollover(messages: seq<Message>, keepRecent: int, preambleChars: nat, fallback: bool) returns (r: Result)
    ensures r.Blocked? <==>
            Pending(0, messages) > 0 && (!fallback || forall i :: 0 <= i < |messages| ==> !SafeBoundary(messages, i))
    ensures r.RolledOver? ==>
              && r.messages != [] && r.messages[..1] == [Message(User, Text, preambleChars)]
              && r.archived + r.messages[1..] == messages
              && r.charsTrimmed == Minus(Chars(r.archived), preambleChars)
              && (r.inFallback <==> Pending(0, messages) > 0)
              && (!r.inFallback ==> |r.archived| == NormalCut(messages, keepRecent))
    ensures r.RolledOver? && r.inFallback ==>
              && |r.archived| < |messages| && SafeBoundary(messages, |r.archived|)
              && forall i :: |r.archived| < i < |messages| ==> !SafeBoundary(messages, i)
  {
    var unclosed := HasUnclosedToolChain(messages);
    if unclosed && !fallback { return Blocked; }
    var cut: nat;
    if unclosed {
      var boundary := FindSafeRolloverBoundary(messages);
      if boundary < 0 { return Blocked; }
      cut := boundary;
    } else {
      cut := FindCut(messages, keepRecent);
    }
    r := CutAt(messages, cut, preambleChars, unclosed);
  }

  /** Archives everything before the cut and puts the preamble in its place. */
  method CutAt(messages: seq<Message>, cut: nat, preambleChars: nat, inFallback: bool) returns (r: Result)
    requires cut <= |messages|
    ensures r.RolledOver? && |r.archived| == cut && r.inFallback == inFallback
    ensures r.messages != [] && r.messages[..1] == [Message(User, Text, preambleChars)]
    ensures r.archived + r.messages[1..] == messages
    ensures r.charsTrimmed == Minus(Chars(r.archived), preambleChars)
  {
    var archived, retained := messages[..cut], messages[cut..];
    CharsAdd(archived, retained);
    assert archived + retained == messages;
    r := RolledOver([Message(User, Text, preambleChars)] + retained, archived,
                    Minus(Minus(Chars(messages), Chars(retained)), preambleChars), inFallback);
    assert r.messages[1..] == retained;
  }

  // ----- what a cut tears apart -----

  /** Cutting at a safe boundary tears nothing apart. */
  lemma FallbackIsSafe(messages: seq<Message>, cut: nat)
    requires OrphanFree(messages) && cut < |messages| && SafeBoundary(messages, cut)
    ensures !Splits(messages, cut)
  {
    OrphanFreePrefix(messages, cut);
    PendingCountsOpenCalls(messages[..cut]);
    NothingOpenNothingSplit(messages, cut);
  }

  /** The calls that were pending are pending after the cut, all of them. */
  lemma FallbackKeepsPending(messages: seq<Message>, cut: nat, preamble: Message)
    requires cut < |messages| && SafeBoundary(messages, cut) && preamble.role.User? && preamble.content.Text?
    ensures Pending(0, [preamble] + messages[cut..]) == Pending(0, messages)
  {
    PendingSplit(0, messages, cut);
    PreambleIsSilent(preamble, messages[cut..]);
  }

  lemma PreambleIsSilent(preamble: Message, rest: seq<Message>)
    requires preamble.role.User? && preamble.content.Text?
    ensures Pending(0, [preamble] + rest) == Pending(0, rest)
  {
    var all := [preamble] + rest;
    PendingSplit(0, all, 1);
    assert all[..1] == [preamble] && all[1..] == rest && [preamble][..0] == [];
  }

  /** A closed transcript stays closed wherever it is cut. */
  lemma CutStaysClosed(messages: seq<Message>, cut: nat, preamble: Message)
    requires cut <= |messages| && Pending(0, messages) == 0 && preamble.role.User? && preamble.content.Text?
    ensures Pending(0, [preamble] + messages[cut..]) == 0
  {
    PendingSplit(0, messages, cut);
    PendingMonotone(0, Pending(0, messages[..cut]), messages[cut..]);
    PreambleIsSilent(preamble, messages[cut..]);
  }

  /** Results come in the message right after their call. */
  ghost predicate DirectlyAnswered(messages: seq<Message>) {
    forall i, j, id ::
      0 <= i < |messages| && 0 <= j < |messages| && id in UseIds(messages[i]) && id in ResultIds(messages[j]) ==>
        j == i + 1
  }

  /** Then a cut tears something apart just when it falls between the two. */
  lemma SplitsExactlyBetween(messages: seq<Message>, cut: nat)
    requires DirectlyAnswered(messages) && cut <= |messages|
    ensures Splits(messages, cut)
            <==> 0 < cut < |messages| && UseIds(messages[cut - 1]) * ResultIds(messages[cut]) != {}
  {
    if 0 < cut < |messages| && UseIds(messages[cut - 1]) * ResultIds(messages[cut]) != {} {
      var id :| id in UseIds(messages[cut - 1]) * ResultIds(messages[cut]);
      assert id in UseIds(messages[cut - 1]) && id in ResultIds(messages[cut]);
    }
    if Splits(messages, cut) {
      var i, j, id :| 0 <= i < cut <= j < |messages| && id in UseIds(messages[i]) && id in ResultIds(messages[j]);
      assert id in UseIds(messages[cut - 1]) * ResultIds(messages[cut]);
    }
  }

  lemma {:induction false} WalkBackStopsAtAssistant(messages: seq<Message>, keepRecent: int, i: nat)
    requires i <= |messages| && keepRecent >= 1 && Assistants(messages[i..]) < keepRecent
    ensures var cut := WalkBack(messages, keepRecent, i);
            && (cut < |messages| <==> Assistants(messages) >= keepRecent && |messages| > 0)
            && (cut < |messages| ==>
                  cut < i && messages[cut].role.Assistant? && Assistants(messages[cut..]) == keepRecent)
    decreases i
  {
    if i == 0 {
      assert messages[0..] == messages;
    } else {
      assert messages[i - 1..][1..] == messages[i..];
      if Assistants(messages[i - 1..]) < keepRecent {
        WalkBackStopsAtAssistant(messages, keepRecent, i - 1);
      } else {
        AssistantsFromEarlier(messages, i - 1);
      }
    }
  }

  lemma {:induction false} AssistantsFromEarlier(messages: seq<Message>, i: nat)
    requires i <= |messages|
    ensures Assistants(messages[i..]) <= Assistants(messages)
    decreases |messages|
  {
    if i > 0 {
      AssistantsFromEarlier(messages[1..], i - 1);
      assert messages[1..][i - 1..] == messages[i..];
    } else {
      assert messages[i..] == messages;
    }
  }

  lemma {:induction false} AssistantsAtMostAll(messages: seq<Message>)
    ensures Assistants(messages) <= |messages|
  {
    if messages != [] { AssistantsAtMostAll(messages[1..]); }
  }

  /** The walk stops at an assistant message, where nothing can be torn apart; only the
      minimum of two messages moves the cut off it. */
  lemma NormalSplitsExactlyWhen(messages: seq<Message>, keepRecent: int)
    requires DirectlyAnswered(messages)
    ensures var n := |messages|;
            Splits(messages, NormalCut(messages, keepRecent))
            <==>
            && n >= 3 && WalkBack(messages, keepRecent, n) > n - 2
            && UseIds(messages[n - 3]) * ResultIds(messages[n - 2]) != {}
  {
    var n := |messages|;
    assert messages[n..] == [];
    if keepRecent >= 1 { WalkBackStopsAtAssistant(messages, keepRecent, n); }
    SplitsExactlyBetween(messages, NormalCut(messages, keepRecent));
  }

  /** With two or more turns to keep, and that many there, the cut is safe. */
  lemma NormalIsSafe(messages: seq<Message>, keepRecent: int)
    requires DirectlyAnswered(messages) && 2 <= keepRecent <= Assistants(messages)
    ensures !Splits(messages, NormalCut(messages, keepRecent))
    ensures Assistants(messages[NormalCut(messages, keepRecent)..]) == keepRecent
  {
    var n := |messages|;
    assert messages[n..] == [];
    AssistantsAtMostAll(messages);
    WalkBackStopsAtAssistant(messages, keepRecent, n);
    AssistantsAtMostAll(messages[WalkBack(messages, keepRecent, n)..]);
    NormalSplitsExactlyWhen(messages, keepRecent);
  }

  /** Keeping one turn, a closed and directly answered transcript is torn apart. */
  lemma KeepingOneSplits()
    ensures var messages := [Message(Assistant, Blocks([ToolUse("a")]), 1), Message(User, Blocks([ToolResult("a")]), 1),
                             Message(Assistant, Text, 1)];
            DirectlyAnswered(messages) && Pending(0, messages) == 0 && NormalCut(messages, 1) == 1
            && Splits(messages, 1)
  {
    var messages := [Message(Assistant, Blocks([ToolUse("a")]), 1), Message(User, Blocks([ToolResult("a")]), 1),
                     Message(Assistant, Text, 1)];
    assert messages[2..] == [messages[2]] && WalkBack(messages, 1, 3) == 2;
    assert messages[..2][..1] == messages[..1] && messages[..1] == [messages[0]];
    var call, answer := ToolUse("a"), ToolResult("a");
    assert messages[..3] == messages;
    assert PendingAfter(0, messages[0]) == 1;
    assert PendingAfter(1, messages[1]) == 0;
    assert Pending(0, messages[..1]) == 1;
    assert Pending(0, messages[..2]) == 0;
    assert Pending(0, messages) == 0;
    assert NormalCut(messages, 1) == 1;
    assert UseIds(messages[0]) == {"a"} by { assert call in BlocksOf(messages[0]); }
    assert ResultIds(messages[1]) == {"a"} by { assert answer in BlocksOf(messages[1]); }
    assert UseIds(messages[1]) == UseIds(messages[2]) == ResultIds(messages[0]) == ResultIds(messages[2]) == {};
    assert CountUses([call]) == 1 && CountResults([answer]) == 1;
    assert Splits(messages, 1) by { assert "a" in UseIds(messages[0]) && "a" in ResultIds(messages[1]); }
  }

  /** Nor do three turns to keep, as every run has it, help where fewer are there: a short
      closed transcript is cut between its only call and the result. */
  lemma KeepingThreeSplits(keepRecent: int)
    requires keepRecent >= 3
    ensures var messages := [Message(User, Text, 1), Message(Assistant, Blocks([ToolUse("a")]), 1),
                             Message(User, Blocks([ToolResult("a")]), 1), Message(Assistant, Text, 1)];
            && DirectlyAnswered(messages) && Pending(0, messages) == 0
            && NormalCut(messages, keepRecent) == 2 && Splits(messages, 2)
  {
    var messages := [Message(User, Text, 1), Message(Assistant, Blocks([ToolUse("a")]), 1),
                     Message(User, Blocks([ToolResult("a")]), 1), Message(Assistant, Text, 1)];
    TwoTurns(messages);
    OneCallAnswered(messages);
    IdsOfCall(messages[1], "a");
    IdsOfResult(messages[2], "a");
    assert forall k :: 0 <= k < 4 && k != 1 ==> UseIds(messages[k]) == {};
    assert forall k :: 0 <= k < 4 && k != 2 ==> ResultIds(messages[k]) == {};
    assert Splits(messages, 2) by { assert "a" in UseIds(messages[1]) && "a" in ResultIds(messages[2]); }
  }

  lemma IdsOfCall(m: Message, id: string)
    requires m == Message(Assistant, Blocks([ToolUse(id)]), 1)
    ensures UseIds(m) == {id} && ResultIds(m) == {}
  {
    assert ToolUse(id) in BlocksOf(m);
  }

  lemma IdsOfResult(m: Message, id: string)
    requires m == Message(User, Blocks([ToolResult(id)]), 1)
    ensures UseIds(m) == {} && ResultIds(m) == {id}
  {
    assert ToolResult(id) in BlocksOf(m);
  }

  lemma OneCallAnswered(messages: seq<Message>)
    requires |messages| == 4 && messages[0] == Message(User, Text, 1) && messages[3] == Message(Assistant, Text, 1)
    requires messages[1] == Message(Assistant, Blocks([ToolUse("a")]), 1)
    requires messages[2] == Message(User, Blocks([ToolResult("a")]), 1)
    ensures Pending(0, messages) == 0
  {
    var call, answer := ToolUse("a"), ToolResult("a");
    assert CountUses([call]) == 1 && CountResults([answer]) == 1;
    assert messages[..4] == messages && messages[..4][..3] == messages[..3];
    assert messages[..3][..2] == messages[..2] && messages[..2][..1] == messages[..1] == [messages[0]];
    assert Pending(0, messages[..1]) == 0;
    assert Pending(0, messages[..2]) == 1;
    assert Pending(0, messages[..3]) == 0;
  }

  /** With fewer turns than are to be kept the walk finds no cut. */
  lemma TwoTurns(messages: seq<Message>)
    requires |messages| == 4 && messages[0].role.User? && messages[2].role.User?
    ensures forall keepRecent :: keepRecent >= 3 ==> WalkBack(messages, keepRecent, 4) == 4
  {
    assert messages[4..] == [];
    assert messages[3..][1..] == messages[4..] && Assistants(messages[3..]) <= 1;
    assert messages[2..][1..] == messages[3..] && Assistants(messages[2..]) <= 1;
    assert messages[1..][1..] == messages[2..] && Assistants(messages[1..]) <= 2;
    assert messages[0..][1..] == messages[1..] && Assistants(messages[0..]) <= 2;
    forall keepRecent | keepRecent >= 3 ensures WalkBack(messages, keepRecent, 4) == 4 {
      assert WalkBack(messages, keepRecent, 1) == 4;
      assert WalkBack(messages, keepRecent, 2) == 4;
      assert WalkBack(messages, keepRecent, 3) == 4;
    }
  }

  /** On directly answered transcripts the fallback is safe even among stray results. */
  lemma FallbackIsSafeDirectly(messages: seq<Message>, cut: nat)
    requires DirectlyAnswered(messages) && cut < |messages| && SafeBoundary(messages, cut)
    ensures !Splits(messages, cut)
  {
    SplitsExactlyBetween(messages, cut);
  }

  /** Otherwise the fallback relies on calls and results matching up: a stray result makes
      the count forget a call that is still open. */
  lemma StrayResultMisleadsFallback()
    ensures var messages := [Message(Assistant, Blocks([ToolUse("a")]), 1), Message(User, Blocks([ToolResult("z")]), 1),
                             Message(User, Text, 1), Message(User, Blocks([ToolResult("a")]), 1)];
            SafeBoundary(messages, 2) && Splits(messages, 2)
  {
    var messages := [Message(Assistant, Blocks([ToolUse("a")]), 1), Message(User, Blocks([ToolResult("z")]), 1),
                     Message(User, Text, 1), Message(User, Blocks([ToolResult("a")]), 1)];
    assert messages[..2][..1] == messages[..1] && messages[..1] == [messages[0]];
    var call, answer, stray := ToolUse("a"), ToolResult("a"), ToolResult("z");
    assert "a" in UseIds(messages[0]) by { assert call in BlocksOf(messages[0]); }
    assert "a" in ResultIds(messages[3]) by { assert answer in BlocksOf(messages[3]); }
    assert CountUses([call]) == 1 && CountResults([stray]) == 1;
  }
}
