/** Provider messages, and the tool calls and results they carry. */
module Transcript {

  datatype Role = User | Assistant | System

  datatype Block = ToolUse(id: string) | ToolResult(id: string) | OtherBlock

  datatype Content = Text | Blocks(blocks: seq<Block>)

  /** `chars` is the length of the content as a string or as serialized JSON. */
  datatype Message = Message(role: Role, content: Content, chars: nat)

  function BlocksOf(m: Message): seq<Block> {
    if m.content.Blocks? then m.content.blocks else []
  }

  function CountUses(blocks: seq<Block>): nat {
    if blocks == [] then 0 else CountUses(blocks[..|blocks| - 1]) + if blocks[|blocks| - 1].ToolUse? then 1 else 0
  }

  function CountResults(blocks: seq<Block>): nat {
    if blocks == [] then 0 else CountResults(blocks[..|blocks| - 1]) + if blocks[|blocks| - 1].ToolResult? then 1 else 0
  }

  function Minus(a: nat, b: nat): nat {
    if a < b then 0 else a - b
  }

  /** The running count of calls without a result: calls count in assistant messages,
      results in user messages, and the count never drops below zero. */
  function PendingAfter(pending: nat, m: Message): nat {
    if m.role.Assistant? then pending + CountUses(BlocksOf(m))
    else if m.role.User? then Minus(pending, CountResults(BlocksOf(m)))
    else pending
  }

  function Pending(start: nat, messages: seq<Message>): nat
    decreases |messages|
  {
    if messages == [] then start
    else PendingAfter(Pending(start, messages[..|messages| - 1]), messages[|messages| - 1])
  }

  method PendingAfterMessage(before: nat, m: Message) returns (pending: nat)
    ensures pending == PendingAfter(before, m)
  {
    pending := before;
    var blocks, k := BlocksOf(m), 0;
    while k < |blocks|
      invariant k <= |blocks|
      invariant m.role.Assistant? ==> pending == before + CountUses(blocks[..k])
      invariant m.role.User? ==> pending == Minus(before, CountResults(blocks[..k]))
      invariant m.role.System? ==> pending == before
    {
      assert blocks[..k + 1][..k] == blocks[..k];
      if m.role.Assistant? && blocks[k].ToolUse? {
        pending := pending + 1;
      } else if m.role.User? && blocks[k].ToolResult? {
        pending := Minus(pending, 1);
      }
      k := k + 1;
    }
    assert blocks[..k] == blocks;
  }

  method HasUnclosedToolChain(messages: seq<Message>) returns (unclosed: bool)
    ensures unclosed <==> Pending(0, messages) > 0
  {
    var pending, k := 0, 0;
    while k < |messages|
      invariant k <= |messages| && pending == Pending(0, messages[..k])
    {
      assert messages[..k + 1][..k] == messages[..k];
      pending := PendingAfterMessage(pending, messages[k]);
      k := k + 1;
    }
    assert messages[..k] == messages;
    return pending > 0;
  }

  lemma {:induction false} PendingSplit(start: nat, messages: seq<Message>, cut: nat)
    requires cut <= |messages|
    ensures Pending(start, messages) == Pending(Pending(start, messages[..cut]), messages[cut..])
    decreases |messages|
  {
    if cut == |messages| {
      assert messages[..cut] == messages && messages[cut..] == [];
    } else {
      var n := |messages| - 1;
      PendingSplit(start, messages[..n], cut);
      assert messages[..n][..cut] == messages[..cut] && messages[..n][cut..] == messages[cut..][..n - cut];
    }
  }

  /** Starting from fewer pending calls never ends with more. */
  lemma {:induction false} PendingMonotone(few: nat, many: nat, messages: seq<Message>)
    requires few <= many
    ensures Pending(few, messages) <= Pending(many, messages)
    decreases |messages|
  {
    if messages != [] { PendingMonotone(few, many, messages[..|messages| - 1]); }
  }

  // ----- which call a result belongs to -----

  /** The calls an assistant message makes, and the results a user message brings. */
  function UseIds(m: Message): set<string> {
    if m.role.Assistant? then set b | b in BlocksOf(m) && b.ToolUse? :: b.id else {}
  }

  function ResultIds(m: Message): set<string> {
    if m.role.User? then set b | b in BlocksOf(m) && b.ToolResult? :: b.id else {}
  }

  /** A call is archived and its result is not. */
  ghost predicate Splits(messages: seq<Message>, cut: nat) {
    exists i, j, id :: 0 <= i < cut <= j < |messages| && id in UseIds(messages[i]) && id in ResultIds(messages[j])
  }

  /** What one message does to the open calls. */
  function OpenAfter(open: set<string>, m: Message): set<string> {
    open + UseIds(m) - ResultIds(m)
  }

  /** Calls made so far, and those of them still without a result. */
  function Used(messages: seq<Message>): set<string> {
    if messages == [] then {} else Used(messages[..|messages| - 1]) + UseIds(messages[|messages| - 1])
  }

  function OpenCalls(messages: seq<Message>): set<string> {
    if messages == [] then {}
    else OpenAfter(OpenCalls(messages[..|messages| - 1]), messages[|messages| - 1])
  }

  /** Every call has an id of its own, and every result answers a call that is open. */
  ghost predicate OrphanFree(messages: seq<Message>) {
    messages == [] ||
    var before, last := messages[..|messages| - 1], messages[|messages| - 1];
    && OrphanFree(before)
    && UseIds(last) !! Used(before) && ResultIds(last) <= OpenCalls(before)
    && (last.role.Assistant? ==> |UseIds(last)| == CountUses(BlocksOf(last)))
    && (last.role.User? ==> |ResultIds(last)| == CountResults(BlocksOf(last)))
  }

  lemma {:induction false} OpenCallsWereUsed(messages: seq<Message>)
    ensures OpenCalls(messages) <= Used(messages)
  {
    if messages != [] { OpenCallsWereUsed(messages[..|messages| - 1]); }
  }

  lemma Sizes(open: set<string>, made: set<string>, closed: set<string>)
    requires made !! open && closed <= open
    ensures |open + made| == |open| + |made| && |open - closed| == |open| - |closed|
  {
    assert open == (open - closed) + closed;
  }

  lemma CountAfterMessage(open: set<string>, m: Message)
    requires UseIds(m) !! open && ResultIds(m) <= open
    requires m.role.Assistant? ==> |UseIds(m)| == CountUses(BlocksOf(m))
    requires m.role.User? ==> |ResultIds(m)| == CountResults(BlocksOf(m))
    ensures PendingAfter(|open|, m) == |OpenAfter(open, m)|
  {
    var uses, results := UseIds(m), ResultIds(m);
    Sizes(open, uses, results);
    assert m.role.Assistant? ==> results == {} && open + uses - {} == open + uses;
    assert !m.role.Assistant? ==> uses == {} && open + {} == open;
    assert m.role.System? ==> results == {} && open - {} == open;
  }

  /** On such a transcript the running count is the number of open calls. */
  lemma {:induction false} PendingCountsOpenCalls(messages: seq<Message>)
    requires OrphanFree(messages)
    ensures Pending(0, messages) == |OpenCalls(messages)|
    decreases |messages|
  {
    if messages != [] {
      var before, last := messages[..|messages| - 1], messages[|messages| - 1];
      PendingCountsOpenCalls(before);
      OpenCallsWereUsed(before);
      CountAfterMessage(OpenCalls(before), last);
      assert OpenCalls(messages) == OpenAfter(OpenCalls(before), last);
    }
  }

  lemma {:induction false} OrphanFreePrefix(messages: seq<Message>, k: nat)
    requires OrphanFree(messages) && k <= |messages|
    ensures OrphanFree(messages[..k])
    decreases |messages|
  {
    if k == |messages| {
      assert messages[..k] == messages;
    } else {
      OrphanFreePrefix(messages[..|messages| - 1], k);
      assert messages[..|messages| - 1][..k] == messages[..k];
    }
  }

  lemma {:induction false} UsedGrows(messages: seq<Message>, i: nat, k: nat)
    requires i < k <= |messages|
    ensures UseIds(messages[i]) <= Used(messages[..k])
    decreases k
  {
    assert messages[..k][..k - 1] == messages[..k - 1];
    if i < k - 1 { UsedGrows(messages, i, k - 1); }
  }

  lemma NextMessage(messages: seq<Message>, k: nat)
    requires OrphanFree(messages) && k < |messages|
    ensures OpenCalls(messages[..k + 1]) == OpenAfter(OpenCalls(messages[..k]), messages[k])
    ensures UseIds(messages[k]) !! Used(messages[..k]) && ResultIds(messages[k]) <= OpenCalls(messages[..k])
  {
    OrphanFreePrefix(messages, k + 1);
    assert messages[..k + 1][..k] == messages[..k];
  }

  /** A call closed before the cut is never open again. */
  lemma {:induction false} ClosedStaysClosed(messages: seq<Message>, id: string, i: nat, cut: nat, k: nat)
    requires OrphanFree(messages) && i < cut <= k <= |messages|
    requires id in UseIds(messages[i]) && id !in OpenCalls(messages[..cut])
    ensures id !in OpenCalls(messages[..k])
    decreases k
  {
    if k > cut {
      var last := k - 1;
      ClosedStaysClosed(messages, id, i, cut, last);
      NextMessage(messages, last);
      assert id !in UseIds(messages[last]) by { UsedGrows(messages, i, last); }
      assert id !in OpenAfter(OpenCalls(messages[..last]), messages[last]);
    }
  }

  /** Where no call is open, cutting separates no call from its result. */
  lemma NothingOpenNothingSplit(messages: seq<Message>, cut: nat)
    requires OrphanFree(messages) && cut <= |messages| && OpenCalls(messages[..cut]) == {}
    ensures !Splits(messages, cut)
  {
    forall i, j, id | 0 <= i < cut <= j < |messages| && id in UseIds(messages[i])
      ensures id !in ResultIds(messages[j])
    {
      ClosedStaysClosed(messages, id, i, cut, j);
      NextMessage(messages, j);
    }
  }
}
