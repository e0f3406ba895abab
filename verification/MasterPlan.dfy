/** The plan as the runtime holds it: a list of nodes changed in place. Every method is
    tied to the operation on values that says what it does. */
module MasterPlan {
  import opened Options
  import opened PlanGraph
  import opened PlanValidator
  import opened PlanOperations
  import opened PlanProgress
  import opened NodeIds

  class PlanNode {
    const id: string
    const title: string
    var status: Status
    var dependsOn: seq<string>
    var blockedBy: seq<string>
    var evidence: Option<string>
    var reactCount: nat
    const steps: nat
    const packet: Option<Packet>

    function State(): NodeState
      reads this
    {
      NodeState(id, title, status, dependsOn, blockedBy, evidence, reactCount, steps, packet)
    }

    constructor (state: NodeState)
      ensures State() == state
    {
      id, title, status, dependsOn, blockedBy := state.id, state.title, state.status, state.dependsOn, state.blockedBy;
      evidence, reactCount, steps, packet := state.evidence, state.reactCount, state.steps, state.packet;
    }
  }

  function StatesOf(nodes: seq<PlanNode>): seq<NodeState>
    reads nodes
  {
    seq(|nodes|, i requires 0 <= i < |nodes| reads nodes => nodes[i].State())
  }

  class MasterPlan {
    var nodes: seq<PlanNode>
    var current: string
    /** Whether the last validation was clean. */
    var clean: bool

    ghost predicate Distinct()
      reads `nodes
    {
      forall i, j :: 0 <= i < j < |nodes| ==> nodes[i] != nodes[j]
    }

    function View(): Plan
      reads this, nodes
    {
      Plan(StatesOf(nodes), current)
    }

    /** The last validation is never out of date. */
    ghost predicate Valid()
      reads this, nodes
    {
      Distinct() && (clean <==> Executable(StatesOf(nodes)))
    }

    method Find(id: string) returns (i: int)
      ensures i == PlanGraph.Find(StatesOf(nodes), id)
    {
      i := 0;
      while i < |nodes|
        invariant 0 <= i <= |nodes| && forall j :: 0 <= j < i ==> nodes[j].id != id
      {
        if nodes[i].id == id { break; }
        i := i + 1;
      }
      ghost var states := StatesOf(nodes);
      assert forall j :: 0 <= j < |nodes| ==> states[j].id == nodes[j].id;
      if i == |nodes| { i := -1; }
    }

    method FirstPending() returns (i: int)
      ensures i == PlanOperations.FirstPending(StatesOf(nodes))
    {
      i := 0;
      while i < |nodes|
        invariant 0 <= i <= |nodes| && forall j :: 0 <= j < i ==> !nodes[j].status.Pending?
      {
        if nodes[i].status.Pending? { break; }
        i := i + 1;
      }
      ghost var states := StatesOf(nodes);
      assert forall j :: 0 <= j < |nodes| ==> states[j].status == nodes[j].status;
      if i == |nodes| { i := -1; }
    }

    /** Runs the validator over the plan as it stands. */
    method RefreshPlanValidation()
      requires Distinct()
      modifies this`clean
      ensures Valid()
    {
      var report, _ := ValidatePlan(StatesOf(nodes));
      clean := report.isClean;
    }

    constructor (titles: seq<string>, outlines: seq<Outline>)
      requires |titles| == |outlines|
      ensures Valid() && fresh(nodes) && View() == Created(titles, outlines)
    {
      nodes, current, clean := [], "1", false;
      new;
      ghost var all := Created(titles, outlines).nodes;
      var k := 0;
      while k < |titles|
        invariant k <= |titles| && current == "1" && Distinct() && fresh(nodes) && StatesOf(nodes) == all[..k]
      {
        Append(NewNode(StringOf(k + 1), titles[k], if k == 0 then Active else Pending, [], outlines[k]));
        k := k + 1;
      }
      RefreshPlanValidation();
    }

    method Append(state: NodeState)
      requires Distinct()
      modifies this`nodes
      ensures Distinct() && StatesOf(nodes) == old(StatesOf(nodes)) + [state]
      ensures |nodes| == |old(nodes)| + 1 && nodes[..|old(nodes)|] == old(nodes) && fresh(nodes[|old(nodes)|])
    {
      var node := new PlanNode(state);
      nodes := nodes + [node];
    }

    /** One field of one node at a time. */
    method SetStatus(node: PlanNode, status: Status, ghost i: nat)
      requires i < |nodes| && node == nodes[i] && Distinct()
      modifies node`status
      ensures StatesOf(nodes) == WithStatus(old(StatesOf(nodes)), i, status)
    {
      node.status := status;
    }

    method DependenciesMet(i: nat) returns (met: bool)
      requires i < |nodes|
      ensures met <==> forall d :: d in nodes[i].dependsOn ==> Met(StatesOf(nodes), d)
    {
      var node, k := nodes[i], 0;
      while k < |node.dependsOn|
        invariant k <= |node.dependsOn| && forall j :: 0 <= j < k ==> Met(StatesOf(nodes), node.dependsOn[j])
      {
        var d := Find(node.dependsOn[k]);
        if d >= 0 && !Settled(nodes[d].State()) {
          assert node.dependsOn[k] in node.dependsOn && !Met(StatesOf(nodes), node.dependsOn[k]);
          return false;
        }
        k := k + 1;
      }
      return true;
    }

    /** The current node makes way for another one. */
    method Demote(id: string)
      requires Distinct()
      modifies nodes
      ensures StatesOf(nodes) == Demoted(old(View()), id)
    {
      var prev := Find(current);
      if prev >= 0 && nodes[prev].id != id {
        if nodes[prev].status.Active? { SetStatus(nodes[prev], Pending, prev); }
      }
    }

    /** Null when the node is missing, settled, or waits for another one. */
    method ActivateNode(id: string) returns (activated: PlanNode?)
      requires Valid()
      modifies this`current, nodes
      ensures Valid() && View() == Activate(old(View()), id)
      ensures var was := old(StatesOf(nodes));
              activated == if Accepts(was, id) then nodes[PlanGraph.Find(was, id)] else null
    {
      ActivateKeepsVerdict(View(), id);
      activated := Activated(id);
    }

    /** Activation as such; the validation is not looked at. */
    method Activated(id: string) returns (activated: PlanNode?)
      requires Distinct()
      modifies this`current, nodes
      ensures View() == Activate(old(View()), id)
      ensures var was := old(StatesOf(nodes));
              activated == if Accepts(was, id) then nodes[PlanGraph.Find(was, id)] else null
    {
      ghost var before := View();
      var i := Find(id);
      if i < 0 || Settled(nodes[i].State()) { return null; }
      assert DependenciesOf(before.nodes, id) == nodes[i].dependsOn;
      var met := DependenciesMet(i);
      if !met { return null; }
      Demote(id);
      SetStatus(nodes[i], Active, i);
      current := id;
      return nodes[i];
    }

    /** After the current node is gone, the first pending one is tried; when it cannot be
        activated, `current` goes on naming the node that is gone. */
    method MoveOn(goneId: string)
      requires Distinct()
      modifies this`current, nodes
      ensures View() == MovedOn(old(View()), goneId)
    {
      if current == goneId {
        var next := FirstPending();
        if next >= 0 {
          var _ := Activated(nodes[next].id);
        } else {
          current := "";
        }
      }
    }

    method InsertAt(k: nat, node: PlanNode)
      requires Distinct() && k <= |nodes| && node !in nodes
      modifies this`nodes
      ensures Distinct() && nodes == old(nodes)[..k] + [node] + old(nodes)[k..]
      ensures StatesOf(nodes) == Inserted(old(StatesOf(nodes)), k, node.State())
    {
      nodes := nodes[..k] + [node] + nodes[k..];
    }

    method RemoveAt(i: nat)
      requires Distinct() && i < |nodes|
      modifies this`nodes
      ensures Distinct() && nodes == old(nodes)[..i] + old(nodes)[i + 1..]
      ensures StatesOf(nodes) == old(StatesOf(nodes))[..i] + old(StatesOf(nodes))[i + 1..]
    {
      nodes := nodes[..i] + nodes[i + 1..];
    }

    method AddNode(title: string, dependsOn: seq<string>, afterId: string, outline: Outline) returns (node: PlanNode)
      requires Valid()
      modifies this`nodes, this`clean
      ensures Valid() && fresh(node) && node in nodes && View() == Add(old(View()), title, dependsOn, afterId, outline)
    {
      node := Placed(title, dependsOn, afterId, outline);
      RefreshPlanValidation();
    }

    method Placed(title: string, dependsOn: seq<string>, afterId: string, outline: Outline) returns (node: PlanNode)
      requires Distinct()
      modifies this`nodes
      ensures Distinct() && fresh(node) && node in nodes
              && View() == Add(old(View()), title, dependsOn, afterId, outline)
    {
      node := new PlanNode(NewNode(NextNodeId(StatesOf(nodes)), title, Pending, dependsOn, outline));
      PutAfter(node, afterId);
    }

    method PutAfter(node: PlanNode, afterId: string)
      requires Distinct() && node !in nodes
      modifies this`nodes
      ensures Distinct() && node in nodes && View() == Place(old(View()), node.State(), afterId)
    {
      var k := PositionAfter(afterId);
      InsertAt(k, node);
    }

    method PositionAfter(afterId: string) returns (k: nat)
      ensures k == PlaceAfter(StatesOf(nodes), afterId) <= |nodes|
    {
      var i := -1;
      if afterId != "" { i := Find(afterId); }
      k := if 0 <= i < |nodes| - 1 then i + 1 else |nodes|;
    }

    method RemoveNode(id: string) returns (removed: bool)
      requires Valid()
      modifies this, nodes
      ensures Valid() && (View(), removed) == Remove(old(View()), id)
    {
      removed := TakeOut(id);
      if removed { RefreshPlanValidation(); }
    }

    method TakeOut(id: string) returns (removed: bool)
      requires Distinct()
      modifies this`nodes, this`current, nodes
      ensures Distinct() && (View(), removed) == Remove(old(View()), id) && (!removed ==> View() == old(View()))
    {
      var i := Find(id);
      ghost var was := View();
      assert i >= 0 ==> nodes[i].status == was.nodes[i].status;
      if i < 0 || nodes[i].status.Done? { return false; }
      TakeOutAt(i, id);
      RemovedAt(was, id, i, View());
      return true;
    }

    static lemma RemovedAt(was: Plan, id: string, i: nat, after: Plan)
      requires i == PlanGraph.Find(was.nodes, id) && !was.nodes[i].status.Done?
      requires after == MovedOn(was.(nodes := was.nodes[..i] + was.nodes[i + 1..]), id)
      ensures Remove(was, id) == (after, true)
    {
    }

    method TakeOutAt(i: nat, id: string)
      requires Distinct() && i < |nodes|
      modifies this`nodes, this`current, nodes
      ensures Distinct()
      ensures var was := old(View()); View() == MovedOn(was.(nodes := was.nodes[..i] + was.nodes[i + 1..]), id)
    {
      RemoveAt(i);
      MoveOn(id);
    }

    method SkipNode(id: string, reason: string) returns (skipped: bool)
      requires Valid()
      modifies this`current, this`clean, nodes
      ensures Valid() && (View(), skipped) == Skip(old(View()), id, reason)
    {
      skipped := PassOver(id, reason);
      if skipped { RefreshPlanValidation(); }
    }

    method PassOver(id: string, reason: string) returns (skipped: bool)
      requires Distinct()
      modifies this`current, nodes
      ensures (View(), skipped) == Skip(old(View()), id, reason) && (!skipped ==> View() == old(View()))
    {
      var i := Find(id);
      if i < 0 || nodes[i].status.Done? { return false; }
      SetOutcome(nodes[i], PlanGraph.Skipped, Some(reason), i);
      MoveOn(id);
      return true;
    }

    method SetOutcome(node: PlanNode, status: Status, evidence: Option<string>, ghost i: nat)
      requires i < |nodes| && node == nodes[i] && Distinct()
      modifies node`status, node`evidence
      ensures var was := old(StatesOf(nodes));
              StatesOf(nodes) == was[i := was[i].(status := status, evidence := evidence)]
    {
      node.status, node.evidence := status, evidence;
    }

    method MarkNodeDone(id: string, evidence: Option<string>)
      requires Valid()
      modifies nodes
      ensures Valid() && View() == Mark(old(View()), id, Done, evidence)
    {
      ghost var before := StatesOf(nodes);
      var i := Find(id);
      if i >= 0 {
        SetOutcome(nodes[i], Done, evidence, i);
        SameShapeSameVerdict(before, StatesOf(nodes));
      }
    }

    method MarkNodeBlocked(id: string, reason: string)
      requires Valid()
      modifies nodes
      ensures Valid() && View() == Mark(old(View()), id, Blocked, Some(reason))
    {
      ghost var before := StatesOf(nodes);
      var i := Find(id);
      if i >= 0 {
        SetOutcome(nodes[i], Blocked, Some(reason), i);
        SameShapeSameVerdict(before, StatesOf(nodes));
      }
    }

    method PlanComplete() returns (complete: bool)
      ensures complete <==> Complete(StatesOf(nodes))
    {
      ghost var states := StatesOf(nodes);
      var k := 0;
      while k < |nodes|
        invariant k <= |nodes| && forall j :: 0 <= j < k ==> Settled(states[j])
      {
        if !Settled(nodes[k].State()) {
          assert states[k] in states;
          return false;
        }
        k := k + 1;
      }
      return true;
    }

    method BuildNodeReviewGate() returns (resume: bool, remaining: nat)
      requires Valid()
      modifies this`current, nodes
      ensures Valid() && (View(), resume, remaining) == ReviewGate(old(View()))
    {
      remaining := |Waiting(StatesOf(nodes))|;
      var next := FirstPending();
      var complete := PlanComplete();
      if complete { return true, 0; }
      if next >= 0 {
        var _ := ActivateNode(nodes[next].id);
        return true, remaining;
      }
      return false, remaining;
    }

    /** A dependency edge recorded at both ends. */
    method BlockTask(fromId: string, toId: string)
      requires Valid()
      modifies this`clean, nodes
      ensures Valid() && View() == Link(old(View()), fromId, toId)
    {
      var linked := LinkTasks(fromId, toId);
      if linked { RefreshPlanValidation(); }
    }

    method LinkTasks(fromId: string, toId: string) returns (linked: bool)
      requires Distinct()
      modifies nodes
      ensures View() == Link(old(View()), fromId, toId) && (!linked ==> View() == old(View()))
    {
      var i := Find(fromId);
      var j := Find(toId);
      if i < 0 || j < 0 { return false; }
      Linked(nodes[i], nodes[j], i, j);
      return true;
    }

    method Linked(blocker: PlanNode, waiting: PlanNode, ghost i: nat, ghost j: nat)
      requires Distinct() && i < |nodes| && j < |nodes| && blocker == nodes[i] && waiting == nodes[j]
      modifies blocker`blockedBy, waiting`dependsOn
      ensures var was := old(StatesOf(nodes));
              var half := was[i := was[i].(blockedBy := Adjoined(was[i].blockedBy, waiting.id))];
              StatesOf(nodes) == half[j := half[j].(dependsOn := Adjoined(half[j].dependsOn, blocker.id))]
    {
      SetBlockedBy(blocker, Adjoined(blocker.blockedBy, waiting.id), i);
      SetDependsOn(waiting, Adjoined(waiting.dependsOn, blocker.id), j);
    }

    method SetBlockedBy(node: PlanNode, blockedBy: seq<string>, ghost i: nat)
      requires i < |nodes| && node == nodes[i] && Distinct()
      modifies node`blockedBy
      ensures StatesOf(nodes) == old(StatesOf(nodes))[i := old(StatesOf(nodes))[i].(blockedBy := blockedBy)]
    {
      node.blockedBy := blockedBy;
    }

    method SetDependsOn(node: PlanNode, dependsOn: seq<string>, ghost i: nat)
      requires i < |nodes| && node == nodes[i] && Distinct()
      modifies node`dependsOn
      ensures StatesOf(nodes) == old(StatesOf(nodes))[i := old(StatesOf(nodes))[i].(dependsOn := dependsOn)]
    {
      node.dependsOn := dependsOn;
    }

    method DoneIds() returns (ids: set<string>)
      ensures forall d :: d in ids <==> exists m :: m in StatesOf(nodes) && m.id == d && Settled(m)
    {
      ghost var states := StatesOf(nodes);
      ids := {};
      var k := 0;
      while k < |nodes|
        invariant k <= |nodes| && forall d :: d in ids <==> exists m :: m in states[..k] && m.id == d && Settled(m)
      {
        assert states[..k + 1] == states[..k] + [states[k]];
        if Settled(nodes[k].State()) { ids := ids + {nodes[k].id}; }
        k := k + 1;
      }
      assert states[..k] == states;
    }

    /** The blocked nodes whose dependencies are all settled nodes of the plan. */
    method FindUnblockedNodes() returns (unblocked: seq<PlanNode>)
      ensures forall n :: n in unblocked <==> n in nodes && Releasable(StatesOf(nodes), n.State())
      ensures |unblocked| == |Where(StatesOf(nodes), ReleaseTest(StatesOf(nodes)))|
    {
      var doneIds := DoneIds();
      unblocked := BlockedOnlyBy(doneIds, ReleaseTest(StatesOf(nodes)));
      assert forall n: PlanNode :: ReleaseTest(StatesOf(nodes))(n.State()) == Releasable(StatesOf(nodes), n.State());
    }

    method BlockedOnlyBy(doneIds: set<string>, ghost test: NodeState -> bool) returns (found: seq<PlanNode>)
      requires forall n: NodeState :: test(n) <==> n.status.Blocked? && forall d :: d in n.dependsOn ==> d in doneIds
      ensures forall n :: n in found <==> n in nodes && test(n.State())
      ensures |found| == |Where(StatesOf(nodes), test)|
    {
      ghost var states := StatesOf(nodes);
      found := [];
      var k := 0;
      while k < |nodes|
        invariant k <= |nodes| && forall n :: n in found <==> n in nodes[..k] && test(n.State())
        invariant |found| == |Where(states[..k], test)|
      {
        assert nodes[..k + 1] == nodes[..k] + [nodes[k]];
        WhereNext(states, test, k);
        if nodes[k].status.Blocked? && forall d :: d in nodes[k].dependsOn ==> d in doneIds {
          found := found + [nodes[k]];
        }
        k := k + 1;
      }
      assert nodes[..k] == nodes && states[..k] == states;
    }

    method AutoUnblockByRipple() returns (count: nat)
      requires Valid()
      modifies nodes
      ensures Valid() && View() == old(View()).(nodes := Released(old(StatesOf(nodes))))
      ensures count == |Where(old(StatesOf(nodes)), ReleaseTest(old(StatesOf(nodes))))|
    {
      ReleasedKeepsVerdict(StatesOf(nodes));
      var unblocked := FindUnblockedNodes();
      Ripple(unblocked);
      return |unblocked|;
    }

    method Ripple(unblocked: seq<PlanNode>)
      requires forall n :: n in unblocked <==> n in nodes && Releasable(StatesOf(nodes), n.State())
      modifies nodes
      ensures StatesOf(nodes) == Released(old(StatesOf(nodes)))
    {
      RippleThrough(unblocked);
    }

    method RippleThrough(unblocked: seq<PlanNode>)
      requires forall n :: n in unblocked ==> n in nodes
      modifies nodes
      ensures forall i :: 0 <= i < |nodes| ==>
                nodes[i].State()
                == if nodes[i] in unblocked then Rippled(old(nodes[i].State())) else old(nodes[i].State())
    {
      var k := 0;
      while k < |unblocked|
        invariant k <= |unblocked|
        invariant forall i :: 0 <= i < |nodes| ==>
                    nodes[i].State()
                    == if nodes[i] in unblocked[..k] then Rippled(old(nodes[i].State())) else old(nodes[i].State())
      {
        var node := unblocked[k];
        assert unblocked[..k + 1] == unblocked[..k] + [node] && node in unblocked;
        node.status, node.evidence, node.reactCount := Pending, Some(RIPPLED), 0;
        k := k + 1;
      }
      assert unblocked[..k] == unblocked;
    }

    /** A plan of new nodes in the given states, with nothing current. */
    constructor OfStates(states: seq<NodeState>)
      ensures Distinct() && fresh(nodes) && View() == Plan(states, "")
    {
      nodes, current, clean := [], "", false;
      new;
      var k := 0;
      while k < |states|
        invariant k <= |states| && current == "" && Distinct() && fresh(nodes) && StatesOf(nodes) == states[..k]
      {
        Append(states[k]);
        k := k + 1;
      }
    }

    /** Replanning. The plan at hand is left alone; the new one shares no node with it. */
    method RevisePlan(answer: Option<seq<Proposal>>, outline: string -> Outline)
      returns (plan: MasterPlan, frozenNodes: nat, newNodes: nat, changed: bool)
      requires Valid()
      ensures plan.Valid() && (plan.View(), changed) == Revise(View(), answer, outline)
      ensures if changed then fresh(plan) && fresh(plan.nodes) else plan == this
      ensures frozenNodes == |Frozen(StatesOf(nodes))| && newNodes == if changed then |Usable(answer.value)| else 0
    {
      var frozen := Frozen(StatesOf(nodes));
      frozenNodes := |frozen|;
      if frozenNodes == |nodes| || answer.None? || answer.value == [] { return this, frozenNodes, 0, false; }
      var added := Newcomers(frozen, answer.value, outline);
      plan := Rebuilt(frozen, added);
      return plan, frozenNodes, |added|, true;
    }

    static method Rebuilt(frozen: seq<NodeState>, added: seq<NodeState>) returns (plan: MasterPlan)
      requires forall n :: n in frozen ==> Settled(n)
      requires forall i :: 0 <= i < |added| ==> added[i].status == if i == 0 then Active else Pending
      ensures fresh(plan) && fresh(plan.nodes) && plan.Valid()
      ensures plan.View() == Plan(frozen + added, if added == [] then "" else added[0].id)
    {
      plan := new MasterPlan.OfStates(frozen + AllPending(added));
      plan.StartFirst();
      FirstNewcomer(frozen, added);
      if added != [] { FirstStarted(frozen, added); } else { assert frozen + AllPending(added) == frozen + added; }
      plan.RefreshPlanValidation();
    }

    /** The first pending node becomes the active and current one, without a look at what
        it depends on. */
    method StartFirst()
      requires Distinct()
      modifies this`current, nodes
      ensures var first, was := PlanOperations.FirstPending(old(StatesOf(nodes))), old(View());
              View() == if first >= 0 then Plan(WithStatus(was.nodes, first, Active), was.nodes[first].id) else was
    {
      var first := FirstPending();
      if first >= 0 {
        SetStatus(nodes[first], Active, first);
        current := nodes[first].id;
      }
    }
  }

  function AllPending(added: seq<NodeState>): seq<NodeState> {
    seq(|added|, i requires 0 <= i < |added| => added[i].(status := Pending))
  }

  lemma FirstNewcomer(frozen: seq<NodeState>, added: seq<NodeState>)
    requires forall n :: n in frozen ==> Settled(n)
    ensures PlanOperations.FirstPending(frozen + AllPending(added)) == if added == [] then -1 else |frozen|
  {
    var all := frozen + AllPending(added);
    forall i | 0 <= i < |frozen| ensures !all[i].status.Pending? {
      assert frozen[i] in frozen;
    }
    if added == [] {
      assert all == frozen;
    } else {
      assert all[|frozen|] == AllPending(added)[0];
    }
  }

  lemma FirstStarted(frozen: seq<NodeState>, added: seq<NodeState>)
    requires added != [] && forall i :: 0 <= i < |added| ==> added[i].status == if i == 0 then Active else Pending
    ensures WithStatus(frozen + AllPending(added), |frozen|, Active) == frozen + added
  {
    var all := frozen + AllPending(added);
    forall i | 0 <= i < |added| ensures all[|frozen| + i] == added[i].(status := Pending) {
    }
    assert all[|frozen|].(status := Active) == added[0];
    forall i | 0 < i < |added| ensures added[i].(status := Pending) == added[i] {
    }
    assert WithStatus(all, |frozen|, Active)[..|frozen|] == frozen;
    assert WithStatus(all, |frozen|, Active)[|frozen|..] == added;
  }

  lemma SameShapeSameVerdict(a: seq<NodeState>, b: seq<NodeState>)
    requires SameShape(a, b)
    ensures Executable(a) <==> Executable(b)
  {
    if Executable(a) { ExecutableSameShape(a, b); }
    if Executable(b) { ExecutableSameShape(b, a); }
  }

  lemma ReleasedKeepsVerdict(nodes: seq<NodeState>)
    ensures Executable(nodes) <==> Executable(Released(nodes))
  {
    SameShapeSameVerdict(nodes, Released(nodes));
  }

  lemma ActivateKeepsVerdict(p: Plan, id: string)
    ensures Executable(p.nodes) <==> Executable(Activate(p, id).nodes)
  {
    ActivateKeepsShape(p, id);
    SameShapeSameVerdict(p.nodes, Activate(p, id).nodes);
  }
}
