/** Why a plan without cycles can always be driven to completion, and where the review
    gate can nevertheless stand still. */
module PlanProgress {
  import opened Options
  import opened PlanGraph
  import opened PlanValidator
  import opened PlanOperations

  // ----- what statuses have no influence on -----

  /** Equal but for statuses, evidence and counters. */
  predicate SameShape(a: seq<NodeState>, b: seq<NodeState>) {
    && |a| == |b|
    && forall i :: 0 <= i < |a| ==>
         a[i].id == b[i].id && a[i].dependsOn == b[i].dependsOn && a[i].steps == b[i].steps
         && a[i].packet == b[i].packet
  }

  lemma {:induction false} FindSameShape(a: seq<NodeState>, b: seq<NodeState>, id: string)
    requires SameShape(a, b)
    ensures Find(a, id) == Find(b, id) && DependenciesOf(a, id) == DependenciesOf(b, id)
    decreases |a|
  {
    if a != [] { FindSameShape(a[..|a| - 1], b[..|b| - 1], id); }
  }

  lemma AcyclicSameShape(a: seq<NodeState>, b: seq<NodeState>)
    requires SameShape(a, b) && Acyclic(a)
    ensures Acyclic(b)
  {
    forall w ensures !ClosedWalk(b, w) {
      forall i | 0 <= i < |w| - 1 ensures Edge(b, w[i], w[i + 1]) ==> Edge(a, w[i], w[i + 1]) {
        FindSameShape(a, b, w[i]);
        FindSameShape(a, b, w[i + 1]);
      }
      assert !ClosedWalk(a, w);
    }
  }

  /** Changing statuses never spoils a clean plan. */
  lemma ExecutableSameShape(a: seq<NodeState>, b: seq<NodeState>)
    requires SameShape(a, b) && Executable(a)
    ensures Executable(b)
  {
    AcyclicSameShape(a, b);
    forall n | n in b
      ensures exists m :: m in a && m.dependsOn == n.dependsOn && m.steps == n.steps && m.packet == n.packet
    {
      var i :| 0 <= i < |b| && b[i] == n;
      assert a[i] in a;
    }
    forall n, d | n in b && d in n.dependsOn ensures Known(b, d) {
      FindSameShape(a, b, d);
    }
  }

  // ----- a node that can be activated -----

  /** Every unsettled node waits for another one. */
  ghost predicate Deadlocked(nodes: seq<NodeState>) {
    !Complete(nodes) && forall id :: !Accepts(nodes, id)
  }

  ghost predicate Open(nodes: seq<NodeState>, id: string) {
    Known(nodes, id) && !Settled(nodes[Find(nodes, id)])
  }

  lemma {:induction false} LongWalk(nodes: seq<NodeState>, length: nat) returns (w: seq<string>)
    requires UniqueIds(nodes) && Deadlocked(nodes)
    ensures |w| == length + 1 && Walk(nodes, w) && forall i :: 0 <= i < |w| ==> Open(nodes, w[i])
  {
    if length == 0 {
      var n :| n in nodes && !Settled(n);
      var i :| 0 <= i < |nodes| && nodes[i] == n;
      assert Find(nodes, n.id) == i;
      w := [n.id];
    } else {
      var shorter := LongWalk(nodes, length - 1);
      var last := shorter[length - 1];
      assert Open(nodes, last) && !Accepts(nodes, last);
      var d :| d in DependenciesOf(nodes, last) && !Met(nodes, d);
      assert Edge(nodes, last, d);
      w := shorter + [d];
    }
  }

  /** More ids than there are nodes cannot all be different. */
  lemma {:induction false} Pigeonhole(w: seq<string>, ids: set<string>) returns (i: nat, j: nat)
    requires |w| > |ids| && forall k :: 0 <= k < |w| ==> w[k] in ids
    ensures i < j < |w| && w[i] == w[j]
    decreases |w|
  {
    var n := |w| - 1;
    if k :| 0 <= k < n && w[k] == w[n] {
      i, j := k, n;
    } else {
      i, j := Pigeonhole(w[..n], ids - {w[n]});
    }
  }

  lemma {:induction false} FewIds(nodes: seq<NodeState>)
    ensures |IdsOf(nodes)| <= |nodes|
  {
    RepeatsAreTheSurplus(nodes);
  }

  /** With no cycle, while anything is unsettled some node can be activated. */
  lemma AcyclicNeverDeadlocks(nodes: seq<NodeState>) returns (id: string)
    requires UniqueIds(nodes) && Acyclic(nodes) && !Complete(nodes)
    ensures Accepts(nodes, id)
  {
    if Deadlocked(nodes) {
      var w := LongWalk(nodes, |nodes|);
      FewIds(nodes);
      forall k | 0 <= k < |w| ensures w[k] in IdsOf(nodes) {
        assert Open(nodes, w[k]) && nodes[Find(nodes, w[k])] in nodes;
      }
      var i, j := Pigeonhole(w, IdsOf(nodes));
      var closed := w[i..j + 1];
      assert forall k :: 0 <= k < |closed| - 1 ==> Edge(nodes, closed[k], closed[k + 1]) by {
        forall k | 0 <= k < |closed| - 1 ensures Edge(nodes, closed[k], closed[k + 1]) {
          assert Edge(nodes, w[i + k], w[i + k + 1]);
        }
      }
      assert ClosedWalk(nodes, closed);
      assert false;
    }
    id :| Accepts(nodes, id);
  }

  // ----- driving a plan to completion -----

  function Unsettled(nodes: seq<NodeState>): nat
    decreases |nodes|
  {
    if nodes == [] then 0
    else Unsettled(nodes[..|nodes| - 1]) + if Settled(nodes[|nodes| - 1]) then 0 else 1
  }

  lemma {:induction false} NoneUnsettled(nodes: seq<NodeState>)
    ensures Unsettled(nodes) == 0 <==> Complete(nodes)
    decreases |nodes|
  {
    if nodes != [] {
      var k := |nodes| - 1;
      NoneUnsettled(nodes[..k]);
      assert nodes == nodes[..k] + [nodes[k]];
    }
  }

  lemma {:induction false} UnsettledAfter(nodes: seq<NodeState>, i: nat, n: NodeState)
    requires i < |nodes|
    ensures Unsettled(nodes[i := n])
         == Unsettled(nodes) - (if Settled(nodes[i]) then 0 else 1) + (if Settled(n) then 0 else 1)
    decreases |nodes|
  {
    var k := |nodes| - 1;
    if i < k {
      UnsettledAfter(nodes[..k], i, n);
      assert nodes[i := n][..k] == nodes[..k][i := n];
    } else {
      assert nodes[i := n][..k] == nodes[..k];
    }
  }

  /** One round: a node is activated, worked on and marked done. */
  function Round(p: Plan, id: string): Plan {
    Mark(Activate(p, id), id, Done, None)
  }

  lemma ActivateKeepsShape(p: Plan, id: string)
    ensures SameShape(p.nodes, Activate(p, id).nodes)
    ensures Unsettled(Activate(p, id).nodes) == Unsettled(p.nodes)
  {
    if Accepts(p.nodes, id) {
      var current, i := Find(p.nodes, p.current), Find(p.nodes, id);
      var demoted := Demoted(p, id);
      if demoted != p.nodes { UnsettledAfter(p.nodes, current, p.nodes[current].(status := Pending)); }
      FindSameShape(p.nodes, demoted, id);
      UnsettledAfter(demoted, i, demoted[i].(status := Active));
    }
  }

  lemma RoundSettlesOne(p: Plan, id: string)
    requires Accepts(p.nodes, id)
    ensures SameShape(p.nodes, Round(p, id).nodes) && Unsettled(Round(p, id).nodes) == Unsettled(p.nodes) - 1
  {
    var active := Activate(p, id);
    ActivateKeepsShape(p, id);
    FindSameShape(p.nodes, active.nodes, id);
    var i := Find(active.nodes, id);
    UnsettledAfter(active.nodes, i, active.nodes[i].(status := Done, evidence := None));
  }

  function Rounds(p: Plan, ids: seq<string>): Plan
    decreases |ids|
  {
    if ids == [] then p else Round(Rounds(p, ids[..|ids| - 1]), ids[|ids| - 1])
  }

  /** Each node was acceptable when its turn came. */
  predicate Accepted(p: Plan, ids: seq<string>)
    decreases |ids|
  {
    ids == [] || (Accepted(p, ids[..|ids| - 1]) && Accepts(Rounds(p, ids[..|ids| - 1]).nodes, ids[|ids| - 1]))
  }

  lemma {:induction false} RoundsSettle(p: Plan, ids: seq<string>)
    requires Accepted(p, ids)
    ensures SameShape(p.nodes, Rounds(p, ids).nodes) && Unsettled(Rounds(p, ids).nodes) + |ids| == Unsettled(p.nodes)
    decreases |ids|
  {
    if ids != [] {
      RoundsSettle(p, ids[..|ids| - 1]);
      RoundSettlesOne(Rounds(p, ids[..|ids| - 1]), ids[|ids| - 1]);
    }
  }

  lemma NextAccepted(nodes: seq<NodeState>, now: seq<NodeState>) returns (next: string)
    requires UniqueIds(nodes) && Acyclic(nodes) && SameShape(nodes, now) && !Complete(now)
    ensures Accepts(now, next)
  {
    AcyclicSameShape(nodes, now);
    next := AcyclicNeverDeadlocks(now);
  }

  lemma OneMoreAccepted(p: Plan, ids: seq<string>, next: string)
    requires Accepted(p, ids) && Accepts(Rounds(p, ids).nodes, next)
    ensures Accepted(p, ids + [next])
  {
    assert (ids + [next])[..|ids|] == ids;
  }

  /** Whatever acceptable nodes have been chosen so far, in whatever order: every round
      settled exactly one node, and unless the plan is complete there is a next one to
      choose. So every way of choosing completes the plan, in as many rounds as there were
      unsettled nodes. */
  lemma AnyOrderCompletes(p: Plan, ids: seq<string>) returns (next: string)
    requires UniqueIds(p.nodes) && Acyclic(p.nodes) && Accepted(p, ids)
    ensures Unsettled(Rounds(p, ids).nodes) + |ids| == Unsettled(p.nodes)
    ensures Complete(Rounds(p, ids).nodes) <==> |ids| == Unsettled(p.nodes)
    ensures !Complete(Rounds(p, ids).nodes) ==> Accepted(p, ids + [next])
  {
    RoundsSettle(p, ids);
    NoneUnsettled(Rounds(p, ids).nodes);
    next := "";
    if !Complete(Rounds(p, ids).nodes) {
      next := NextAccepted(p.nodes, Rounds(p, ids).nodes);
      OneMoreAccepted(p, ids, next);
    }
  }

  /** In particular a completing order exists. */
  lemma {:induction false} CompletingOrder(p: Plan, soFar: seq<string>) returns (ids: seq<string>)
    requires UniqueIds(p.nodes) && Acyclic(p.nodes) && Accepted(p, soFar)
    ensures soFar <= ids && Accepted(p, ids) && |ids| == Unsettled(p.nodes) && Complete(Rounds(p, ids).nodes)
    decreases Unsettled(p.nodes) - |soFar|
  {
    var next := AnyOrderCompletes(p, soFar);
    if Complete(Rounds(p, soFar).nodes) {
      ids := soFar;
    } else {
      var _ := AnyOrderCompletes(p, soFar + [next]);
      ids := CompletingOrder(p, soFar + [next]);
    }
  }

  // ----- the review gate -----

  /** Work goes on unless the unsettled nodes hold none that is pending; but a node has
      only been activated when the first pending one was acceptable. */
  lemma GateMovesExactlyWhen(p: Plan)
    requires !Complete(p.nodes) && UniqueIds(p.nodes)
    ensures var (after, resume, remaining) := ReviewGate(p);
            var i := FirstPending(p.nodes);
            && (resume <==> i >= 0)
            && (after != p <==> i >= 0 && Accepts(p.nodes, p.nodes[i].id))
  {
    var i := FirstPending(p.nodes);
    if i >= 0 && Accepts(p.nodes, p.nodes[i].id) {
      UniqueFind(p.nodes, i);
      assert Activate(p, p.nodes[i].id).nodes[i].status.Active?;
    }
  }

  lemma {:induction false} UniqueFind(nodes: seq<NodeState>, i: nat)
    requires UniqueIds(nodes) && i < |nodes|
    ensures Find(nodes, nodes[i].id) == i
  {
  }

  /** Two pending nodes, the first of which waits for the second. */
  ghost predicate LateBeforeEarly(nodes: seq<NodeState>) {
    && |nodes| == 2 && nodes[0].status.Pending? && nodes[1].status.Pending?
    && nodes[0].id == "1" && nodes[0].dependsOn == ["2"] && nodes[1].id == "2" && nodes[1].dependsOn == []
  }

  /** A clean plan, listed out of dependency order, on which the gate says go on for ever
      while nothing is active, though its second node could be activated. */
  lemma GateStandsStill(p: Plan)
    requires LateBeforeEarly(p.nodes) && Equipped(p.nodes)
    ensures Executable(p.nodes) && ReviewGate(p) == (p, true, 2) && Accepts(p.nodes, "2")
  {
    var nodes := p.nodes;
    assert nodes == [nodes[0], nodes[1]];
    assert Find(nodes, "2") == 1 && Find(nodes, "1") == 0;
    LateAfterEarly(nodes);
    assert FirstPending(nodes[..1]) == 0;
    assert nodes[0] in nodes && !Accepts(nodes, "1") by { assert "2" in nodes[0].dependsOn && !Met(nodes, "2"); }
    BothWait(nodes[0], nodes[1]);
  }

  lemma BothWait(first: NodeState, second: NodeState)
    requires first.status.Pending? && second.status.Pending?
    ensures |Waiting([first, second])| == 2
  {
    var nodes := [first, second];
    assert nodes[..1] == [first] && nodes[..1][..0] == [];
    assert Where(nodes[..1], (n: NodeState) => n.status.Pending? || n.status.Blocked?) == [first];
  }

  lemma LateAfterEarly(nodes: seq<NodeState>)
    requires |nodes| == 2 && nodes[0].id == "1" && nodes[0].dependsOn == ["2"]
    requires nodes[1].id == "2" && nodes[1].dependsOn == []
    ensures Acyclic(nodes) && NothingDangles(nodes)
  {
    var order := ["2", "1"];
    forall id ensures Known(nodes, id) <==> id in order {
      assert nodes[0].id == "1" && nodes[1].id == "2";
    }
    forall k, d | 0 <= k < 2 && Edge(nodes, order[k], d) ensures d in order[..k] {
      assert order[..1] == ["2"];
    }
    OrderedMeansAcyclic(nodes, order);
  }

  predicate InDependencyOrder(nodes: seq<NodeState>) {
    forall i, d :: 0 <= i < |nodes| && d in nodes[i].dependsOn && Known(nodes, d) ==> Find(nodes, d) < i
  }

  /** Listed in dependency order, with nothing active or blocked, the gate always finds
      the next node. */
  lemma GateNeverStandsStill(p: Plan)
    requires UniqueIds(p.nodes) && InDependencyOrder(p.nodes) && !Complete(p.nodes)
    requires forall n :: n in p.nodes ==> !n.status.Active? && !n.status.Blocked?
    ensures FirstPending(p.nodes) >= 0 && Accepts(p.nodes, p.nodes[FirstPending(p.nodes)].id)
  {
    var n :| n in p.nodes && !Settled(n);
    var i := FirstPending(p.nodes);
    UniqueFind(p.nodes, i);
    forall d | d in p.nodes[i].dependsOn ensures Met(p.nodes, d) {
      if Known(p.nodes, d) { assert p.nodes[Find(p.nodes, d)] in p.nodes; }
    }
  }

  // ----- releasing blocked nodes -----

  /** The ripple releases exactly those blocked nodes that could be activated and that
      depend on nothing missing. */
  lemma ReleasableExactlyWhen(nodes: seq<NodeState>, i: nat)
    requires UniqueIds(nodes) && i < |nodes| && nodes[i].status.Blocked?
    ensures Releasable(nodes, nodes[i])
            <==> Accepts(nodes, nodes[i].id) && forall d :: d in nodes[i].dependsOn ==> Known(nodes, d)
  {
    UniqueFind(nodes, i);
    forall d | d in nodes[i].dependsOn
      ensures (exists m :: m in nodes && m.id == d && Settled(m)) <==> Known(nodes, d) && Met(nodes, d)
    {
      if Known(nodes, d) && Met(nodes, d) {
        assert nodes[Find(nodes, d)] in nodes;
      }
      if m :| m in nodes && m.id == d && Settled(m) {
        var j :| 0 <= j < |nodes| && nodes[j] == m;
        UniqueFind(nodes, j);
      }
    }
  }
}
