/** A plan as a list of nodes that depend on one another by id, and what it means for
    the dependencies to be free of cycles. */
module PlanGraph {
  import opened Options

  datatype Status = Pending | Active | Blocked | Done | Skipped

  /** One flag for each verification requirement: whether its kind is given. */
  datatype Packet = Packet(kindGiven: seq<bool>)

  /** `steps` counts the steps of the node's tracker, 0 also when there is no tracker. */
  datatype NodeState = NodeState(id: string, title: string, status: Status, dependsOn: seq<string>,
                                 blockedBy: seq<string>, evidence: Option<string>, reactCount: nat, steps: nat,
                                 packet: Option<Packet>)

  predicate Settled(n: NodeState) { n.status.Done? || n.status.Skipped? }

  /** The first node of that id, or -1. */
  function Find(nodes: seq<NodeState>, id: string): (i: int)
    ensures -1 <= i < |nodes|
    ensures i >= 0 ==> nodes[i].id == id && forall j :: 0 <= j < i ==> nodes[j].id != id
    ensures i < 0 ==> forall j :: 0 <= j < |nodes| ==> nodes[j].id != id
    decreases |nodes|
  {
    if nodes == [] then -1
    else
      var n := |nodes| - 1;
      var i := Find(nodes[..n], id);
      if i < 0 && nodes[n].id == id then n else i
  }

  predicate Known(nodes: seq<NodeState>, id: string) { Find(nodes, id) >= 0 }

  function DependenciesOf(nodes: seq<NodeState>, id: string): seq<string> {
    if Known(nodes, id) then nodes[Find(nodes, id)].dependsOn else []
  }

  predicate UniqueIds(nodes: seq<NodeState>) {
    forall i, j :: 0 <= i < j < |nodes| ==> nodes[i].id != nodes[j].id
  }

  predicate NothingDangles(nodes: seq<NodeState>) {
    forall n, d :: n in nodes && d in n.dependsOn ==> Known(nodes, d)
  }

  // ----- walks along dependencies -----

  predicate Edge(nodes: seq<NodeState>, a: string, b: string) {
    Known(nodes, b) && b in DependenciesOf(nodes, a)
  }

  predicate Walk(nodes: seq<NodeState>, w: seq<string>) {
    forall i :: 0 <= i < |w| - 1 ==> Edge(nodes, w[i], w[i + 1])
  }

  predicate ClosedWalk(nodes: seq<NodeState>, w: seq<string>) {
    |w| >= 2 && w[0] == w[|w| - 1] && Walk(nodes, w)
  }

  ghost predicate Acyclic(nodes: seq<NodeState>) {
    forall w :: !ClosedWalk(nodes, w)
  }

  predicate NoRepeats(s: seq<string>) {
    forall i, j :: 0 <= i < j < |s| ==> s[i] != s[j]
  }

  /** Everything a listed node depends on is listed before it. */
  ghost predicate DependenciesFirst(nodes: seq<NodeState>, order: seq<string>) {
    forall k, d :: 0 <= k < |order| && Edge(nodes, order[k], d) ==> d in order[..k]
  }

  ghost predicate TopologicalOrder(nodes: seq<NodeState>, order: seq<string>) {
    && NoRepeats(order) && DependenciesFirst(nodes, order)
    && forall id :: Known(nodes, id) <==> id in order
  }

  /** A walk leads strictly backwards through a topological order. */
  lemma {:induction false} WalkDescends(nodes: seq<NodeState>, order: seq<string>, w: seq<string>, k: nat)
    returns (j: nat)
    requires DependenciesFirst(nodes, order) && Walk(nodes, w) && |w| >= 2 && k < |order| && w[0] == order[k]
    ensures j < k && order[j] == w[|w| - 1]
    decreases |w|
  {
    assert Edge(nodes, order[k], w[1]);
    j :| 0 <= j < k && order[j] == w[1];
    if |w| > 2 {
      j := WalkDescends(nodes, order, w[1..], j);
    }
  }

  lemma OrderedMeansAcyclic(nodes: seq<NodeState>, order: seq<string>)
    requires TopologicalOrder(nodes, order)
    ensures Acyclic(nodes)
  {
    forall w ensures !ClosedWalk(nodes, w) {
      if ClosedWalk(nodes, w) {
        assert Edge(nodes, w[0], w[1]);
        var k :| 0 <= k < |order| && order[k] == w[0];
        var j := WalkDescends(nodes, order, w, k);
      }
    }
  }
}
