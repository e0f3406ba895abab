/** What each operation on a plan does to its nodes and to the id of the current node. */
module PlanOperations {
  import opened Options
  import opened PlanGraph
  import opened NodeIds

  datatype Plan = Plan(nodes: seq<NodeState>, current: string)

  /** The tracker and packet derived from a title; how is not part of this model. */
  datatype Outline = Outline(steps: nat, packet: Option<Packet>)

  function NewNode(id: string, title: string, status: Status, dependsOn: seq<string>, outline: Outline): NodeState {
    NodeState(id, title, status, dependsOn, [], None, 0, outline.steps, outline.packet)
  }

  /** The nodes of a fresh plan: "1", "2", and so on, the first of them active. */
  function Created(titles: seq<string>, outlines: seq<Outline>): Plan
    requires |titles| == |outlines|
  {
    Plan(seq(|titles|, i requires 0 <= i < |titles| =>
               NewNode(StringOf(i + 1), titles[i], if i == 0 then Active else Pending, [], outlines[i])),
         "1")
  }

  // ----- activation -----

  predicate Complete(nodes: seq<NodeState>) {
    forall n :: n in nodes ==> Settled(n)
  }

  /** A dependency is met when its node is settled, or when there is no such node. */
  predicate Met(nodes: seq<NodeState>, id: string) {
    Known(nodes, id) ==> Settled(nodes[Find(nodes, id)])
  }

  predicate Accepts(nodes: seq<NodeState>, id: string) {
    && Known(nodes, id) && !Settled(nodes[Find(nodes, id)])
    && forall d :: d in DependenciesOf(nodes, id) ==> Met(nodes, d)
  }

  function WithStatus(nodes: seq<NodeState>, i: int, status: Status): seq<NodeState> {
    if 0 <= i < |nodes| then nodes[i := nodes[i].(status := status)] else nodes
  }

  /** The current node, if it is active and another one takes over, goes back to pending. */
  function Demoted(p: Plan, id: string): seq<NodeState> {
    var i := Find(p.nodes, p.current);
    if p.current != id && i >= 0 && p.nodes[i].status.Active? then WithStatus(p.nodes, i, Pending) else p.nodes
  }

  function Activate(p: Plan, id: string): Plan {
    if Accepts(p.nodes, id) then Plan(WithStatus(Demoted(p, id), Find(p.nodes, id), Active), id) else p
  }

  function FirstPending(nodes: seq<NodeState>): (i: int)
    ensures -1 <= i < |nodes|
    ensures i >= 0 ==> nodes[i].status.Pending? && forall j :: 0 <= j < i ==> !nodes[j].status.Pending?
    ensures i < 0 ==> forall j :: 0 <= j < |nodes| ==> !nodes[j].status.Pending?
    decreases |nodes|
  {
    if nodes == [] then -1
    else
      var n := |nodes| - 1;
      var i := FirstPending(nodes[..n]);
      if i < 0 && nodes[n].status.Pending? then n else i
  }

  /** After the current node is gone, the first pending one is tried. */
  function MovedOn(p: Plan, goneId: string): Plan {
    var i := FirstPending(p.nodes);
    if p.current != goneId then p
    else if i >= 0 then Activate(p, p.nodes[i].id)
    else p.(current := "")
  }

  // ----- the plan's other operations -----

  function NextNodeId(nodes: seq<NodeState>): string {
    var used := Numbers(IdList(nodes));
    if used == [] then StringOf(1) else StringOf(MaxOf(used) + 1)
  }

  function IdList(nodes: seq<NodeState>): seq<string> {
    seq(|nodes|, i requires 0 <= i < |nodes| => nodes[i].id)
  }

  /** `afterId` "" stands for no position, as an absent one does. */
  function Add(p: Plan, title: string, dependsOn: seq<string>, afterId: string, outline: Outline): Plan {
    Place(p, NewNode(NextNodeId(p.nodes), title, Pending, dependsOn, outline), afterId)
  }

  function Place(p: Plan, node: NodeState, afterId: string): Plan {
    p.(nodes := Inserted(p.nodes, PlaceAfter(p.nodes, afterId), node))
  }

  function PlaceAfter(nodes: seq<NodeState>, afterId: string): (k: nat)
    ensures k <= |nodes|
  {
    var i := if afterId == "" then -1 else Find(nodes, afterId);
    if 0 <= i < |nodes| - 1 then i + 1 else |nodes|
  }

  function Inserted(nodes: seq<NodeState>, k: nat, node: NodeState): seq<NodeState>
    requires k <= |nodes|
  {
    nodes[..k] + [node] + nodes[k..]
  }

  function Remove(p: Plan, id: string): (Plan, bool) {
    var i := Find(p.nodes, id);
    if i < 0 || p.nodes[i].status.Done? then (p, false)
    else (MovedOn(p.(nodes := p.nodes[..i] + p.nodes[i + 1..]), id), true)
  }

  function Skip(p: Plan, id: string, reason: string): (Plan, bool) {
    var i := Find(p.nodes, id);
    if i < 0 || p.nodes[i].status.Done? then (p, false)
    else (MovedOn(p.(nodes := p.nodes[i := p.nodes[i].(status := Skipped, evidence := Some(reason))]), id), true)
  }

  function Mark(p: Plan, id: string, status: Status, evidence: Option<string>): Plan {
    var i := Find(p.nodes, id);
    if i < 0 then p else p.(nodes := p.nodes[i := p.nodes[i].(status := status, evidence := evidence)])
  }

  function Adjoined(s: seq<string>, id: string): seq<string> {
    if id in s then s else s + [id]
  }

  function Link(p: Plan, fromId: string, toId: string): Plan {
    var i, j := Find(p.nodes, fromId), Find(p.nodes, toId);
    if i < 0 || j < 0 then p
    else
      var nodes := p.nodes[i := p.nodes[i].(blockedBy := Adjoined(p.nodes[i].blockedBy, toId))];
      p.(nodes := nodes[j := nodes[j].(dependsOn := Adjoined(nodes[j].dependsOn, fromId))])
  }

  /** A blocked node every dependency of which is a settled node of the plan. */
  predicate Releasable(nodes: seq<NodeState>, n: NodeState) {
    n.status.Blocked? && forall d :: d in n.dependsOn ==> exists m :: m in nodes && m.id == d && Settled(m)
  }

  function ReleaseTest(nodes: seq<NodeState>): NodeState -> bool {
    (n: NodeState) => Releasable(nodes, n)
  }

  const RIPPLED := "Upllstream dependency completed"

  function Released(nodes: seq<NodeState>): seq<NodeState> {
    seq(|nodes|, i requires 0 <= i < |nodes| => if Releasable(nodes, nodes[i]) then Rippled(nodes[i]) else nodes[i])
  }

  function Rippled(n: NodeState): NodeState {
    n.(status := Pending, evidence := Some(RIPPLED), reactCount := 0)
  }

  /** The gate after a node: the plan, whether work goes on, how many nodes remain. */
  function ReviewGate(p: Plan): (Plan, bool, nat) {
    var i := FirstPending(p.nodes);
    if Complete(p.nodes) then (p, true, 0)
    else if i >= 0 then (Activate(p, p.nodes[i].id), true, |Waiting(p.nodes)|)
    else (p, false, |Waiting(p.nodes)|)
  }

  function Waiting(nodes: seq<NodeState>): seq<NodeState> {
    Where(nodes, (n: NodeState) => n.status.Pending? || n.status.Blocked?)
  }

  function Where(nodes: seq<NodeState>, keep: NodeState -> bool): (kept: seq<NodeState>)
    ensures forall n :: n in kept <==> n in nodes && keep(n)
    decreases |nodes|
  {
    if nodes == [] then []
    else
      var k := |nodes| - 1;
      assert nodes == nodes[..k] + [nodes[k]];
      Where(nodes[..k], keep) + if keep(nodes[k]) then [nodes[k]] else []
  }

  lemma WhereNext(nodes: seq<NodeState>, keep: NodeState -> bool, k: nat)
    requires k < |nodes|
    ensures Where(nodes[..k + 1], keep) == Where(nodes[..k], keep) + if keep(nodes[k]) then [nodes[k]] else []
  {
    assert nodes[..k + 1][..k] == nodes[..k];
  }

  // ----- replanning -----

  datatype Json = Number(n: int) | OtherJson

  /** One node as the model proposes it; anything may be missing or of the wrong type. */
  datatype Proposal = Proposal(title: Option<string>, dependsOn: seq<Json>)

  function TrimStart(s: string): string {
    if s != "" && IsSpace(s[0]) then TrimStart(s[1..]) else s
  }

  function Trim(s: string): string {
    TrimEnd(TrimStart(s))
  }

  function TrimEnd(s: string): string {
    if s != "" && IsSpace(s[|s| - 1]) then TrimEnd(s[..|s| - 1]) else s
  }

  function Take<T>(s: seq<T>, n: nat): seq<T> {
    if |s| <= n then s else s[..n]
  }

  predicate Titled(proposal: Proposal) {
    proposal.title.Some? && |Trim(proposal.title.value)| >= 3
  }

  function TitledOf(proposals: seq<Proposal>): (kept: seq<Proposal>)
    ensures forall q :: q in kept ==> Titled(q)
    ensures kept == [] <==> forall q :: q in proposals ==> !Titled(q)
  {
    if proposals == [] then []
    else
      assert proposals == [proposals[0]] + proposals[1..];
      (if Titled(proposals[0]) then [proposals[0]] else []) + TitledOf(proposals[1..])
  }

  function Usable(proposals: seq<Proposal>): seq<Proposal> {
    Take(TitledOf(proposals), 8)
  }

  function PositiveIds(dependsOn: seq<Json>): seq<string> {
    if dependsOn == [] then []
    else
      (if dependsOn[0].Number? && dependsOn[0].n >= 1 then [StringOf(dependsOn[0].n)] else [])
      + PositiveIds(dependsOn[1..])
  }

  function Frozen(nodes: seq<NodeState>): seq<NodeState> {
    Where(nodes, n => Settled(n))
  }

  /** The number new ids count up from. */
  function Base(frozen: seq<NodeState>): Largest {
    if frozen == [] then Finite(0) else LargestOf(Numbers(IdList(frozen)))
  }

  /** The i-th new node; the first one is active from the start. */
  function Replanned(frozen: seq<NodeState>, proposal: Proposal, i: nat, outline: string -> Outline): NodeState
    requires Titled(proposal)
  {
    var title := Take(Trim(proposal.title.value), 120);
    NewNode(IdAbove(Base(frozen), i + 1), title, if i == 0 then Active else Pending,
            Take(PositiveIds(proposal.dependsOn), 5), outline(title))
  }

  function Newcomers(frozen: seq<NodeState>, proposals: seq<Proposal>,
                     outline: string -> Outline): (added: seq<NodeState>)
    ensures |added| == |Usable(proposals)|
  {
    var usable := Usable(proposals);
    assert forall i :: 0 <= i < |usable| ==> usable[i] in TitledOf(proposals);
    seq(|usable|, i requires 0 <= i < |usable| => Replanned(frozen, usable[i], i, outline))
  }

  /** Replanning, from the model's parsed answer: None when it could not be parsed. With
      nothing left to do, or no answer, the plan stays as it is. */
  function Revise(p: Plan, answer: Option<seq<Proposal>>, outline: string -> Outline): (Plan, bool) {
    var frozen := Frozen(p.nodes);
    if |frozen| == |p.nodes| || answer.None? || answer.value == [] then (p, false)
    else
      var added := Newcomers(frozen, answer.value, outline);
      (Plan(frozen + added, if added == [] then "" else added[0].id), true)
  }
}
