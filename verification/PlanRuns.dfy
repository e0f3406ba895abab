/** What every operation on a plan keeps, over whole runs, and the one operation that can
    break it. */
module PlanRuns {
  import opened Options
  import opened PlanGraph
  import opened NodeIds
  import opened PlanOperations
  import opened PlanProgress
  import PlanValidator

  // ----- fresh ids -----

  lemma IdListHas(nodes: seq<NodeState>, id: string)
    ensures id in IdList(nodes) <==> Known(nodes, id)
  {
    if Known(nodes, id) { assert IdList(nodes)[Find(nodes, id)] == id; }
    if id in IdList(nodes) {
      var i :| 0 <= i < |nodes| && IdList(nodes)[i] == id;
      assert nodes[i].id == id;
    }
  }

  /** The next id is nobody's, whatever the ids in use look like. */
  lemma NextNodeIdIsFresh(nodes: seq<NodeState>)
    ensures !Known(nodes, NextNodeId(nodes)) && ParseInt(NextNodeId(nodes)).Some?
  {
    var used := Numbers(IdList(nodes));
    var n := if used == [] then 1 else MaxOf(used) + 1;
    IdAboveIsFresh(IdList(nodes), n);
    ParseIntOfStringOf(n);
    IdListHas(nodes, NextNodeId(nodes));
  }

  // ----- the invariant -----

  /** At most one node is active, and it is the current one. */
  predicate ActiveIsCurrent(p: Plan) {
    forall n :: n in p.nodes && n.status.Active? ==> n.id == p.current
  }

  predicate NumericIds(nodes: seq<NodeState>) {
    forall n :: n in nodes ==> ParseInt(n.id).Some?
  }

  ghost predicate Sound(p: Plan) {
    UniqueIds(p.nodes) && ActiveIsCurrent(p)
  }

  /** The invariant holds afterwards, and ids that were numbers still are. */
  ghost predicate Keeps(p: Plan, after: Plan) {
    Sound(after) && (NumericIds(p.nodes) ==> NumericIds(after.nodes))
  }

  lemma SameIdsStayUnique(a: seq<NodeState>, b: seq<NodeState>)
    requires |a| == |b| && UniqueIds(a) && forall i :: 0 <= i < |a| ==> a[i].id == b[i].id
    ensures UniqueIds(b) && (NumericIds(a) ==> NumericIds(b))
  {
    forall n | n in b ensures NumericIds(a) ==> ParseInt(n.id).Some? {
      var i :| 0 <= i < |b| && b[i] == n;
      assert a[i] in a;
    }
  }

  lemma ActivateKeepsSound(p: Plan, id: string)
    requires Sound(p)
    ensures Keeps(p, Activate(p, id))
  {
    ActivateKeepsShape(p, id);
    SameIdsStayUnique(p.nodes, Activate(p, id).nodes);
    if Accepts(p.nodes, id) {
      var after := Activate(p, id);
      forall n | n in after.nodes && n.status.Active? ensures n.id == id {
        var i :| 0 <= i < |after.nodes| && after.nodes[i] == n;
        assert p.nodes[i] in p.nodes;
        if p.nodes[i].status.Active? { UniqueFind(p.nodes, i); }
      }
    }
  }

  /** An activation that goes through puts the node in place, its dependencies settled,
      and touches at most one other node. */
  lemma ActivateEffect(p: Plan, id: string)
    requires Sound(p) && Accepts(p.nodes, id)
    ensures var after := Activate(p, id);
            && after.current == id && after.nodes[Find(p.nodes, id)] == p.nodes[Find(p.nodes, id)].(status := Active)
            && (forall d :: d in DependenciesOf(after.nodes, id) ==> Met(after.nodes, d))
            && (forall i :: 0 <= i < |p.nodes| && i != Find(p.nodes, id) ==>
                  after.nodes[i] == if p.nodes[i].status.Active? then p.nodes[i].(status := Pending) else p.nodes[i])
  {
    var after := Activate(p, id);
    ActivateKeepsShape(p, id);
    FindSameShape(p.nodes, after.nodes, id);
    forall i | 0 <= i < |p.nodes| && p.nodes[i].status.Active? ensures Find(p.nodes, p.current) == i {
      assert p.nodes[i] in p.nodes;
      UniqueFind(p.nodes, i);
    }
    forall d | d in DependenciesOf(p.nodes, id) ensures Met(after.nodes, d) {
      FindSameShape(p.nodes, after.nodes, d);
    }
  }

  lemma MovedOnKeepsSound(p: Plan, goneId: string)
    requires UniqueIds(p.nodes)
    requires forall n :: n in p.nodes && n.status.Active? ==> n.id == p.current && p.current != goneId
    ensures Keeps(p, MovedOn(p, goneId))
  {
    var i := FirstPending(p.nodes);
    if i >= 0 { ActivateKeepsSound(p, p.nodes[i].id); }
  }

  lemma InsertedKeepsUnique(nodes: seq<NodeState>, k: nat, node: NodeState)
    requires k <= |nodes| && UniqueIds(nodes) && !Known(nodes, node.id)
    ensures UniqueIds(Inserted(nodes, k, node))
  {
    var longer := Inserted(nodes, k, node);
    forall i, j | 0 <= i < j < |longer| ensures longer[i].id != longer[j].id {
      if i != k { assert longer[i] == nodes[if i < k then i else i - 1]; }
      if j != k { assert longer[j] == nodes[if j < k then j else j - 1]; }
    }
  }

  lemma InsertedMembers(nodes: seq<NodeState>, k: nat, node: NodeState)
    requires k <= |nodes|
    ensures forall n :: n in Inserted(nodes, k, node) <==> n in nodes || n == node
  {
    assert nodes == nodes[..k] + nodes[k..];
  }

  lemma PlacingKeepsSound(p: Plan, node: NodeState, afterId: string)
    requires Sound(p) && !Known(p.nodes, node.id) && !node.status.Active? && ParseInt(node.id).Some?
    ensures Keeps(p, Place(p, node, afterId))
  {
    InsertedKeepsUnique(p.nodes, PlaceAfter(p.nodes, afterId), node);
    InsertedMembers(p.nodes, PlaceAfter(p.nodes, afterId), node);
  }

  lemma AddKeepsSound(p: Plan, title: string, dependsOn: seq<string>, afterId: string, outline: Outline)
    requires Sound(p)
    ensures Keeps(p, Add(p, title, dependsOn, afterId, outline))
  {
    NextNodeIdIsFresh(p.nodes);
    PlacingKeepsSound(p, NewNode(NextNodeId(p.nodes), title, Pending, dependsOn, outline), afterId);
  }

  lemma WithoutOne(nodes: seq<NodeState>, i: nat)
    requires i < |nodes| && UniqueIds(nodes)
    ensures var rest := nodes[..i] + nodes[i + 1..];
            UniqueIds(rest) && forall n :: n in rest ==> n in nodes && n.id != nodes[i].id
  {
    var rest := nodes[..i] + nodes[i + 1..];
    forall k | 0 <= k < |rest| ensures rest[k] == nodes[if k < i then k else k + 1] {
    }
    forall n | n in rest ensures n in nodes && n.id != nodes[i].id {
      var k :| 0 <= k < |rest| && rest[k] == n;
      assert nodes[if k < i then k else k + 1] == n;
    }
  }

  lemma RemoveKeepsSound(p: Plan, id: string)
    requires Sound(p)
    ensures Keeps(p, Remove(p, id).0)
  {
    var i := Find(p.nodes, id);
    if i >= 0 && !p.nodes[i].status.Done? {
      var rest := p.(nodes := p.nodes[..i] + p.nodes[i + 1..]);
      WithoutOne(p.nodes, i);
      assert UniqueIds(rest.nodes) && (NumericIds(p.nodes) ==> NumericIds(rest.nodes));
      MovedOnKeepsSound(rest, id);
      assert Remove(p, id).0 == MovedOn(rest, id);
    }
  }

  lemma SkipKeepsSound(p: Plan, id: string, reason: string)
    requires Sound(p)
    ensures Keeps(p, Skip(p, id, reason).0)
  {
    var i := Find(p.nodes, id);
    if i >= 0 && !p.nodes[i].status.Done? {
      var left := p.(nodes := p.nodes[i := p.nodes[i].(status := Skipped, evidence := Some(reason))]);
      SameIdsStayUnique(p.nodes, left.nodes);
      forall n | n in left.nodes && n.status.Active? ensures n.id == p.current && p.current != id {
        var j :| 0 <= j < |left.nodes| && left.nodes[j] == n;
        assert p.nodes[j] in p.nodes;
      }
      MovedOnKeepsSound(left, id);
    }
  }

  /** Whatever leaves ids alone and activates nothing keeps the invariant. */
  lemma NothingActivated(p: Plan, after: Plan)
    requires Sound(p) && after.current == p.current && |after.nodes| == |p.nodes|
    requires forall i :: 0 <= i < |p.nodes| ==>
               after.nodes[i].id == p.nodes[i].id && (after.nodes[i].status.Active? ==> p.nodes[i].status.Active?)
    ensures Keeps(p, after)
  {
    SameIdsStayUnique(p.nodes, after.nodes);
    forall n | n in after.nodes && n.status.Active? ensures n.id == p.current {
      var i :| 0 <= i < |after.nodes| && after.nodes[i] == n;
      assert p.nodes[i] in p.nodes;
    }
  }

  lemma LinkKeepsSound(p: Plan, fromId: string, toId: string)
    requires Sound(p)
    ensures Keeps(p, Link(p, fromId, toId))
  {
    NothingActivated(p, Link(p, fromId, toId));
  }

  lemma ReleaseKeepsSound(p: Plan)
    requires Sound(p)
    ensures Keeps(p, p.(nodes := Released(p.nodes)))
  {
    NothingActivated(p, p.(nodes := Released(p.nodes)));
  }

  // ----- replanning -----

  lemma {:induction false} WhereKeepsUnique(nodes: seq<NodeState>, keep: NodeState -> bool)
    requires UniqueIds(nodes)
    ensures UniqueIds(Where(nodes, keep))
    decreases |nodes|
  {
    if nodes != [] {
      var k := |nodes| - 1;
      WhereKeepsUnique(nodes[..k], keep);
      forall n | n in Where(nodes[..k], keep) ensures n.id != nodes[k].id {
        var i :| 0 <= i < k && nodes[..k][i] == n;
      }
    }
  }

  lemma NumberInUse(nodes: seq<NodeState>, i: nat)
    requires i < |nodes| && ParseInt(nodes[i].id).Some?
    ensures ParseInt(nodes[i].id).value in Numbers(IdList(nodes))
  {
    assert IdList(nodes)[i] in IdList(nodes);
    NumbersHasAll(IdList(nodes), ParseInt(nodes[i].id).value);
  }

  /** New ids counted up from a number are above every number in use. */
  lemma NewIdsAreFresh(frozen: seq<NodeState>, i: nat)
    requires Base(frozen).Finite?
    ensures !Known(frozen, IdAbove(Base(frozen), i + 1))
    ensures ParseInt(IdAbove(Base(frozen), i + 1)) == Some(Base(frozen).n + i + 1)
    ensures forall m :: m in Numbers(IdList(frozen)) ==> m < Base(frozen).n + i + 1
  {
    var n := Base(frozen).n + i + 1;
    BaseIsAbove(frozen);
    assert IdAbove(Base(frozen), i + 1) == StringOf(n);
    AboveIsFresh(frozen, n);
  }

  lemma BaseIsAbove(frozen: seq<NodeState>)
    requires Base(frozen).Finite?
    ensures forall m :: m in Numbers(IdList(frozen)) ==> m <= Base(frozen).n
  {
  }

  lemma AboveIsFresh(nodes: seq<NodeState>, n: int)
    requires forall m :: m in Numbers(IdList(nodes)) ==> m < n
    ensures !Known(nodes, StringOf(n)) && ParseInt(StringOf(n)) == Some(n)
  {
    IdAboveIsFresh(IdList(nodes), n);
    IdListHas(nodes, StringOf(n));
    ParseIntOfStringOf(n);
  }

  lemma UniqueConcat(a: seq<NodeState>, b: seq<NodeState>)
    requires UniqueIds(a) && UniqueIds(b) && forall n :: n in b ==> !Known(a, n.id)
    ensures UniqueIds(a + b)
  {
    forall i, j | 0 <= i < j < |a + b| ensures (a + b)[i].id != (a + b)[j].id {
      if j >= |a| {
        assert b[j - |a|] in b;
        if i >= |a| { assert b[i - |a|].id != b[j - |a|].id; }
      }
    }
  }

  lemma CountedUpIsUnique(frozen: seq<NodeState>, added: seq<NodeState>)
    requires UniqueIds(frozen) && Base(frozen).Finite?
    requires forall i :: 0 <= i < |added| ==> added[i].id == IdAbove(Base(frozen), i + 1)
    ensures UniqueIds(frozen + added)
  {
    forall i | 0 <= i < |added|
      ensures !Known(frozen, added[i].id) && ParseInt(added[i].id) == Some(Base(frozen).n + i + 1)
    {
      NewIdsAreFresh(frozen, i);
    }
    UniqueConcat(frozen, added);
  }

  lemma AllCalledAlike(frozen: seq<NodeState>, added: seq<NodeState>, id: string)
    requires UniqueIds(frozen) && forall i :: 0 <= i < |added| ==> added[i].id == id
    ensures UniqueIds(frozen + added) <==> |added| == 0 || (|added| == 1 && !Known(frozen, id))
  {
    var all, i := frozen + added, Find(frozen, id);
    if |added| == 0 {
      assert all == frozen;
    } else if |added| == 1 && i < 0 {
      UniqueConcat(frozen, added);
    } else {
      assert all[|frozen|] == added[0];
      if i >= 0 { assert all[i] == frozen[i]; } else { assert all[|frozen| + 1] == added[1]; }
    }
  }

  /** Replanning gives every node an id of its own unless the frozen ids hold no number:
      then every new node is called "-Infinity". */
  lemma ReviseUniqueExactlyWhen(p: Plan, answer: Option<seq<Proposal>>, outline: string -> Outline)
    requires UniqueIds(p.nodes) && Revise(p, answer, outline).1
    ensures var frozen, count := Frozen(p.nodes), |Usable(answer.value)|;
            UniqueIds(Revise(p, answer, outline).0.nodes)
            <==> Base(frozen).Finite? || count == 0 || (count == 1 && !Known(frozen, "-Infinity"))
  {
    var frozen := Frozen(p.nodes);
    var added := Newcomers(frozen, answer.value, outline);
    WhereKeepsUnique(p.nodes, (n: NodeState) => Settled(n));
    if Base(frozen).Finite? { CountedUpIsUnique(frozen, added); } else { AllCalledAlike(frozen, added, "-Infinity"); }
  }

  /** Replanning keeps every settled node, unchanged and in order, before the new ones,
      whose numbers are above all theirs. */
  lemma ReviseKeepsSettled(p: Plan, answer: Option<seq<Proposal>>, outline: string -> Outline)
    ensures var (after, changed) := Revise(p, answer, outline);
            && (forall n :: n in p.nodes && Settled(n) ==> n in after.nodes)
            && (changed ==> Frozen(p.nodes) <= after.nodes)
            && (changed && Base(Frozen(p.nodes)).Finite? ==>
                  forall i, m :: |Frozen(p.nodes)| <= i < |after.nodes| && m in Numbers(IdList(Frozen(p.nodes)))
                    ==> ParseInt(after.nodes[i].id).Some? && m < ParseInt(after.nodes[i].id).value)
  {
    var frozen := Frozen(p.nodes);
    var (after, changed) := Revise(p, answer, outline);
    if changed && Base(frozen).Finite? {
      forall i, m | |frozen| <= i < |after.nodes| && m in Numbers(IdList(frozen))
        ensures ParseInt(after.nodes[i].id).Some? && m < ParseInt(after.nodes[i].id).value
      {
        NewIdsAreFresh(frozen, i - |frozen|);
      }
    }
  }

  /** When none of the proposed titles is long enough, replanning leaves nothing to do, and
      the plan reads as complete; otherwise its first new node is active. */
  lemma ReviseCompletesExactlyWhen(p: Plan, answer: Option<seq<Proposal>>, outline: string -> Outline)
    requires Revise(p, answer, outline).1
    ensures !Complete(p.nodes)
    ensures var after := Revise(p, answer, outline).0;
            && (Complete(after.nodes) <==> forall q :: q in answer.value ==> !Titled(q))
            && (!Complete(after.nodes) ==>
                  after.nodes[|Frozen(p.nodes)|].status.Active? && after.current == after.nodes[|Frozen(p.nodes)|].id)
  {
    var frozen := Frozen(p.nodes);
    var added := Newcomers(frozen, answer.value, outline);
    FrozenAll(p.nodes);
    if added != [] { assert added[0] in frozen + added && !Settled(added[0]); }
  }

  lemma {:induction false} FrozenAll(nodes: seq<NodeState>)
    ensures |Frozen(nodes)| <= |nodes|
    ensures |Frozen(nodes)| == |nodes| <==> Complete(nodes)
    decreases |nodes|
  {
    if nodes != [] {
      FrozenAll(nodes[..|nodes| - 1]);
      assert nodes == nodes[..|nodes| - 1] + [nodes[|nodes| - 1]];
    }
  }

  lemma MetAmong(frozen: seq<NodeState>, added: seq<NodeState>, d: string)
    requires UniqueIds(frozen + added) && (forall n :: n in frozen ==> Settled(n))
             && (forall n :: n in added ==> !Settled(n))
    ensures Met(frozen + added, d) <==> !Known(added, d)
  {
    var all, i := frozen + added, Find(added, d);
    if i >= 0 {
      assert all[|frozen| + i] == added[i] && added[i] in added;
      UniqueFind(all, |frozen| + i);
    } else if Known(all, d) {
      assert all[Find(all, d)] in frozen;
    }
  }

  /** That node is activated unseen: its dependencies are met exactly when none of them is
      another new node. */
  lemma ReviseActivatesUnmet(p: Plan, answer: Option<seq<Proposal>>, outline: string -> Outline)
    requires UniqueIds(p.nodes) && Revise(p, answer, outline).1 && Base(Frozen(p.nodes)).Finite?
             && Usable(answer.value) != []
    ensures var after, added := Revise(p, answer, outline).0, Newcomers(Frozen(p.nodes), answer.value, outline);
            (forall d :: d in added[0].dependsOn ==> Met(after.nodes, d))
            <==> (forall d :: d in added[0].dependsOn ==> !Known(added, d))
  {
    ReviseUniqueExactlyWhen(p, answer, outline);
    forall d
      ensures Met(Revise(p, answer, outline).0.nodes, d)
              <==> !Known(Newcomers(Frozen(p.nodes), answer.value, outline), d)
    {
      MetAmong(Frozen(p.nodes), Newcomers(Frozen(p.nodes), answer.value, outline), d);
    }
  }

  /** Replanning makes its first new node the active and current one, which keeps the
      invariant as long as ids stay unique. */
  lemma ReviseKeepsSound(p: Plan, answer: Option<seq<Proposal>>, outline: string -> Outline)
    requires Sound(p) && NumericIds(p.nodes)
    ensures Keeps(p, Revise(p, answer, outline).0)
  {
    if Revise(p, answer, outline).1 {
      var frozen := Frozen(p.nodes);
      var added, after := Newcomers(frozen, answer.value, outline), Revise(p, answer, outline).0;
      NumericMeansBase(frozen);
      ReviseUniqueExactlyWhen(p, answer, outline);
      forall i | 0 <= i < |added|
        ensures ParseInt(added[i].id).Some? && (added[i].status.Active? ==> added[i].id == after.current)
      {
        NewIdsAreFresh(frozen, i);
      }
      JoinedIsSound(frozen, added, after.current);
    }
  }

  lemma JoinedIsSound(frozen: seq<NodeState>, added: seq<NodeState>, current: string)
    requires UniqueIds(frozen + added) && NumericIds(frozen) && forall n :: n in frozen ==> !n.status.Active?
    requires forall i :: 0 <= i < |added| ==>
               ParseInt(added[i].id).Some? && (added[i].status.Active? ==> added[i].id == current)
    ensures Sound(Plan(frozen + added, current)) && NumericIds(frozen + added)
  {
    forall n | n in frozen + added ensures ParseInt(n.id).Some? && (n.status.Active? ==> n.id == current) {
      if n !in frozen { assert n in added; }
    }
  }

  lemma NumericMeansBase(frozen: seq<NodeState>)
    requires NumericIds(frozen)
    ensures Base(frozen).Finite?
  {
    if frozen != [] {
      assert frozen[0] in frozen;
      NumberInUse(frozen, 0);
    }
  }

  lemma MarkKeepsSound(p: Plan, id: string, status: Status, evidence: Option<string>)
    requires Sound(p) && !status.Active?
    ensures Keeps(p, Mark(p, id, status, evidence))
  {
    NothingActivated(p, Mark(p, id, status, evidence));
  }

  lemma GateKeepsSound(p: Plan)
    requires Sound(p)
    ensures Keeps(p, ReviewGate(p).0)
  {
    var i := FirstPending(p.nodes);
    if i >= 0 { ActivateKeepsSound(p, p.nodes[i].id); }
  }

  // ----- runs -----

  datatype Operation =
    | AddNode(title: string, dependsOn: seq<string>, afterId: string, outline: Outline)
    | RemoveNode(id: string)
    | SkipNode(id: string, reason: string)
    | ActivateNode(id: string)
    | MarkNodeDone(id: string, evidence: Option<string>)
    | MarkNodeBlocked(id: string, reason: string)
    | BlockTask(fromId: string, toId: string)
    | AutoUnblockByRipple
    | BuildNodeReviewGate
    | RevisePlan(answer: Option<seq<Proposal>>, outlines: string -> Outline)

  function Apply(p: Plan, op: Operation): Plan {
    match op
    case AddNode(title, dependsOn, afterId, outline) => Add(p, title, dependsOn, afterId, outline)
    case RemoveNode(id) => Remove(p, id).0
    case SkipNode(id, reason) => Skip(p, id, reason).0
    case ActivateNode(id) => Activate(p, id)
    case MarkNodeDone(id, evidence) => Mark(p, id, Done, evidence)
    case MarkNodeBlocked(id, reason) => Mark(p, id, Blocked, Some(reason))
    case BlockTask(fromId, toId) => Link(p, fromId, toId)
    case AutoUnblockByRipple => p.(nodes := Released(p.nodes))
    case BuildNodeReviewGate => ReviewGate(p).0
    case RevisePlan(answer, outlines) => Revise(p, answer, outlines).0
  }

  /** No operation breaks the invariant, replanning included while ids are numbers. */
  lemma OperationKeepsSound(p: Plan, op: Operation)
    requires Sound(p) && (op.RevisePlan? ==> NumericIds(p.nodes))
    ensures Keeps(p, Apply(p, op))
  {
    match op
    case AddNode(title, dependsOn, afterId, outline) => AddKeepsSound(p, title, dependsOn, afterId, outline);
    case RemoveNode(id) => RemoveKeepsSound(p, id);
    case SkipNode(id, reason) => SkipKeepsSound(p, id, reason);
    case ActivateNode(id) => ActivateKeepsSound(p, id);
    case MarkNodeDone(id, evidence) => MarkKeepsSound(p, id, Done, evidence);
    case MarkNodeBlocked(id, reason) => MarkKeepsSound(p, id, Blocked, Some(reason));
    case BlockTask(fromId, toId) => LinkKeepsSound(p, fromId, toId);
    case AutoUnblockByRipple => ReleaseKeepsSound(p);
    case BuildNodeReviewGate => GateKeepsSound(p);
    case RevisePlan(answer, outlines) => ReviseKeepsSound(p, answer, outlines);
  }

  function Run(p: Plan, ops: seq<Operation>): Plan
    decreases |ops|
  {
    if ops == [] then p else Apply(Run(p, ops[..|ops| - 1]), ops[|ops| - 1])
  }

  /** In every run from a fresh plan, ids stay unique and numeric, and at most one node is
      active, the current one. */
  lemma {:induction false} EveryRunSound(titles: seq<string>, outlines: seq<Outline>, ops: seq<Operation>)
    requires |titles| == |outlines|
    ensures Sound(Run(Created(titles, outlines), ops)) && NumericIds(Run(Created(titles, outlines), ops).nodes)
    decreases |ops|
  {
    if ops == [] {
      CreatedSound(titles, outlines);
    } else {
      EveryRunSound(titles, outlines, ops[..|ops| - 1]);
      OperationKeepsSound(Run(Created(titles, outlines), ops[..|ops| - 1]), ops[|ops| - 1]);
    }
  }

  lemma CreatedSound(titles: seq<string>, outlines: seq<Outline>)
    requires |titles| == |outlines|
    ensures Sound(Created(titles, outlines)) && NumericIds(Created(titles, outlines).nodes)
  {
    var p := Created(titles, outlines);
    forall i | 0 <= i < |p.nodes| ensures ParseInt(p.nodes[i].id) == Some(i + 1) {
      ParseIntOfStringOf(i + 1);
    }
    FirstIdIsOne();
    NumberedIsSound(p);
  }

  lemma FirstIdIsOne()
    ensures StringOf(1) == "1"
  {
  }

  lemma NumberedIsSound(p: Plan)
    requires forall i :: 0 <= i < |p.nodes| ==> ParseInt(p.nodes[i].id) == Some(i + 1)
    requires forall i :: 0 <= i < |p.nodes| && p.nodes[i].status.Active? ==> p.nodes[i].id == p.current
    ensures Sound(p) && NumericIds(p.nodes)
  {
  }

  // ----- finished work -----

  predicate DoneIn(nodes: seq<NodeState>, id: string) {
    exists n :: n in nodes && n.id == id && n.status.Done?
  }

  lemma DoneInPlace(a: seq<NodeState>, b: seq<NodeState>, id: string)
    requires DoneIn(a, id) && |a| == |b|
    requires forall i :: 0 <= i < |a| && a[i].id == id && a[i].status.Done? ==> b[i].id == id && b[i].status.Done?
    ensures DoneIn(b, id)
  {
    var n :| n in a && n.id == id && n.status.Done?;
    var i :| 0 <= i < |a| && a[i] == n;
    assert b[i] in b;
  }

  lemma ActivateKeepsDone(p: Plan, nodeId: string, id: string)
    requires DoneIn(p.nodes, id)
    ensures DoneIn(Activate(p, nodeId).nodes, id)
  {
    ActivateKeepsShape(p, nodeId);
    DoneInPlace(p.nodes, Activate(p, nodeId).nodes, id);
  }

  lemma MovedOnKeepsDone(p: Plan, goneId: string, id: string)
    requires DoneIn(p.nodes, id)
    ensures DoneIn(MovedOn(p, goneId).nodes, id)
  {
    var i := FirstPending(p.nodes);
    if i >= 0 { ActivateKeepsDone(p, p.nodes[i].id, id); }
  }

  lemma RemoveKeepsDone(p: Plan, nodeId: string, id: string)
    requires DoneIn(p.nodes, id)
    ensures DoneIn(Remove(p, nodeId).0.nodes, id)
  {
    var i := Find(p.nodes, nodeId);
    if i >= 0 && !p.nodes[i].status.Done? {
      var rest := p.nodes[..i] + p.nodes[i + 1..];
      assert p.nodes == p.nodes[..i] + [p.nodes[i]] + p.nodes[i + 1..];
      MovedOnKeepsDone(p.(nodes := rest), nodeId, id);
    }
  }

  lemma SkipKeepsDone(p: Plan, nodeId: string, reason: string, id: string)
    requires DoneIn(p.nodes, id)
    ensures DoneIn(Skip(p, nodeId, reason).0.nodes, id)
  {
    var i := Find(p.nodes, nodeId);
    if i >= 0 && !p.nodes[i].status.Done? {
      var left := p.nodes[i := p.nodes[i].(status := Skipped, evidence := Some(reason))];
      DoneInPlace(p.nodes, left, id);
      MovedOnKeepsDone(p.(nodes := left), nodeId, id);
    }
  }

  /** A done node is done after every operation, replanning included, with one exception:
      it can be marked blocked, which no guard prevents. */
  lemma DoneStaysExactlyUnless(p: Plan, op: Operation, id: string)
    requires UniqueIds(p.nodes) && DoneIn(p.nodes, id)
    ensures DoneIn(Apply(p, op).nodes, id) <==> !(op.MarkNodeBlocked? && op.id == id)
  {
    var after := Apply(p, op);
    match op
    case AddNode(title, dependsOn, afterId, outline) =>
      InsertedMembers(p.nodes, PlaceAfter(p.nodes, afterId),
                      NewNode(NextNodeId(p.nodes), title, Pending, dependsOn, outline));
    case RemoveNode(other) => RemoveKeepsDone(p, other, id);
    case SkipNode(other, reason) => SkipKeepsDone(p, other, reason, id);
    case ActivateNode(other) => ActivateKeepsDone(p, other, id);
    case MarkNodeDone(other, evidence) => DoneInPlace(p.nodes, after.nodes, id);
    case MarkNodeBlocked(other, reason) => BlockingUndoes(p, other, reason, id);
    case BlockTask(fromId, toId) => DoneInPlace(p.nodes, after.nodes, id);
    case AutoUnblockByRipple => DoneInPlace(p.nodes, after.nodes, id);
    case BuildNodeReviewGate =>
      var i := FirstPending(p.nodes);
      if i >= 0 { ActivateKeepsDone(p, p.nodes[i].id, id); }
    case RevisePlan(answer, outlines) => ReviseKeepsSettled(p, answer, outlines);
  }

  lemma BlockingUndoes(p: Plan, other: string, reason: string, id: string)
    requires UniqueIds(p.nodes) && DoneIn(p.nodes, id)
    ensures DoneIn(Mark(p, other, Blocked, Some(reason)).nodes, id) <==> other != id
  {
    var after := Mark(p, other, Blocked, Some(reason)).nodes;
    if other != id {
      DoneInPlace(p.nodes, after, id);
    } else {
      forall n | n in after && n.id == id ensures n.status.Blocked? {
        var j :| 0 <= j < |after| && after[j] == n;
        assert p.nodes[j].id == id;
        UniqueFind(p.nodes, j);
      }
    }
  }

  // ----- concrete runs -----

  /** An edge from the second node to the first, a detour over the second, and its release:
      from a fresh plan to two pending nodes with nothing active. */
  function Detour(): seq<Operation> {
    [BlockTask("2", "1"), ActivateNode("2"), MarkNodeBlocked("2", "stuck"), AutoUnblockByRipple]
  }

  lemma OneMoreOperation(p: Plan, ops: seq<Operation>, k: nat, before: Plan, after: Plan)
    requires k < |ops| && Run(p, ops[..k]) == before && Apply(before, ops[k]) == after
    ensures Run(p, ops[..k + 1]) == after
  {
    assert ops[..k + 1][..k] == ops[..k];
  }

  /** The plan between the operations: the two nodes in some states, and who is current. */
  function TwoNodes(late: NodeState, early: NodeState, current: string): Plan { Plan([late, early], current) }

  lemma FindTwo(late: NodeState, early: NodeState)
    requires late.id == "1" && early.id == "2"
    ensures Find([late, early], "1") == 0 && Find([late, early], "2") == 1
  {
  }

  lemma EdgeDrawn(late: NodeState, early: NodeState)
    requires late.id == "1" && early.id == "2" && late.dependsOn == [] && early.blockedBy == []
    ensures Apply(TwoNodes(late, early, "1"), BlockTask("2", "1"))
         == TwoNodes(late.(dependsOn := ["2"]), early.(blockedBy := ["1"]), "1")
  {
    FindTwo(late, early);
    assert Adjoined([], "1") == ["1"] && Adjoined([], "2") == ["2"];
    var nodes := [late, early][1 := early.(blockedBy := ["1"])];
    assert nodes == [late, early.(blockedBy := ["1"])];
    assert nodes[0 := late.(dependsOn := ["2"])] == [late.(dependsOn := ["2"]), early.(blockedBy := ["1"])];
  }

  lemma DetourBegun(late: NodeState, early: NodeState)
    requires late.id == "1" && early.id == "2" && late.status.Active? && early.status.Pending? && early.dependsOn == []
    ensures Apply(TwoNodes(late, early, "1"), ActivateNode("2"))
         == TwoNodes(late.(status := Pending), early.(status := Active), "2")
  {
    FindTwo(late, early);
    var demoted := [late, early][0 := late.(status := Pending)];
    assert demoted == [late.(status := Pending), early];
    assert demoted[1 := early.(status := Active)] == [late.(status := Pending), early.(status := Active)];
  }

  lemma DetourBlocked(late: NodeState, early: NodeState)
    requires late.id == "1" && early.id == "2"
    ensures Apply(TwoNodes(late, early, "2"), MarkNodeBlocked("2", "stuck"))
         == TwoNodes(late, early.(status := Blocked, evidence := Some("stuck")), "2")
  {
    FindTwo(late, early);
    var blocked := early.(status := Blocked, evidence := Some("stuck"));
    assert [late, early][1 := blocked] == [late, blocked];
  }

  lemma DetourReleased(late: NodeState, early: NodeState)
    requires late.status.Pending? && early.status.Blocked? && early.dependsOn == []
    ensures Apply(TwoNodes(late, early, "2"), AutoUnblockByRipple) == TwoNodes(late, Rippled(early), "2")
  {
    assert Released([late, early]) == [late, Rippled(early)];
  }

  lemma RunOfFour(ops: seq<Operation>, p: Plan, p1: Plan, p2: Plan, p3: Plan, p4: Plan)
    requires |ops| == 4 && Apply(p, ops[0]) == p1 && Apply(p1, ops[1]) == p2
    requires Apply(p2, ops[2]) == p3 && Apply(p3, ops[3]) == p4
    ensures Run(p, ops) == p4
  {
    OneMoreOperation(p, ops, 0, p, p1);
    OneMoreOperation(p, ops, 1, p1, p2);
    OneMoreOperation(p, ops, 2, p2, p3);
    OneMoreOperation(p, ops, 3, p3, p4);
    assert ops[..4] == ops;
  }

  lemma DetourTaken(late: NodeState, early: NodeState)
    requires late.id == "1" && early.id == "2" && late.status.Active? && early.status.Pending?
    requires late.dependsOn == early.dependsOn == [] && early.blockedBy == []
    ensures Run(TwoNodes(late, early, "1"), Detour())
         == TwoNodes(late.(dependsOn := ["2"], status := Pending),
                     Rippled(early.(blockedBy := ["1"], status := Blocked, evidence := Some("stuck"))), "2")
  {
    var l1, e1 := late.(dependsOn := ["2"]), early.(blockedBy := ["1"]);
    var l2, e2 := l1.(status := Pending), e1.(status := Active);
    var e3 := e2.(status := Blocked, evidence := Some("stuck"));
    EdgeDrawn(late, early);
    DetourBegun(l1, e1);
    DetourBlocked(l2, e2);
    DetourReleased(l2, e3);
    RunOfFour(Detour(), TwoNodes(late, early, "1"), TwoNodes(l1, e1, "1"), TwoNodes(l2, e2, "2"),
              TwoNodes(l2, e3, "2"), TwoNodes(l2, Rippled(e3), "2"));
  }

  /** The gate can stand still in a run: from there it resumes for ever without activating
      anything. */
  lemma GateStandsStillInRun(outline: Outline)
    requires outline.steps > 0 && (outline.packet.Some? ==> outline.packet.value.kindGiven != [])
    ensures var p := Run(Created(["late", "early"], [outline, outline]), Detour());
            && PlanValidator.Executable(p.nodes) && (forall n :: n in p.nodes ==> !n.status.Active?)
            && ReviewGate(p) == (p, true, 2) && Accepts(p.nodes, "2")
  {
    var late := NewNode("1", "late", Active, [], outline);
    var early := NewNode("2", "early", Pending, [], outline);
    assert StringOf(1) == "1" && StringOf(2) == "2";
    assert Created(["late", "early"], [outline, outline]).nodes == [late, early];
    DetourTaken(late, early);
    GateStandsStill(Run(TwoNodes(late, early, "1"), Detour()));
  }

  /** A plan with one settled node and one to be replanned. */
  function HalfDone(settledId: string, outline: Outline): Plan {
    Plan([NewNode(settledId, "settled", Done, [], outline), NewNode("9", "open", Pending, [], outline)], "")
  }

  lemma HalfDoneIsFrozen(settledId: string, outline: Outline)
    requires settledId != "9"
    ensures var p := HalfDone(settledId, outline);
            UniqueIds(p.nodes) && Frozen(p.nodes) == [p.nodes[0]] && IdList(Frozen(p.nodes)) == [settledId]
  {
    var nodes := HalfDone(settledId, outline).nodes;
    FirstIsFrozen(nodes, nodes[0], nodes[1]);
  }

  lemma FirstIsFrozen(nodes: seq<NodeState>, first: NodeState, second: NodeState)
    requires nodes == [first, second] && Settled(first) && !Settled(second)
    ensures Frozen(nodes) == [first] && IdList([first]) == [first.id]
  {
    assert nodes[..1] == [first] && [first][..0] == [];
    assert Where([first], n => Settled(n)) == [first];
  }

  lemma TitlesAreUsable(first: Proposal, second: Proposal)
    requires first.title == Some("abc") && second.title == Some("def")
    ensures Usable([first, second]) == [first, second] && Titled(first) && Titled(second)
  {
    assert Trim("abc") == "abc" && Trim("def") == "def";
    assert [first, second][1..] == [second] && [second][1..] == [];
    assert TitledOf([second]) == [second];
  }

  /** A settled node whose id is no number, and two new ones: both are "-Infinity". */
  lemma ReviseRepeatsIds(outline: Outline, outlines: string -> Outline)
    ensures var p, answer := HalfDone("setup", outline), Some([Proposal(Some("abc"), []), Proposal(Some("def"), [])]);
            UniqueIds(p.nodes) && Revise(p, answer, outlines).1 && !UniqueIds(Revise(p, answer, outlines).0.nodes)
  {
    var p, answer := HalfDone("setup", outline), Some([Proposal(Some("abc"), []), Proposal(Some("def"), [])]);
    HalfDoneIsFrozen("setup", outline);
    TitlesAreUsable(answer.value[0], answer.value[1]);
    NoNumberIn("setup");
    NoBaseRepeats(p, answer, outlines);
  }

  lemma NoNumberIn(id: string)
    requires id == "setup"
    ensures Numbers([id]) == []
  {
    assert ParseInt(id).None? && [id][1..] == [];
  }

  lemma NoBaseRepeats(p: Plan, answer: Option<seq<Proposal>>, outlines: string -> Outline)
    requires UniqueIds(p.nodes) && |Frozen(p.nodes)| == 1 < |p.nodes| && Numbers(IdList(Frozen(p.nodes))) == []
    requires answer.Some? && answer.value != [] && |Usable(answer.value)| == 2
    ensures Revise(p, answer, outlines).1 && !UniqueIds(Revise(p, answer, outlines).0.nodes)
  {
    ReviseUniqueExactlyWhen(p, answer, outlines);
  }

  /** Two new nodes, the first depending on the second: it is active all the same. */
  lemma ReviseActivatesEarly(outline: Outline, outlines: string -> Outline)
    ensures var p := HalfDone("1", outline);
            var answer := Some([Proposal(Some("abc"), [Number(3)]), Proposal(Some("def"), [])]);
            var added := Newcomers(Frozen(p.nodes), answer.value, outlines);
            && Revise(p, answer, outlines).1 && added[0].status.Active? && added[0].dependsOn == ["3"]
            && !Met(Revise(p, answer, outlines).0.nodes, "3")
  {
    var p := HalfDone("1", outline);
    var answer := Some([Proposal(Some("abc"), [Number(3)]), Proposal(Some("def"), [])]);
    HalfDoneIsFrozen("1", outline);
    TitlesAreUsable(answer.value[0], answer.value[1]);
    CountsFromOne(Frozen(p.nodes));
    assert PositiveIds([Number(3)]) == ["3"] by { assert [Number(3)][1..] == [] && StringOf(3) == "3"; }
    var added := Newcomers(Frozen(p.nodes), answer.value, outlines);
    assert added[1].id == "3" && Known(added, "3");
    ReviseActivatesUnmet(p, answer, outlines);
  }

  lemma CountsFromOne(frozen: seq<NodeState>)
    requires |frozen| == 1 && frozen[0].id == "1"
    ensures Base(frozen) == Finite(1) && IdAbove(Base(frozen), 2) == "3"
  {
    assert IdList(frozen) == ["1"] && ["1"][1..] == [];
    assert StringOf(1) == "1" && StringOf(3) == "3";
    ParseIntOfStringOf(1);
    assert Numbers(["1"]) == [1];
  }
}
