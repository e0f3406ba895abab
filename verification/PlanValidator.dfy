/** The structural checks a plan must pass before it is executed. */
module PlanValidator {
  import opened Options
  import opened PlanGraph

  datatype Severity = Error | Warning

  datatype Check = NonEmpty | Uniqueness | Cycle | Dependency | Tracker | Verification

  /** `names` holds the ids the message spells out: a cycle, a missing dependency. */
  datatype Issue = Issue(severity: Severity, nodeId: Option<string>, check: Check, names: seq<string>)

  datatype Color = White | Gray | Black

  ghost predicate ErrorFree(issues: seq<Issue>) {
    forall issue :: issue in issues ==> !issue.severity.Error?
  }

  /** A genuine cycle: a closed walk along dependencies that visits no node twice. */
  predicate ReportsCycle(nodes: seq<NodeState>, issue: Issue) {
    && issue.severity.Error? && issue.check.Cycle?
    && ClosedWalk(nodes, issue.names) && NoRepeats(issue.names[1..])
    && issue.nodeId == Some(issue.names[0])
  }

  // ----- what the search knows at any moment -----

  ghost predicate ColorsMatch(nodes: seq<NodeState>, color: map<string, Color>, path: seq<string>,
                              finished: seq<string>) {
    && (forall id :: id in color <==> Known(nodes, id))
    && (forall id :: id in path ==> id in color) && (forall id :: id in finished ==> id in color)
    && forall id :: id in color ==> (color[id].Gray? <==> id in path) && (color[id].Black? <==> id in finished)
  }

  ghost predicate Coherent(nodes: seq<NodeState>, color: map<string, Color>, path: seq<string>, finished: seq<string>) {
    ColorsMatch(nodes, color, path, finished) && NoRepeats(path) && NoRepeats(finished) && Walk(nodes, path)
  }

  ghost function Whites(color: map<string, Color>): set<string> {
    set id | id in color && color[id].White?
  }

  lemma Entering(nodes: seq<NodeState>, color: map<string, Color>, path: seq<string>, finished: seq<string>, id: string)
    requires Coherent(nodes, color, path, finished) && id in color && color[id].White?
    requires path != [] ==> Edge(nodes, path[|path| - 1], id)
    ensures Coherent(nodes, color[id := Gray], path + [id], finished)
            && Whites(color[id := Gray]) == Whites(color) - {id}
  {
  }

  lemma Leaving(nodes: seq<NodeState>, color: map<string, Color>, path: seq<string>, finished: seq<string>, id: string)
    requires Coherent(nodes, color, path + [id], finished)
    ensures id in color && Coherent(nodes, color[id := Black], path, finished + [id])
    ensures Whites(color[id := Black]) == Whites(color)
  {
    var longer, after := path + [id], finished + [id];
    assert longer[|path|] == id;
    assert forall i :: 0 <= i < |path| ==> longer[i] == path[i];
    assert id in longer && id in color && id !in finished;
    assert forall other :: other in longer <==> other in path || other == id;
    assert id !in path;
    forall i | 0 <= i < |path| - 1 ensures Edge(nodes, path[i], path[i + 1]) {
      assert Edge(nodes, longer[i], longer[i + 1]);
    }
  }

  lemma LeavingKeepsOrder(nodes: seq<NodeState>, finished: seq<string>, id: string)
    requires DependenciesFirst(nodes, finished) && forall d :: Edge(nodes, id, d) ==> d in finished
    ensures DependenciesFirst(nodes, finished + [id])
  {
    var longer := finished + [id];
    forall k, d | 0 <= k < |longer| && Edge(nodes, longer[k], d) ensures d in longer[..k] {
      assert longer[..k] == finished[..k];
    }
  }

  /** The path from the second meeting of `id` back to itself is a cycle. */
  lemma MeetingAgain(nodes: seq<NodeState>, path: seq<string>, start: nat, id: string)
    requires start < |path| && path[start] == id && NoRepeats(path) && Walk(nodes, path)
             && Edge(nodes, path[|path| - 1], id)
    ensures ReportsCycle(nodes, Issue(Error, Some(id), Cycle, path[start..] + [id]))
  {
    var trail := path[start..] + [id];
    forall i | 0 <= i < |trail| - 1 ensures Edge(nodes, trail[i], trail[i + 1]) {
      if i < |trail| - 2 { assert Edge(nodes, path[start + i], path[start + i + 1]); }
    }
    assert trail[1..] == path[start + 1..] + [id];
  }

  /** The three-colour depth-first search. `path` holds the gray nodes, outermost first;
      `finished` lists the black ones as they were left. */
  class CycleSearch {
    const nodes: seq<NodeState>
    var color: map<string, Color>
    var path: seq<string>
    var issues: seq<Issue>
    ghost var finished: seq<string>

    ghost predicate Valid()
      reads this
    {
      && Coherent(nodes, color, path, finished)
      && (issues == [] ==> DependenciesFirst(nodes, finished))
      && forall i :: 0 <= i < |issues| ==> ReportsCycle(nodes, issues[i])
    }

    constructor (nodes: seq<NodeState>)
      ensures Valid() && this.nodes == nodes && path == [] && issues == [] && finished == []
    {
      this.nodes := nodes;
      var ids := set n | n in nodes :: n.id;
      color := map id | id in ids :: White;
      path, issues, finished := [], [], [];
      new;
      assert forall id :: Known(nodes, id) ==> nodes[Find(nodes, id)] in nodes;
      assert forall id :: id in ids ==> exists i :: 0 <= i < |nodes| && nodes[i].id == id;
    }

    /** Visits a node the innermost gray node depends on. A gray node closes a cycle, which
        is reported; a black one is passed over; a white one is left black. */
    method Visit(id: string) returns (closed: bool)
      requires Valid() && id in color && (path != [] ==> Edge(nodes, path[|path| - 1], id))
      modifies this
      ensures Valid() && path == old(path) && old(issues) <= issues && old(finished) <= finished
              && Whites(color) <= old(Whites(color))
      ensures closed == old(color[id].Gray?) && (closed ==> issues != []) && (!closed ==> id in finished)
      decreases Whites(color), 1
    {
      if color[id].Black? { return false; }
      if color[id].Gray? {
        Report(id);
        return true;
      }
      Enter(id);
      VisitDependencies(id);
      Leave(id);
      return false;
    }

    method Enter(id: string)
      requires Valid() && id in color && color[id].White? && (path != [] ==> Edge(nodes, path[|path| - 1], id))
      modifies this
      ensures Valid() && path == old(path) + [id] && issues == old(issues) && finished == old(finished)
      ensures id in color && Whites(color) == old(Whites(color)) - {id}
    {
      Entering(nodes, color, path, finished, id);
      color, path := color[id := Gray], path + [id];
    }

    method VisitDependencies(id: string)
      requires Valid() && path != [] && path[|path| - 1] == id && id in color
      modifies this
      ensures Valid() && path == old(path) && old(issues) <= issues && old(finished) <= finished
              && Whites(color) <= old(Whites(color))
      ensures issues == [] ==> forall d :: Edge(nodes, id, d) ==> d in finished
      decreases Whites(color), 2
    {
      var dependencies := DependenciesOf(nodes, id);
      var k := 0;
      while k < |dependencies|
        invariant k <= |dependencies| && Valid() && path == old(path)
        invariant old(issues) <= issues && old(finished) <= finished && Whites(color) <= old(Whites(color))
        invariant issues == [] ==>
                    forall j :: 0 <= j < k && Known(nodes, dependencies[j]) ==> dependencies[j] in finished
      {
        if dependencies[k] in color {
          var _ := Visit(dependencies[k]);
        }
        k := k + 1;
      }
    }

    /** Starts a search from every node not yet visited. */
    method VisitAll()
      requires Valid() && path == [] && issues == [] && finished == []
      modifies this
      ensures Valid() && path == []
      ensures forall j :: 0 <= j < |nodes| ==> nodes[j].id in finished
    {
      var k := 0;
      while k < |nodes|
        invariant k <= |nodes| && Valid() && path == []
        invariant forall j :: 0 <= j < k ==> nodes[j].id in finished
      {
        assert Known(nodes, nodes[k].id);
        if color[nodes[k].id].White? {
          var _ := Visit(nodes[k].id);
        }
        k := k + 1;
      }
    }

    /** The gray node `id` has been met again: the path from it on is a cycle. */
    method Report(id: string)
      requires Valid() && id in path && Edge(nodes, path[|path| - 1], id)
      modifies this`issues
      ensures Valid() && |issues| == |old(issues)| + 1 && old(issues) <= issues
    {
      var start := 0;
      while path[start] != id
        invariant 0 <= start < |path| && id in path[start..]
        decreases |path| - start
      {
        assert path[start..] == [path[start]] + path[start + 1..];
        start := start + 1;
      }
      MeetingAgain(nodes, path, start, id);
      issues := issues + [Issue(Error, Some(id), Cycle, path[start..] + [id])];
    }

    method Leave(id: string)
      requires Valid() && path != [] && path[|path| - 1] == id
      requires issues == [] ==> forall d :: Edge(nodes, id, d) ==> d in finished
      modifies this
      ensures Valid() && path == old(path[..|path| - 1]) && issues == old(issues) && finished == old(finished) + [id]
      ensures Whites(color) == old(Whites(color))
    {
      assert path == path[..|path| - 1] + [id];
      Leaving(nodes, color, path[..|path| - 1], finished, id);
      if issues == [] { LeavingKeepsOrder(nodes, finished, id); }
      path, color, finished := path[..|path| - 1], color[id := Black], finished + [id];
    }
  }

  /** Sound and complete: every report is a genuine simple cycle, nothing is reported just
      when there is no closed walk at all, and then the order in which the search left the
      nodes lists everything after what it depends on. */
  method CheckCycles(nodes: seq<NodeState>) returns (issues: seq<Issue>, ghost order: seq<string>)
    ensures forall i :: 0 <= i < |issues| ==> ReportsCycle(nodes, issues[i])
    ensures issues == [] <==> Acyclic(nodes)
    ensures ErrorFree(issues) <==> issues == []
    ensures issues == [] ==> TopologicalOrder(nodes, order)
  {
    var search := new CycleSearch(nodes);
    search.VisitAll();
    issues, order := search.issues, search.finished;
    if issues == [] {
      assert forall id :: Known(nodes, id) ==> nodes[Find(nodes, id)].id == id;
      OrderedMeansAcyclic(nodes, order);
    } else {
      assert ClosedWalk(nodes, issues[0].names) && issues[0] in issues;
    }
  }

  // ----- the other checks -----

  function CheckNonEmpty(nodes: seq<NodeState>): seq<Issue> {
    if nodes == [] then [Issue(Error, None, NonEmpty, [])] else []
  }

  /** The ids of the nodes beyond the first of their id, in order. */
  function Repeats(nodes: seq<NodeState>): seq<string> {
    if nodes == [] then []
    else
      var n := |nodes| - 1;
      Repeats(nodes[..n]) + if Known(nodes[..n], nodes[n].id) then [nodes[n].id] else []
  }

  function IdsOf(nodes: seq<NodeState>): set<string> {
    set n | n in nodes :: n.id
  }

  lemma IdsAreKnown(nodes: seq<NodeState>)
    ensures forall id :: id in IdsOf(nodes) <==> Known(nodes, id)
  {
    forall id ensures id in IdsOf(nodes) <==> Known(nodes, id) {
      if Known(nodes, id) { assert nodes[Find(nodes, id)] in nodes; }
    }
  }

  lemma IdsOfOneMore(nodes: seq<NodeState>, n: NodeState)
    ensures IdsOf(nodes + [n]) == IdsOf(nodes) + {n.id}
    ensures n.id in IdsOf(nodes) <==> Known(nodes, n.id)
  {
    IdsAreKnown(nodes);
  }

  lemma UniqueIdsOneMore(nodes: seq<NodeState>, n: NodeState)
    ensures UniqueIds(nodes + [n]) <==> UniqueIds(nodes) && !Known(nodes, n.id)
  {
    var longer, i := nodes + [n], Find(nodes, n.id);
    assert forall j :: 0 <= j < |nodes| ==> longer[j] == nodes[j];
    if i >= 0 { assert longer[i].id == longer[|nodes|].id; }
  }

  lemma {:induction false} RepeatsAreTheSurplus(nodes: seq<NodeState>)
    ensures |Repeats(nodes)| + |IdsOf(nodes)| == |nodes|
    ensures Repeats(nodes) == [] <==> UniqueIds(nodes)
  {
    if nodes != [] {
      var before, last := nodes[..|nodes| - 1], nodes[|nodes| - 1];
      RepeatsAreTheSurplus(before);
      assert nodes == before + [last];
      IdsOfOneMore(before, last);
      UniqueIdsOneMore(before, last);
    }
  }

  method CheckUniqueness(nodes: seq<NodeState>) returns (issues: seq<Issue>)
    ensures |issues| == |Repeats(nodes)|
    ensures forall i :: 0 <= i < |issues| ==>
              issues[i] == Issue(Error, Some(Repeats(nodes)[i]), Uniqueness, [Repeats(nodes)[i]])
    ensures ErrorFree(issues) <==> UniqueIds(nodes)
  {
    issues := [];
    var seen: set<string>, k := {}, 0;
    while k < |nodes|
      invariant k <= |nodes| && |issues| == |Repeats(nodes[..k])|
      invariant forall id :: id in seen <==> Known(nodes[..k], id)
      invariant forall i :: 0 <= i < |issues| ==>
                  issues[i] == Issue(Error, Some(Repeats(nodes[..k])[i]), Uniqueness, [Repeats(nodes[..k])[i]])
    {
      var id := nodes[k].id;
      assert nodes[..k + 1][..k] == nodes[..k];
      if id in seen {
        issues := issues + [Issue(Error, Some(id), Uniqueness, [id])];
      }
      seen := seen + {id};
      k := k + 1;
    }
    assert nodes[..k] == nodes;
    RepeatsAreTheSurplus(nodes);
    assert issues != [] ==> issues[0] in issues;
  }

  /** What a check that looks at one node at a time reports over a whole list. */
  function Collect(nodes: seq<NodeState>, per: NodeState -> seq<Issue>): seq<Issue>
    decreases |nodes|
  {
    if nodes == [] then [] else Collect(nodes[..|nodes| - 1], per) + per(nodes[|nodes| - 1])
  }

  lemma {:induction false} CollectErrorFree(nodes: seq<NodeState>, per: NodeState -> seq<Issue>)
    ensures ErrorFree(Collect(nodes, per)) <==> forall n :: n in nodes ==> ErrorFree(per(n))
    decreases |nodes|
  {
    if nodes != [] {
      var k := |nodes| - 1;
      CollectErrorFree(nodes[..k], per);
      assert nodes == nodes[..k] + [nodes[k]];
      assert ErrorFree(Collect(nodes, per)) <==> ErrorFree(Collect(nodes[..k], per)) && ErrorFree(per(nodes[k]));
    }
  }

  function DanglingIssues(nodes: seq<NodeState>, id: string, dependencies: seq<string>): (issues: seq<Issue>)
    ensures ErrorFree(issues) <==> forall d :: d in dependencies ==> Known(nodes, d)
    decreases |dependencies|
  {
    if dependencies == [] then []
    else
      var k := |dependencies| - 1;
      assert dependencies == dependencies[..k] + [dependencies[k]];
      var before := DanglingIssues(nodes, id, dependencies[..k]);
      var missing := Issue(Error, Some(id), Dependency, [dependencies[k]]);
      assert missing in before + [missing];
      before + if Known(nodes, dependencies[k]) then [] else [missing]
  }

  function DependencyIssues(nodes: seq<NodeState>): NodeState -> seq<Issue> {
    (n: NodeState) => DanglingIssues(nodes, n.id, n.dependsOn)
  }

  lemma DependencyIssuesTell(nodes: seq<NodeState>)
    ensures ErrorFree(Collect(nodes, DependencyIssues(nodes))) <==> NothingDangles(nodes)
  {
    CollectErrorFree(nodes, DependencyIssues(nodes));
    assert forall n: NodeState :: DependencyIssues(nodes)(n) == DanglingIssues(nodes, n.id, n.dependsOn);
  }

  method CheckDependencyValidity(nodes: seq<NodeState>) returns (issues: seq<Issue>)
    ensures issues == Collect(nodes, DependencyIssues(nodes))
    ensures ErrorFree(issues) <==> NothingDangles(nodes)
  {
    var nodeIds := IdsOf(nodes);
    IdsAreKnown(nodes);
    issues := [];
    var k := 0;
    while k < |nodes|
      invariant k <= |nodes| && issues == Collect(nodes[..k], DependencyIssues(nodes))
    {
      assert nodes[..k + 1][..k] == nodes[..k];
      var found := CheckDependencies(nodes, nodeIds, nodes[k]);
      issues := issues + found;
      k := k + 1;
    }
    assert nodes[..k] == nodes;
    DependencyIssuesTell(nodes);
  }

  method CheckDependencies(nodes: seq<NodeState>, nodeIds: set<string>, node: NodeState) returns (issues: seq<Issue>)
    requires forall id :: id in nodeIds <==> Known(nodes, id)
    ensures issues == DanglingIssues(nodes, node.id, node.dependsOn)
  {
    issues := [];
    var d := 0;
    while d < |node.dependsOn|
      invariant d <= |node.dependsOn| && issues == DanglingIssues(nodes, node.id, node.dependsOn[..d])
    {
      assert node.dependsOn[..d + 1][..d] == node.dependsOn[..d];
      if node.dependsOn[d] !in nodeIds {
        issues := issues + [Issue(Error, Some(node.id), Dependency, [node.dependsOn[d]])];
      }
      d := d + 1;
    }
    assert node.dependsOn[..d] == node.dependsOn;
  }

  function TrackerIssues(n: NodeState): seq<Issue> {
    if n.steps == 0 then [Issue(Error, Some(n.id), Tracker, [])] else []
  }

  /** An empty list of requirements is an error, a requirement without a kind a warning;
      a node without a packet is passed over here. */
  function VerificationIssues(n: NodeState): seq<Issue> {
    if n.packet.None? then []
    else if n.packet.value.kindGiven == [] then [Issue(Error, Some(n.id), Verification, [])]
    else KindIssues(n.id, n.packet.value.kindGiven)
  }

  function KindIssues(id: string, kindGiven: seq<bool>): (issues: seq<Issue>)
    ensures ErrorFree(issues)
    ensures issues == [] <==> false !in kindGiven
    decreases |kindGiven|
  {
    if kindGiven == [] then []
    else
      var k := |kindGiven| - 1;
      assert kindGiven == kindGiven[..k] + [kindGiven[k]];
      KindIssues(id, kindGiven[..k]) + if kindGiven[k] then [] else [Issue(Warning, Some(id), Verification, [])]
  }

  method CheckEach(nodes: seq<NodeState>, per: NodeState -> seq<Issue>) returns (issues: seq<Issue>)
    ensures issues == Collect(nodes, per)
    ensures ErrorFree(issues) <==> forall n :: n in nodes ==> ErrorFree(per(n))
  {
    issues := [];
    var k := 0;
    while k < |nodes|
      invariant k <= |nodes| && issues == Collect(nodes[..k], per)
    {
      assert nodes[..k + 1][..k] == nodes[..k];
      issues := issues + per(nodes[k]);
      k := k + 1;
    }
    assert nodes[..k] == nodes;
    CollectErrorFree(nodes, per);
  }

  // ----- the report -----

  datatype Report = Report(issues: seq<Issue>, errors: seq<Issue>, warnings: seq<Issue>, isClean: bool, highRisk: bool)

  function OfSeverity(issues: seq<Issue>, severity: Severity): seq<Issue> {
    if issues == [] then []
    else (if issues[0].severity == severity then [issues[0]] else []) + OfSeverity(issues[1..], severity)
  }

  function MakeReport(issues: seq<Issue>): Report {
    var errors := OfSeverity(issues, Error);
    Report(issues, errors, OfSeverity(issues, Warning), errors == [], errors != [])
  }

  /** The report splits the issues without losing one, and is clean when none is an error. */
  lemma {:induction false} ReportLosesNothing(issues: seq<Issue>)
    ensures var r := MakeReport(issues);
            multiset(r.errors) + multiset(r.warnings) == multiset(issues) && (r.isClean <==> ErrorFree(issues))
            && r.highRisk == !r.isClean
  {
    if issues != [] {
      assert issues == [issues[0]] + issues[1..];
      ReportLosesNothing(issues[1..]);
    }
  }

  /** Every node has a tracker with steps and, with a packet, something to verify. */
  ghost predicate Equipped(nodes: seq<NodeState>) {
    forall n :: n in nodes ==> n.steps > 0 && (n.packet.Some? ==> n.packet.value.kindGiven != [])
  }

  /** Some requirement of some node is of no kind. */
  ghost predicate KindMissing(nodes: seq<NodeState>) {
    exists n :: n in nodes && n.packet.Some? && false in n.packet.value.kindGiven
  }

  ghost predicate Warns(issues: seq<Issue>) {
    exists issue :: issue in issues && issue.severity.Warning?
  }

  lemma KindIssuesWarn(id: string, kindGiven: seq<bool>)
    ensures Warns(KindIssues(id, kindGiven)) <==> false in kindGiven
  {
    var issues := KindIssues(id, kindGiven);
    if issues != [] { assert issues[0] in issues; }
  }

  lemma {:induction false} CollectWarns(nodes: seq<NodeState>, per: NodeState -> seq<Issue>)
    ensures Warns(Collect(nodes, per)) <==> exists n :: n in nodes && Warns(per(n))
    decreases |nodes|
  {
    if nodes != [] {
      var k := |nodes| - 1;
      CollectWarns(nodes[..k], per);
      assert nodes == nodes[..k] + [nodes[k]];
      WarnsSum(Collect(nodes[..k], per), per(nodes[k]));
    }
  }

  lemma WarnsSum(a: seq<Issue>, b: seq<Issue>)
    ensures Warns(a + b) <==> Warns(a) || Warns(b)
  {
    assert forall issue :: issue in a + b <==> issue in a || issue in b;
  }

  lemma EquipmentWarns(nodes: seq<NodeState>)
    ensures Warns(Collect(nodes, TrackerIssues) + Collect(nodes, VerificationIssues)) <==> KindMissing(nodes)
  {
    WarnsSum(Collect(nodes, TrackerIssues), Collect(nodes, VerificationIssues));
    CollectWarns(nodes, TrackerIssues);
    CollectWarns(nodes, VerificationIssues);
    forall n: NodeState
      ensures Warns(VerificationIssues(n)) <==> n.packet.Some? && false in n.packet.value.kindGiven
    {
      if n.packet.Some? { KindIssuesWarn(n.id, n.packet.value.kindGiven); }
    }
  }

  /** First the nodes without steps, then what their requirements lack, node by node. */
  method CheckEquipment(nodes: seq<NodeState>) returns (issues: seq<Issue>)
    ensures issues == Collect(nodes, TrackerIssues) + Collect(nodes, VerificationIssues)
    ensures ErrorFree(issues) <==> Equipped(nodes)
    ensures Warns(issues) <==> KindMissing(nodes)
  {
    var trackers := CheckEach(nodes, TrackerIssues);
    var verification := CheckEach(nodes, VerificationIssues);
    issues := trackers + verification;
    EquipmentWarns(nodes);
    assert forall n: NodeState :: ErrorFree(TrackerIssues(n)) <==> n.steps > 0 by {
      assert forall n: NodeState :: n.steps == 0 ==> TrackerIssues(n)[0] in TrackerIssues(n);
    }
    assert forall n: NodeState ::
        ErrorFree(VerificationIssues(n)) <==> (n.packet.Some? ==> n.packet.value.kindGiven != [])
    by {
      assert forall n: NodeState ::
          n.packet.Some? && n.packet.value.kindGiven == [] ==> VerificationIssues(n)[0] in VerificationIssues(n);
    }
    ErrorFreeSum(trackers, verification);
  }

  /** What a clean plan is. */
  ghost predicate Executable(nodes: seq<NodeState>) {
    nodes != [] && UniqueIds(nodes) && Acyclic(nodes) && NothingDangles(nodes) && Equipped(nodes)
  }

  lemma ErrorFreeSum(a: seq<Issue>, b: seq<Issue>)
    ensures ErrorFree(a + b) <==> ErrorFree(a) && ErrorFree(b)
  {
    assert forall issue :: issue in a + b <==> issue in a || issue in b;
  }

  method ValidatePlan(nodes: seq<NodeState>) returns (report: Report, ghost order: seq<string>)
    ensures report.isClean <==> Executable(nodes)
    ensures report.isClean ==> TopologicalOrder(nodes, order)
    ensures multiset(report.errors) + multiset(report.warnings) == multiset(report.issues)
  {
    var issues := CheckNonEmpty(nodes);
    assert nodes == [] ==> issues[0] in issues;
    var found := CheckUniqueness(nodes);
    ErrorFreeSum(issues, found);
    issues := issues + found;
    found, order := CheckCycles(nodes);
    ErrorFreeSum(issues, found);
    issues := issues + found;
    found := CheckDependencyValidity(nodes);
    ErrorFreeSum(issues, found);
    issues := issues + found;
    found := CheckEquipment(nodes);
    ErrorFreeSum(issues, found);
    issues := issues + found;
    report := MakeReport(issues);
    ReportLosesNothing(issues);
  }
}
