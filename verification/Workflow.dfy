/** The workflow document: nodes, port-indexed connections, and what the validator accepts. */
module Workflows {
  import opened Wrappers
  import opened Filtering
  import opened Sorting

  type Id = string

  /** JSON values. Numbers are exact reals: rounding and number syntax are outside the model. */
  datatype Json =
    | JNull
    | JBool(b: bool)
    | JNum(n: real)
    | JStr(s: string)
    | JArr(elements: seq<Json>)
    | JObj(fields: map<string, Json>)

  datatype Kind =
    | WebhookTrigger | ScheduleTrigger | HttpRequest | McpToolCall | Transform | Branch | Switch
    | Loop | Merge | Wait | SubWorkflow | LlmCall | CodeStep | Approval
  {
    predicate IsTrigger() { WebhookTrigger? || ScheduleTrigger? }

    /** Number of output ports; None for the one kind whose ports depend on its parameters. */
    function PortCount(): Option<nat> {
      match this
      case Branch => Some(2)
      case Loop => Some(2)
      case Approval => Some(2)
      case Switch => None
      case _ => Some(1)
    }
  }

  datatype RetryPolicy = RetryPolicy(maxAttempts: nat, backoffMs: nat)

  datatype ErrorPolicy = Stop | Continue | Route

  datatype Node = Node(
    id: Id,
    kind: Kind,
    params: Json,
    retry: Option<RetryPolicy>,
    onError: Option<ErrorPolicy>)

  datatype Connection = Connection(fromNode: Id, fromPort: nat, toNode: Id)

  datatype Workflow = Workflow(
    schemaVersion: nat,
    id: Id,
    name: string,
    nodes: seq<Node>,
    connections: seq<Connection>)

  const SCHEMA_VERSION: nat := 1

  function Ids(w: Workflow): set<Id> {
    set n | n in w.nodes :: n.id
  }

  ghost predicate UniqueIds(w: Workflow) {
    forall i, j :: 0 <= i < j < |w.nodes| ==> w.nodes[i].id != w.nodes[j].id
  }

  function FindNode(nodes: seq<Node>, n: Id): (r: Option<Node>)
    ensures r.Some? ==> r.value in nodes && r.value.id == n
    ensures r.None? ==> forall x :: x in nodes ==> x.id != n
  {
    if nodes == [] then None
    else if nodes[0].id == n then Some(nodes[0])
    else FindNode(nodes[1..], n)
  }

  function NodeOf(w: Workflow, n: Id): (r: Node)
    requires n in Ids(w)
    ensures r in w.nodes && r.id == n
  {
    FindNode(w.nodes, n).value
  }

  lemma NodeOfSelf(w: Workflow, node: Node)
    requires UniqueIds(w) && node in w.nodes
    ensures node.id in Ids(w) && NodeOf(w, node.id) == node
  {
    var r := NodeOf(w, node.id);
    var i :| 0 <= i < |w.nodes| && w.nodes[i] == r;
    var j :| 0 <= j < |w.nodes| && w.nodes[j] == node;
    assert i == j;
  }

  function OtherThan(id: Id): Node -> bool { (n: Node) => n.id != id }

  function Without(nodes: seq<Node>, id: Id): (r: seq<Node>)
    ensures forall n :: n in r <==> n in nodes && n.id != id
  {
    Keep(OtherThan(id), nodes)
  }

  function Edges(w: Workflow): set<(Id, Id)> {
    set c | c in w.connections :: (c.fromNode, c.toNode)
  }

  function Producers(w: Workflow, n: Id): set<Id> {
    set c | c in w.connections && c.toNode == n :: c.fromNode
  }

  /** The first trigger in declaration order, as the engine selects it. */
  function FindTrigger(nodes: seq<Node>): (r: Option<Node>)
    ensures r.Some? ==> r.value in nodes && r.value.kind.IsTrigger()
    ensures r.None? ==> forall x :: x in nodes ==> !x.kind.IsTrigger()
  {
    if nodes == [] then None
    else if nodes[0].kind.IsTrigger() then Some(nodes[0])
    else FindTrigger(nodes[1..])
  }

  ghost predicate StartsRuns(node: Node) { node.kind.WebhookTrigger? || node.kind.ScheduleTrigger? }

  /** It is a trigger, and no node declared before it is one. */
  lemma {:induction false} TriggerIsFirst(nodes: seq<Node>) returns (i: nat)
    ensures i <= |nodes| && forall j :: 0 <= j < i ==> !StartsRuns(nodes[j])
    ensures FindTrigger(nodes) == if i < |nodes| then Some(nodes[i]) else None
    ensures i < |nodes| ==> StartsRuns(nodes[i])
  {
    if nodes == [] || nodes[0].kind.IsTrigger() {
      i := 0;
    } else {
      var k := TriggerIsFirst(nodes[1..]);
      i := k + 1;
      forall j | 0 <= j < i ensures !StartsRuns(nodes[j]) {
        if j > 0 { assert nodes[j] == nodes[1..][j - 1]; }
      }
    }
  }

  /** Output ports: two for Branch, Loop and Approval, any number for Switch, one for every other kind. */
  lemma PortsOf(kind: Kind)
    ensures kind.PortCount() ==
      if kind == Branch || kind == Loop || kind == Approval then Some(2)
      else if kind == Switch then None else Some(1)
    ensures kind.IsTrigger() <==> kind == WebhookTrigger || kind == ScheduleTrigger
  {}

  /** A rank that strictly rises along every connection: a certificate of acyclicity. */
  ghost predicate IsRank(w: Workflow, rank: map<Id, nat>) {
    && Ids(w) <= rank.Keys
    && forall c :: c in w.connections && c.fromNode in rank && c.toNode in rank
         ==> rank[c.fromNode] < rank[c.toNode]
  }

  ghost predicate Acyclic(w: Workflow) {
    exists rank :: IsRank(w, rank)
  }

  ghost function RankOf(w: Workflow): (rank: map<Id, nat>)
    requires Acyclic(w)
    ensures IsRank(w, rank)
  {
    var rank :| IsRank(w, rank);
    rank
  }

  ghost predicate NoDangling(w: Workflow) {
    forall c :: c in w.connections ==> c.fromNode in Ids(w) && c.toNode in Ids(w)
  }

  ghost predicate PortsInRange(w: Workflow) {
    forall c :: c in w.connections && c.fromNode in Ids(w) ==>
      var count := NodeOf(w, c.fromNode).kind.PortCount();
      count.Some? ==> c.fromPort < count.value
  }

  ghost predicate OneTrigger(w: Workflow) {
    && (exists t :: t in w.nodes && t.kind.IsTrigger())
    && (forall i, j :: 0 <= i < j < |w.nodes| ==> !(w.nodes[i].kind.IsTrigger() && w.nodes[j].kind.IsTrigger()))
  }

  ghost predicate TriggersHaveNoProducer(w: Workflow) {
    forall c, n :: c in w.connections && n in w.nodes && n.id == c.toNode ==> !n.kind.IsTrigger()
  }

  /** The structural part of what the validator reports as an error. Per-kind parameter checks
      only reject more workflows. */
  ghost predicate Valid(w: Workflow) {
    && w.schemaVersion == SCHEMA_VERSION
    && UniqueIds(w)
    && OneTrigger(w)
    && NoDangling(w)
    && PortsInRange(w)
    && Acyclic(w)
    && TriggersHaveNoProducer(w)
  }

  ghost function TriggerId(w: Workflow): (t: Id)
    requires Valid(w)
    ensures t in Ids(w)
  {
    FindTrigger(w.nodes).value.id
  }

  lemma TriggerIsUnique(w: Workflow, n: Node)
    requires Valid(w) && n in w.nodes && n.kind.IsTrigger()
    ensures TriggerId(w) == n.id
  {
    var t := FindTrigger(w.nodes).value;
    var i :| 0 <= i < |w.nodes| && w.nodes[i] == t;
    var j :| 0 <= j < |w.nodes| && w.nodes[j] == n;
    assert i == j;
  }

  // ---- Reachability ----

  ghost predicate IsWalk(w: Workflow, p: seq<Id>) {
    && p != []
    && forall i :: 0 <= i < |p| - 1 ==> (p[i], p[i + 1]) in Edges(w)
  }

  ghost predicate WalkFromTo(w: Workflow, p: seq<Id>, a: Id, b: Id) {
    IsWalk(w, p) && p[0] == a && p[|p| - 1] == b
  }

  ghost predicate Reaches(w: Workflow, a: Id, b: Id) {
    exists p :: WalkFromTo(w, p, a, b)
  }

  ghost predicate Reachable(w: Workflow, n: Id)
    requires Valid(w)
  {
    Reaches(w, TriggerId(w), n)
  }

  lemma ReachesSelf(w: Workflow, a: Id)
    ensures Reaches(w, a, a)
  {
    assert WalkFromTo(w, [a], a, a);
  }

  lemma ReachesStep(w: Workflow, a: Id, b: Id, c: Id)
    requires Reaches(w, a, b) && (b, c) in Edges(w)
    ensures Reaches(w, a, c)
  {
    var p :| WalkFromTo(w, p, a, b);
    assert WalkFromTo(w, p + [c], a, c);
  }

  lemma ReachesPred(w: Workflow, a: Id, c: Id) returns (b: Id)
    requires Reaches(w, a, c) && a != c
    ensures Reaches(w, a, b) && (b, c) in Edges(w)
  {
    var p :| WalkFromTo(w, p, a, c);
    var k := |p| - 2;
    b := p[k];
    assert (p[k], p[k + 1]) in Edges(w);
    assert WalkFromTo(w, p[..k + 1], a, b);
  }

  /** A set that holds `a` and is closed under edges holds everything `a` reaches. */
  lemma {:induction false} ClosedHoldsReachable(w: Workflow, closed: set<Id>, p: seq<Id>)
    requires IsWalk(w, p) && p[0] in closed
    requires forall e :: e in Edges(w) && e.0 in closed ==> e.1 in closed
    ensures p[|p| - 1] in closed
  {
    if |p| > 1 {
      var q := p[..|p| - 1];
      ClosedHoldsReachable(w, closed, q);
      assert (p[|p| - 2], p[|p| - 1]) in Edges(w);
    }
  }

  /** Along a walk of a ranked workflow the rank rises by at least one per edge, so no walk closes. */
  lemma {:induction false} RankRisesAlongWalk(w: Workflow, rank: map<Id, nat>, p: seq<Id>)
    requires IsRank(w, rank) && NoDangling(w) && IsWalk(w, p) && p[0] in Ids(w)
    ensures p[|p| - 1] in Ids(w) && rank[p[|p| - 1]] >= rank[p[0]] + |p| - 1
  {
    if |p| > 1 {
      var q := p[..|p| - 1];
      RankRisesAlongWalk(w, rank, q);
      assert (p[|p| - 2], p[|p| - 1]) in Edges(w);
    }
  }

  /** Reachability, one edge at a time. */
  lemma ReachableLocally(w: Workflow, n: Id)
    requires Valid(w)
    ensures Reachable(w, n) <==> n == TriggerId(w) || exists p :: p in Producers(w, n) && Reachable(w, p)
  {
    hide Valid;
    if n == TriggerId(w) {
      ReachesSelf(w, n);
    } else if Reachable(w, n) {
      var p := ReachesPred(w, TriggerId(w), n);
      var c :| c in w.connections && c.fromNode == p && c.toNode == n;
      assert p in Producers(w, n);
    } else if p :| p in Producers(w, n) && Reachable(w, p) {
      ReachesStep(w, TriggerId(w), p, n);
    }
  }
}
