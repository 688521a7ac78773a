/** Items: payload, lineage edge and output port. */
module Items {
  import opened Workflows

  datatype ItemSource = FromTrigger | Produced(nodeId: Id, itemIndex: nat)

  datatype Item = Item(json: Json, source: ItemSource, port: nat)

  function Root(json: Json): Item { Item(json, FromTrigger, 0) }

  function Roots(payloads: seq<Json>): seq<Item> {
    seq(|payloads|, i requires 0 <= i < |payloads| => Root(payloads[i]))
  }

  /** The engine owns lineage: whatever source an executor set is overwritten. */
  function Stamp(n: Id, items: seq<Item>): (r: seq<Item>)
    ensures |r| == |items|
    ensures forall i :: 0 <= i < |r| ==>
      r[i].source == Produced(n, i) && r[i].json == items[i].json && r[i].port == items[i].port
  {
    seq(|items|, i requires 0 <= i < |items| => items[i].(source := Produced(n, i)))
  }
}

/** What a run computes, defined by recursion on the workflow graph, with no scheduler in sight. */
module Semantics {
  import opened Wrappers
  import opened Sorting
  import opened Strings
  import opened Workflows
  import opened Items

  datatype Mode = Run | DryRun

  datatype NodeError = NotImplemented(msg: string) | BadParams(msg: string) | Http(msg: string) | Runtime(msg: string)

  type Reply = Result<seq<Item>, NodeError>

  /** How the executors answer: a reply for every node, mode, attempt number and input. An answer
      may differ from one attempt to the next, so flaky executors are covered. */
  type Oracle = (Node, Mode, nat, seq<Item>) -> Reply

  /** Everything a run depends on. `pinned` holds the outputs hydrated from an earlier run. */
  datatype Job = Job(wf: Workflow, oracle: Oracle, mode: Mode, seed: seq<Json>, pinned: map<Id, seq<Item>>)

  // ---- Fan-in ----

  datatype Edge = Edge(fromNode: Id, fromPort: nat)

  predicate EdgeLe(a: Edge, b: Edge) {
    if a.fromNode != b.fromNode then StrLe(a.fromNode, b.fromNode) else a.fromPort <= b.fromPort
  }

  lemma EdgeLeIsTotalOrder()
    ensures TotalOrder(EdgeLe)
  {
    StrLeIsTotalOrder();
    forall a, b ensures EdgeLe(a, b) || EdgeLe(b, a) {
      assert StrLe(a.fromNode, b.fromNode) || StrLe(b.fromNode, a.fromNode);
    }
    forall a, b | EdgeLe(a, b) && EdgeLe(b, a) ensures a == b {
      if a.fromNode != b.fromNode { StrLeAntisymmetric(a.fromNode, b.fromNode); }
    }
    forall a, b, c | EdgeLe(a, b) && EdgeLe(b, c) ensures EdgeLe(a, c) {
      EdgeLeTransitive(a, b, c);
    }
  }

  lemma EdgeLeTransitive(a: Edge, b: Edge, c: Edge)
    requires EdgeLe(a, b) && EdgeLe(b, c)
    ensures EdgeLe(a, c)
  {
    if a.fromNode != b.fromNode && b.fromNode != c.fromNode {
      StrLeTransitive(a.fromNode, b.fromNode, c.fromNode);
      if a.fromNode == c.fromNode { StrLeAntisymmetric(a.fromNode, b.fromNode); }
    }
  }

  /** Append an edge unless it is already there. */
  function AddEdge(bucket: seq<Edge>, e: Edge): (r: seq<Edge>)
    requires NoDup(bucket)
    ensures NoDup(r) && (forall x :: x in r <==> x in bucket || x == e)
  {
    if e in bucket then bucket else bucket + [e]
  }

  /** The incoming edges of `n` in declaration order, each (producer, port) once. */
  function EdgeList(conns: seq<Connection>, n: Id): (r: seq<Edge>)
    ensures NoDup(r)
    ensures forall e :: e in r <==> Connection(e.fromNode, e.fromPort, n) in conns
  {
    if conns == [] then []
    else
      var c := conns[|conns| - 1];
      var before := EdgeList(conns[..|conns| - 1], n);
      assert conns == conns[..|conns| - 1] + [c];
      if c.toNode == n then AddEdge(before, Edge(c.fromNode, c.fromPort)) else before
  }

  /** The order in which inputs are gathered. */
  function FanIn(w: Workflow, n: Id): (r: seq<Edge>)
    ensures forall e :: e in r <==> Connection(e.fromNode, e.fromPort, n) in w.connections
  {
    var r := Sort(EdgeList(w.connections, n), EdgeLe);
    SameMultisetSameElements(r, EdgeList(w.connections, n));
    r
  }

  lemma FanInSorted(w: Workflow, n: Id)
    ensures Sorted(FanIn(w, n), EdgeLe) && NoDup(FanIn(w, n))
  {
    EdgeLeIsTotalOrder();
    SortSorted(EdgeList(w.connections, n), EdgeLe);
    SortNoDup(EdgeList(w.connections, n), EdgeLe);
  }

  /** Permuting or repeating connections leaves every fan-in list unchanged. */
  lemma FanInOrderFree(w: Workflow, v: Workflow, n: Id)
    requires forall c :: c in w.connections <==> c in v.connections
    ensures FanIn(w, n) == FanIn(v, n)
  {
    FanInSorted(w, n);
    FanInSorted(v, n);
    EdgeLeIsTotalOrder();
    SortedUnique(FanIn(w, n), FanIn(v, n), EdgeLe);
  }

  function OnPort(items: seq<Item>, port: nat): (r: seq<Item>)
    ensures forall x :: x in r <==> x in items && x.port == port
  {
    if items == [] then []
    else if items[|items| - 1].port == port then OnPort(items[..|items| - 1], port) + [items[|items| - 1]]
    else OnPort(items[..|items| - 1], port)
  }

  function Emitted(outs: map<Id, seq<Item>>, e: Edge): seq<Item> {
    if e.fromNode in outs then OnPort(outs[e.fromNode], e.fromPort) else []
  }

  function Gather(edges: seq<Edge>, outs: map<Id, seq<Item>>): seq<Item> {
    if edges == [] then []
    else Gather(edges[..|edges| - 1], outs) + Emitted(outs, edges[|edges| - 1])
  }

  /** The input of node `n` when its producers have emitted `outs`. */
  ghost function InputOf(job: Job, n: Id, outs: map<Id, seq<Item>>): seq<Item>
    requires Valid(job.wf)
  {
    if n == TriggerId(job.wf) then Roots(job.seed) else Gather(FanIn(job.wf, n), outs)
  }

  lemma {:induction false} GatherCongruence(edges: seq<Edge>, o1: map<Id, seq<Item>>, o2: map<Id, seq<Item>>)
    requires forall e :: e in edges ==> Emitted(o1, e) == Emitted(o2, e)
    ensures Gather(edges, o1) == Gather(edges, o2)
  {
    if edges != [] {
      assert edges[|edges| - 1] in edges;
      GatherCongruence(edges[..|edges| - 1], o1, o2);
    }
  }

  // ---- One node ----

  /** Attempts a node makes before it gives up: a dry run and a policy of 0 or 1 both mean one. */
  function MaxAttempts(mode: Mode, node: Node): (m: nat)
    ensures m >= 1
  {
    if mode.Run? && node.retry.Some? && node.retry.value.maxAttempts > 1
    then node.retry.value.maxAttempts else 1
  }

  /** The first successful attempt from number `k` on, else the last error. */
  function TryFrom(job: Job, node: Node, input: seq<Item>, k: nat): (r: Reply)
    requires 1 <= k <= MaxAttempts(job.mode, node)
    decreases MaxAttempts(job.mode, node) - k
  {
    var reply := job.oracle(node, job.mode, k, input);
    if reply.Ok? || k == MaxAttempts(job.mode, node) then reply else TryFrom(job, node, input, k + 1)
  }

  datatype Outcome =
    | Done(items: seq<Item>)     // the node has outputs, possibly none
    | Failed(error: NodeError)   // it failed under a policy that stops the run
    | Blocked                    // some producer failed or is itself blocked
    | Absent                     // not reachable from the trigger, never scheduled

  /** Restamp a success; turn a failure into no output (Continue) or into a stop. */
  function Settle(node: Node, reply: Reply): Outcome {
    match reply
    case Ok(items) => Done(Stamp(node.id, items))
    case Err(e) => if node.onError == Some(Continue) then Done([]) else Failed(e)
  }

  function Outputs(env: map<Id, Outcome>): map<Id, seq<Item>> {
    map p | p in env && env[p].Done? :: env[p].items
  }

  predicate Stuck(o: Outcome) { o.Failed? || o.Blocked? }

  /** A node with producers that receives nothing is skipped; its executor is not called. */
  predicate Starved(w: Workflow, n: Id, input: seq<Item>) {
    input == [] && FanIn(w, n) != []
  }

  ghost function Deliver(job: Job, n: Id, input: seq<Item>): Outcome
    requires Valid(job.wf) && n in Ids(job.wf)
  {
    if Starved(job.wf, n, input) then Done([])
    else Settle(NodeOf(job.wf, n), TryFrom(job, NodeOf(job.wf, n), input, 1))
  }

  ghost function StepOutcome(job: Job, n: Id, env: map<Id, Outcome>): Outcome
    requires Valid(job.wf) && n in Ids(job.wf)
  {
    if exists p :: p in env && Stuck(env[p]) then Blocked
    else Deliver(job, n, InputOf(job, n, Outputs(env)))
  }

  /** The denotation: what node `n` produces, by recursion on the acyclic graph. */
  ghost function Out(job: Job, n: Id): Outcome
    requires Valid(job.wf) && n in Ids(job.wf)
    decreases RankOf(job.wf)[n]
  {
    if n in job.pinned then Done(job.pinned[n])
    else if !Reachable(job.wf, n) then Absent
    else
      assert forall p :: p in Producers(job.wf, n) ==>
        p in Ids(job.wf) && RankOf(job.wf)[p] < RankOf(job.wf)[n];
      StepOutcome(job, n, map p | p in Producers(job.wf, n) :: Out(job, p))
  }

  lemma ProducersAreNodes(w: Workflow, n: Id)
    requires Valid(w)
    ensures Producers(w, n) <= Ids(w)
  {}

  ghost function ProducerOutcomes(job: Job, n: Id): map<Id, Outcome>
    requires Valid(job.wf)
  {
    map p | p in Producers(job.wf, n) && p in Ids(job.wf) :: Out(job, p)
  }

  lemma OutUnfold(job: Job, n: Id)
    requires Valid(job.wf) && n in Ids(job.wf) && n !in job.pinned && Reachable(job.wf, n)
    ensures Out(job, n) == StepOutcome(job, n, ProducerOutcomes(job, n))
  {
    assert forall p :: p in Producers(job.wf, n) ==> p in Ids(job.wf);
    assert (map p | p in Producers(job.wf, n) :: Out(job, p)) == ProducerOutcomes(job, n);
  }

  /** Nodes that are never scheduled. */
  lemma OutSettled(job: Job, n: Id)
    requires Valid(job.wf) && n in Ids(job.wf)
    ensures n in job.pinned ==> Out(job, n) == Done(job.pinned[n])
    ensures n !in job.pinned && !Reachable(job.wf, n) ==> Out(job, n) == Absent
  {}

  /** The outputs a completing run reports, as the denotation gives them. */
  ghost function FinalOutputs(job: Job): (r: map<Id, seq<Item>>)
    requires Valid(job.wf)
  {
    map n | n in Ids(job.wf) && Out(job, n).Done? :: Out(job, n).items
  }

  /** No node fails under a policy that stops the run. */
  ghost predicate Completes(job: Job)
    requires Valid(job.wf)
  {
    forall n :: n in Ids(job.wf) ==> !Out(job, n).Failed?
  }

  lemma StepFromOutputs(job: Job, n: Id, env: map<Id, Outcome>, outs: map<Id, seq<Item>>)
    requires Valid(job.wf) && n in Ids(job.wf) && env.Keys == Producers(job.wf, n)
    requires forall p :: p in env ==> if p in outs then env[p] == Done(outs[p]) else env[p] == Absent
    ensures StepOutcome(job, n, env) == Deliver(job, n, InputOf(job, n, outs))
  {
    hide Valid, FanIn;
    var edges := FanIn(job.wf, n);
    forall e | e in edges ensures Emitted(outs, e) == Emitted(Outputs(env), e) {
      assert Connection(e.fromNode, e.fromPort, n) in job.wf.connections;
      assert e.fromNode in env;
    }
    GatherCongruence(edges, outs, Outputs(env));
  }

  /** Outputs that agree with the denotation on the producers of `n` give `n` its input. */
  lemma InputFromOutputs(job: Job, n: Id, outs: map<Id, seq<Item>>)
    requires Valid(job.wf) && n in Ids(job.wf) && n !in job.pinned && Reachable(job.wf, n)
    requires forall p :: p in Producers(job.wf, n) ==>
      p in Ids(job.wf) && (if p in outs then Out(job, p) == Done(outs[p]) else Out(job, p) == Absent)
    ensures Out(job, n) == Deliver(job, n, InputOf(job, n, outs))
  {
    hide Valid, FanIn, StepOutcome;
    OutUnfold(job, n);
    StepFromOutputs(job, n, ProducerOutcomes(job, n), outs);
  }

  /** Without a Stop failure nothing is blocked. */
  lemma {:induction false} CompletesMeansUnblocked(job: Job, n: Id)
    requires Valid(job.wf) && Completes(job) && n in Ids(job.wf)
    ensures Out(job, n).Done? || Out(job, n).Absent?
    decreases RankOf(job.wf)[n]
  {
    hide Out, Deliver;
    OutSettled(job, n);
    if n !in job.pinned && Reachable(job.wf, n) {
      OutUnfold(job, n);
      var env := ProducerOutcomes(job, n);
      forall p | p in env ensures !Stuck(env[p]) {
        CompletesMeansUnblocked(job, p);
      }
      assert Out(job, n) == Deliver(job, n, InputOf(job, n, Outputs(env)));
      assert !Out(job, n).Failed?;
      DeliverNeverBlocks(job, n, InputOf(job, n, Outputs(env)));
    }
  }

  lemma DeliverNeverBlocks(job: Job, n: Id, input: seq<Item>)
    requires Valid(job.wf) && n in Ids(job.wf)
    ensures Deliver(job, n, input).Done? || Deliver(job, n, input).Failed?
  {}

  /** A failure blocks everything downstream that was not hydrated. */
  lemma FailureBlocksConsumer(job: Job, p: Id, n: Id)
    requires Valid(job.wf) && p in Ids(job.wf) && n in Ids(job.wf) && (p, n) in Edges(job.wf)
    requires Stuck(Out(job, p)) && n !in job.pinned
    ensures Out(job, n) == Blocked
  {
    StuckIsReachable(job, p);
    ReachesStep(job.wf, TriggerId(job.wf), p, n);
    OutUnfold(job, n);
    assert p in ProducerOutcomes(job, n);
  }

  lemma StuckIsReachable(job: Job, p: Id)
    requires Valid(job.wf) && p in Ids(job.wf) && Stuck(Out(job, p))
    ensures Reachable(job.wf, p)
  {}

  /** Two runs over workflows with the same nodes and the same set of connections agree everywhere:
      neither the order nor the multiplicity of connections matters. */
  lemma {:induction false} ConnectionOrderFree(a: Job, b: Job, n: Id)
    requires Valid(a.wf) && Valid(b.wf) && a == b.(wf := a.wf)
    requires a.wf.nodes == b.wf.nodes && n in Ids(a.wf)
    requires forall c :: c in a.wf.connections <==> c in b.wf.connections
    ensures Out(a, n) == Out(b, n)
    decreases RankOf(a.wf)[n]
  {
    forall p | p in Producers(a.wf, n) ensures p in Ids(a.wf) && Out(a, p) == Out(b, p) {
      ConnectionOrderFree(a, b, p);
    }
    SameProducersSameOutcome(a, b, n);
  }

  lemma SameProducersSameOutcome(a: Job, b: Job, n: Id)
    requires Valid(a.wf) && Valid(b.wf) && a == b.(wf := a.wf)
    requires a.wf.nodes == b.wf.nodes && n in Ids(a.wf)
    requires forall c :: c in a.wf.connections <==> c in b.wf.connections
    requires forall p :: p in Producers(a.wf, n) ==> p in Ids(a.wf) && Out(a, p) == Out(b, p)
    ensures Out(a, n) == Out(b, n)
  {
    hide Valid, FanIn, StepOutcome, Out;
    OutSettled(a, n);
    OutSettled(b, n);
    SameEdgesSameReachability(a.wf, b.wf, n);
    if n !in a.pinned && Reachable(a.wf, n) {
      OutUnfold(a, n);
      OutUnfold(b, n);
      assert ProducerOutcomes(a, n) == ProducerOutcomes(b, n) by {
        assert Producers(a.wf, n) == Producers(b.wf, n);
      }
      StepSameConnections(a, b, n, ProducerOutcomes(a, n));
    }
  }

  lemma StepSameConnections(a: Job, b: Job, n: Id, env: map<Id, Outcome>)
    requires Valid(a.wf) && Valid(b.wf) && a == b.(wf := a.wf)
    requires a.wf.nodes == b.wf.nodes && n in Ids(a.wf)
    requires forall c :: c in a.wf.connections <==> c in b.wf.connections
    ensures StepOutcome(a, n, env) == StepOutcome(b, n, env)
  {
    hide Valid, FanIn, Gather, TryFrom;
    FanInOrderFree(a.wf, b.wf, n);
    assert TriggerId(a.wf) == TriggerId(b.wf);
    TryFromSameOracle(a, b, NodeOf(a.wf, n), InputOf(a, n, Outputs(env)), 1);
  }

  lemma SameEdgesSameReachability(v: Workflow, w: Workflow, n: Id)
    requires Valid(v) && Valid(w) && v.nodes == w.nodes
    requires forall c :: c in v.connections <==> c in w.connections
    ensures Reachable(v, n) == Reachable(w, n)
  {
    assert Edges(v) == Edges(w);
    if Reachable(v, n) {
      var p :| WalkFromTo(v, p, TriggerId(v), n);
      assert WalkFromTo(w, p, TriggerId(w), n);
    }
    if Reachable(w, n) {
      var p :| WalkFromTo(w, p, TriggerId(w), n);
      assert WalkFromTo(v, p, TriggerId(v), n);
    }
  }

  lemma TryFromSameOracle(a: Job, b: Job, node: Node, input: seq<Item>, k: nat)
    requires a.oracle == b.oracle && a.mode == b.mode && 1 <= k <= MaxAttempts(a.mode, node)
    ensures TryFrom(a, node, input, k) == TryFrom(b, node, input, k)
    decreases MaxAttempts(a.mode, node) - k
  {}

  // ---- One node, told by its executor's answers ----

  /** Attempt `k` is the first to succeed, or the last of all. */
  ghost predicate Decides(job: Job, node: Node, input: seq<Item>, last: nat, k: nat) {
    && (forall i: nat :: 1 <= i < k ==> job.oracle(node, job.mode, i, input).Err?)
    && (k == last || job.oracle(node, job.mode, k, input).Ok?)
  }

  /** Items are emitted with the node and their position as lineage. An error stops the run, unless the policy is
      Continue, which leaves the node without output. */
  ghost predicate EndsAsReplied(node: Node, reply: Reply, out: Outcome) {
    match reply
    case Ok(items) =>
      && out.Done? && |out.items| == |items|
      && forall i :: 0 <= i < |items| ==> out.items[i] == Item(items[i].json, Produced(node.id, i), items[i].port)
    case Err(e) => out == if node.onError == Some(Continue) then Done([]) else Failed(e)
  }

  /** What a node comes to on `input`. Without input behind a connection its executor is not called. Otherwise it is
      called once in a dry run or without a retry policy, and up to the policy's maximum else. */
  ghost predicate EndsAsAnswered(job: Job, n: Id, input: seq<Item>, out: Outcome)
    requires n in Ids(job.wf)
  {
    var node := NodeOf(job.wf, n);
    var last := if job.mode.Run? && node.retry.Some? && node.retry.value.maxAttempts >= 2
                then node.retry.value.maxAttempts else 1;
    if input == [] && exists c :: c in job.wf.connections && c.toNode == n then out == Done([])
    else
      exists k: nat :: 1 <= k <= last && Decides(job, node, input, last, k)
                       && EndsAsReplied(node, job.oracle(node, job.mode, k, input), out)
  }

  lemma {:induction false} DecidingAttempt(job: Job, node: Node, input: seq<Item>, k: nat) returns (j: nat)
    requires 1 <= k <= MaxAttempts(job.mode, node)
    requires forall i: nat :: 1 <= i < k ==> job.oracle(node, job.mode, i, input).Err?
    ensures k <= j <= MaxAttempts(job.mode, node) && Decides(job, node, input, MaxAttempts(job.mode, node), j)
    ensures TryFrom(job, node, input, k) == job.oracle(node, job.mode, j, input)
    decreases MaxAttempts(job.mode, node) - k
  {
    hide MaxAttempts;
    if job.oracle(node, job.mode, k, input).Err? && k < MaxAttempts(job.mode, node) {
      j := DecidingAttempt(job, node, input, k + 1);
    } else {
      j := k;
    }
  }

  lemma DeliverMeans(job: Job, n: Id, input: seq<Item>)
    requires Valid(job.wf) && n in Ids(job.wf)
    ensures EndsAsAnswered(job, n, input, Deliver(job, n, input))
  {
    hide Valid, TryFrom, FanIn, Decides;
    ConnectedHasFanIn(job.wf, n);
    var node := NodeOf(job.wf, n);
    var k := DecidingAttempt(job, node, input, 1);
    assert EndsAsReplied(node, job.oracle(node, job.mode, k, input), Settle(node, job.oracle(node, job.mode, k, input)));
  }

  /** Once its producers have come to an end a node comes to that on what they emitted. */
  lemma NodeMeans(job: Job, n: Id)
    requires Valid(job.wf) && n in Ids(job.wf) && n !in job.pinned && Reachable(job.wf, n)
    requires forall p :: p in Producers(job.wf, n) && p in Ids(job.wf) ==> Out(job, p).Done? || Out(job, p).Absent?
    ensures EndsAsAnswered(job, n, InputOf(job, n, FinalOutputs(job)), Out(job, n))
  {
    hide Valid, Out, Reachable, InputOf, EndsAsAnswered, Deliver;
    ProducersAreNodes(job.wf, n);
    forall p | p in Producers(job.wf, n)
      ensures if p in FinalOutputs(job) then Out(job, p) == Done(FinalOutputs(job)[p]) else Out(job, p) == Absent
    {
      assert p in Ids(job.wf);
    }
    InputFromOutputs(job, n, FinalOutputs(job));
    DeliverMeans(job, n, InputOf(job, n, FinalOutputs(job)));
  }

  lemma ConnectedHasFanIn(w: Workflow, n: Id)
    ensures FanIn(w, n) != [] <==> exists c :: c in w.connections && c.toNode == n
  {
    if c :| c in w.connections && c.toNode == n { assert Edge(c.fromNode, c.fromPort) in FanIn(w, n); }
    if FanIn(w, n) != [] { assert FanIn(w, n)[0] in FanIn(w, n); }
  }

  /** And when a producer has failed, or is blocked itself, the node never runs. */
  lemma BlockedMeans(job: Job, n: Id)
    requires Valid(job.wf) && n in Ids(job.wf)
    ensures Out(job, n).Blocked? <==>
      n !in job.pinned && exists p :: p in Producers(job.wf, n) && p in Ids(job.wf) && (Out(job, p).Failed? || Out(job, p).Blocked?)
    ensures Out(job, n).Absent? <==> n !in job.pinned && !Reachable(job.wf, n)
  {
    hide Valid, Out, Reachable, Deliver, InputOf;
    OutSettled(job, n);
    if n !in job.pinned && Reachable(job.wf, n) {
      OutUnfold(job, n);
      DeliverNeverBlocks(job, n, InputOf(job, n, Outputs(ProducerOutcomes(job, n))));
    }
    if p :| p in Producers(job.wf, n) && p in Ids(job.wf) && Stuck(Out(job, p)) {
      if n !in job.pinned {
        ProducerEdge(job.wf, p, n);
        FailureBlocksConsumer(job, p, n);
      }
    }
  }

  lemma ProducerEdge(w: Workflow, p: Id, n: Id)
    requires p in Producers(w, n)
    ensures (p, n) in Edges(w)
  {}
}
