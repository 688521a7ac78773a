/** The engine itself: one run as the source executes it, with its mutable loop state. */
module Engine {
  import opened Wrappers
  import opened Sorting
  import opened Cardinality
  import opened Workflows
  import opened Items
  import opened Semantics
  import opened Events
  import opened Schedule
  import opened Confluence
  import opened Waves

  /** What a resume source knows about a node. */
  datatype HydrateResult = Missing | Found(items: seq<Item>) | Corrupt(msg: string)

  type ResumeSource = Node -> HydrateResult

  datatype InternalReason = ResumeWithInput | CorruptStep(nodeId: Id, msg: string) | NoTrigger | NoRunnableNode

  datatype EngineError =
    | Invalid
    | NodeFailed(nodeId: Id, error: NodeError)
    | NoExecutorForKind(kind: Kind)
    | Internal(reason: InternalReason)

  datatype RunResult = RunResult(outputs: map<Id, seq<Item>>, events: seq<StepEvent>)

  /** An in-memory event log. */
  class EventLog {
    var events: seq<StepEvent>

    constructor ()
      ensures events == []
    {
      events := [];
    }

    method Record(e: StepEvent)
      modifies this
      ensures events == old(events) + [e]
    {
      events := events + [e];
    }
  }

  // ---- Graph indexes ----

  function Successors(conns: seq<Connection>, n: Id): seq<Id> {
    if conns == [] then []
    else
      var c := conns[|conns| - 1];
      var before := Successors(conns[..|conns| - 1], n);
      if c.fromNode == n then before + [c.toNode] else before
  }

  lemma SuccessorsAreEdges(w: Workflow, k: nat, n: Id)
    requires k <= |w.connections|
    ensures forall m :: m in Successors(w.connections[..k], n) <==>
      exists c :: c in w.connections[..k] && c.fromNode == n && c.toNode == m
  {
    if k > 0 {
      SuccessorsAreEdges(w, k - 1, n);
      assert w.connections[..k][..k - 1] == w.connections[..k - 1];
      assert w.connections[..k] == w.connections[..k - 1] + [w.connections[k - 1]];
    }
  }

  /** Adjacency lists, with an entry for each node that has an outgoing connection. */
  method Adjacency(w: Workflow) returns (adj: map<Id, seq<Id>>)
    ensures forall a, b :: (a in adj && b in adj[a]) <==> (a, b) in Edges(w)
  {
    adj := map[];
    var i := 0;
    while i < |w.connections|
      invariant 0 <= i <= |w.connections|
      invariant forall a :: (if a in adj then adj[a] else []) == Successors(w.connections[..i], a)
    {
      var c := w.connections[i];
      var bucket := if c.fromNode in adj then adj[c.fromNode] else [];
      adj := adj[c.fromNode := bucket + [c.toNode]];
      assert w.connections[..i + 1][..i] == w.connections[..i];
      i := i + 1;
    }
    assert w.connections[..i] == w.connections;
    forall a, b ensures (a in adj && b in adj[a]) <==> (a, b) in Edges(w) {
      SuccessorsAreEdges(w, |w.connections|, a);
      assert (a in adj && b in adj[a]) <==> b in Successors(w.connections, a);
    }
  }

  /** Push every neighbour not seen before. */
  method Visit(neighbours: seq<Id>, seen0: set<Id>, stack0: seq<Id>) returns (seen: set<Id>, stack: seq<Id>)
    ensures seen == seen0 + set n | n in neighbours
    ensures forall n :: n in stack <==> n in stack0 || (n in seen && n !in seen0)
    ensures seen == seen0 ==> stack == stack0
  {
    seen, stack := seen0, stack0;
    var j := 0;
    while j < |neighbours|
      invariant 0 <= j <= |neighbours|
      invariant seen == seen0 + set n | n in neighbours[..j]
      invariant forall n :: n in stack <==> n in stack0 || (n in seen && n !in seen0)
      invariant seen == seen0 ==> stack == stack0
    {
      var next := neighbours[j];
      if next !in seen {
        seen := seen + {next};
        stack := stack + [next];
      }
      assert neighbours[..j + 1] == neighbours[..j] + [next];
      j := j + 1;
    }
    assert neighbours[..j] == neighbours;
  }

  /** Depth-first search with an explicit stack: exactly the nodes a walk from `start` can end in. */
  method ReachableFrom(w: Workflow, start: Id) returns (seen: set<Id>)
    requires NoDangling(w) && start in Ids(w)
    ensures forall n :: n in seen <==> Reaches(w, start, n)
  {
    var adj := Adjacency(w);
    var stack := [start];
    seen := {start};
    ReachesSelf(w, start);
    while stack != []
      invariant seen <= Ids(w) && start in seen
      invariant forall n :: n in stack ==> n in seen
      invariant forall n :: n in seen ==> Reaches(w, start, n)
      invariant forall a, b :: a in seen && a !in stack && (a, b) in Edges(w) ==> b in seen
      decreases |Ids(w) - seen|, |stack|
    {
      var cur := stack[|stack| - 1];
      ghost var seen0 := seen;
      assert stack == stack[..|stack| - 1] + [cur];
      stack := stack[..|stack| - 1];
      if cur in adj {
        forall n | n in adj[cur] ensures n in Ids(w) && Reaches(w, start, n) {
          assert (cur, n) in Edges(w);
          ReachesStep(w, start, cur, n);
        }
        seen, stack := Visit(adj[cur], seen, stack);
      }
      if seen != seen0 {
        SmallerSet(Ids(w) - seen, Ids(w) - seen0);
      }
    }
    forall n | Reaches(w, start, n) ensures n in seen {
      var p :| WalkFromTo(w, p, start, n);
      ClosedHoldsReachable(w, seen, p);
    }
  }

  lemma NoEdges(conns: seq<Connection>)
    ensures forall n :: EdgeList(conns[..0], n) == []
  {}

  lemma EdgeListNext(conns: seq<Connection>, i: nat, n: Id)
    requires i < |conns|
    ensures EdgeList(conns[..i + 1], n) ==
            if conns[i].toNode == n then AddEdge(EdgeList(conns[..i], n), Edge(conns[i].fromNode, conns[i].fromPort))
            else EdgeList(conns[..i], n)
  {
    assert conns[..i + 1][..i] == conns[..i];
  }

  /** Incoming edges of every node, without repetitions. */
  method IncomingEdges(w: Workflow) returns (incoming: map<Id, seq<Edge>>)
    requires NoDangling(w)
    ensures incoming.Keys == Ids(w)
    ensures forall n :: n in Ids(w) ==> incoming[n] == EdgeList(w.connections, n)
  {
    hide EdgeList, Ids, AddEdge;
    incoming := map n | n in Ids(w) :: [];
    var i := 0;
    assert forall n :: EdgeList(w.connections[..0], n) == [] by { NoEdges(w.connections); }
    while i < |w.connections|
      invariant 0 <= i <= |w.connections|
      invariant incoming.Keys == Ids(w)
      invariant forall n :: n in Ids(w) ==> incoming[n] == EdgeList(w.connections[..i], n)
    {
      var c := w.connections[i];
      var edge := Edge(c.fromNode, c.fromPort);
      assert c.toNode in Ids(w);
      forall n ensures EdgeList(w.connections[..i + 1], n) ==
            if c.toNode == n then AddEdge(EdgeList(w.connections[..i], n), edge) else EdgeList(w.connections[..i], n)
      {
        EdgeListNext(w.connections, i, n);
      }
      incoming := incoming[c.toNode := AddEdge(incoming[c.toNode], edge)];
      i := i + 1;
    }
    assert w.connections[..i] == w.connections;
  }

  method CollectOnPort(items: seq<Item>, port: nat) returns (kept: seq<Item>)
    ensures kept == OnPort(items, port)
  {
    kept := [];
    var j := 0;
    while j < |items|
      invariant 0 <= j <= |items|
      invariant kept == OnPort(items[..j], port)
    {
      assert items[..j + 1][..j] == items[..j];
      if items[j].port == port {
        kept := kept + [items[j]];
      }
      j := j + 1;
    }
    assert items[..j] == items;
  }

  /** Fan-in in the order of (producer, port), keeping only items emitted on the connected port. */
  method GatherInput(isTrigger: bool, triggerItems: seq<Item>, edges: seq<Edge>, outputs: map<Id, seq<Item>>)
    returns (input: seq<Item>)
    ensures input == if isTrigger then triggerItems else Gather(Sort(edges, EdgeLe), outputs)
  {
    hide OnPort, Sort, EdgeLe;
    if isTrigger { return triggerItems; }
    var ordered := Sort(edges, EdgeLe);
    input := [];
    var i := 0;
    while i < |ordered|
      invariant 0 <= i <= |ordered|
      invariant input == Gather(ordered[..i], outputs)
    {
      var edge := ordered[i];
      assert ordered[..i + 1][..i] == ordered[..i];
      if edge.fromNode in outputs {
        var kept := CollectOnPort(outputs[edge.fromNode], edge.fromPort);
        input := input + kept;
      }
      i := i + 1;
    }
    assert ordered[..i] == ordered;
  }

  // ---- One run ----

  /** Outputs hydrated from an earlier run, restamped. */
  ghost function Hydrated(w: Workflow, source: Option<ResumeSource>): map<Id, seq<Item>> {
    if source.None? then map[]
    else
      map i | i in Ids(w) && source.value(NodeOf(w, i)).Found? :: Stamp(i, source.value(NodeOf(w, i)).items)
  }

  // The three events of a running node, each as a step of the relation.

  lemma StartStep(job: Job, permits: nat, s: State, n: Id, input: seq<Item>) returns (t: State)
    requires JobOk(job) && Runnable(job, s, n) && s.active == map[] && permits >= 1
    requires input == InputOf(job, n, s.outputs) && !Starved(job.wf, n, input)
    ensures Step(job, permits, s, t, n)
    ensures t == s.(active := map[n := Activity(input, 0)], log := s.log + [StartedEvent(n, |input|)])
  {
    hide Valid, InputOf, Starved, Runnable;
    t := s.(active := s.active[n := Activity(input, 0)], log := s.log + [StartedEvent(n, |input|)]);
    assert Start(job, permits, s, t, n);
  }

  lemma JobNode(job: Job, node: Node)
    requires JobOk(job) && node in job.wf.nodes
    ensures Workflows.Valid(job.wf) && node.id in Ids(job.wf) && NodeOf(job.wf, node.id) == node
  {
    NodeOfSelf(job.wf, node);
  }

  lemma StarvedByEdges(w: Workflow, n: Id, input: seq<Item>)
    ensures Starved(w, n, input) <==> input == [] && EdgeList(w.connections, n) != []
  {
    hide EdgeList, EdgeLe;
    assert |multiset(FanIn(w, n))| == |multiset(EdgeList(w.connections, n))|;
  }

  lemma OneAttempt(job: Job, node: Node, input: seq<Item>)
    requires MaxAttempts(job.mode, node) == 1 && node.id in Ids(job.wf) && NodeOf(job.wf, node.id) == node
    ensures TryFrom(job, node, input, 1) == job.oracle(node, job.mode, 1, input)
    ensures CurrentReply(job, node.id, Activity(input, 0)) == job.oracle(node, job.mode, 1, input)
    ensures !WillRecordAttempt(job, node.id, Activity(input, 0))
  {}

  /** The reply a node settles with after `failures` failed attempts. */
  lemma LastAttempt(job: Job, node: Node, input: seq<Item>, failures: nat)
    requires node.id in Ids(job.wf) && NodeOf(job.wf, node.id) == node
    requires 1 < MaxAttempts(job.mode, node) && failures <= MaxAttempts(job.mode, node)
    requires forall k :: 1 <= k <= failures ==> job.oracle(node, job.mode, k, input).Err?
    ensures var attempt := if failures < MaxAttempts(job.mode, node) then failures + 1 else failures;
            var reply := job.oracle(node, job.mode, attempt, input);
            && CurrentReply(job, node.id, Activity(input, failures)) == reply
            && (attempt == failures || reply.Ok? ==>
                  TryFrom(job, node, input, 1) == reply && !WillRecordAttempt(job, node.id, Activity(input, failures)))
  {
    hide MaxAttempts, NodeOf;
    TryFromSkipsFailures(job, node, input, if failures < MaxAttempts(job.mode, node) then failures else failures - 1);
  }

  lemma FailAttemptStep(job: Job, permits: nat, s: State, node: Node, input: seq<Item>, attempt: nat, e: NodeError)
    returns (t: State)
    requires JobOk(job) && node in job.wf.nodes && 1 <= attempt <= MaxAttempts(job.mode, node)
    requires MaxAttempts(job.mode, node) > 1
    requires s.active == map[node.id := Activity(input, attempt - 1)]
    requires job.oracle(node, job.mode, attempt, input) == Err(e)
    ensures Step(job, permits, s, t, node.id)
    ensures t == s.(active := map[node.id := Activity(input, attempt)],
                    log := s.log + [AttemptEvent(node.id, |input|, attempt, MaxAttempts(job.mode, node), e)])
  {
    hide MaxAttempts, Skip, Start, Finish;
    NodeOfSelf(job.wf, node);
    t := s.(active := s.active[node.id := Activity(input, attempt)],
            log := s.log + [AttemptEvent(node.id, |input|, attempt, MaxAttempts(job.mode, node), e)]);
    assert FailAttempt(job, s, t, node.id);
  }

  lemma FinishStep(job: Job, permits: nat, s: State, node: Node, a: Activity, reply: Reply) returns (t: State)
    requires JobOk(job) && node in job.wf.nodes && node.id in Ids(job.wf) && s.active == map[node.id := a]
    requires !WillRecordAttempt(job, node.id, a) && CurrentReply(job, node.id, a) == reply
    ensures Step(job, permits, s, t, node.id)
    ensures t.active == map[] && t.log == s.log + [ClosingEvent(node.id, |a.input|, reply)]
    ensures match Settle(node, reply)
            case Done(items) =>
              t.outputs == s.outputs[node.id := items] && t.done == s.done + {node.id} && t.failed == s.failed
            case Failed(e) => t.outputs == s.outputs && t.done == s.done && t.failed == s.failed[node.id := e]
            case _ => true
  {
    hide CurrentReply, WillRecordAttempt, Skip, Start, FailAttempt;
    NodeOfSelf(job.wf, node);
    var u := s.(active := s.active - {node.id}, log := s.log + [ClosingEvent(node.id, |a.input|, reply)]);
    t := match Settle(node, reply)
      case Done(items) => u.(outputs := u.outputs[node.id := items], done := u.done + {node.id})
      case Failed(e) => u.(failed := u.failed[node.id := e])
      case _ => u;
    assert Finish(job, s, t, node.id);
  }

  ghost function RunnableSet(job: Job, s: State): set<Id> {
    set n | n in Ids(job.wf) && Runnable(job, s, n)
  }

  lemma RunnableIsPending(job: Job, s: State)
    ensures RunnableSet(job, s) !! s.done
  {
    hide Ids, Producers;
  }

  lemma SplitWave(done: set<Id>, wave: set<Id>, prepared: set<Id>, work: set<Id>)
    requires prepared + work == done + wave && work !! prepared && done <= prepared
    ensures work <= wave <= prepared + work
  {}

  /** Between waves of an unfinished run some node is runnable: the engine's internal error for this
      case is unreachable. */
  lemma SomethingIsRunnable(job: Job, permits: nat, s: State)
    requires JobOk(job) && permits >= 1 && Reached(job, permits, s)
    requires s.active == map[] && s.failed == map[] && s.done != Ids(job.wf)
    ensures RunnableSet(job, s) != {}
  {
    hide Out, OnTrack, Reached, NodeAgrees;
    ReachedAgrees(job, permits, s);
    if RunnableSet(job, s) == {} {
      forall n ensures !Runnable(job, s, n) {
        assert n !in RunnableSet(job, s);
      }
      forall n | n in Ids(job.wf) ensures !Out(job, n).Failed? { IdleNode(job, s, n); }
      forall n | n in Ids(job.wf) ensures n in s.done {
        IdleNode(job, s, n);
        CompletesMeansUnblocked(job, n);
      }
    }
  }

  /** Inputs depend on the producers' outputs alone. */
  lemma InputStable(job: Job, n: Id, o1: map<Id, seq<Item>>, o2: map<Id, seq<Item>>)
    requires JobOk(job)
    requires forall p :: p in Producers(job.wf, n) ==> (p in o1 <==> p in o2) && (p in o1 ==> o1[p] == o2[p])
    ensures InputOf(job, n, o1) == InputOf(job, n, o2)
  {
    hide Valid, Gather;
    var edges := FanIn(job.wf, n);
    forall e | e in edges ensures Emitted(o1, e) == Emitted(o2, e) {
      assert Connection(e.fromNode, e.fromPort, n) in job.wf.connections;
      assert e.fromNode in Producers(job.wf, n);
    }
    GatherCongruence(edges, o1, o2);
  }

  lemma SkipStep(job: Job, permits: nat, s: State, n: Id) returns (t: State)
    requires JobOk(job) && Runnable(job, s, n) && Starved(job.wf, n, InputOf(job, n, s.outputs))
    ensures Step(job, permits, s, t, n)
    ensures t == s.(outputs := s.outputs[n := []], done := s.done + {n}, log := s.log + [SkippedEvent(n, NoInput)])
  {
    hide Valid, InputOf, Starved, Runnable;
    t := s.(outputs := s.outputs[n := []], done := s.done + {n}, log := s.log + [SkippedEvent(n, NoInput)]);
    assert Skip(job, s, t, n);
  }

  predicate Ready(edges: seq<Edge>, done: set<Id>) {
    forall e :: e in edges ==> e.fromNode in done
  }

  lemma ReadyMeansProducersDone(w: Workflow, n: Id, done: set<Id>)
    ensures Ready(EdgeList(w.connections, n), done) <==> Producers(w, n) <= done
  {
    if Ready(EdgeList(w.connections, n), done) {
      forall p | p in Producers(w, n) ensures p in done {
        var c :| c in w.connections && c.toNode == n && c.fromNode == p;
        assert Edge(c.fromNode, c.fromPort) in EdgeList(w.connections, n);
      }
    }
  }

  function Select(nodes: seq<Node>, done: set<Id>, incoming: map<Id, seq<Edge>>): seq<Node>
    requires forall n :: n in nodes ==> n.id in incoming
  {
    if nodes == [] then []
    else
      var k := |nodes| - 1;
      var before := Select(nodes[..k], done, incoming);
      if nodes[k].id !in done && Ready(incoming[nodes[k].id], done) then before + [nodes[k]] else before
  }

  lemma SelectMembers(nodes: seq<Node>, done: set<Id>, incoming: map<Id, seq<Edge>>)
    requires forall n :: n in nodes ==> n.id in incoming
    ensures forall n :: n in Select(nodes, done, incoming) <==>
      n in nodes && n.id !in done && Ready(incoming[n.id], done)
    ensures DistinctIds(nodes) ==> DistinctIds(Select(nodes, done, incoming))
  {
    if nodes != [] {
      var k := |nodes| - 1;
      SelectMembers(nodes[..k], done, incoming);
      assert nodes == nodes[..k] + [nodes[k]];
    }
  }

  /** The selection is the set of runnable nodes of the step relation. */
  lemma SelectIsRunnable(job: Job, s: State, incoming: map<Id, seq<Edge>>)
    requires JobOk(job) && s.active == map[] && s.failed == map[] && incoming.Keys == Ids(job.wf)
    requires forall n :: n in Ids(job.wf) ==> incoming[n] == EdgeList(job.wf.connections, n)
    ensures var rs := Select(job.wf.nodes, s.done, incoming);
            && DistinctIds(rs)
            && (forall node :: node in rs ==> node in job.wf.nodes && Runnable(job, s, node.id))
            && NodeIds(rs) == RunnableSet(job, s) <= Ids(job.wf)
  {
    hide EdgeList, Ready, Producers, Select, Acyclic, PortsInRange, OneTrigger;
    SelectMembers(job.wf.nodes, s.done, incoming);
    var rs := Select(job.wf.nodes, s.done, incoming);
    forall n | n in Ids(job.wf) ensures n in NodeIds(rs) <==> Runnable(job, s, n) {
      ReadyMeansProducersDone(job.wf, n, s.done);
      var node := NodeOf(job.wf, n);
      assert node in rs ==> n in NodeIds(rs);
    }
  }

  lemma Counted(all: set<Id>, done: set<Id>, n: Id)
    requires done <= all && n in all && n !in done
    ensures |done + {n}| == |done| + 1 <= |all|
  {
    SmallerSet(done, all);
  }

  type Work = (Node, seq<Item>)

  function WorkIds(queue: seq<Work>): set<Id> { set q | q in queue :: q.0.id }

  function NodeIds(nodes: seq<Node>): set<Id> { set n | n in nodes :: n.id }

  predicate DistinctIds(nodes: seq<Node>) {
    forall i, j :: 0 <= i < j < |nodes| ==> nodes[i].id != nodes[j].id
  }

  predicate DistinctWork(queue: seq<Work>) {
    forall i, j :: 0 <= i < j < |queue| ==> queue[i].0.id != queue[j].0.id
  }

  /** Half-way through gathering a wave: `seen` is split into work to do and nodes already skipped. */
  ghost predicate Gathered(job: Job, outputs: map<Id, seq<Item>>, done: set<Id>, s: State,
                           seen: seq<Node>, queue: seq<Work>, skipped: seq<Node>)
    requires JobOk(job)
  {
    && s.active == map[] && s.failed == map[]
    && DistinctWork(queue) && WorkIds(queue) + NodeIds(skipped) == NodeIds(seen)
    && DistinctIds(skipped) && NodeIds(skipped) !! done
    && s.done == done + NodeIds(skipped) && WorkIds(queue) !! s.done
    && s.outputs == outputs + (map n | n in NodeIds(skipped) :: [])
    && forall q :: q in queue ==>
         q.0 in job.wf.nodes && Producers(job.wf, q.0.id) <= done
         && q.1 == InputOf(job, q.0.id, outputs) && !Starved(job.wf, q.0.id, q.1)
  }

  lemma NodeIdsMembers(nodes: seq<Node>)
    ensures forall n :: n in nodes ==> n.id in NodeIds(nodes)
    ensures NodeIds(nodes) == {} <==> nodes == []
  {
    if nodes != [] { assert nodes[0].id in NodeIds(nodes); }
  }

  lemma GatheredFacts(job: Job, outputs: map<Id, seq<Item>>, done: set<Id>, s: State,
                      seen: seq<Node>, queue: seq<Work>, skipped: seq<Node>)
    requires JobOk(job) && Gathered(job, outputs, done, s, seen, queue, skipped)
    ensures s.active == map[] && s.failed == map[]
    ensures DistinctWork(queue) && WorkIds(queue) + NodeIds(skipped) == NodeIds(seen)
    ensures DistinctIds(skipped) && NodeIds(skipped) !! done
    ensures s.done == done + NodeIds(skipped) && WorkIds(queue) !! s.done
    ensures s.outputs == outputs + map n | n in NodeIds(skipped) :: []
  {
    hide JobOk, InputOf, Starved, Producers, DistinctWork, DistinctIds;
  }

  /** Committing the skipped nodes of a wave does not change the inputs of its other nodes. */
  lemma GatheredInputs(job: Job, o1: map<Id, seq<Item>>, o2: map<Id, seq<Item>>, d1: set<Id>, d2: set<Id>, s: State,
                       seen: seq<Node>, queue: seq<Work>, skipped: seq<Node>)
    requires JobOk(job) && Gathered(job, o1, d1, s, seen, queue, skipped)
    requires o2 == s.outputs && d2 == s.done
    ensures forall q :: q in queue ==>
      q.0 in job.wf.nodes && Producers(job.wf, q.0.id) <= d2
      && q.1 == InputOf(job, q.0.id, o2) && !Starved(job.wf, q.0.id, q.1)
  {
    hide Valid, InputOf, Starved, Producers, DistinctWork, DistinctIds;
    forall q | q in queue ensures InputOf(job, q.0.id, o1) == InputOf(job, q.0.id, o2) {
      InputStable(job, q.0.id, o1, o2);
    }
  }

  lemma GatheredNothing(job: Job, s: State)
    requires JobOk(job) && s.active == map[] && s.failed == map[]
    ensures Gathered(job, s.outputs, s.done, s, [], [], [])
  {
    hide JobOk, InputOf, Starved, Producers;
    assert NodeIds([]) == {};
  }

  lemma ExtendEmpty(outputs: map<Id, seq<Item>>, ids: set<Id>, n: Id)
    ensures (outputs + map i | i in ids :: [])[n := []] == outputs + map i | i in ids + {n} :: []
  {}

  lemma GatheredSkip(job: Job, outputs: map<Id, seq<Item>>, done: set<Id>, s: State, t: State,
                     seen: seq<Node>, queue: seq<Work>, skipped: seq<Node>, node: Node)
    requires JobOk(job) && Gathered(job, outputs, done, s, seen, queue, skipped)
    requires node.id !in NodeIds(seen) && node.id !in done
    requires t == s.(outputs := s.outputs[node.id := []], done := s.done + {node.id}, log := t.log)
    ensures Gathered(job, outputs, done, t, seen + [node], queue, skipped + [node])
  {
    hide JobOk, InputOf, Starved, Producers, DistinctWork;
    forall x | x in skipped ensures x.id != node.id { assert x.id in NodeIds(skipped); }
    assert NodeIds(seen + [node]) == NodeIds(seen) + {node.id};
    assert NodeIds(skipped + [node]) == NodeIds(skipped) + {node.id};
    ExtendEmpty(outputs, NodeIds(skipped), node.id);
  }

  lemma GatheredWork(job: Job, outputs: map<Id, seq<Item>>, done: set<Id>, s: State,
                     seen: seq<Node>, queue: seq<Work>, skipped: seq<Node>, node: Node, input: seq<Item>)
    requires JobOk(job) && Gathered(job, outputs, done, s, seen, queue, skipped)
    requires node.id !in NodeIds(seen) && node.id !in s.done
    requires node in job.wf.nodes && Producers(job.wf, node.id) <= done
    requires input == InputOf(job, node.id, outputs) && !Starved(job.wf, node.id, input)
    ensures Gathered(job, outputs, done, s, seen + [node], queue + [(node, input)], skipped)
  {
    hide JobOk, InputOf, Starved, Producers;
    assert NodeIds(seen + [node]) == NodeIds(seen) + {node.id};
    assert WorkIds(queue + [(node, input)]) == WorkIds(queue) + {node.id};
    forall q | q in queue ensures q.0.id != node.id { assert q.0.id in WorkIds(queue); }
  }

  /** A node of the wave that has not been looked at yet still reads the outputs of earlier waves. */
  lemma GatheredKeeps(job: Job, outputs: map<Id, seq<Item>>, done: set<Id>, s: State,
                      seen: seq<Node>, queue: seq<Work>, skipped: seq<Node>, n: Id)
    requires JobOk(job) && Gathered(job, outputs, done, s, seen, queue, skipped)
    requires NodeIds(seen) !! done && n !in NodeIds(seen) && n !in done
    requires n in Ids(job.wf) && Producers(job.wf, n) <= done
    ensures Runnable(job, s, n) && InputOf(job, n, outputs) == InputOf(job, n, s.outputs)
  {
    hide JobOk, InputOf, Starved, Producers;
    InputStable(job, n, outputs, s.outputs);
  }

  /** The outputs and finished nodes after committing the outcomes of a wave. */
  function CommitOutputs(base: map<Id, seq<Item>>, queue: seq<Work>, results: seq<Outcome>): map<Id, seq<Item>>
    requires |queue| == |results|
  {
    if queue == [] then base
    else
      var k := |queue| - 1;
      var prev := CommitOutputs(base, queue[..k], results[..k]);
      if results[k].Done? then prev[queue[k].0.id := results[k].items] else prev
  }

  function CommitDone(base: set<Id>, queue: seq<Work>, results: seq<Outcome>): set<Id>
    requires |queue| == |results|
  {
    if queue == [] then base
    else
      var k := |queue| - 1;
      var prev := CommitDone(base, queue[..k], results[..k]);
      if results[k].Done? then prev + {queue[k].0.id} else prev
  }

  lemma CommitNothing(base: map<Id, seq<Item>>, done: set<Id>)
    ensures CommitOutputs(base, [], []) == base && CommitDone(done, [], []) == done
  {}

  /** Each outcome is the denotation's; failures are recorded and nothing else is. */
  ghost predicate Truthful(job: Job, failed: map<Id, NodeError>, queue: seq<Work>, results: seq<Outcome>)
    requires JobOk(job)
  {
    && |queue| == |results|
    && (forall j :: 0 <= j < |queue| ==>
          && queue[j].0.id in Ids(job.wf) && results[j] == Out(job, queue[j].0.id)
          && (results[j].Done? || results[j].Failed?)
          && (results[j].Failed? ==> queue[j].0.id in failed))
    && ((forall r :: r in results ==> r.Done?) ==> failed == map[])
    && (forall n :: n in failed ==> n in WorkIds(queue))
  }

  /** A wave after its first |results| nodes have run. */
  ghost predicate Ran(job: Job, outputs: map<Id, seq<Item>>, done: set<Id>, s: State,
                      queue: seq<Work>, results: seq<Outcome>)
    requires JobOk(job)
  {
    && s.active == map[]
    && Truthful(job, s.failed, queue, results)
    && s.outputs == CommitOutputs(outputs, queue, results)
    && s.done == CommitDone(done, queue, results)
  }

  lemma TruthfulOne(job: Job, f1: map<Id, NodeError>, f2: map<Id, NodeError>,
                    queue: seq<Work>, results: seq<Outcome>, q: Work, outcome: Outcome)
    requires JobOk(job) && Truthful(job, f1, queue, results)
    requires q.0.id in Ids(job.wf) && outcome == Out(job, q.0.id)
    requires match outcome
             case Done(_) => f2 == f1
             case Failed(e) => f2 == f1[q.0.id := e]
             case _ => false
    ensures Truthful(job, f2, queue + [q], results + [outcome])
  {
    hide JobOk, Out, WorkIds;
    WorkIdsAppend(queue, q);
    assert outcome in results + [outcome];
    assert forall r :: r in results ==> r in results + [outcome];
  }

  lemma RanNothing(job: Job, s: State)
    requires JobOk(job) && s.active == map[] && s.failed == map[]
    ensures Ran(job, s.outputs, s.done, s, [], [])
  {
    hide JobOk, Out;
  }

  lemma RanIdle(job: Job, outputs: map<Id, seq<Item>>, done: set<Id>, s: State, queue: seq<Work>, results: seq<Outcome>)
    requires JobOk(job) && Ran(job, outputs, done, s, queue, results)
    ensures s.active == map[]
  {
    hide JobOk, Out;
  }

  lemma RanFacts(job: Job, outputs: map<Id, seq<Item>>, done: set<Id>, s: State, queue: seq<Work>, results: seq<Outcome>)
    requires JobOk(job) && Ran(job, outputs, done, s, queue, results)
    ensures s.active == map[] && |queue| == |results|
    ensures forall r :: r in results ==> r.Done? || r.Failed?
    ensures forall j :: 0 <= j < |queue| && results[j].Failed? ==>
      && queue[j].0.id in Ids(job.wf) && queue[j].0.id in s.failed
      && Out(job, queue[j].0.id) == Failed(results[j].error)
    ensures (forall r :: r in results ==> r.Done?) ==> s.failed == map[]
    ensures s.outputs == CommitOutputs(outputs, queue, results) && s.done == CommitDone(done, queue, results)
  {
    hide JobOk, Out, CommitOutputs, CommitDone, WorkIds;
  }

  /** Every node of the queue has come to an end: done, or failed. */
  lemma RanEnds(job: Job, outputs: map<Id, seq<Item>>, done: set<Id>, s: State, queue: seq<Work>, results: seq<Outcome>)
    requires JobOk(job) && Ran(job, outputs, done, s, queue, results)
    ensures |queue| == |results| && s.done + s.failed.Keys == done + WorkIds(queue)
  {
    hide JobOk, Out, CommitOutputs, CommitDone;
    CommitKeepsOthers(outputs, done, queue, results);
    forall j | 0 <= j < |queue| ensures queue[j].0.id in s.done + s.failed.Keys {
      if results[j].Done? { CommittedIsDone(done, queue, results, j); }
    }
  }

  lemma {:induction false} CommittedIsDone(done: set<Id>, queue: seq<Work>, results: seq<Outcome>, j: nat)
    requires |queue| == |results| && j < |queue| && results[j].Done?
    ensures queue[j].0.id in CommitDone(done, queue, results)
  {
    var k := |queue| - 1;
    if j < k { CommittedIsDone(done, queue[..k], results[..k], j); }
  }

  /** The first failure among the results is that of the first node of the queue that fails. */
  lemma FirstResult(job: Job, outputs: map<Id, seq<Item>>, done: set<Id>, s: State, queue: seq<Work>,
                    results: seq<Outcome>, j: nat)
    requires JobOk(job) && Ran(job, outputs, done, s, queue, results) && WorkIds(queue) <= Ids(job.wf)
    requires j < |queue| == |results| && results[j].Failed? && forall i :: 0 <= i < j ==> results[i].Done?
    ensures FirstOfQueue(job, queue, queue[j].0.id)
  {
    hide JobOk, Out, CommitOutputs, CommitDone, WorkIds;
  }

  lemma NodePrefix(nodes: seq<Node>, i: nat)
    requires DistinctIds(nodes) && i < |nodes|
    ensures NodeIds(nodes[..i + 1]) == NodeIds(nodes[..i]) + {nodes[i].id}
    ensures nodes[i].id in NodeIds(nodes) && nodes[i].id !in NodeIds(nodes[..i])
  {
    assert nodes[..i + 1] == nodes[..i] + [nodes[i]];
  }

  lemma QueuePrefix(queue: seq<Work>, i: nat)
    requires DistinctWork(queue) && i < |queue|
    ensures WorkIds(queue[..i]) <= WorkIds(queue)
    ensures queue[i].0.id in WorkIds(queue) && queue[i].0.id !in WorkIds(queue[..i])
  {}

  /** Work not yet run keeps its input while the rest of its wave commits. */
  lemma QueueKeeps(job: Job, outputs: map<Id, seq<Item>>, done: set<Id>, s: State,
                   queue: seq<Work>, results: seq<Outcome>, node: Node)
    requires JobOk(job) && Ran(job, outputs, done, s, queue, results)
    requires node.id !in done && node.id !in WorkIds(queue) && WorkIds(queue) !! done
    requires node in job.wf.nodes && Producers(job.wf, node.id) <= done
    ensures Runnable(job, s, node.id)
    ensures InputOf(job, node.id, outputs) == InputOf(job, node.id, s.outputs)
  {
    hide Valid, InputOf, Producers, CommitDone, CommitOutputs, Out;
    CommitKeepsOthers(outputs, done, queue, results);
    InputStable(job, node.id, outputs, s.outputs);
  }

  lemma RanOne(job: Job, outputs: map<Id, seq<Item>>, done: set<Id>, s: State, t: State,
               queue: seq<Work>, results: seq<Outcome>, q: Work, outcome: Outcome)
    requires JobOk(job) && Ran(job, outputs, done, s, queue, results)
    requires q.0.id in Ids(job.wf) && outcome == Out(job, q.0.id) && t.active == map[]
    requires match outcome
             case Done(items) =>
               t.outputs == s.outputs[q.0.id := items] && t.done == s.done + {q.0.id} && t.failed == s.failed
             case Failed(e) => t.outputs == s.outputs && t.done == s.done && t.failed == s.failed[q.0.id := e]
             case _ => false
    ensures Ran(job, outputs, done, t, queue + [q], results + [outcome])
  {
    hide JobOk, Out, CommitOutputs, CommitDone, WorkIds, Truthful;
    TruthfulOne(job, s.failed, t.failed, queue, results, q, outcome);
    TruthfulLength(job, s.failed, queue, results);
    var queue', results' := queue + [q], results + [outcome];
    CommitOne(outputs, done, queue', results', |queue|);
    assert queue'[..|queue|] == queue && results'[..|results|] == results;
    assert queue'[..|queue| + 1] == queue' && results'[..|results| + 1] == results';
  }

  lemma TruthfulLength(job: Job, failed: map<Id, NodeError>, queue: seq<Work>, results: seq<Outcome>)
    requires JobOk(job) && Truthful(job, failed, queue, results)
    ensures |queue| == |results|
  {
    hide JobOk, Out;
  }

  lemma WorkIdsAppend(queue: seq<Work>, q: Work)
    ensures WorkIds(queue + [q]) == WorkIds(queue) + {q.0.id}
  {}

  lemma CommitOne(base: map<Id, seq<Item>>, done: set<Id>, queue: seq<Work>, results: seq<Outcome>, k: nat)
    requires |queue| == |results| && k < |queue|
    ensures CommitOutputs(base, queue[..k + 1], results[..k + 1]) ==
            var prev := CommitOutputs(base, queue[..k], results[..k]);
            if results[k].Done? then prev[queue[k].0.id := results[k].items] else prev
    ensures CommitDone(done, queue[..k + 1], results[..k + 1]) ==
            var prev := CommitDone(done, queue[..k], results[..k]);
            if results[k].Done? then prev + {queue[k].0.id} else prev
  {
    assert queue[..k + 1][..k] == queue[..k] && results[..k + 1][..k] == results[..k];
  }

  lemma CommitAll(done: set<Id>, queue: seq<Work>, results: seq<Outcome>)
    requires |queue| == |results| && forall r :: r in results ==> r.Done?
    ensures CommitDone(done, queue, results) == done + WorkIds(queue)
  {
    if queue != [] {
      var k := |queue| - 1;
      CommitAll(done, queue[..k], results[..k]);
      assert queue == queue[..k] + [queue[k]];
    }
  }

  /** Committing leaves every node outside the queue as it was. */
  lemma CommitKeepsOthers(base: map<Id, seq<Item>>, done: set<Id>, queue: seq<Work>, results: seq<Outcome>)
    requires |queue| == |results|
    ensures done <= CommitDone(done, queue, results) <= done + WorkIds(queue)
    ensures forall p :: p !in WorkIds(queue) ==>
      (p in CommitOutputs(base, queue, results) <==> p in base)
      && (p in base ==> CommitOutputs(base, queue, results)[p] == base[p])
  {
    if queue != [] {
      var k := |queue| - 1;
      CommitKeepsOthers(base, done, queue[..k], results[..k]);
      assert queue == queue[..k] + [queue[k]];
    }
  }

  /** The first corrupt record, in order of declaration. */
  ghost predicate FirstCorrupt(w: Workflow, source: ResumeSource, i: int) {
    && 0 <= i < |w.nodes| && source(w.nodes[i]).Corrupt?
    && forall j :: 0 <= j < i ==> !source(w.nodes[j]).Corrupt?
  }

  /** The first corrupt record aborts the run; what was hydrated before it has been logged. */
  ghost predicate AbortsOnCorrupt(job: Job, source: ResumeSource, error: EngineError, logged: seq<StepEvent>) {
    exists i ::
      && FirstCorrupt(job.wf, source, i)
      && error == Internal(CorruptStep(job.wf.nodes[i].id, source(job.wf.nodes[i]).msg))
      && logged == HydrationLog(job, job.wf.nodes[..i])
  }

  ghost predicate SomeCorrupt(w: Workflow, source: Option<ResumeSource>) {
    source.Some? && exists node :: node in w.nodes && source.value(node).Corrupt?
  }

  lemma OneIdPerNode(w: Workflow)
    requires UniqueIds(w)
    ensures |Ids(w)| == |w.nodes| && Ids(w) == NodeIds(w.nodes)
  {
    DistinctCount(w.nodes);
  }

  lemma DistinctCount(nodes: seq<Node>)
    requires DistinctIds(nodes)
    ensures |NodeIds(nodes)| == |nodes|
  {
    if nodes == [] {
      assert NodeIds(nodes) == {};
    } else {
      var k := |nodes| - 1;
      DistinctCount(nodes[..k]);
      NodePrefix(nodes, k);
      assert nodes[..k + 1] == nodes;
    }
  }

  lemma HydratedAt(w: Workflow, source: ResumeSource, node: Node)
    requires UniqueIds(w) && node in w.nodes
    ensures node.id in Ids(w)
    ensures node.id in Hydrated(w, Some(source)) <==> source(node).Found?
    ensures source(node).Found? ==> Hydrated(w, Some(source))[node.id] == Stamp(node.id, source(node).items)
  {
    hide Stamp;
    NodeOfSelf(w, node);
  }

  lemma MarkedDone(job: Job, reachable: set<Id>, done: set<Id>)
    requires JobOk(job) && forall n :: n in reachable <==> Reachable(job.wf, n)
    requires done == job.pinned.Keys + (NodeIds(job.wf.nodes) - reachable)
    ensures done == Init(job).done
  {
    hide Reachable, Valid;
    assert NodeIds(job.wf.nodes) == Ids(job.wf);
  }

  lemma JobIds(job: Job)
    requires JobOk(job)
    ensures UniqueIds(job.wf) && DistinctIds(job.wf.nodes)
    ensures |Ids(job.wf)| == |job.wf.nodes| && Ids(job.wf) == NodeIds(job.wf.nodes)
  {
    OneIdPerNode(job.wf);
  }

  lemma JobIsValid(job: Job)
    requires JobOk(job)
    ensures Workflows.Valid(job.wf)
  {}

  /** Where hydration stands after `i` nodes. */
  ghost predicate HydratedSoFar(job: Job, source: ResumeSource, i: nat,
                                outputs: map<Id, seq<Item>>, done: set<Id>, logged: seq<StepEvent>)
  {
    && i <= |job.wf.nodes|
    && done == NodeIds(job.wf.nodes[..i]) * job.pinned.Keys
    && outputs.Keys == done && (forall n :: n in done ==> outputs[n] == job.pinned[n])
    && logged == HydrationLog(job, job.wf.nodes[..i])
    && forall j :: 0 <= j < i ==> !source(job.wf.nodes[j]).Corrupt?
  }

  lemma HydratedLog(job: Job, source: ResumeSource, i: nat,
                    outputs: map<Id, seq<Item>>, done: set<Id>, logged: seq<StepEvent>)
    requires HydratedSoFar(job, source, i, outputs, done, logged)
    ensures logged == HydrationLog(job, job.wf.nodes[..i])
    ensures forall j :: 0 <= j < i ==> !source(job.wf.nodes[j]).Corrupt?
  {}

  lemma HydratedNothing(job: Job, source: ResumeSource)
    ensures HydratedSoFar(job, source, 0, map[], {}, [])
  {}

  lemma HydratedNext(job: Job, source: ResumeSource, i: nat,
                     o1: map<Id, seq<Item>>, d1: set<Id>, l1: seq<StepEvent>,
                     o2: map<Id, seq<Item>>, d2: set<Id>, l2: seq<StepEvent>)
    requires JobOk(job) && job.pinned == Hydrated(job.wf, Some(source)) && i < |job.wf.nodes|
    requires HydratedSoFar(job, source, i, o1, d1, l1)
    requires var node := job.wf.nodes[i];
             var reply := source(node);
             && !reply.Corrupt?
             && d2 == d1 + (if reply.Found? then {node.id} else {})
             && o2 == (if reply.Found? then o1[node.id := Stamp(node.id, reply.items)] else o1)
             && l2 == l1 + if reply.Found? then [ResumedEvent(node.id, |reply.items|)] else []
    ensures HydratedSoFar(job, source, i + 1, o2, d2, l2)
  {
    hide HydrationLog, NodeIds, JobOk, Stamp, DistinctIds, Hydrated, Ids;
    JobIds(job);
    HydratedAt(job.wf, source, job.wf.nodes[i]);
    NodePrefix(job.wf.nodes, i);
    HydrationLogNext(job, job.wf.nodes, i);
  }

  lemma HydrationFresh(job: Job, source: ResumeSource, i: nat,
                       outputs: map<Id, seq<Item>>, done: set<Id>, logged: seq<StepEvent>)
    requires JobOk(job) && i < |job.wf.nodes| && HydratedSoFar(job, source, i, outputs, done, logged)
    ensures job.wf.nodes[i].id in Ids(job.wf) && job.wf.nodes[i].id !in done
  {
    JobIds(job);
    hide HydrationLog, NodeIds, JobOk, DistinctIds;
    NodePrefix(job.wf.nodes, i);
  }

  lemma HydrationComplete(job: Job, source: ResumeSource,
                          outputs: map<Id, seq<Item>>, done: set<Id>, logged: seq<StepEvent>)
    requires JobOk(job) && HydratedSoFar(job, source, |job.wf.nodes|, outputs, done, logged)
    ensures outputs == job.pinned && done == job.pinned.Keys && !SomeCorrupt(job.wf, Some(source))
    ensures logged == HydrationLog(job, job.wf.nodes)
  {
    hide Valid, HydrationLog;
    assert job.wf.nodes[..|job.wf.nodes|] == job.wf.nodes;
    assert NodeIds(job.wf.nodes) == Ids(job.wf);
  }

  lemma NothingUnreached(job: Job)
    requires Workflows.Valid(job.wf)
    ensures NodeIds(job.wf.nodes[..0]) == {} && UnreachedLog(job, job.wf.nodes[..0]) == []
  {}

  lemma HydrationLogNext(job: Job, nodes: seq<Node>, i: nat)
    requires i < |nodes|
    ensures HydrationLog(job, nodes[..i + 1]) ==
            HydrationLog(job, nodes[..i])
            + if nodes[i].id in job.pinned then [ResumedEvent(nodes[i].id, |job.pinned[nodes[i].id]|)] else []
  {
    assert nodes[..i + 1][..i] == nodes[..i];
  }

  lemma UnreachedLogNext(job: Job, nodes: seq<Node>, i: nat)
    requires Workflows.Valid(job.wf) && i < |nodes|
    ensures UnreachedLog(job, nodes[..i + 1]) ==
            UnreachedLog(job, nodes[..i])
            + if nodes[i].id !in job.pinned && !Reachable(job.wf, nodes[i].id)
              then [SkippedEvent(nodes[i].id, Note.Unreachable)] else []
  {
    assert nodes[..i + 1][..i] == nodes[..i];
  }

  lemma InitReached(job: Job, permits: nat)
    requires JobOk(job)
    ensures Reached(job, permits, Init(job))
  {
    var run := [Init(job)];
    assert IsRun(job, permits, run);
    assert run[|run| - 1] == Init(job);
  }

  lemma RunnableSetIsWave(job: Job, s: State, k: nat)
    requires JobOk(job) && s.active == map[] && s.failed == map[] && s.done == DoneBy(job, k)
    ensures RunnableSet(job, s) == WaveAt(job, k)
    ensures s.done + RunnableSet(job, s) == DoneBy(job, k + 1)
  {
    hide Valid, Runnable, DoneBy;
    DoneByGrows(job, k, k + 1);
    forall n | n in Ids(job.wf) ensures Runnable(job, s, n) <==> n in WaveAt(job, k) {
      RunnableIsWave(job, s, k, n);
    }
  }

  /** Where the wave loop stands: everything logged so far is cut into waves, and what they hold is done. */
  ghost predicate WavesSoFar(job: Job, s: State, segments: seq<seq<StepEvent>>)
    requires JobOk(job)
  {
    && InWaves(job, s.log, segments) && s.done == DoneBy(job, |segments|)
    && (segments != [] ==> DoneBy(job, |segments| - 1) != Ids(job.wf))
  }

  lemma NoWaveYet(job: Job)
    requires JobOk(job)
    ensures WavesSoFar(job, Init(job), [])
  {
    hide Valid, HydrationLog, UnreachedLog;
  }

  /** One more wave, whether or not a node of it failed. */
  lemma WaveLogged(job: Job, s: State, t: State, segments: seq<seq<StepEvent>>)
    requires JobOk(job) && s.active == map[] && s.failed == map[] && s.done != Ids(job.wf)
    requires WavesSoFar(job, s, segments) && s.log <= t.log
    requires IsWave(job, RunnableSet(job, s), t.log[|s.log|..])
    ensures InWaves(job, t.log, segments + [t.log[|s.log|..]])
    ensures t.done == s.done + RunnableSet(job, s) ==> WavesSoFar(job, t, segments + [t.log[|s.log|..]])
  {
    hide Valid, DoneBy, RunnableSet, WaveAt, InWaves, IsWave;
    RunnableSetIsWave(job, s, |segments|);
    InWavesNext(job, s.log, segments, t.log[|s.log|..]);
    assert t.log == s.log + t.log[|s.log|..];
  }

  /** The failure found in a wave is the first of the run: nothing that finished before has failed. */
  lemma FirstOfRun(job: Job, permits: nat, s: State, k: nat, n: Id)
    requires JobOk(job) && Reached(job, permits, s) && s.active == map[] && s.failed == map[]
    requires s.done == DoneBy(job, k) && RunnableSet(job, s) <= Ids(job.wf) && FirstFailing(job, RunnableSet(job, s), n)
    ensures StopsAt(job, k, n)
  {
    hide Valid, Reached, Out, DoneBy, RunnableSet, WaveAt, OnTrack;
    RunnableSetIsWave(job, s, k);
    DoneByGrows(job, k, k);
    ReachedAgrees(job, permits, s);
    forall m | m in DoneBy(job, k) ensures !Out(job, m).Failed? { assert NodeAgrees(job, s, m); }
  }

  /** The waves of a completed fresh run follow the longest walks from the trigger. */
  ghost predicate LongestWalkWaves(job: Job, logged: seq<StepEvent>)
    requires JobOk(job)
  {
    exists segments ::
      && logged == Init(job).log + Flatten(segments)
      && (forall p :: IsWalk(job.wf, p) && p[0] == TriggerId(job.wf) ==> |p| <= |segments|)
      && (exists p :: IsWalk(job.wf, p) && p[0] == TriggerId(job.wf) && |p| == |segments|)
      && forall k :: 0 <= k < |segments| ==> IsWave(job, WaveOf(job.wf, k + 1), segments[k])
  }

  /** A fresh run that completes takes one wave per node of the longest walk from the trigger, and wave by wave
      its log holds the nodes of the next depth. */
  lemma FreshRunWaves(job: Job, permits: nat, r: Result<RunResult, EngineError>, logged: seq<StepEvent>)
    requires job.pinned == map[] && EndsAsDenoted(job, permits, r, logged) && r.Ok?
    ensures LongestWalkWaves(job, logged)
  {
    hide WithinDepth, WaveOf, WaveAt, DoneBy, IsWave, Valid, Out, Reached, DoneAfter, IsWalk, Init;
    var s, segments :| RunEnds(job, permits, s, segments, r) && logged == s.log;
    var k := |segments|;
    FreshWaves(job, k);
    FreshWaves(job, 0);
    TriggerIsDeep(job.wf);
    assert k > 0;
    FreshWaves(job, k - 1);
    LastWaveHasLongestWalk(job.wf, k - 1);
    forall i | 0 <= i < k ensures IsWave(job, WaveOf(job.wf, i + 1), segments[i]) { FreshWaves(job, i); }
  }

  lemma TriggerIsDeep(w: Workflow)
    requires Workflows.Valid(w)
    ensures DoneAfter(w, 0) != Ids(w)
  {
    hide Workflows.Valid, WithinDepth, DoneAfter;
    UnreachedIsDepthZero(w);
    ReachesSelf(w, TriggerId(w));
    assert TriggerId(w) in Ids(w) && TriggerId(w) !in Unreached(w);
  }

  /** The parts of validity the start of a run relies on. */
  lemma ValidParts(w: Workflow)
    requires Workflows.Valid(w)
    ensures NoDangling(w) && FindTrigger(w.nodes).Some? && FindTrigger(w.nodes).value.id == TriggerId(w)
    ensures forall n :: Reachable(w, n) <==> Reaches(w, TriggerId(w), n)
  {
    hide Acyclic, PortsInRange, UniqueIds;
  }

  lemma NoResumeNoCorrupt(w: Workflow)
    ensures !SomeCorrupt(w, None) && Hydrated(w, None) == map[]
  {}

  lemma NothingToHydrate(job: Job, nodes: seq<Node>)
    ensures job.pinned == map[] ==> HydrationLog(job, nodes) == []
  {}

  lemma CorruptMeans(job: Job, source: ResumeSource, error: EngineError, logged: seq<StepEvent>)
    ensures AbortsOnCorrupt(job, source, error, logged) ==> SomeCorrupt(job.wf, Some(source))
  {
    hide HydrationLog;
    if AbortsOnCorrupt(job, source, error, logged) {
      var i :| FirstCorrupt(job.wf, source, i);
      assert job.wf.nodes[i] in job.wf.nodes;
    }
  }

  lemma AllDone(all: set<Id>, done: set<Id>)
    requires done <= all && |done| == |all|
    ensures done == all
  {
    if done != all { SmallerSet(done, all); }
  }

  /** The last state of a run and the waves of its log. A completed run has done everything; a failed one ends
      with the first wave in which a node fails and reports the first such node. */
  ghost predicate RunEnds(job: Job, permits: nat, s: State, segments: seq<seq<StepEvent>>, r: Result<RunResult, EngineError>)
    requires JobOk(job)
  {
    && Reached(job, permits, s) && s.active == map[] && InWaves(job, s.log, segments)
    && match r
       case Ok(_) => s.failed == map[] && s.done == Ids(job.wf) && WavesSoFar(job, s, segments)
       case Err(e) => segments != [] && e.NodeFailed? && StopsAt(job, |segments| - 1, e.nodeId)
  }

  /** How an accepted run ends: as a schedule of the step relation whose result is the denotation's. */
  ghost predicate EndsAsDenoted(job: Job, permits: nat, r: Result<RunResult, EngineError>, logged: seq<StepEvent>) {
    && JobOk(job)
    && (r.Ok? <==> Completes(job))
    && (r.Ok? ==> r.value.outputs == FinalOutputs(job))
    && (r.Err? ==> r.error.NodeFailed? && r.error.nodeId in Ids(job.wf)
                   && Out(job, r.error.nodeId) == Failed(r.error.error))
    && exists s, segments :: RunEnds(job, permits, s, segments, r) && logged == s.log
  }

  /** The job alone decides how a run ends: any two runs of it, under any two permit bounds, report the same
      outputs or the same failure of the same node. */
  lemma RunIsDetermined(job: Job, permits1: nat, r1: Result<RunResult, EngineError>, log1: seq<StepEvent>,
                        permits2: nat, r2: Result<RunResult, EngineError>, log2: seq<StepEvent>)
    requires EndsAsDenoted(job, permits1, r1, log1) && EndsAsDenoted(job, permits2, r2, log2)
    ensures r1.Ok? <==> r2.Ok?
    ensures r1.Ok? ==> r1.value.outputs == r2.value.outputs
    ensures r1.Err? ==> r1 == r2
  {
    hide Valid, Out, Reached, InWaves, WavesSoFar, StopsAt, Completes, FinalOutputs;
    var s1, segments1 :| RunEnds(job, permits1, s1, segments1, r1);
    var s2, segments2 :| RunEnds(job, permits2, s2, segments2, r2);
    if r1.Err? { StopIsUnique(job, |segments1| - 1, r1.error.nodeId, |segments2| - 1, r2.error.nodeId); }
  }

  lemma CompletedRun(job: Job, permits: nat, s: State, segments: seq<seq<StepEvent>>, r: Result<RunResult, EngineError>)
    requires JobOk(job) && permits >= 1 && RunEnds(job, permits, s, segments, r)
    requires r.Ok? && r.value.outputs == s.outputs
    ensures EndsAsDenoted(job, permits, r, s.log)
  {
    hide Reached, Out, Valid, OnTrack, InWaves, WavesSoFar;
    ReachedAgrees(job, permits, s);
    forall n | n in Ids(job.wf)
      ensures n in s.outputs <==> Out(job, n).Done?
      ensures n in s.outputs ==> Out(job, n) == Done(s.outputs[n])
      ensures !Out(job, n).Failed?
    {
      assert NodeAgrees(job, s, n);
    }
    assert s.outputs == FinalOutputs(job);
  }

  lemma FailedRun(job: Job, permits: nat, s: State, segments: seq<seq<StepEvent>>, r: Result<RunResult, EngineError>)
    requires JobOk(job) && RunEnds(job, permits, s, segments, r) && r.Err? && r.error.nodeId in Ids(job.wf)
    requires Out(job, r.error.nodeId) == Failed(r.error.error)
    ensures EndsAsDenoted(job, permits, r, s.log)
  {
    hide Reached, Out, Valid, InWaves, StopsAt;
  }

  // ---- The order of a wave ----

  ghost predicate InOrder(nodes: seq<Node>, wave: seq<Node>) {
    forall i, j :: 0 <= i < j < |wave| ==> Before(nodes, wave[i].id, wave[j].id)
  }

  ghost predicate WorkInOrder(nodes: seq<Node>, queue: seq<Work>) {
    forall i, j :: 0 <= i < j < |queue| ==> Before(nodes, queue[i].0.id, queue[j].0.id)
  }

  lemma BeforeLonger(nodes: seq<Node>, k: nat, a: Id, b: Id)
    requires k <= |nodes| && Before(nodes[..k], a, b)
    ensures Before(nodes, a, b)
  {
    var i, j :| 0 <= i < j < k && nodes[..k][i].id == a && nodes[..k][j].id == b;
    assert nodes[i].id == a && nodes[j].id == b;
  }

  lemma BeforeIsStrict(nodes: seq<Node>, a: Id, b: Id)
    requires DistinctIds(nodes) && Before(nodes, a, b)
    ensures a != b && !Before(nodes, b, a)
  {}

  lemma {:induction false} SelectInOrder(nodes: seq<Node>, done: set<Id>, incoming: map<Id, seq<Edge>>)
    requires forall n :: n in nodes ==> n.id in incoming
    ensures InOrder(nodes, Select(nodes, done, incoming))
  {
    hide Ready, Before;
    if nodes != [] {
      var k := |nodes| - 1;
      SelectInOrder(nodes[..k], done, incoming);
      SelectMembers(nodes[..k], done, incoming);
      var before := Select(nodes[..k], done, incoming);
      forall i, j | 0 <= i < j < |before| ensures Before(nodes, before[i].id, before[j].id) {
        BeforeLonger(nodes, k, before[i].id, before[j].id);
      }
      forall x | x in before ensures Before(nodes, x.id, nodes[k].id) { BeforeLast(nodes, x); }
    }
  }

  lemma BeforeLast(nodes: seq<Node>, x: Node)
    requires nodes != [] && x in nodes[..|nodes| - 1]
    ensures Before(nodes, x.id, nodes[|nodes| - 1].id)
  {
    var i :| 0 <= i < |nodes| - 1 && nodes[i] == x;
    assert nodes[i].id == x.id && nodes[|nodes| - 1].id == nodes[|nodes| - 1].id;
  }

  /** The first node of the queue that fails. */
  ghost predicate FirstOfQueue(job: Job, queue: seq<Work>, n: Id)
    requires JobOk(job) && WorkIds(queue) <= Ids(job.wf)
  {
    exists j :: 0 <= j < |queue| && queue[j].0.id == n && n in Ids(job.wf) && Out(job, n).Failed?
                && forall i :: 0 <= i < j ==> queue[i].0.id in Ids(job.wf) && Out(job, queue[i].0.id).Done?
  }

  lemma EarlierWork(nodes: seq<Node>, queue: seq<Work>, j: nat, m: Id) returns (i: nat)
    requires DistinctIds(nodes) && WorkInOrder(nodes, queue) && j < |queue|
    requires m in WorkIds(queue) && Before(nodes, m, queue[j].0.id)
    ensures i < j && queue[i].0.id == m
  {
    hide Before, DistinctIds;
    var q :| q in queue && q.0.id == m;
    i :| 0 <= i < |queue| && queue[i] == q;
    BeforeIsStrict(nodes, m, queue[j].0.id);
  }

  /** The queue is in order, and ahead of the nodes of the wave not yet looked at. */
  ghost predicate QueuedSoFar(nodes: seq<Node>, wave: seq<Node>, i: nat, queue: seq<Work>) {
    && WorkInOrder(nodes, queue)
    && forall q, k :: q in queue && i <= k < |wave| ==> Before(nodes, q.0.id, wave[k].id)
  }

  lemma NothingQueued(nodes: seq<Node>, wave: seq<Node>)
    ensures QueuedSoFar(nodes, wave, 0, [])
  {}

  lemma QueuedNext(nodes: seq<Node>, wave: seq<Node>, i: nat, queue: seq<Work>, q: Work)
    requires QueuedSoFar(nodes, wave, i, queue) && InOrder(nodes, wave) && i < |wave| && q.0 == wave[i]
    ensures QueuedSoFar(nodes, wave, i + 1, queue) && QueuedSoFar(nodes, wave, i + 1, queue + [q])
  {
    hide Before;
  }

  lemma QueuedInOrder(nodes: seq<Node>, wave: seq<Node>, i: nat, queue: seq<Work>)
    requires QueuedSoFar(nodes, wave, i, queue)
    ensures WorkInOrder(nodes, queue)
  {
    hide Before;
  }

  /** What is not queued was skipped and has not failed; so the first failure of the queue is that of the wave. */
  lemma FirstOfWave(job: Job, permits: nat, s: State, queue: seq<Work>, wave: set<Id>, n: Id)
    requires JobOk(job) && Reached(job, permits, s) && s.active == map[] && s.failed == map[]
    requires WorkIds(queue) <= wave <= Ids(job.wf) && wave <= s.done + WorkIds(queue)
    requires WorkInOrder(job.wf.nodes, queue) && FirstOfQueue(job, queue, n)
    ensures FirstFailing(job, wave, n)
  {
    hide Valid, Reached, Out, OnTrack, Before, WorkIds, WorkInOrder, Ids;
    JobIds(job);
    ReachedAgrees(job, permits, s);
    var j :| 0 <= j < |queue| && queue[j].0.id == n && Out(job, n).Failed?
             && forall i :: 0 <= i < j ==> queue[i].0.id in Ids(job.wf) && Out(job, queue[i].0.id).Done?;
    QueuedWork(queue, j);
    forall m | m in wave && Before(job.wf.nodes, m, n) ensures !Out(job, m).Failed? {
      if m in s.done {
        assert NodeAgrees(job, s, m);
      } else {
        var i := EarlierWork(job.wf.nodes, queue, j, m);
      }
    }
  }

  lemma SamePrefix<T>(before: seq<T>, a: seq<T>, b: seq<T>)
    requires before + a <= before + b
    ensures a <= b
  {
    forall i | 0 <= i < |a| ensures a[i] == b[i] {
      assert (before + a)[|before| + i] == (before + b)[|before| + i];
    }
  }

  lemma QueuedWork(queue: seq<Work>, j: nat)
    requires j < |queue|
    ensures queue[j].0.id in WorkIds(queue)
  {}

  /** The mutable state of one run. The ghost `state` is the matching state of the step relation. */
  class Execution {
    const wf: Workflow
    const executors: Oracle
    const mode: Mode
    const seed: seq<Json>
    const maxConcurrency: nat
    const log: EventLog
    const incoming: map<Id, seq<Edge>>
    const trigger: Id
    ghost const job: Job
    ghost const before: seq<StepEvent>

    var outputs: map<Id, seq<Item>>
    var done: set<Id>
    var remaining: nat
    ghost var state: State

    ghost predicate Configured() {
      && JobOk(job)
      && job == Job(wf, executors, mode, seed, job.pinned)
      && maxConcurrency >= 1
    }

    /** The graph indexes built before the run. */
    ghost predicate Indexed()
      requires Configured()
    {
      && trigger == TriggerId(wf)
      && incoming.Keys == Ids(wf)
      && forall n :: n in Ids(wf) ==> incoming[n] == EdgeList(wf.connections, n)
    }

    constructor (wf: Workflow, executors: Oracle, mode: Mode, seed: seq<Json>, maxConcurrency: nat, log: EventLog,
                 incoming: map<Id, seq<Edge>>, trigger: Id, ghost source: Option<ResumeSource>)
      requires Workflows.Valid(wf) && maxConcurrency >= 1
      requires trigger == TriggerId(wf) && incoming.Keys == Ids(wf)
      requires forall n :: n in Ids(wf) ==> incoming[n] == EdgeList(wf.connections, n)
      ensures Configured() && Indexed() && this.wf == wf && this.log == log && this.maxConcurrency == maxConcurrency
      ensures job == Job(wf, executors, mode, seed, Hydrated(wf, source))
      ensures before == log.events
      ensures outputs == map[] && done == {} && Balanced()
    {
      this.wf, this.executors, this.mode, this.seed := wf, executors, mode, seed;
      this.maxConcurrency, this.log, this.incoming, this.trigger := maxConcurrency, log, incoming, trigger;
      outputs, done, remaining := map[], {}, |wf.nodes|;
      OneIdPerNode(wf);
      job := Job(wf, executors, mode, seed, Hydrated(wf, source));
      before := log.events;
    }

    /** The log is the trace of a schedule of the step relation that has reached `state`. */
    ghost predicate Traced()
      reads this, log
    {
      && Configured()
      && Reached(job, maxConcurrency, state)
      && log.events == before + state.log
    }

    /** The loop counter is the number of nodes not done. */
    ghost predicate Balanced()
      reads this`done, this`remaining
    {
      done <= Ids(wf) && remaining == |Ids(wf)| - |done|
    }

    /** Between waves. */
    ghost predicate AtRest()
      reads this, log
    {
      && Traced()
      && state.active == map[] && state.failed == map[]
      && outputs == state.outputs && done == state.done
      && Balanced()
    }

    /** Record the ghost step of the schedule that goes with what was just logged. */
    ghost method Advance(t: State, n: Id, e: StepEvent)
      requires Configured() && Reached(job, maxConcurrency, state)
      requires Step(job, maxConcurrency, state, t, n) && t.log == state.log + [e]
      requires log.events == before + state.log + [e]
      modifies this`state
      ensures Traced() && state == t
    {
      hide JobOk, Step, Reached;
      ReachedStep(job, maxConcurrency, state, t, n);
      state := t;
      assert before + t.log == (before + old(state.log)) + [e];
    }

    /** One attempt in a dry run or without a retry policy; otherwise up to the policy's maximum, with one
        event for each failed attempt. */
    method ExecuteWithRetry(node: Node, input: seq<Item>) returns (reply: Reply)
      requires Traced() && node in wf.nodes
      requires state.active == map[node.id := Activity(input, 0)]
      modifies this`state, log
      ensures Traced() && node.id in Ids(wf) && old(log.events) <= log.events
      ensures reply == TryFrom(job, node, input, 1)
      ensures state.active.Keys == {node.id} && state.active[node.id].input == input
      ensures !WillRecordAttempt(job, node.id, state.active[node.id])
      ensures CurrentReply(job, node.id, state.active[node.id]) == reply
      ensures state.outputs == old(state.outputs) && state.done == old(state.done) && state.failed == old(state.failed)
    {
      hide JobOk, Reached, Step, TryFrom, CurrentReply, WillRecordAttempt;
      JobNode(job, node);
      if mode.DryRun? {
        reply := executors(node, DryRun, 1, input);
        OneAttempt(job, node, input);
        return;
      }
      if node.retry.None? || node.retry.value.maxAttempts <= 1 {
        reply := executors(node, Run, 1, input);
        OneAttempt(job, node, input);
        return;
      }
      reply := RetryLoop(node, input, node.retry.value.maxAttempts);
    }

    method RetryLoop(node: Node, input: seq<Item>, max: nat) returns (reply: Reply)
      requires Traced() && node in wf.nodes
      requires state.active == map[node.id := Activity(input, 0)]
      requires mode.Run? && max == MaxAttempts(mode, node) > 1
      modifies this`state, log
      ensures Traced() && node.id in Ids(wf) && old(log.events) <= log.events
      ensures reply == TryFrom(job, node, input, 1)
      ensures state.active.Keys == {node.id} && state.active[node.id].input == input
      ensures !WillRecordAttempt(job, node.id, state.active[node.id])
      ensures CurrentReply(job, node.id, state.active[node.id]) == reply
      ensures state.outputs == old(state.outputs) && state.done == old(state.done) && state.failed == old(state.failed)
    {
      hide JobOk, Reached, Step, TryFrom, CurrentReply, WillRecordAttempt, MaxAttempts, Ids, NodeOf;
      JobNode(job, node);
      reply := Err(Runtime("retry exhausted with no error captured"));
      var attempt := 1;
      while attempt <= max
        invariant 1 <= attempt <= max + 1
        invariant Traced() && state.active == map[node.id := Activity(input, attempt - 1)]
        invariant forall k :: 1 <= k < attempt ==> executors(node, Run, k, input).Err?
        invariant old(log.events) <= log.events
        invariant attempt > 1 ==> reply == executors(node, Run, attempt - 1, input)
        invariant state.outputs == old(state.outputs) && state.done == old(state.done) && state.failed == old(state.failed)
      {
        var tried := executors(node, Run, attempt, input);
        if tried.Ok? {
          reply := tried;
          LastAttempt(job, node, input, attempt - 1);
          return;
        }
        var e := AttemptEvent(node.id, |input|, attempt, max, tried.error);
        log.Record(e);
        ghost var t := FailAttemptStep(job, maxConcurrency, state, node, input, attempt, tried.error);
        Advance(t, node.id, e);
        reply := tried;
        attempt := attempt + 1;
      }
      LastAttempt(job, node, input, max);
    }

    /** Run one node: Started, attempts, one closing event; then restamp or apply the error policy. */
    method RunOneNode(node: Node, input: seq<Item>) returns (outcome: Outcome)
      requires Traced() && node in wf.nodes && state.active == map[]
      requires Runnable(job, state, node.id)
      requires input == InputOf(job, node.id, state.outputs) && !Starved(wf, node.id, input)
      modifies this`state, log
      ensures Traced() && state.active == map[] && old(log.events) <= log.events
      ensures outcome.Done? || outcome.Failed?
      ensures outcome == Out(job, node.id)
      ensures match outcome
              case Done(items) =>
                state.outputs == old(state.outputs)[node.id := items] && state.done == old(state.done) + {node.id}
                && state.failed == old(state.failed)
              case Failed(e) =>
                state.outputs == old(state.outputs) && state.done == old(state.done)
                && state.failed == old(state.failed)[node.id := e]
              case _ => true
    {
      hide JobOk, Reached, Step, Out, InputOf, Starved, TryFrom, CurrentReply, WillRecordAttempt, Runnable;
      var n := node.id;
      JobNode(job, node);
      assert Out(job, n) == Settle(node, TryFrom(job, node, input, 1)) by {
        ReachedAgrees(job, maxConcurrency, state);
        RunnableInput(job, state, n);
      }
      var started := StartedEvent(n, |input|);
      log.Record(started);
      ghost var s := StartStep(job, maxConcurrency, state, n, input);
      Advance(s, n, started);

      var reply := ExecuteWithRetry(node, input);

      var closing := ClosingEvent(n, |input|, reply);
      log.Record(closing);
      outcome := Settle(node, reply);
      assert state.active == map[n := state.active[n]];
      ghost var t := FinishStep(job, maxConcurrency, state, node, state.active[n], reply);
      Advance(t, n, closing);
    }

    method RunnableNodes() returns (runnable: seq<Node>)
      requires AtRest() && Indexed()
      ensures DistinctIds(runnable) && InOrder(wf.nodes, runnable)
      ensures forall node :: node in runnable ==> node in wf.nodes && Runnable(job, state, node.id)
      ensures NodeIds(runnable) == RunnableSet(job, state) <= Ids(wf)
    {
      hide JobOk, Reached, EdgeList, Ready, DistinctIds, Runnable, RunnableSet, InOrder;
      runnable := [];
      var i := 0;
      while i < |wf.nodes|
        invariant 0 <= i <= |wf.nodes|
        invariant forall n :: n in wf.nodes ==> n.id in incoming
        invariant runnable == Select(wf.nodes[..i], done, incoming)
      {
        var node := wf.nodes[i];
        assert wf.nodes[..i + 1][..i] == wf.nodes[..i];
        if node.id !in done && Ready(incoming[node.id], done) {
          runnable := runnable + [node];
        }
        i := i + 1;
      }
      assert wf.nodes[..i] == wf.nodes;
      SelectIsRunnable(job, state, incoming);
      SelectInOrder(wf.nodes, done, incoming);
    }

    /** Gather the input of one runnable node; record a skip if it has producers but received nothing. */
    method Admit(node: Node) returns (input: seq<Item>, starved: bool)
      requires Traced() && Indexed() && node in wf.nodes && Runnable(job, state, node.id)
      requires InputOf(job, node.id, outputs) == InputOf(job, node.id, state.outputs)
      modifies this`state, log
      ensures Traced() && input == InputOf(job, node.id, outputs) && old(log.events) <= log.events
      ensures starved == Starved(wf, node.id, input)
      ensures !starved ==> state == old(state)
      ensures starved ==> state == old(state).(outputs := old(state).outputs[node.id := []],
                                               done := old(state).done + {node.id},
                                               log := old(state).log + [SkippedEvent(node.id, NoInput)])
    {
      hide JobOk, Reached, Step, Runnable, Gather, EdgeList, Sort, EdgeLe, Starved;
      var n := node.id;
      JobNode(job, node);
      var edges := incoming[n];
      input := GatherInput(n == trigger, Roots(seed), edges, outputs);
      starved := input == [] && edges != [];
      StarvedByEdges(wf, n, input);
      if starved {
        var e := SkippedEvent(n, NoInput);
        log.Record(e);
        ghost var t := SkipStep(job, maxConcurrency, state, n);
        Advance(t, n, e);
      }
    }

    /** First half of a wave: every input is gathered from the outputs of earlier waves. */
    method GatherWave(runnable: seq<Node>) returns (queue: seq<Work>, skipped: seq<Node>)
      requires AtRest() && Indexed() && DistinctIds(runnable) && InOrder(wf.nodes, runnable)
      requires forall node :: node in runnable ==> node in wf.nodes && Runnable(job, state, node.id)
      modifies this`state, log
      ensures Traced() && Gathered(job, outputs, done, state, runnable, queue, skipped)
      ensures old(log.events) <= log.events && WorkInOrder(wf.nodes, queue)
    {
      hide JobOk, Reached, Step, Starved, InputOf, Producers, Gathered, Before, WorkInOrder, QueuedSoFar;
      NothingQueued(wf.nodes, runnable);
      queue, skipped := [], [];
      assert Gathered(job, outputs, done, state, [], queue, skipped) by { GatheredNothing(job, state); }
      assert forall j :: 0 <= j < |runnable| ==>
        runnable[j].id !in done && runnable[j].id in Ids(wf) && Producers(wf, runnable[j].id) <= done;
      var i := 0;
      while i < |runnable|
        invariant 0 <= i <= |runnable|
        invariant Traced() && Gathered(job, outputs, done, state, runnable[..i], queue, skipped)
        invariant old(log.events) <= log.events && QueuedSoFar(wf.nodes, runnable, i, queue)
      {
        var node := runnable[i];
        ghost var s := state;
        GatheredKeeps(job, outputs, done, state, runnable[..i], queue, skipped, node.id);
        var input, starved := Admit(node);
        assert runnable[..i + 1] == runnable[..i] + [node];
        QueuedNext(wf.nodes, runnable, i, queue, (node, input));
        if starved {
          GatheredSkip(job, outputs, done, s, state, runnable[..i], queue, skipped, node);
          skipped := skipped + [node];
        } else {
          GatheredWork(job, outputs, done, state, runnable[..i], queue, skipped, node, input);
          queue := queue + [(node, input)];
        }
        i := i + 1;
      }
      assert runnable[..i] == runnable;
      QueuedInOrder(wf.nodes, runnable, i, queue);
    }

    /** Second half of a wave: run the work and collect the outcomes without committing them. */
    method RunQueue(queue: seq<Work>) returns (results: seq<Outcome>)
      requires Traced() && state.active == map[] && state.failed == map[]
      requires outputs == state.outputs && done == state.done
      requires DistinctWork(queue) && WorkIds(queue) !! done
      requires forall q :: q in queue ==>
        q.0 in wf.nodes && Producers(wf, q.0.id) <= done
        && q.1 == InputOf(job, q.0.id, outputs) && !Starved(wf, q.0.id, q.1)
      modifies this`state, log
      ensures Traced() && Ran(job, outputs, done, state, queue, results) && old(log.events) <= log.events
    {
      hide JobOk, Reached, Step, Starved, InputOf, Producers, Out, Ran, WorkIds;
      results := [];
      assert Ran(job, outputs, done, state, [], []) by { RanNothing(job, state); }
      var i := 0;
      while i < |queue|
        invariant 0 <= i <= |queue|
        invariant Traced() && Ran(job, outputs, done, state, queue[..i], results) && old(log.events) <= log.events
      {
        var q := queue[i];
        assert q in queue;
        QueuePrefix(queue, i);
        QueueKeeps(job, outputs, done, state, queue[..i], results, q.0);
        ghost var s := state;
        assert s.active == map[] by { RanIdle(job, outputs, done, s, queue[..i], results); }
        var outcome := RunOneNode(q.0, q.1);
        RanOne(job, outputs, done, s, state, queue[..i], results, q, outcome);
        results := results + [outcome];
        assert queue[..i + 1] == queue[..i] + [q];
        i := i + 1;
      }
      assert queue[..i] == queue;
    }

    /** Mark one node done. The count cannot drop below zero. */
    method MarkDone(n: Id)
      requires Balanced() && n in Ids(wf) && n !in done
      modifies this`done, this`remaining
      ensures done == old(done) + {n} && Balanced()
    {
      Counted(Ids(wf), done, n);
      done := done + {n};
      remaining := remaining - 1;
    }

    method CommitSkipped(skipped: seq<Node>)
      requires Balanced()
      requires DistinctIds(skipped) && NodeIds(skipped) !! done && NodeIds(skipped) <= Ids(wf)
      modifies this`outputs, this`done, this`remaining
      ensures outputs == old(outputs) + map n | n in NodeIds(skipped) :: []
      ensures done == old(done) + NodeIds(skipped) && Balanced()
    {
      hide Ids, NodeIds, DistinctIds;
      var i := 0;
      assert NodeIds([]) == {} by { NodeIdsMembers([]); }
      assert skipped[..0] == [];
      while i < |skipped|
        invariant 0 <= i <= |skipped|
        invariant outputs == old(outputs) + map n | n in NodeIds(skipped[..i]) :: []
        invariant done == old(done) + NodeIds(skipped[..i]) && Balanced()
      {
        var n := skipped[i].id;
        NodePrefix(skipped, i);
        ExtendEmpty(old(outputs), NodeIds(skipped[..i]), n);
        outputs := outputs[n := []];
        MarkDone(n);
        i := i + 1;
      }
      assert skipped[..i] == skipped;
    }

    /** Commit outcomes in wave order; the first failure aborts the run. */
    method CommitResults(queue: seq<Work>, results: seq<Outcome>) returns (error: Option<EngineError>)
      requires Balanced()
      requires DistinctWork(queue) && WorkIds(queue) !! done && WorkIds(queue) <= Ids(wf)
      requires |queue| == |results| && forall r :: r in results ==> r.Done? || r.Failed?
      modifies this`outputs, this`done, this`remaining
      ensures error.None? ==>
        && (forall r :: r in results ==> r.Done?)
        && outputs == CommitOutputs(old(outputs), queue, results) && done == CommitDone(old(done), queue, results)
        && Balanced()
      ensures error.Some? ==>
        exists j :: 0 <= j < |queue| && results[j].Failed? && (forall i :: 0 <= i < j ==> results[i].Done?)
                    && error == Some(EngineError.NodeFailed(queue[j].0.id, results[j].error))
                    && outputs == CommitOutputs(old(outputs), queue[..j], results[..j])
                    && done == CommitDone(old(done), queue[..j], results[..j])
    {
      hide Ids, CommitOutputs, CommitDone, WorkIds, DistinctWork;
      CommitNothing(outputs, done);
      var i := 0;
      while i < |queue|
        invariant 0 <= i <= |queue|
        invariant forall j :: 0 <= j < i ==> results[j].Done?
        invariant outputs == CommitOutputs(old(outputs), queue[..i], results[..i])
        invariant done == CommitDone(old(done), queue[..i], results[..i])
        invariant Balanced()
      {
        CommitOne(old(outputs), old(done), queue, results, i);
        CommitKeepsOthers(old(outputs), old(done), queue[..i], results[..i]);
        QueuePrefix(queue, i);
        assert results[i] in results;
        if results[i].Failed? {
          return Some(EngineError.NodeFailed(queue[i].0.id, results[i].error));
        }
        outputs := outputs[queue[i].0.id := results[i].items];
        MarkDone(queue[i].0.id);
        i := i + 1;
      }
      assert queue[..i] == queue && results[..i] == results;
      error := None;
    }

    method RunAndCommit(queue: seq<Work>) returns (error: Option<EngineError>)
      requires AtRest() && DistinctWork(queue) && WorkIds(queue) !! done && WorkIds(queue) <= Ids(wf)
      requires forall q :: q in queue ==>
        q.0 in wf.nodes && Producers(wf, q.0.id) <= done
        && q.1 == InputOf(job, q.0.id, outputs) && !Starved(wf, q.0.id, q.1)
      modifies this`outputs, this`done, this`remaining, this`state, log
      ensures Traced() && state.active == map[] && old(log.events) <= log.events
      ensures state.done + state.failed.Keys == old(done) + WorkIds(queue)
      ensures error.None? ==> AtRest() && done == old(done) + WorkIds(queue)
      ensures error.Some? ==>
        && error.value.NodeFailed? && error.value.nodeId in Ids(wf)
        && Out(job, error.value.nodeId) == Failed(error.value.error)
        && FirstOfQueue(job, queue, error.value.nodeId)
    {
      hide JobOk, Reached, Starved, InputOf, Producers, Out, Ran, WorkIds, DistinctWork, Ids, CommitOutputs, CommitDone,
           FirstOfQueue;
      var results := RunQueue(queue);
      RanFacts(job, outputs, done, state, queue, results);
      RanEnds(job, outputs, done, state, queue, results);
      forall j | 0 <= j < |queue| && results[j].Failed? && forall i :: 0 <= i < j ==> results[i].Done?
        ensures FirstOfQueue(job, queue, queue[j].0.id)
      {
        FirstResult(job, outputs, done, state, queue, results, j);
      }
      error := CommitResults(queue, results);
      if error.None? {
        CommitAll(old(done), queue, results);
      }
    }

    /** Gather a wave and commit the nodes it skips; what is left is work for executors. */
    method Prepare(runnable: seq<Node>) returns (queue: seq<Work>)
      requires AtRest() && Indexed() && DistinctIds(runnable) && NodeIds(runnable) <= Ids(wf)
      requires InOrder(wf.nodes, runnable)
      requires forall node :: node in runnable ==> node in wf.nodes && Runnable(job, state, node.id)
      modifies this`outputs, this`done, this`remaining, this`state, log
      ensures AtRest() && old(done) <= done && done + WorkIds(queue) == old(done) + NodeIds(runnable)
      ensures old(log.events) <= log.events && WorkInOrder(wf.nodes, queue)
      ensures DistinctWork(queue) && WorkIds(queue) !! done && WorkIds(queue) <= Ids(wf)
      ensures forall q :: q in queue ==>
        q.0 in wf.nodes && Producers(wf, q.0.id) <= done
        && q.1 == InputOf(job, q.0.id, outputs) && !Starved(wf, q.0.id, q.1)
    {
      hide JobOk, Reached, Starved, InputOf, Producers, Gathered, WorkIds, NodeIds, DistinctIds, DistinctWork, Ids,
           Runnable, Balanced, InOrder, WorkInOrder;
      var skipped;
      queue, skipped := GatherWave(runnable);
      GatheredFacts(job, outputs, done, state, runnable, queue, skipped);
      CommitSkipped(skipped);
      GatheredInputs(job, old(outputs), outputs, old(done), done, state, runnable, queue, skipped);
    }

    /** Gather, run and commit the nodes of one wave. */
    method RunNodes(runnable: seq<Node>) returns (error: Option<EngineError>)
      requires AtRest() && Indexed() && DistinctIds(runnable) && NodeIds(runnable) <= Ids(wf)
      requires InOrder(wf.nodes, runnable)
      requires forall node :: node in runnable ==> node in wf.nodes && Runnable(job, state, node.id)
      modifies this`outputs, this`done, this`remaining, this`state, log
      ensures Traced() && state.active == map[] && old(log.events) <= log.events
      ensures state.done + state.failed.Keys == old(done) + NodeIds(runnable)
      ensures error.None? ==> AtRest() && done == old(done) + NodeIds(runnable)
      ensures error.Some? ==>
        && error.value.NodeFailed? && error.value.nodeId in Ids(wf)
        && Out(job, error.value.nodeId) == Failed(error.value.error)
        && FirstFailing(job, NodeIds(runnable), error.value.nodeId)
    {
      hide JobOk, Reached, Starved, InputOf, Producers, Out, WorkIds, NodeIds, DistinctIds, DistinctWork, Ids,
           Runnable, FirstFailing, FirstOfQueue, InOrder, WorkInOrder, Balanced;
      var queue := Prepare(runnable);
      ghost var prepared := state;
      error := RunAndCommit(queue);
      SplitWave(old(done), NodeIds(runnable), prepared.done, WorkIds(queue));
      if error.Some? {
        FirstOfWave(job, maxConcurrency, prepared, queue, NodeIds(runnable), error.value.nodeId);
      }
    }

    /** One wave: everything runnable at its start. Returns an error if a node failed under Stop. */
    method Wave() returns (error: Option<EngineError>)
      requires AtRest() && Indexed() && remaining > 0
      modifies this`outputs, this`done, this`remaining, this`state, log
      ensures Traced() && state.active == map[] && old(state).log <= state.log
      ensures RunnableSet(job, old(state)) <= Ids(wf)
      ensures IsWave(job, RunnableSet(job, old(state)), state.log[|old(state).log|..])
      ensures error.None? ==> AtRest() && done == old(done) + RunnableSet(job, old(state))
      ensures error.None? ==> remaining < old(remaining)
      ensures error.Some? ==>
        && error.value.NodeFailed? && error.value.nodeId in Ids(wf)
        && Out(job, error.value.nodeId) == Failed(error.value.error)
        && FirstFailing(job, RunnableSet(job, old(state)), error.value.nodeId)
    {
      hide JobOk, Reached, Out, NodeIds, DistinctIds, Ids, Runnable, RunnableSet, IsWave, FirstFailing, InOrder;
      SomethingIsRunnable(job, maxConcurrency, state);
      var runnable := RunnableNodes();
      NodeIdsMembers(runnable);
      if runnable == [] {
        assert false; // the engine's "no runnable nodes but work remains" error
      }
      ghost var s, wave := state, NodeIds(runnable);
      RunnableIsPending(job, s);
      error := RunNodes(runnable);
      SamePrefix(before, s.log, state.log);
      SegmentIsWave(job, maxConcurrency, s, state, wave);
      if error.None? {
        SmallerSet(old(done), done);
      }
    }

    /** Reuse the outputs of one node if an earlier run finished it. */
    method HydrateOne(node: Node, reply: HydrateResult)
      requires Balanced() && node.id in Ids(wf) && node.id !in done && !reply.Corrupt?
      modifies this`outputs, this`done, this`remaining, log
      ensures Balanced() && done == old(done) + if reply.Found? then {node.id} else {}
      ensures outputs == if reply.Found? then old(outputs)[node.id := Stamp(node.id, reply.items)] else old(outputs)
      ensures log.events == old(log.events) + if reply.Found? then [ResumedEvent(node.id, |reply.items|)] else []
    {
      hide Ids, Balanced;
      if reply.Found? {
        outputs := outputs[node.id := Stamp(node.id, reply.items)];
        MarkDone(node.id);
        log.Record(ResumedEvent(node.id, |reply.items|));
      }
    }

    /** Reuse what an earlier run finished. A corrupt record aborts instead of running the node again. */
    method Hydrate(source: ResumeSource) returns (error: Option<EngineError>)
      requires Configured() && job.pinned == Hydrated(wf, Some(source))
      requires outputs == map[] && done == {} && Balanced() && log.events == before
      modifies this`outputs, this`done, this`remaining, log
      ensures error.None? ==> !SomeCorrupt(wf, Some(source))
      ensures error.None? ==>
        && outputs == job.pinned && done == job.pinned.Keys && Balanced()
        && log.events == before + HydrationLog(job, wf.nodes)
      ensures error.Some? ==>
        before <= log.events && AbortsOnCorrupt(job, source, error.value, log.events[|before|..])
    {
      hide HydrationLog, JobOk, Stamp, Hydrated, Ids, Balanced, SomeCorrupt, HydratedSoFar;
      var i := 0;
      ghost var logged: seq<StepEvent> := [];
      HydratedNothing(job, source);
      while i < |wf.nodes|
        invariant 0 <= i <= |wf.nodes|
        invariant Balanced() && HydratedSoFar(job, source, i, outputs, done, logged)
        invariant log.events == before + logged
      {
        var node := wf.nodes[i];
        var reply := source(node);
        if reply.Corrupt? {
          HydratedLog(job, source, i, outputs, done, logged);
          assert FirstCorrupt(wf, source, i);
          assert log.events[|before|..] == logged;
          return Some(Internal(CorruptStep(node.id, reply.msg)));
        }
        HydrationFresh(job, source, i, outputs, done, logged);
        ghost var o1, d1, l1 := outputs, done, logged;
        HydrateOne(node, reply);
        logged := logged + if reply.Found? then [ResumedEvent(node.id, |reply.items|)] else [];
        HydratedNext(job, source, i, o1, d1, l1, outputs, done, logged);
        i := i + 1;
      }
      HydrationComplete(job, source, outputs, done, logged);
      error := None;
    }

    method MarkOne(n: Id, reachable: set<Id>)
      requires Balanced() && n in Ids(wf)
      modifies this`done, this`remaining, log
      ensures Balanced() && done == old(done) + ({n} - reachable)
      ensures log.events == old(log.events) +
        if n !in reachable && n !in old(done) then [SkippedEvent(n, Note.Unreachable)] else []
    {
      hide Ids, Balanced;
      if n !in reachable && n !in done {
        MarkDone(n);
        log.Record(SkippedEvent(n, Note.Unreachable));
      }
    }

    /** Only nodes reachable from the trigger run; every other one is marked done and logged. */
    method MarkUnreached(reachable: set<Id>)
      requires Configured()
      requires outputs == job.pinned && done == job.pinned.Keys && Balanced()
      requires log.events == before + HydrationLog(job, wf.nodes)
      requires forall n :: n in reachable <==> Reachable(wf, n)
      modifies this`done, this`remaining, this`state, log
      ensures AtRest() && state == Init(job)
    {
      hide HydrationLog, UnreachedLog, NodeIds, JobOk, Reachable, Reached, UniqueIds, DistinctIds, Ids, Balanced;
      JobIds(job);
      JobIsValid(job);
      NodeIdsMembers(wf.nodes);
      ghost var hydrated := log.events;
      var i := 0;
      assert NodeIds(wf.nodes[..0]) == {} && UnreachedLog(job, wf.nodes[..0]) == [] by { NothingUnreached(job); }
      while i < |wf.nodes|
        invariant 0 <= i <= |wf.nodes|
        invariant done == job.pinned.Keys + (NodeIds(wf.nodes[..i]) - reachable)
        invariant Balanced()
        invariant log.events == hydrated + UnreachedLog(job, wf.nodes[..i])
      {
        NodePrefix(wf.nodes, i);
        UnreachedLogNext(job, wf.nodes, i);
        MarkOne(wf.nodes[i].id, reachable);
        i := i + 1;
      }
      assert wf.nodes[..i] == wf.nodes;
      state := Init(job);
      InitReached(job, maxConcurrency);
      MarkedDone(job, reachable, done);
    }

    /** The wave loop. */
    method RunAll() returns (error: Option<EngineError>, ghost segments: seq<seq<StepEvent>>)
      requires AtRest() && Indexed() && state == Init(job)
      modifies this`outputs, this`done, this`remaining, this`state, log
      ensures JobOk(job) && Traced() && state.active == map[] && InWaves(job, state.log, segments)
      ensures error.None? ==> AtRest() && done == Ids(wf) && WavesSoFar(job, state, segments)
      ensures error.Some? ==>
        && error.value.NodeFailed? && error.value.nodeId in Ids(wf)
        && Out(job, error.value.nodeId) == Failed(error.value.error)
        && segments != [] && StopsAt(job, |segments| - 1, error.value.nodeId)
    {
      hide Reached, Out, Ids, RunnableSet, Valid, Init, InWaves, DoneBy, StopsAt, FirstFailing, IsWave;
      segments := [];
      error := None;
      NoWaveYet(job);
      while remaining > 0
        invariant AtRest() && Indexed() && error.None? && WavesSoFar(job, state, segments)
        decreases remaining
      {
        ghost var s := state;
        error := Wave();
        WaveLogged(job, s, state, segments);
        if error.Some? {
          FirstOfRun(job, maxConcurrency, s, |segments|, error.value.nodeId);
          segments := segments + [state.log[|s.log|..]];
          return;
        }
        segments := segments + [state.log[|s.log|..]];
      }
      AllDone(Ids(wf), done);
    }
  }

  /** The engine: a registry of executors and a concurrency cap. */
  class Engine {
    const registry: set<Kind>
    const executors: Oracle
    const maxConcurrency: nat

    constructor (registry: set<Kind>, executors: Oracle, maxConcurrency: nat)
      ensures this.registry == registry && this.executors == executors
      ensures this.maxConcurrency == if maxConcurrency == 0 then 1 else maxConcurrency
    {
      this.registry, this.executors := registry, executors;
      this.maxConcurrency := if maxConcurrency == 0 then 1 else maxConcurrency;
    }

    ghost predicate Equipped(w: Workflow) {
      forall node :: node in w.nodes ==> node.kind in registry
    }

    /** The kind of the first node, in order of declaration, that has no executor. */
    ghost predicate FirstLacking(w: Workflow, kind: Kind) {
      kind !in registry && exists i :: 0 <= i < |w.nodes| && w.nodes[i].kind == kind
                                       && forall j :: 0 <= j < i ==> w.nodes[j].kind in registry
    }

    method MissingExecutor(w: Workflow) returns (kind: Option<Kind>)
      ensures kind.None? <==> Equipped(w)
      ensures kind.Some? ==> FirstLacking(w, kind.value)
    {
      var i := 0;
      while i < |w.nodes|
        invariant 0 <= i <= |w.nodes|
        invariant forall j :: 0 <= j < i ==> w.nodes[j].kind in registry
      {
        if w.nodes[i].kind !in registry {
          assert w.nodes[i] in w.nodes;
          return Some(w.nodes[i].kind);
        }
        i := i + 1;
      }
      kind := None;
    }

    ghost function JobOf(w: Workflow, seed: seq<Json>, mode: Mode, resume: Option<ResumeSource>): Job {
      Job(w, executors, mode, seed, Hydrated(w, resume))
    }

    /** Nothing stops the run before its first wave. */
    ghost predicate Accepts(w: Workflow, valid: bool, seed: seq<Json>, resume: Option<ResumeSource>) {
      valid && !(resume.Some? && seed != []) && Equipped(w) && !SomeCorrupt(w, resume)
    }

    /** Run a workflow. `valid` is the validator's verdict; `resume` asks for outputs of an earlier run. */
    method RunWithId(w: Workflow, valid: bool, seed: seq<Json>, mode: Mode, log: EventLog,
                     resume: Option<ResumeSource>)
      returns (r: Result<RunResult, EngineError>)
      requires valid ==> Workflows.Valid(w)
      requires maxConcurrency >= 1
      modifies log
      // Refusals. All but a corrupt record leave no event behind.
      ensures !valid ==> r == Err(Invalid) && log.events == old(log.events)
      ensures valid && resume.Some? && seed != [] ==>
        r == Err(Internal(ResumeWithInput)) && log.events == old(log.events)
      ensures valid && !(resume.Some? && seed != []) && !Equipped(w) ==>
        r.Err? && r.error.NoExecutorForKind? && FirstLacking(w, r.error.kind) && log.events == old(log.events)
      ensures valid && !(resume.Some? && seed != []) && Equipped(w) && SomeCorrupt(w, resume) ==>
        r.Err? && old(log.events) <= log.events
        && AbortsOnCorrupt(JobOf(w, seed, mode, resume), resume.value, r.error, log.events[|old(log.events)|..])
      // Otherwise the run is a schedule of the step relation and ends as the denotation says.
      ensures r.Ok? ==> r.value.events == log.events
      ensures Accepts(w, valid, seed, resume) ==>
        && old(log.events) <= log.events
        && EndsAsDenoted(JobOf(w, seed, mode, resume), maxConcurrency, r, log.events[|old(log.events)|..])
      // A fresh run that completes takes one wave per node of the longest walk from the trigger.
      ensures Accepts(w, valid, seed, resume) && resume.None? && r.Ok? ==>
        JobOk(JobOf(w, seed, mode, resume))
        && LongestWalkWaves(JobOf(w, seed, mode, resume), log.events[|old(log.events)|..])
    {
      hide Workflows.Valid, EndsAsDenoted, LongestWalkWaves, Hydrated, SomeCorrupt, AbortsOnCorrupt;
      if !valid {
        return Err(Invalid);
      }
      if resume.Some? && seed != [] {
        return Err(Internal(ResumeWithInput));
      }
      var missing := MissingExecutor(w);
      if missing.Some? {
        return Err(NoExecutorForKind(missing.value));
      }
      r := RunValid(w, seed, mode, log, resume);
      if !SomeCorrupt(w, resume) && resume.None? && r.Ok? {
        NoResumeNoCorrupt(w);
        FreshRunWaves(JobOf(w, seed, mode, resume), maxConcurrency, r, log.events[|old(log.events)|..]);
      }
    }

    /** A run that has passed its preflight checks. */
    method RunValid(w: Workflow, seed: seq<Json>, mode: Mode, log: EventLog, resume: Option<ResumeSource>)
      returns (r: Result<RunResult, EngineError>)
      requires Workflows.Valid(w) && maxConcurrency >= 1
      modifies log
      ensures SomeCorrupt(w, resume) ==>
        r.Err? && old(log.events) <= log.events
        && AbortsOnCorrupt(JobOf(w, seed, mode, resume), resume.value, r.error, log.events[|old(log.events)|..])
      ensures r.Ok? ==> r.value.events == log.events
      ensures !SomeCorrupt(w, resume) ==>
        && old(log.events) <= log.events
        && EndsAsDenoted(JobOf(w, seed, mode, resume), maxConcurrency, r, log.events[|old(log.events)|..])
    {
      hide Workflows.Valid, EndsAsDenoted, Out, Reached, DoneBy, Hydrated, SomeCorrupt, Init, InWaves, StopsAt,
           AbortsOnCorrupt, WavesSoFar;
      NoResumeNoCorrupt(w);
      var run, refused := Begin(w, seed, mode, log, resume);
      if refused.Some? {
        return Err(refused.value);
      }
      ghost var segments;
      var failure;
      failure, segments := run.RunAll();
      if failure.Some? {
        r := Err(failure.value);
        assert RunEnds(run.job, maxConcurrency, run.state, segments, r);
        FailedRun(run.job, maxConcurrency, run.state, segments, r);
      } else {
        r := Ok(RunResult(run.outputs, log.events));
        assert RunEnds(run.job, maxConcurrency, run.state, segments, r);
        CompletedRun(run.job, maxConcurrency, run.state, segments, r);
      }
      assert log.events[|old(log.events)|..] == run.state.log;
    }

    /** Index the graph, hydrate, and mark what the trigger does not reach. */
    method Begin(w: Workflow, seed: seq<Json>, mode: Mode, log: EventLog, resume: Option<ResumeSource>)
      returns (run: Execution, error: Option<EngineError>)
      requires Workflows.Valid(w) && maxConcurrency >= 1
      modifies log
      ensures fresh(run) && run.log == log
      ensures error.None? <==> !SomeCorrupt(w, resume)
      ensures error.Some? ==>
        resume.Some? && old(log.events) <= log.events
        && AbortsOnCorrupt(JobOf(w, seed, mode, resume), resume.value, error.value, log.events[|old(log.events)|..])
      ensures error.None? ==>
        && run.AtRest() && run.Indexed() && run.job == JobOf(w, seed, mode, resume)
        && run.maxConcurrency == maxConcurrency && run.before == old(log.events) && run.state == Init(run.job)
    {
      hide Workflows.Valid, Reached, Hydrated, SomeCorrupt, Reachable, Init, AbortsOnCorrupt, HydrationLog;
      ValidParts(w);
      NoResumeNoCorrupt(w);
      var incoming := IncomingEdges(w);
      var trigger := FindTrigger(w.nodes).value.id;
      run := new Execution(w, executors, mode, seed, maxConcurrency, log, incoming, trigger, resume);
      error := None;
      if resume.Some? {
        error := run.Hydrate(resume.value);
        if error.Some? {
          CorruptMeans(run.job, resume.value, error.value, log.events[|old(log.events)|..]);
          return;
        }
      } else {
        NothingToHydrate(run.job, w.nodes);
      }
      var reachable := ReachableFrom(w, trigger);
      run.MarkUnreached(reachable);
    }
  }
}
