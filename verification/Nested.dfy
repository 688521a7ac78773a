/** Sub-workflow nodes: the engine and the executor call each other, and a depth counter stops them. */
module NestedRuns {
  import opened Wrappers
  import opened Workflows
  import opened Items
  import opened Semantics
  import opened Schedule
  import opened Waves
  import opened Resume
  import opened Operators
  import C = CycleCheck

  const MAX_SUB_WORKFLOW_DEPTH := C.MAX_SUB_WORKFLOW_DEPTH

  /** What a sub-workflow node asks for: a workflow, inline or looked up, and perhaps its own trigger input. */
  datatype Request = Request(target: Workflow, seed: Option<seq<Json>>)

  /** The executors of the other kinds (and of dry runs), how parameters become a request, which workflows the
      engine accepts, and how a nested run's terminal outputs become items. */
  datatype World = World(
    base: Oracle,
    request: (Node, Json) -> Result<Request, NodeError>,
    accepts: Workflow -> bool,
    collect: (Node, Workflow, map<Id, seq<Item>>) -> seq<Item>)

  predicate IsSub(node: Node, mode: Mode) { node.kind.SubWorkflow? && mode.Run? }

  function PayloadsOf(items: seq<Item>): seq<Json> {
    seq(|items|, i requires 0 <= i < |items| => items[i].json)
  }

  ghost function SubJob(world: World, limit: nat, depth: nat, r: Request, mode: Mode, input: seq<Item>): Job
    requires depth < limit
    decreases limit - depth, 1
  {
    Job(r.target, ExecutorsAt(world, limit, depth + 1), mode,
        if r.seed.Some? then r.seed.value else PayloadsOf(input), map[])
  }

  /** One sub-workflow node at nesting level `depth`. The nested run is seeded with one level more. */
  ghost function SubReply(world: World, limit: nat, depth: nat, node: Node, mode: Mode, input: seq<Item>): Reply
    decreases limit - depth, 2
  {
    if depth >= limit then Err(Runtime("SubWorkflow recursion depth limit reached"))
    else
      match world.request(node, node.params)
      case Err(e) => Err(e)
      case Ok(r) =>
        var job := SubJob(world, limit, depth, r, mode, input);
        if !(world.accepts(r.target) && Valid(r.target)) || !Completes(job) then Err(Runtime("sub-workflow run failed"))
        else Ok(world.collect(node, r.target, FinalOutputs(job)))
  }

  /** The executors of an engine at nesting level `depth`. */
  ghost function ExecutorsAt(world: World, limit: nat, depth: nat): Oracle
    decreases limit - depth, 3
  {
    (node: Node, mode: Mode, attempt: nat, input: seq<Item>) =>
      if IsSub(node, mode) then SubReply(world, limit, depth, node, mode, input)
      else world.base(node, mode, attempt, input)
  }

  // ---- What a nested run is ----

  /** The run a request leads to, one level deeper: the node's own trigger input if it gives one, else the payloads
      that arrived, in order. */
  ghost predicate RunsInside(world: World, limit: nat, depth: nat, r: Request, mode: Mode, input: seq<Item>, run: Job) {
    && run.wf == r.target && run.mode == mode && run.pinned == map[]
    && (if r.seed.Some? then run.seed == r.seed.value
        else |run.seed| == |input| && forall i :: 0 <= i < |input| ==> run.seed[i] == input[i].json)
    && forall node: Node, m: Mode, k: nat, items: seq<Item> ::
         RepliesAt(world, limit, depth + 1, node, m, k, items, run.oracle(node, m, k, items))
  }

  /** The depth is looked at first, then the parameters, then the verdict on the workflow; a nested run that does not
      complete fails the node, and one that does gives its terminal outputs. */
  lemma ReplyMeans(world: World, limit: nat, depth: nat, node: Node, mode: Mode, input: seq<Item>)
    ensures var reply, request := SubReply(world, limit, depth, node, mode, input), world.request(node, node.params);
            if depth >= limit then reply.Err? && reply.error.Runtime?
            else if request.Err? then reply == Err(request.error)
            else exists run ::
              && RunsInside(world, limit, depth, request.value, mode, input, run)
              && if Valid(run.wf) && world.accepts(run.wf) && Completes(run)
                 then reply == Ok(world.collect(node, run.wf, FinalOutputs(run))) else reply.Err? && reply.error.Runtime?
  {
    hide Valid, Completes, FinalOutputs, ExecutorsAt, RepliesAt;
    if depth < limit && world.request(node, node.params).Ok? {
      var r := world.request(node, node.params).value;
      var run := SubJob(world, limit, depth, r, mode, input);
      forall n: Node, m: Mode, k: nat, items: seq<Item>
        ensures RepliesAt(world, limit, depth + 1, n, m, k, items, run.oracle(n, m, k, items))
      {
        ExecutorReplies(world, limit, depth + 1, n, m, k, items);
      }
      assert RunsInside(world, limit, depth, r, mode, input, run);
    }
  }

  /** A sub-workflow node of a real run starts another run; everything else is the business of the other executors. */
  ghost predicate RepliesAt(world: World, limit: nat, depth: nat, node: Node, mode: Mode, k: nat, input: seq<Item>, reply: Reply) {
    reply == if node.kind.SubWorkflow? && mode.Run? then SubReply(world, limit, depth, node, mode, input)
             else world.base(node, mode, k, input)
  }

  lemma ExecutorReplies(world: World, limit: nat, depth: nat, node: Node, mode: Mode, k: nat, input: seq<Item>)
    ensures RepliesAt(world, limit, depth, node, mode, k, input, ExecutorsAt(world, limit, depth)(node, mode, k, input))
  {
    var oracle := ExecutorsAt(world, limit, depth);
    assert IsSub(node, mode) ==> oracle(node, mode, k, input) == SubReply(world, limit, depth, node, mode, input);
    assert !IsSub(node, mode) ==> oracle(node, mode, k, input) == world.base(node, mode, k, input);
  }

  // ---- Runs under executors that agree ----

  ghost predicate Agree(w: Workflow, mode: Mode, o1: Oracle, o2: Oracle) {
    forall node: Node, k: nat, input: seq<Item> :: node in w.nodes ==> o1(node, mode, k, input) == o2(node, mode, k, input)
  }

  lemma {:induction false} SameTries(a: Job, b: Job, node: Node, input: seq<Item>, k: nat)
    requires a == b.(oracle := a.oracle) && Agree(a.wf, a.mode, a.oracle, b.oracle) && node in a.wf.nodes
    requires 1 <= k <= MaxAttempts(a.mode, node)
    ensures TryFrom(a, node, input, k) == TryFrom(b, node, input, k)
    decreases MaxAttempts(a.mode, node) - k
  {
    if !a.oracle(node, a.mode, k, input).Ok? && k < MaxAttempts(a.mode, node) { SameTries(a, b, node, input, k + 1); }
  }

  lemma {:induction false} SameOutcomes(a: Job, b: Job, n: Id)
    requires Valid(a.wf) && a == b.(oracle := a.oracle) && Agree(a.wf, a.mode, a.oracle, b.oracle) && n in Ids(a.wf)
    ensures Out(a, n) == Out(b, n)
    decreases RankOf(a.wf)[n]
  {
    hide StepOutcome, Agree, Valid, Reachable;
    ProducersRank(a.wf, n);
    forall p | p in Producers(a.wf, n) ensures Out(a, p) == Out(b, p) { SameOutcomes(a, b, p); }
    OutSettled(a, n);
    OutSettled(b, n);
    if n !in a.pinned && Reachable(a.wf, n) {
      OutUnfold(a, n);
      OutUnfold(b, n);
      assert ProducerOutcomes(a, n) == ProducerOutcomes(b, n);
      SameStep(a, b, n, ProducerOutcomes(a, n));
    }
  }

  lemma ProducersRank(w: Workflow, n: Id)
    requires Valid(w)
    ensures forall p :: p in Producers(w, n) ==> p in Ids(w) && (n in Ids(w) ==> RankOf(w)[p] < RankOf(w)[n])
  {}

  lemma SameStep(a: Job, b: Job, n: Id, env: map<Id, Outcome>)
    requires Valid(a.wf) && a == b.(oracle := a.oracle) && Agree(a.wf, a.mode, a.oracle, b.oracle) && n in Ids(a.wf)
    ensures StepOutcome(a, n, env) == StepOutcome(b, n, env)
  {
    hide Valid, FanIn, Gather, TryFrom, Agree;
    SameTries(a, b, NodeOf(a.wf, n), InputOf(a, n, Outputs(env)), 1);
  }

  lemma SameRun(a: Job, b: Job)
    requires Valid(a.wf) && a == b.(oracle := a.oracle) && Agree(a.wf, a.mode, a.oracle, b.oracle)
    ensures (Completes(a) <==> Completes(b)) && FinalOutputs(a) == FinalOutputs(b)
  {
    hide Valid, Out, Agree;
    forall n | n in Ids(a.wf) ensures Out(a, n) == Out(b, n) { SameOutcomes(a, b, n); }
  }

  // ---- When the limit is never met ----

  /** No chain of requests that starts at `w` has more than `levels` workflows. */
  ghost predicate NestsWithin(world: World, w: Workflow, mode: Mode, levels: int)
    decreases levels
  {
    && levels >= 1
    && forall node :: node in w.nodes && IsSub(node, mode) ==>
         levels >= 2
         && match world.request(node, node.params)
            case Ok(r) => NestsWithin(world, r.target, mode, levels - 1)
            case Err(_) => true
  }

  lemma {:induction false} SameExecutors(world: World, w: Workflow, mode: Mode, levels: nat, l1: nat, d1: nat, l2: nat, d2: nat)
    requires NestsWithin(world, w, mode, levels) && d1 + levels <= l1 + 1 && d2 + levels <= l2 + 1
    ensures Agree(w, mode, ExecutorsAt(world, l1, d1), ExecutorsAt(world, l2, d2))
    decreases levels
  {
    hide Completes, FinalOutputs, SubReply;
    forall node: Node, k: nat, input: seq<Item> | node in w.nodes
      ensures ExecutorsAt(world, l1, d1)(node, mode, k, input) == ExecutorsAt(world, l2, d2)(node, mode, k, input)
    {
      if IsSub(node, mode) {
        var request := world.request(node, node.params);
        if request.Ok? {
          SameExecutors(world, request.value.target, mode, levels - 1, l1, d1 + 1, l2, d2 + 1);
        }
        SameReplies(world, node, mode, input, l1, d1, l2, d2);
      }
    }
  }

  lemma SameReplies(world: World, node: Node, mode: Mode, input: seq<Item>, l1: nat, d1: nat, l2: nat, d2: nat)
    requires d1 < l1 && d2 < l2
    requires var request := world.request(node, node.params);
             request.Ok? ==>
               Agree(request.value.target, mode, ExecutorsAt(world, l1, d1 + 1), ExecutorsAt(world, l2, d2 + 1))
    ensures SubReply(world, l1, d1, node, mode, input) == SubReply(world, l2, d2, node, mode, input)
  {
    hide Agree, ExecutorsAt, Valid;
    var request := world.request(node, node.params);
    if request.Ok? && Valid(request.value.target) {
      SameRun(SubJob(world, l1, d1, request.value, mode, input), SubJob(world, l2, d2, request.value, mode, input));
    }
  }

  /** A run whose requests nest no deeper than the limit allows is not affected by it: it ends as under any
      larger limit. With the limit of 5 that is up to six workflows, the top one included. */
  lemma LimitIsInvisible(world: World, w: Workflow, mode: Mode, seed: seq<Json>, larger: nat)
    requires Valid(w) && NestsWithin(world, w, mode, 6) && larger >= 5
    ensures var capped := Job(w, ExecutorsAt(world, 5, 0), mode, seed, map[]);
            var free := Job(w, ExecutorsAt(world, larger, 0), mode, seed, map[]);
            (Completes(capped) <==> Completes(free)) && FinalOutputs(capped) == FinalOutputs(free)
  {
    hide Valid, NestsWithin, ExecutorsAt, Agree, Completes, FinalOutputs;
    SameExecutors(world, w, mode, MAX_SUB_WORKFLOW_DEPTH + 1, MAX_SUB_WORKFLOW_DEPTH, 0, larger, 0);
    SameRun(Job(w, ExecutorsAt(world, MAX_SUB_WORKFLOW_DEPTH, 0), mode, seed, map[]),
            Job(w, ExecutorsAt(world, larger, 0), mode, seed, map[]));
  }

  // ---- When it is met ----

  /** Triggers hand on what the run was started with. */
  ghost predicate TriggersPass(world: World) {
    forall node: Node, k: nat, input: seq<Item> :: node.kind.IsTrigger() ==> world.base(node, Run, k, input) == Ok(input)
  }

  ghost function Level(world: World, limit: nat, depth: nat, w: Workflow, seed: seq<Json>): Job {
    Job(w, ExecutorsAt(world, limit, depth), Run, seed, map[])
  }

  /** `s` receives an item in every run that was started with one and completes. */
  ghost predicate Feeds(world: World, w: Workflow, s: Node)
    requires Valid(w)
  {
    forall limit: nat, depth: nat, seed: seq<Json> ::
      var job := Level(world, limit, depth, w, seed);
      seed != [] && Completes(job) ==> InputOf(job, s.id, FinalOutputs(job)) != []
  }

  /** `w` has a sub-workflow node that receives something, must succeed, and asks for `v` with something. */
  ghost predicate Calls(world: World, w: Workflow, v: Workflow, s: Node) {
    && Valid(w) && s in w.nodes && s.kind.SubWorkflow? && s.onError != Some(Continue)
    && Reachable(w, s.id) && Feeds(world, w, s)
    && world.request(s, s.params).Ok?
    && world.request(s, s.params).value.target == v && world.request(s, s.params).value.seed != Some([])
  }

  lemma {:induction false} AllAttemptsFail(job: Job, node: Node, input: seq<Item>, k: nat, e: NodeError)
    requires 1 <= k <= MaxAttempts(job.mode, node)
    requires forall j :: 1 <= j <= MaxAttempts(job.mode, node) ==> job.oracle(node, job.mode, j, input) == Err(e)
    ensures TryFrom(job, node, input, k) == Err(e)
    decreases MaxAttempts(job.mode, node) - k
  {
    if k < MaxAttempts(job.mode, node) { AllAttemptsFail(job, node, input, k + 1, e); }
  }

  /** No run of `w` at this level completes, unless it is started with nothing. */
  ghost predicate Hopeless(world: World, limit: nat, depth: nat, w: Workflow) {
    Valid(w) ==> forall seed :: seed != [] ==> !Completes(Level(world, limit, depth, w, seed))
  }

  lemma ExecutorsAnswer(world: World, limit: nat, depth: nat, node: Node, k: nat, input: seq<Item>)
    ensures IsSub(node, Run) ==>
      ExecutorsAt(world, limit, depth)(node, Run, k, input) == SubReply(world, limit, depth, node, Run, input)
    ensures TriggersPass(world) && node.kind.IsTrigger() ==> ExecutorsAt(world, limit, depth)(node, Run, k, input) == Ok(input)
  {
    hide SubReply;
  }

  /** A node the trigger is connected to receives what the run was started with. */
  lemma TriggerFeeds(world: World, limit: nat, depth: nat, w: Workflow, s: Id, seed: seq<Json>)
    requires TriggersPass(world) && Valid(w) && s in Ids(w) && Connection(TriggerId(w), 0, s) in w.connections && seed != []
    ensures var job := Level(world, limit, depth, w, seed);
            && s != TriggerId(w) && Reachable(w, s) && Out(job, TriggerId(w)).Done?
            && InputOf(job, s, FinalOutputs(job)) != []
  {
    hide Valid, Reachable, FanIn, SubReply, Gather;
    var job, t := Level(world, limit, depth, w, seed), TriggerId(w);
    TriggerNode(w);
    forall input ensures job.oracle(NodeOf(w, t), job.mode, 1, input) == Ok(input) {
      ExecutorsAnswer(world, limit, depth, NodeOf(w, t), 1, input);
    }
    TriggerOutcome(job);
    TriggerHasNoEdges(w);
    var e := Edge(t, 0);
    assert Connection(e.fromNode, e.fromPort, s) in w.connections;
    assert e in FanIn(w, s);
    assert t in Producers(w, s);
    ReachesSelf(w, t);
    ReachableLocally(w, s);
    var items := Stamp(t, Roots(seed));
    assert items[0] in items && items[0].port == 0;
    assert items[0] in OnPort(items, 0);
    GatherHas(FanIn(w, s), FinalOutputs(job), e, items[0]);
  }

  lemma DirectlyFed(world: World, w: Workflow, s: Node)
    requires TriggersPass(world) && Valid(w) && s in w.nodes && Connection(TriggerId(w), 0, s.id) in w.connections
    ensures Reachable(w, s.id) && Feeds(world, w, s)
  {
    hide Valid, Reachable, FinalOutputs, Completes, Out;
    assert s.id in Ids(w);
    TriggerFeeds(world, 0, 0, w, s.id, [JNull]);
    forall limit: nat, depth: nat, seed: seq<Json> | seed != [] && Completes(Level(world, limit, depth, w, seed))
      ensures InputOf(Level(world, limit, depth, w, seed), s.id, FinalOutputs(Level(world, limit, depth, w, seed))) != []
    {
      TriggerFeeds(world, limit, depth, w, s.id, seed);
    }
  }

  /** An executor that, given something, never succeeds without putting something on `port`. */
  ghost predicate PassesSome(world: World, node: Node, port: nat) {
    forall k: nat, input: seq<Item> :: input != [] && world.base(node, Run, k, input).Ok? ==>
      exists x :: x in world.base(node, Run, k, input).value && x.port == port
  }

  /** Items travel on: behind a node that is fed and passes something on, the next one is fed. */
  lemma FeedsThrough(world: World, w: Workflow, m: Node, port: nat, s: Node)
    requires Valid(w) && m in w.nodes && s in w.nodes && !m.kind.IsTrigger() && !m.kind.SubWorkflow?
    requires m.onError != Some(Continue) && PassesSome(world, m, port) && Connection(m.id, port, s.id) in w.connections
    requires Reachable(w, m.id) && Feeds(world, w, m)
    ensures Reachable(w, s.id) && Feeds(world, w, s)
  {
    hide Valid, Reachable, FinalOutputs, Completes, Out, PassesSome, FanIn, Gather;
    SubNode(w, s);
    SubNode(w, m);
    assert m.id in Producers(w, s.id) by { assert Connection(m.id, port, s.id) in w.connections; }
    ReachableLocally(w, s.id);
    NotTheTrigger(w, s.id, Connection(m.id, port, s.id));
    forall limit: nat, depth: nat, seed: seq<Json> | seed != [] && Completes(Level(world, limit, depth, w, seed))
      ensures InputOf(Level(world, limit, depth, w, seed), s.id, FinalOutputs(Level(world, limit, depth, w, seed))) != []
    {
      var job := Level(world, limit, depth, w, seed);
      var x := FedEmits(world, limit, depth, w, m, port, seed);
      var e := Edge(m.id, port);
      assert Connection(e.fromNode, e.fromPort, s.id) in w.connections;
      GatherHas(FanIn(w, s.id), FinalOutputs(job), e, x);
    }
  }

  lemma NotTheTrigger(w: Workflow, s: Id, c: Connection)
    requires Valid(w) && c in w.connections && c.toNode == s
    ensures s != TriggerId(w)
  {
    hide Acyclic, PortsInRange, UniqueIds;
    var t := FindTrigger(w.nodes).value;
    assert t.id == c.toNode ==> !t.kind.IsTrigger();
  }

  lemma FedEmits(world: World, limit: nat, depth: nat, w: Workflow, m: Node, port: nat, seed: seq<Json>) returns (x: Item)
    requires Valid(w) && m in w.nodes && !m.kind.IsTrigger() && !m.kind.SubWorkflow?
    requires m.onError != Some(Continue) && PassesSome(world, m, port)
    requires Reachable(w, m.id) && Feeds(world, w, m) && seed != []
    requires Completes(Level(world, limit, depth, w, seed))
    ensures var job := Level(world, limit, depth, w, seed); x in Emitted(FinalOutputs(job), Edge(m.id, port))
  {
    hide Valid, Reachable, Completes, Out, PassesSome, FanIn, Gather, InputOf, FinalOutputs, TryFrom;
    var job := Level(world, limit, depth, w, seed);
    SubNode(w, m);
    CompletedInput(job, m.id);
    var input := InputOf(job, m.id, FinalOutputs(job));
    assert input != [];
    var reply := TryFrom(job, m, input, 1);
    assert Out(job, m.id) == Settle(m, reply);
    BaseAnswers(world, limit, depth, m);
    SomeOnPort(world, job, m, port, input, 1);
    var y :| y in reply.value && y.port == port;
    var i :| 0 <= i < |reply.value| && reply.value[i] == y;
    x := Stamp(m.id, reply.value)[i];
    assert x in Stamp(m.id, reply.value) && x in OnPort(Stamp(m.id, reply.value), port);
    OutputOf(job, m.id);
  }

  lemma OutputOf(job: Job, n: Id)
    requires Valid(job.wf) && n in Ids(job.wf) && Out(job, n).Done?
    ensures n in FinalOutputs(job) && FinalOutputs(job)[n] == Out(job, n).items
  {
    hide Valid, Out;
  }

  lemma BaseAnswers(world: World, limit: nat, depth: nat, m: Node)
    requires !m.kind.SubWorkflow?
    ensures forall k: nat, input: seq<Item> :: ExecutorsAt(world, limit, depth)(m, Run, k, input) == world.base(m, Run, k, input)
  {
    hide SubReply;
  }

  lemma {:induction false} SomeOnPort(world: World, job: Job, m: Node, port: nat, input: seq<Item>, k: nat)
    requires job.mode == Run && PassesSome(world, m, port) && input != [] && 1 <= k <= MaxAttempts(job.mode, m)
    requires forall j: nat :: job.oracle(m, Run, j, input) == world.base(m, Run, j, input)
    ensures var reply := TryFrom(job, m, input, k); reply.Ok? ==> exists y :: y in reply.value && y.port == port
    decreases MaxAttempts(job.mode, m) - k
  {
    if !job.oracle(m, Run, k, input).Ok? && k < MaxAttempts(job.mode, m) { SomeOnPort(world, job, m, port, input, k + 1); }
  }

  lemma TriggerNode(w: Workflow)
    requires Valid(w)
    ensures NodeOf(w, TriggerId(w)).kind.IsTrigger()
  {
    NodeOfSelf(w, FindTrigger(w.nodes).value);
  }

  lemma {:induction false} GatherHas(edges: seq<Edge>, outs: map<Id, seq<Item>>, e: Edge, x: Item)
    requires e in edges && x in Emitted(outs, e)
    ensures x in Gather(edges, outs)
  {
    var k := |edges| - 1;
    if edges[k] != e { GatherHas(edges[..k], outs, e, x); }
  }

  lemma HopelessReply(world: World, limit: nat, depth: nat, s: Node, input: seq<Item>)
    requires world.request(s, s.params).Ok? && world.request(s, s.params).value.seed != Some([]) && input != []
    requires depth < limit ==> Hopeless(world, limit, depth + 1, world.request(s, s.params).value.target)
    ensures SubReply(world, limit, depth, s, Run, input).Err?
  {
    hide Valid, Completes, FinalOutputs, ExecutorsAt;
    if depth < limit {
      var r := world.request(s, s.params).value;
      var seed := if r.seed.Some? then r.seed.value else PayloadsOf(input);
      assert |PayloadsOf(input)| == |input|;
      assert SubJob(world, limit, depth, r, Run, input) == Level(world, limit, depth + 1, r.target, seed);
    }
  }

  /** If the nested run fails, or the limit is reached, so does the run that asked for it. */
  lemma CallerFails(world: World, limit: nat, depth: nat, w: Workflow, v: Workflow, s: Node, seed: seq<Json>)
    requires Calls(world, w, v, s) && seed != []
    requires depth < limit ==> Hopeless(world, limit, depth + 1, v)
    ensures !Completes(Level(world, limit, depth, w, seed))
  {
    hide Valid, Reachable, FanIn, Completes, Out, FinalOutputs, InputOf;
    var job := Level(world, limit, depth, w, seed);
    SubNode(w, s);
    if Completes(job) {
      CompletedInput(job, s.id);
      var input := InputOf(job, s.id, FinalOutputs(job));
      HopelessReply(world, limit, depth, s, input);
      forall k: nat ensures job.oracle(s, job.mode, k, input) == SubReply(world, limit, depth, s, Run, input) {
        ExecutorsAnswer(world, limit, depth, s, k, input);
      }
      AllAttemptsFail(job, s, input, 1, SubReply(world, limit, depth, s, Run, input).error);
      StopFails(job, s.id, input);
      assert false;
    }
  }

  lemma SubNode(w: Workflow, s: Node)
    requires Valid(w) && s in w.nodes
    ensures s.id in Ids(w) && NodeOf(w, s.id) == s
  {
    NodeOfSelf(w, s);
  }

  lemma CompletedInput(job: Job, n: Id)
    requires Valid(job.wf) && Completes(job) && n in Ids(job.wf) && n !in job.pinned && Reachable(job.wf, n)
    ensures Out(job, n) == Deliver(job, n, InputOf(job, n, FinalOutputs(job))) && !Out(job, n).Failed?
  {
    hide Valid, Out, Deliver, InputOf;
    ProducersAreNodes(job.wf, n);
    forall p | p in Producers(job.wf, n)
      ensures p in Ids(job.wf)
      ensures if p in FinalOutputs(job) then Out(job, p) == Done(FinalOutputs(job)[p]) else Out(job, p) == Absent
    {
      CompletesMeansUnblocked(job, p);
    }
    InputFromOutputs(job, n, FinalOutputs(job));
  }

  lemma StopFails(job: Job, n: Id, input: seq<Item>)
    requires Valid(job.wf) && n in Ids(job.wf) && input != []
    requires NodeOf(job.wf, n).onError != Some(Continue) && TryFrom(job, NodeOf(job.wf, n), input, 1).Err?
    ensures Deliver(job, n, input).Failed?
  {}

  /** A chain of such calls one longer than the limit never completes, unless it is started with nothing. */
  lemma {:induction false} TooDeepNeverCompletes(world: World, limit: nat, depth: nat, chain: seq<Workflow>,
                                                 subs: seq<Node>, seed: seq<Json>)
    requires depth <= limit && seed != []
    requires |chain| == limit - depth + 2 && |subs| == |chain| - 1
    requires forall i :: 0 <= i < |subs| ==> Calls(world, chain[i], chain[i + 1], subs[i])
    ensures Valid(chain[0]) && !Completes(Level(world, limit, depth, chain[0], seed))
    decreases limit - depth
  {
    hide Completes, Valid, Calls;
    CallIsValid(world, chain[0], chain[1], subs[0]);
    if depth < limit {
      forall i | 0 <= i < |subs[1..]| ensures Calls(world, chain[1..][i], chain[1..][i + 1], subs[1..][i]) {
        assert Calls(world, chain[i + 1], chain[i + 2], subs[i + 1]);
      }
      CallIsValid(world, chain[1], chain[2], subs[1]);
      var deeper := depth + 1;
      forall inner | inner != [] ensures !Completes(Level(world, limit, deeper, chain[1], inner)) {
        TooDeepNeverCompletes(world, limit, deeper, chain[1..], subs[1..], inner);
      }
    }
    CallerFails(world, limit, depth, chain[0], chain[1], subs[0], seed);
  }

  /** A workflow that asks for itself fails at every level, for every limit. */
  lemma SelfCallNeverCompletes(world: World, limit: nat, w: Workflow, s: Node, seed: seq<Json>)
    requires seed != [] && Calls(world, w, w, s)
    ensures Valid(w) && !Completes(Level(world, limit, 0, w, seed))
  {
    hide Completes, Valid, Calls;
    var chain, subs := seq(limit + 2, _ => w), seq(limit + 1, _ => s);
    TooDeepNeverCompletes(world, limit, 0, chain, subs, seed);
  }

  lemma CallIsValid(world: World, w: Workflow, v: Workflow, s: Node)
    requires Calls(world, w, v, s)
    ensures Valid(w)
  {
    hide Valid;
  }

  // ---- What the static check makes of such chains ----

  /** The store lists, for each workflow of the chain, the one it calls, and nothing for the last. */
  ghost predicate Listed(stored: C.References, chain: seq<Workflow>) {
    && (forall i :: 0 <= i < |chain| - 1 ==> stored(chain[i].id) == Some([chain[i + 1].id]))
    && (chain != [] ==> stored(chain[|chain| - 1].id) == Some([]))
  }

  lemma {:induction false} ChainIsExplored(refs: C.References, chain: seq<Workflow>, i: nat, d: int)
    requires Listed(refs, chain) && i < |chain| && |chain| - i <= d
    ensures C.Explored(refs, chain[i].id, d)
    decreases |chain| - i
  {
    if i + 1 < |chain| {
      assert C.Of(refs, chain[i].id) == [chain[i + 1].id];
      ChainIsExplored(refs, chain, i + 1, d - 1);
    } else {
      assert C.Of(refs, chain[i].id) == [];
    }
  }

  /** The check and the run disagree about chains of seven to twenty workflows: the check can only answer that
      they are clean, and no run of them completes that is started with something. */
  lemma CheckedChainsFail(world: World, stored: C.References, chain: seq<Workflow>, subs: seq<Node>, seed: seq<Json>)
    requires 7 <= |chain| <= 20 && |subs| == |chain| - 1 && seed != []
    requires forall i :: 0 <= i < |subs| ==> Calls(world, chain[i], chain[i + 1], subs[i])
    requires Listed(stored, chain)
    ensures var root := chain[0].id;
            var refs := C.WithNew(stored, root, [chain[1].id]);
            C.Shallow(refs, root, 20)
            && forall verdict :: C.Justified(refs, root, verdict) ==> verdict.Clean?
    ensures Valid(chain[0]) && !Completes(Level(world, 5, 0, chain[0], seed))
  {
    hide Completes, Valid, Calls, C.Justified, C.Shallow;
    var root := chain[0].id;
    var refs := C.WithNew(stored, root, [chain[1].id]);
    SavedAsStored(stored, chain);
    ChainIsExplored(refs, chain, 0, C.MAX_CHECK_DEPTH);
    C.ExploredIsShallow(refs, root, C.MAX_CHECK_DEPTH);
    forall verdict | C.Justified(refs, root, verdict) ensures verdict.Clean? { C.RefusalsAreRight(refs, root, verdict); }
    var k := MAX_SUB_WORKFLOW_DEPTH + 2;
    TooDeepNeverCompletes(world, MAX_SUB_WORKFLOW_DEPTH, 0, chain[..k], subs[..k - 1], seed);
  }

  lemma SavedAsStored(stored: C.References, chain: seq<Workflow>)
    requires |chain| >= 2 && Listed(stored, chain)
    ensures Listed(C.WithNew(stored, chain[0].id, [chain[1].id]), chain)
  {
    assert stored(chain[0].id) == Some([chain[1].id]);
  }

  // ---- How deep a run nests ----

  /** The run has not stopped before the node's wave. */
  ghost predicate BeforeTheStop(job: Job, n: Id)
    requires JobOk(job)
  {
    exists k: nat :: InWaveBeforeStop(job, k, n)
  }

  ghost predicate InWaveBeforeStop(job: Job, k: nat, n: Id)
    requires JobOk(job)
  {
    DoneByGrows(job, k, k);
    n in WaveAt(job, k) && forall m :: m in DoneBy(job, k) ==> !Out(job, m).Failed?
  }

  /** The node's executor is called: it is reached before the run stops, its producers have outcomes, and it is not
      skipped. */
  ghost predicate Executes(job: Job, n: Id)
    requires JobOk(job)
  {
    && BeforeTheStop(job, n)
    && n in Ids(job.wf) && n !in job.pinned && Reachable(job.wf, n)
    && (forall p :: p in Producers(job.wf, n) && p in Ids(job.wf) ==> Out(job, p).Done? || Out(job, p).Absent?)
    && !Starved(job.wf, n, InputOf(job, n, FinalOutputs(job)))
  }

  /** How many runs one node stacks on top of its own. */
  ghost function NestingAt(world: World, limit: nat, depth: nat, w: Workflow, mode: Mode, seed: seq<Json>, node: Node): (r: nat)
    requires Valid(w)
    ensures r <= if depth < limit then limit - depth else 0
    decreases limit - depth, 0, 0
  {
    var job := Job(w, ExecutorsAt(world, limit, depth), mode, seed, map[]);
    var request := world.request(node, node.params);
    if depth < limit && IsSub(node, mode) && Executes(job, node.id) && request.Ok?
       && world.accepts(request.value.target) && Valid(request.value.target) then
      var inner := SubJob(world, limit, depth, request.value, mode, InputOf(job, node.id, FinalOutputs(job)));
      1 + Nesting(world, limit, depth + 1, inner.wf, mode, inner.seed)
    else 0
  }

  ghost function NestingAmong(world: World, limit: nat, depth: nat, w: Workflow, mode: Mode, seed: seq<Json>,
                              nodes: seq<Node>): (r: nat)
    requires Valid(w)
    ensures r <= if depth < limit then limit - depth else 0
    ensures forall node :: node in nodes ==> NestingAt(world, limit, depth, w, mode, seed, node) <= r
    decreases limit - depth, 1, |nodes|
  {
    if nodes == [] then 0
    else
      var k := |nodes| - 1;
      assert nodes == nodes[..k] + [nodes[k]];
      var before := NestingAmong(world, limit, depth, w, mode, seed, nodes[..k]);
      var last := NestingAt(world, limit, depth, w, mode, seed, nodes[k]);
      if before > last then before else last
  }

  /** How many runs are stacked on top of this one at most. The limit is never passed. */
  ghost function Nesting(world: World, limit: nat, depth: nat, w: Workflow, mode: Mode, seed: seq<Json>): (r: nat)
    ensures r <= if depth < limit then limit - depth else 0
    decreases limit - depth, 2, 0
  {
    if !Valid(w) then 0 else NestingAmong(world, limit, depth, w, mode, seed, w.nodes)
  }

  // ---- What is counted: stacks of runs, each started by the one below ----

  ghost function TopJob(world: World, limit: nat, depth: nat, w: Workflow, mode: Mode, seed: seq<Json>): Job {
    Job(w, ExecutorsAt(world, limit, depth), mode, seed, map[])
  }

  /** The executor of `s` is called in the run `job` and starts the run `sub`. */
  ghost predicate Starts(world: World, limit: nat, depth: nat, job: Job, s: Node, sub: Job) {
    && JobOk(job) && s in job.wf.nodes && IsSub(s, job.mode) && Executes(job, s.id)
    && job.oracle == ExecutorsAt(world, limit, depth) && depth < limit
    && world.request(s, s.params).Ok?
    && var r := world.request(s, s.params).value;
       && world.accepts(r.target) && Valid(r.target)
       && sub == SubJob(world, limit, depth, r, job.mode, InputOf(job, s.id, FinalOutputs(job)))
  }

  /** Whether and how the node ends is decided by the run it starts; without one it fails. */
  lemma StartedDecides(world: World, limit: nat, depth: nat, job: Job, s: Node)
    requires JobOk(job) && s in job.wf.nodes && IsSub(s, job.mode) && Executes(job, s.id)
    requires job.oracle == ExecutorsAt(world, limit, depth)
    ensures var reply := SubReply(world, limit, depth, s, job.mode, InputOf(job, s.id, FinalOutputs(job)));
            && Out(job, s.id) == Settle(s, reply)
            && (reply.Ok? <==> exists sub :: Starts(world, limit, depth, job, s, sub) && Completes(sub))
            && forall sub :: Starts(world, limit, depth, job, s, sub) && Completes(sub) ==>
                 reply == Ok(world.collect(s, sub.wf, FinalOutputs(sub)))
  {
    hide Out, Reachable, FinalOutputs, InputOf, Starved, Completes, MaxAttempts, ExecutorsAt;
    var input := InputOf(job, s.id, FinalOutputs(job));
    var reply := SubReply(world, limit, depth, s, job.mode, input);
    SubNode(job.wf, s);
    ExecutedOutcome(job, s.id);
    forall k: nat ensures job.oracle(s, job.mode, k, input) == reply {
      ExecutorsAnswer(world, limit, depth, s, k, input);
    }
    SameEveryTime(job, s, input, 1, reply);
    if reply.Ok? {
      var sub := SubJob(world, limit, depth, world.request(s, s.params).value, job.mode, input);
      assert Starts(world, limit, depth, job, s, sub) && Completes(sub);
    }
  }

  lemma ExecutedOutcome(job: Job, n: Id)
    requires JobOk(job) && Executes(job, n)
    ensures var input := InputOf(job, n, FinalOutputs(job));
            Out(job, n) == Settle(NodeOf(job.wf, n), TryFrom(job, NodeOf(job.wf, n), input, 1))
  {
    hide Valid, Out, Reachable, InputOf, Starved, TryFrom;
    ProducersAreNodes(job.wf, n);
    forall p | p in Producers(job.wf, n)
      ensures if p in FinalOutputs(job) then Out(job, p) == Done(FinalOutputs(job)[p]) else Out(job, p) == Absent
    {
      assert p in Ids(job.wf);
    }
    InputFromOutputs(job, n, FinalOutputs(job));
  }

  lemma {:induction false} SameEveryTime(job: Job, node: Node, input: seq<Item>, k: nat, reply: Reply)
    requires 1 <= k <= MaxAttempts(job.mode, node)
    requires forall j: nat :: job.oracle(node, job.mode, j, input) == reply
    ensures TryFrom(job, node, input, k) == reply
    decreases MaxAttempts(job.mode, node) - k
  {
    if k < MaxAttempts(job.mode, node) { SameEveryTime(job, node, input, k + 1, reply); }
  }

  /** Each run was started by the one before it. */
  ghost predicate Stacked(world: World, limit: nat, depth: nat, runs: seq<Job>) {
    runs != [] && forall i: nat :: i < |runs| - 1 ==> StartedBy(world, limit, depth + i, runs[i], runs[i + 1])
  }

  ghost predicate StartedBy(world: World, limit: nat, depth: nat, job: Job, sub: Job) {
    exists s :: Starts(world, limit, depth, job, s, sub)
  }

  lemma StackedTail(world: World, limit: nat, depth: nat, runs: seq<Job>)
    requires Stacked(world, limit, depth, runs) && |runs| > 1
    ensures StartedBy(world, limit, depth, runs[0], runs[1]) && Stacked(world, limit, depth + 1, runs[1..])
  {
    hide StartedBy;
    forall i: nat | i < |runs[1..]| - 1 ensures StartedBy(world, limit, depth + 1 + i, runs[1..][i], runs[1..][i + 1]) {
      assert StartedBy(world, limit, depth + (i + 1), runs[i + 1], runs[i + 2]);
    }
    assert StartedBy(world, limit, depth + 0, runs[0], runs[0 + 1]);
  }

  lemma StackedOn(world: World, limit: nat, depth: nat, job: Job, runs: seq<Job>)
    requires runs != [] && Stacked(world, limit, depth + 1, runs) && StartedBy(world, limit, depth, job, runs[0])
    ensures Stacked(world, limit, depth, [job] + runs)
  {
    hide StartedBy;
    var all := [job] + runs;
    forall i: nat | i < |all| - 1 ensures StartedBy(world, limit, depth + i, all[i], all[i + 1]) {
      if i > 0 { assert StartedBy(world, limit, depth + 1 + (i - 1), runs[i - 1], runs[i]); }
    }
  }

  /** No stack of runs is higher than `Nesting` says. */
  lemma {:induction false} StacksAreWithin(world: World, limit: nat, depth: nat, w: Workflow, mode: Mode, seed: seq<Json>,
                                           runs: seq<Job>)
    requires Stacked(world, limit, depth, runs) && runs[0] == TopJob(world, limit, depth, w, mode, seed)
    ensures |runs| - 1 <= Nesting(world, limit, depth, w, mode, seed)
    decreases |runs|
  {
    hide Valid, Executes, FinalOutputs, InputOf, ExecutorsAt, Stacked;
    if |runs| > 1 {
      StackedTail(world, limit, depth, runs);
      var s :| Starts(world, limit, depth, runs[0], s, runs[1]);
      StacksAreWithin(world, limit, depth + 1, runs[1].wf, mode, runs[1].seed, runs[1..]);
      assert NestingAt(world, limit, depth, w, mode, seed, s) ==
             1 + Nesting(world, limit, depth + 1, runs[1].wf, mode, runs[1].seed);
    } else {
      assert |runs| <= 1;
    }
  }

  lemma {:induction false} AmongAttained(world: World, limit: nat, depth: nat, w: Workflow, mode: Mode, seed: seq<Json>,
                                         nodes: seq<Node>)
    requires Valid(w) && NestingAmong(world, limit, depth, w, mode, seed, nodes) > 0
    ensures exists node :: node in nodes && NestingAt(world, limit, depth, w, mode, seed, node)
                                            == NestingAmong(world, limit, depth, w, mode, seed, nodes)
  {
    hide Valid, NestingAt;
    var k := |nodes| - 1;
    var r := NestingAmong(world, limit, depth, w, mode, seed, nodes);
    if NestingAt(world, limit, depth, w, mode, seed, nodes[k]) != r {
      AmongAttained(world, limit, depth, w, mode, seed, nodes[..k]);
    }
  }

  /** And one stack of runs is as high. */
  lemma {:induction false} HighestStack(world: World, limit: nat, depth: nat, w: Workflow, mode: Mode, seed: seq<Json>)
    returns (runs: seq<Job>)
    ensures Stacked(world, limit, depth, runs) && runs[0] == TopJob(world, limit, depth, w, mode, seed)
    ensures |runs| - 1 == Nesting(world, limit, depth, w, mode, seed)
    decreases limit - depth
  {
    hide Valid, Executes, FinalOutputs, InputOf, ExecutorsAt, NestingAmong, Stacked;
    var top := TopJob(world, limit, depth, w, mode, seed);
    if Nesting(world, limit, depth, w, mode, seed) == 0 {
      runs := [top];
      OneRun(world, limit, depth, top);
    } else {
      AmongAttained(world, limit, depth, w, mode, seed, w.nodes);
      var s :| s in w.nodes && NestingAt(world, limit, depth, w, mode, seed, s) == Nesting(world, limit, depth, w, mode, seed);
      var sub := SubJob(world, limit, depth, world.request(s, s.params).value, mode, InputOf(top, s.id, FinalOutputs(top)));
      assert Starts(world, limit, depth, top, s, sub);
      var above := HighestStack(world, limit, depth + 1, sub.wf, mode, sub.seed);
      StackedOn(world, limit, depth, top, above);
      runs := [top] + above;
    }
  }

  lemma OneRun(world: World, limit: nat, depth: nat, job: Job)
    ensures Stacked(world, limit, depth, [job])
  {}

  // ---- Chains of calls ----

  /** `w` asks for `v` straight from its trigger, handing its input on. */
  ghost predicate Relays(world: World, w: Workflow, v: Workflow, s: Node) {
    && Valid(w) && s in w.nodes && s.kind.SubWorkflow? && Producers(w, s.id) == {TriggerId(w)}
    && Connection(TriggerId(w), 0, s.id) in w.connections
    && world.request(s, s.params) == Ok(Request(v, None)) && world.accepts(v) && Valid(v)
  }

  /** A node fed by the trigger alone is in the wave after it, and a trigger that succeeds stops nothing. */
  lemma DirectIsSecondWave(job: Job, n: Id)
    requires JobOk(job) && job.pinned == map[] && n in Ids(job.wf) && Producers(job.wf, n) == {TriggerId(job.wf)}
    requires Reachable(job.wf, n) && !Out(job, TriggerId(job.wf)).Failed?
    ensures BeforeTheStop(job, n)
  {
    hide Valid, Out, Reachable, Producers;
    var w, t := job.wf, TriggerId(job.wf);
    TriggerHasNoEdges(w);
    ReachableLocally(w, t);
    assert DoneBy(job, 0) == Unreached(w) && t in DoneBy(job, 1);
    DoneByGrows(job, 1, 2);
    forall m | m in DoneBy(job, 1) ensures !Out(job, m).Failed? {
      if m in DoneBy(job, 0) {
        OutSettled(job, m);
      } else if m != t {
        ReachableLocally(w, m);
        ReachableIffNotUnreached(job, m);
      }
    }
    assert n in WaveAt(job, 1);
    assert InWaveBeforeStop(job, 1, n);
  }

  lemma ReachableIffNotUnreached(job: Job, m: Id)
    requires Valid(job.wf) && m in Ids(job.wf) && m !in Unreached(job.wf)
    ensures Reachable(job.wf, m)
  {}

  /** A chain of workflows that relay to each other nests as far as it goes, or to the limit if it is longer. */
  lemma {:induction false} ChainReaches(world: World, limit: nat, depth: nat, chain: seq<Workflow>, subs: seq<Node>, seed: seq<Json>)
    requires TriggersPass(world) && depth <= limit && seed != [] && |chain| == |subs| + 1
    requires forall i :: 0 <= i < |subs| ==> Relays(world, chain[i], chain[i + 1], subs[i])
    ensures Nesting(world, limit, depth, chain[0], Run, seed) >= if |subs| <= limit - depth then |subs| else limit - depth
    ensures |subs| >= limit - depth ==> Nesting(world, limit, depth, chain[0], Run, seed) == limit - depth
    decreases limit - depth
  {
    hide Valid, Relays, NestingAt;
    if depth < limit && subs != [] {
      assert Relays(world, chain[0], chain[0 + 1], subs[0]);
      var inner := RelayNests(world, limit, depth, chain[0], chain[1], subs[0], seed);
      forall i | 0 <= i < |subs[1..]| ensures Relays(world, chain[1..][i], chain[1..][i + 1], subs[1..][i]) {
        assert Relays(world, chain[i + 1], chain[i + 2], subs[i + 1]);
      }
      ChainReaches(world, limit, depth + 1, chain[1..], subs[1..], inner);
    }
  }

  /** A relaying node starts a run of the next workflow on what the trigger passed it. */
  lemma RelayNests(world: World, limit: nat, depth: nat, w: Workflow, v: Workflow, s: Node, seed: seq<Json>)
    returns (inner: seq<Json>)
    requires TriggersPass(world) && depth < limit && seed != [] && Relays(world, w, v, s)
    ensures inner != [] && Nesting(world, limit, depth, w, Run, seed) >= 1 + Nesting(world, limit, depth + 1, v, Run, inner)
  {
    hide Valid, Out, Reachable, FinalOutputs, InputOf, ExecutorsAt, Producers, FanIn, Nesting, DoneBy, TriggersPass;
    var job := Level(world, limit, depth, w, seed);
    SubNode(w, s);
    TriggerFeeds(world, limit, depth, w, s.id, seed);
    var input := InputOf(job, s.id, FinalOutputs(job));
    DirectIsSecondWave(job, s.id);
    assert Executes(job, s.id);
    inner := PayloadsOf(input);
    assert |inner| == |input|;
    assert SubJob(world, limit, depth, Request(v, None), Run, input).seed == inner;
    assert NestingAt(world, limit, depth, w, Run, seed, s) == 1 + Nesting(world, limit, depth + 1, v, Run, inner);
    NestsAtLeast(world, limit, depth, w, Run, seed, s);
  }

  lemma NestsAtLeast(world: World, limit: nat, depth: nat, w: Workflow, mode: Mode, seed: seq<Json>, node: Node)
    requires Valid(w) && node in w.nodes
    ensures NestingAt(world, limit, depth, w, mode, seed, node) <= Nesting(world, limit, depth, w, mode, seed)
  {
    hide Valid, NestingAt;
  }
}

/** Sub-workflow nodes that name a stored workflow: how the executor reads their parameters and what the
    reference check sees of them. */
module StoredWorkflows {
  import opened Wrappers
  import opened Sorting
  import opened Filtering
  import opened Workflows
  import opened Items
  import opened Semantics
  import opened NestedRuns
  import C = CycleCheck
  import E = Executors

  type Store = Id -> Option<Workflow>

  /** What an inline workflow is read from is larger than the parameters of its nodes. */
  ghost predicate Shrinks(inline: Json -> Option<Workflow>) {
    forall j: Json, node: Node :: inline(j).Some? && node in inline(j).value.nodes ==> Below(node.params, j)
  }

  ghost predicate Below(a: Json, b: Json) { a < b }

  /** How a workflow written inside parameters is read; None if it is not one. */
  type Inline = inline: Json -> Option<Workflow> | Shrinks(inline) witness (j: Json) => None

  datatype SubSpec = SubSpec(workflowId: Option<Id>, inline: Option<Json>, triggerInput: Option<seq<Json>>)

  /** A field that may be missing or null. */
  function OptionalField(params: Json, key: string): Option<Json> {
    var field := E.Field(params, key);
    if field == Some(JNull) then None else field
  }

  function ParseSub(params: Json): Option<SubSpec> {
    var id, input := OptionalField(params, "workflow_id"), OptionalField(params, "trigger_input");
    var credentials := E.Field(params, "propagate_credentials");
    if !params.JObj? || (id.Some? && !id.value.JStr?) || (input.Some? && !input.value.JArr?)
       || (credentials.Some? && !credentials.value.JBool?) then None
    else
      Some(SubSpec(if id.Some? then Some(id.value.s) else None, OptionalField(params, "workflow"),
                   if input.Some? then Some(input.value.elements) else None))
  }

  /** An inline workflow wins over a named one. */
  function RequestOf(store: Store, inline: Inline, params: Json): Result<Request, NodeError> {
    var spec := ParseSub(params);
    if spec.None? then Err(BadParams("SubWorkflow params invalid"))
    else if spec.value.inline.Some? then
      var parsed := inline(spec.value.inline.value);
      if parsed.None? then Err(BadParams("inline `workflow` is not a valid Workflow IR"))
      else Ok(Request(parsed.value, spec.value.triggerInput))
    else if spec.value.workflowId.None? then Err(BadParams("SubWorkflow params must include `workflow_id` or `workflow`"))
    else
      var found := store(spec.value.workflowId.value);
      if found.None? then Err(BadParams("sub-workflow id not found"))
      else Ok(Request(found.value, spec.value.triggerInput))
  }

  /** A field that is there and not null. */
  predicate Given(params: Json, key: string) { params.JObj? && key in params.fields && params.fields[key] != JNull }

  predicate AreSubParams(params: Json) {
    && params.JObj?
    && (Given(params, "workflow_id") ==> params.fields["workflow_id"].JStr?)
    && (Given(params, "trigger_input") ==> params.fields["trigger_input"].JArr?)
    && ("propagate_credentials" in params.fields ==> params.fields["propagate_credentials"].JBool?)
  }

  /** From the parameters to the request: an inline workflow wins over a named one, and an explicit trigger input is
      passed on. */
  lemma RequestMeans(store: Store, inline: Inline, params: Json)
    ensures var r := RequestOf(store, inline, params);
            var target := if !AreSubParams(params) then None
                          else if Given(params, "workflow") then inline(params.fields["workflow"])
                          else if Given(params, "workflow_id") then store(params.fields["workflow_id"].s) else None;
            && (target.None? ==> r.Err? && r.error.BadParams?)
            && (target.Some? ==> r.Ok? && r.value.target == target.value)
            && (target.Some? ==>
                  r.value.seed == if Given(params, "trigger_input") then Some(params.fields["trigger_input"].elements) else None)
  {}

  /** The sub-workflow executor of a world reads parameters this way. */
  ghost predicate ReadsParams(world: World, store: Store, inline: Inline) {
    forall node: Node, params: Json :: world.request(node, params) == RequestOf(store, inline, params)
  }

  /** The workflow a node names, if it is a sub-workflow node. */
  function Named(node: Node): Option<Id> {
    var field := E.Field(node.params, "workflow_id");
    if node.kind.SubWorkflow? && field.Some? && field.value.JStr? then Some(field.value.s) else None
  }

  /** Appends what is not listed yet. */
  function Listing(refs: seq<Id>, more: seq<Id>): (r: seq<Id>)
    ensures NoDup(refs) ==> NoDup(r)
    ensures forall n :: n in r <==> n in refs || n in more
  {
    if more == [] then refs
    else
      var k := |more| - 1;
      var before := Listing(refs, more[..k]);
      assert more == more[..k] + [more[k]];
      if more[k] in before then before else before + [more[k]]
  }

  /** The inline workflow a node carries, if it is a sub-workflow node. */
  function Carried(inline: Inline, node: Node): Option<Workflow> {
    var field := E.Field(node.params, "workflow");
    if node.kind.SubWorkflow? && field.Some? then inline(field.value) else None
  }

  /** `n` is named by the node, or by a node of the workflow it carries. */
  ghost predicate Refers(inline: Inline, node: Node, n: Id)
    decreases node.params
  {
    || Named(node) == Some(n)
    || (Carried(inline, node).Some? &&
        exists inner :: inner in Carried(inline, node).value.nodes && RefersBelow(inline, inner, n, node.params))
  }

  ghost predicate RefersBelow(inline: Inline, node: Node, n: Id, bound: Json)
    decreases bound, 0
  {
    Below(node.params, bound) && Refers(inline, node, n)
  }

  /** What one node refers to: the workflow it names, then what the workflow it carries refers to. */
  function NodeReferences(inline: Inline, node: Node): (r: seq<Id>)
    decreases node.params, 1, 0
  {
    var own := if Named(node).Some? then [Named(node).value] else [];
    if Carried(inline, node).Some? then
      CarriedIsBelow(inline, node);
      Listing(own, InnerReferences(inline, Carried(inline, node).value.nodes, node.params))
    else own
  }

  lemma CarriedIsBelow(inline: Inline, node: Node)
    requires Carried(inline, node).Some?
    ensures forall inner :: inner in Carried(inline, node).value.nodes ==> Below(inner.params, node.params)
  {
    var j := node.params.fields["workflow"];
    forall inner | inner in Carried(inline, node).value.nodes ensures Below(inner.params, node.params) {
      assert Below(inner.params, j);
    }
  }

  function InnerReferences(inline: Inline, nodes: seq<Node>, ghost bound: Json): (r: seq<Id>)
    requires forall node :: node in nodes ==> Below(node.params, bound)
    decreases bound, 0, |nodes|
  {
    if nodes == [] then []
    else
      var k := |nodes| - 1;
      assert nodes == nodes[..k] + [nodes[k]] && Below(nodes[k].params, bound);
      Listing(InnerReferences(inline, nodes[..k], bound), NodeReferences(inline, nodes[k]))
  }

  /** The workflows the nodes refer to, in order of declaration, each once. */
  function ReferencesOf(inline: Inline, nodes: seq<Node>): (r: seq<Id>)
    ensures NoDup(r) && forall n :: n in r <==> exists node :: node in nodes && n in NodeReferences(inline, node)
  {
    if nodes == [] then []
    else
      var k := |nodes| - 1;
      assert nodes == nodes[..k] + [nodes[k]];
      assert forall node :: node in nodes <==> node in nodes[..k] || node == nodes[k];
      Listing(ReferencesOf(inline, nodes[..k]), NodeReferences(inline, nodes[k]))
  }

  lemma {:induction false} InnerIsTheSame(inline: Inline, nodes: seq<Node>, bound: Json)
    requires forall node :: node in nodes ==> Below(node.params, bound)
    ensures InnerReferences(inline, nodes, bound) == ReferencesOf(inline, nodes)
  {
    if nodes != [] {
      var k := |nodes| - 1;
      assert nodes == nodes[..k] + [nodes[k]];
      InnerIsTheSame(inline, nodes[..k], bound);
    }
  }

  ghost function NotIn(refs: seq<Id>): Id -> bool { (n: Id) => n !in refs }

  /** What is appended, in order. */
  lemma {:induction false} ListingAppends(refs: seq<Id>, more: seq<Id>)
    requires NoDup(more)
    ensures Listing(refs, more) == refs + Keep(NotIn(refs), more)
  {
    hide Keep;
    if more == [] {
      KeepNone(NotIn(refs), more);
    } else {
      var front, n := more[..|more| - 1], more[|more| - 1];
      assert more == front + [n] && n !in front;
      ListingAppends(refs, front);
      KeepLast(NotIn(refs), front, n);
    }
  }

  lemma NodeReferencesDistinct(inline: Inline, node: Node)
    ensures NoDup(NodeReferences(inline, node))
  {}

  /** The references come in order of first mention: node by node, and of one node its own name first, then those of
      the workflow it carries in their order. */
  lemma ReferencesInOrder(inline: Inline, nodes: seq<Node>, k: nat)
    requires k < |nodes|
    ensures var before, of := ReferencesOf(inline, nodes[..k]), NodeReferences(inline, nodes[k]);
            ReferencesOf(inline, nodes[..k + 1]) == before + Keep(NotIn(before), of)
    ensures var own := if Named(nodes[k]).Some? then [Named(nodes[k]).value] else [];
            var inner := if Carried(inline, nodes[k]).Some? then ReferencesOf(inline, Carried(inline, nodes[k]).value.nodes) else [];
            NodeReferences(inline, nodes[k]) == own + Keep(NotIn(own), inner)
  {
    hide Keep;
    var node, before := nodes[k], ReferencesOf(inline, nodes[..k]);
    NodeReferencesDistinct(inline, node);
    ListingAppends(before, NodeReferences(inline, node));
    assert nodes[..k + 1][..k] == nodes[..k];
    var own := if Named(node).Some? then [Named(node).value] else [];
    if Carried(inline, node).Some? {
      CarriedIsBelow(inline, node);
      var inside := Carried(inline, node).value.nodes;
      InnerIsTheSame(inline, inside, node.params);
      ListingAppends(own, ReferencesOf(inline, inside));
    } else {
      KeepNone(NotIn(own), []);
    }
  }

  /** Exactly what is named at any depth of inline workflows is listed. */
  lemma {:induction false} ListedIsReferred(inline: Inline, node: Node, n: Id)
    ensures n in NodeReferences(inline, node) <==> Refers(inline, node, n)
    decreases node.params
  {
    if Carried(inline, node).Some? {
      CarriedIsBelow(inline, node);
      var inner := Carried(inline, node).value.nodes;
      InnerIsTheSame(inline, inner, node.params);
      forall x | x in inner ensures n in NodeReferences(inline, x) <==> RefersBelow(inline, x, n, node.params) {
        assert Below(x.params, node.params);
        ListedIsReferred(inline, x, n);
      }
    }
  }

  /** The reference index of the store. */
  function Index(store: Store, inline: Inline): C.References {
    (n: Id) => Some(if store(n).Some? then ReferencesOf(inline, store(n).value.nodes) else [])
  }

  /** A run follows no reference the check does not see: what a node asks for is stored under a name that is listed,
      or it is carried inline and all it refers to is listed. */
  lemma RequestStaysInside(store: Store, inline: Inline, w: Workflow, node: Node)
    requires node in w.nodes && node.kind.SubWorkflow? && RequestOf(store, inline, node.params).Ok?
    ensures var target := RequestOf(store, inline, node.params).value.target;
            || (exists n :: n in ReferencesOf(inline, w.nodes) && store(n) == Some(target))
            || (Carried(inline, node) == Some(target)
                && forall n :: n in ReferencesOf(inline, target.nodes) ==> n in ReferencesOf(inline, w.nodes))
  {
    hide Refers;
    var spec, target := ParseSub(node.params).value, RequestOf(store, inline, node.params).value.target;
    var refs := NodeReferences(inline, node);
    if spec.inline.Some? {
      assert Carried(inline, node) == Some(target);
      CarriedIsBelow(inline, node);
      InnerIsTheSame(inline, target.nodes, node.params);
      forall n | n in ReferencesOf(inline, target.nodes) ensures n in ReferencesOf(inline, w.nodes) { assert n in refs; }
    } else {
      var n := spec.workflowId.value;
      assert Named(node) == Some(n);
      assert n in refs;
      assert n in ReferencesOf(inline, w.nodes) && store(n) == Some(target);
    }
  }

  /** Every sub-workflow node names a workflow, and none carries one inline. */
  ghost predicate ByName(w: Workflow) {
    forall node :: node in w.nodes && node.kind.SubWorkflow? ==>
      Named(node).Some? && OptionalField(node.params, "workflow").None?
  }

  /** Such a run follows no reference the check does not see. */
  lemma RequestFollowsReference(store: Store, inline: Inline, w: Workflow, node: Node)
    requires ByName(w) && node in w.nodes && node.kind.SubWorkflow?
    ensures Named(node).Some? && Named(node).value in ReferencesOf(inline, w.nodes)
    ensures var request := RequestOf(store, inline, node.params);
            request.Ok? ==> store(Named(node).value) == Some(request.value.target)
  {
    hide ReferencesOf;
  }

  lemma ExploredChild(refs: C.References, n: Id, child: Id, d: int)
    requires C.Explored(refs, n, d) && child in C.Of(refs, n)
    ensures d >= 2 && C.Explored(refs, child, d - 1)
  {}

  lemma ExploredDepth(refs: C.References, n: Id, d: int)
    requires C.Explored(refs, n, d)
    ensures d >= 1
  {}

  /** So what the check finds to be shallow nests no deeper when it runs. */
  lemma {:induction false} ExploredNests(world: World, store: Store, inline: Inline, n: Id, d: nat, mode: Mode)
    requires ReadsParams(world, store, inline) && forall m :: store(m).Some? ==> ByName(store(m).value)
    requires C.Explored(Index(store, inline), n, d) && store(n).Some?
    ensures NestsWithin(world, store(n).value, mode, d)
    decreases d
  {
    hide RequestOf, ReferencesOf, ByName, Named, C.Explored;
    var w := store(n).value;
    assert ByName(w);
    ExploredDepth(Index(store, inline), n, d);
    forall node | node in w.nodes && IsSub(node, mode)
      ensures d >= 2
      ensures var request := world.request(node, node.params);
              request.Ok? ==> NestsWithin(world, request.value.target, mode, d - 1)
    {
      RequestFollowsReference(store, inline, w, node);
      var child := Named(node).value;
      assert child in C.Of(Index(store, inline), n);
      ExploredChild(Index(store, inline), n, child, d);
      var request := world.request(node, node.params);
      if request.Ok? { ExploredNests(world, store, inline, child, d - 1, mode); }
    }
  }

  /** Up to six workflows deep the check and the limit on nesting agree: the limit is never met. */
  lemma ShallowRunsFreely(world: World, store: Store, inline: Inline, n: Id, mode: Mode, seed: seq<Json>, larger: nat)
    requires ReadsParams(world, store, inline) && forall m :: store(m).Some? ==> ByName(store(m).value)
    requires C.Shallow(Index(store, inline), n, 6) && larger >= 5
    requires store(n).Some? && Valid(store(n).value)
    ensures var capped := Job(store(n).value, ExecutorsAt(world, 5, 0), mode, seed, map[]);
            var free := Job(store(n).value, ExecutorsAt(world, larger, 0), mode, seed, map[]);
            (Completes(capped) <==> Completes(free)) && FinalOutputs(capped) == FinalOutputs(free)
  {
    hide Valid, C.Shallow, C.Explored, ReadsParams, Index, ByName, Completes, FinalOutputs, NestsWithin, ExecutorsAt;
    C.ExploredIsShallow(Index(store, inline), n, MAX_SUB_WORKFLOW_DEPTH + 1);
    ExploredNests(world, store, inline, n, MAX_SUB_WORKFLOW_DEPTH + 1, mode);
    LimitIsInvisible(world, store(n).value, mode, seed, larger);
  }

  /** A stored chain: each member calls the next by name and names no other; the last names none. */
  ghost predicate StoredChain(store: Store, inline: Inline, chain: seq<Workflow>) {
    && chain != []
    && (forall i :: 0 <= i < |chain| ==> store(chain[i].id) == Some(chain[i]))
    && (forall i :: 0 <= i < |chain| - 1 ==> ReferencesOf(inline, chain[i].nodes) == [chain[i + 1].id])
    && ReferencesOf(inline, chain[|chain| - 1].nodes) == []
  }

  /** From seven workflows on they disagree, up to the twenty the check allows: it can only answer that such a
      chain is clean, and no run of it completes that is started with something. */
  lemma StoredChainFails(world: World, store: Store, inline: Inline, chain: seq<Workflow>, subs: seq<Node>, seed: seq<Json>)
    requires ReadsParams(world, store, inline) && StoredChain(store, inline, chain)
    requires 7 <= |chain| <= 20 && |subs| == |chain| - 1 && seed != []
    requires forall i :: 0 <= i < |subs| ==> Calls(world, chain[i], chain[i + 1], subs[i])
    ensures var refs := C.WithNew(Index(store, inline), chain[0].id, ReferencesOf(inline, chain[0].nodes));
            && C.Shallow(refs, chain[0].id, 20)
            && forall verdict :: C.Justified(refs, chain[0].id, verdict) ==> verdict.Clean?
    ensures Valid(chain[0]) && !Completes(Level(world, 5, 0, chain[0], seed))
  {
    hide Valid, Completes, Calls, C.Justified, C.Shallow, ReferencesOf, ReadsParams;
    ChainIsListed(store, inline, chain);
    CheckedChainsFail(world, Index(store, inline), chain, subs, seed);
  }

  lemma ChainIsListed(store: Store, inline: Inline, chain: seq<Workflow>)
    requires StoredChain(store, inline, chain)
    ensures Listed(Index(store, inline), chain)
  {
    hide ReferencesOf;
  }
}
