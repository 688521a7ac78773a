/** Additivity holds of runs without failures only: a workflow that completes and is not additive. */
module FragileWorkflow {
  import opened Wrappers
  import opened Sorting
  import opened Strings
  import opened Workflows
  import opened Items
  import opened Semantics
  import opened Resume
  import opened Bags
  import opened PerItem
  import opened Additivity
  import opened Executors

  const START: Node := Node("t", WebhookTrigger, JObj(map[]), None, None)

  /** Accepts object items only, and drops its whole input rather than stop the run. */
  const DROPS: Node := Node("n", Transform, JObj(map["set" := JObj(map[])]), None, Some(Continue))

  const FRAGILE: Workflow := Workflow(SCHEMA_VERSION, "w", "w", [START, DROPS], [Connection("t", 0, "n")])

  const GOOD: Json := JObj(map[])
  const BAD: Json := JNull

  lemma FragileParts()
    ensures Ids(FRAGILE) == {"t", "n"} && UniqueIds(FRAGILE) && Acyclic(FRAGILE)
    ensures FindTrigger(FRAGILE.nodes) == Some(START)
    ensures NodeOf(FRAGILE, "t") == START && NodeOf(FRAGILE, "n") == DROPS
    ensures forall c :: c in FRAGILE.connections <==> c == Connection("t", 0, "n")
  {
    assert FRAGILE.nodes[0] == START && FRAGILE.nodes[1] == DROPS;
    assert FRAGILE.nodes[1..][0] == DROPS;
    assert START in FRAGILE.nodes && DROPS in FRAGILE.nodes;
    assert FRAGILE.connections[0] == Connection("t", 0, "n");
    var rank: map<Id, nat> := map["t" := 0, "n" := 1];
    assert IsRank(FRAGILE, rank);
    NodeOfSelf(FRAGILE, START);
    NodeOfSelf(FRAGILE, DROPS);
  }

  lemma FragileIsValid()
    ensures Valid(FRAGILE) && TriggerId(FRAGILE) == "t" && Reachable(FRAGILE, "n")
    ensures Producers(FRAGILE, "n") == {"t"}
  {
    hide Acyclic, UniqueIds;
    FragileParts();
    assert START in FRAGILE.nodes;
    assert FRAGILE.nodes[0].kind.IsTrigger() && !FRAGILE.nodes[1].kind.IsTrigger();
    var c := Connection("t", 0, "n");
    assert c in FRAGILE.connections;
    assert Valid(FRAGILE);
    assert WalkFromTo(FRAGILE, ["t", "n"], "t", "n") by { assert ("t", "n") in Edges(FRAGILE); }
  }

  lemma FragileFanIn()
    ensures FanIn(FRAGILE, "n") == [Edge("t", 0)]
  {
    var conns := FRAGILE.connections;
    assert conns[..|conns| - 1] == [];
    assert EdgeList(conns, "n") == [Edge("t", 0)];
    assert [Edge("t", 0)][1..] == [];
  }

  ghost predicate FragileRun(lib: Library, job: Job) {
    job.wf == FRAGILE && job.pinned == map[] && PureOracle(lib, job)
  }

  lemma FragileOutcomes(lib: Library, job: Job)
    requires FragileRun(lib, job) && job.seed != []
    ensures Valid(job.wf) && "t" in Ids(job.wf) && "n" in Ids(job.wf)
    ensures Out(job, "t") == Done(Stamp("t", Roots(job.seed)))
    ensures Out(job, "n") == Deliver(job, "n", Stamp("t", Roots(job.seed)))
  {
    hide Valid, Reachable, Deliver, FRAGILE, FanIn, Out;
    FragileIsValid();
    FragileParts();
    FragileFanIn();
    PassesOn(lib, job);
    TriggerOutcome(job);
    var outs: map<Id, seq<Item>> := map["t" := Stamp("t", Roots(job.seed))];
    InputFromOutputs(job, "n", outs);
    AllOnPort0(outs["t"]);
    OneEdge(Edge("t", 0), outs);
  }

  lemma PassesOn(lib: Library, job: Job)
    requires FragileRun(lib, job) && START in job.wf.nodes
    ensures forall input :: job.oracle(START, job.mode, 1, input) == Ok(input)
  {}

  lemma {:induction false} AllOnPort0(items: seq<Item>)
    requires forall x :: x in items ==> x.port == 0
    ensures OnPort(items, 0) == items
  {
    if items != [] {
      var k := |items| - 1;
      assert items == items[..k] + [items[k]];
      AllOnPort0(items[..k]);
    }
  }

  lemma OneEdge(e: Edge, outs: map<Id, seq<Item>>)
    ensures Gather([e], outs) == Emitted(outs, e)
  {
    assert [e][..0] == [];
  }

  /** One item that is no object makes the node fail and drop everything; objects pass. */
  lemma Behaves(lib: Library, j: Json)
    ensures NodeBehaviour(lib, DROPS, j) == if j.JObj? then Some([Emit(j, 0)]) else None
  {
    if j.JObj? {
      assert Merged(lib, map[], j).Some?;
      assert Merged(lib, map[], j).value.fields == j.fields;
    }
  }

  lemma Replies(lib: Library, job: Job)
    requires FragileRun(lib, job) && job.seed != [] && DROPS in job.wf.nodes
    ensures var input := Stamp("t", Roots(job.seed));
            TryFrom(job, DROPS, input, 1) == job.oracle(DROPS, job.mode, 1, input)
            && Answers(lib, DROPS, input, TryFrom(job, DROPS, input, 1))
  {
    hide Answers;
  }

  lemma {:induction false} SeedPayloads(seed: seq<Json>)
    ensures Payloads(Stamp("t", Roots(seed))) == seed
  {
    if seed != [] {
      var k := |seed| - 1;
      SeedPayloads(seed[..k]);
      assert Stamp("t", Roots(seed))[..k] == Stamp("t", Roots(seed[..k]));
    }
  }

  lemma BadInput(lib: Library, job: Job)
    requires FragileRun(lib, job) && BAD in job.seed
    ensures Valid(job.wf) && "n" in Ids(job.wf) && Out(job, "n") == Done([])
  {
    hide Valid, FRAGILE, DROPS, Out, FanIn, NodeBehaviour, PureOracle, TryFrom, Ids;
    FragileOutcomes(lib, job);
    FragileParts();
    Replies(lib, job);
    SeedPayloads(job.seed);
    Behaves(lib, BAD);
    var input := Stamp("t", Roots(job.seed));
    assert BAD in Payloads(input);
    assert TryFrom(job, DROPS, input, 1).Err?;
    DropsContinues();
  }

  lemma DropsContinues()
    ensures DROPS.onError == Some(Continue) && DROPS in FRAGILE.nodes && DROPS.id == "n"
  {
    assert FRAGILE.nodes[1] == DROPS;
  }

  lemma GoodInput(lib: Library, job: Job)
    requires FragileRun(lib, job) && job.seed == [GOOD]
    ensures Valid(job.wf) && "n" in Ids(job.wf) && Out(job, "n").Done? && Emits(Out(job, "n").items) == [Emit(GOOD, 0)]
  {
    hide Valid, FRAGILE, DROPS, Out, FanIn, NodeBehaviour, PureOracle, TryFrom, Ids;
    FragileOutcomes(lib, job);
    FragileParts();
    DropsContinues();
    Replies(lib, job);
    SeedPayloads(job.seed);
    Behaves(lib, GOOD);
    var input := Stamp("t", Roots(job.seed));
    var reply := TryFrom(job, DROPS, input, 1);
    assert CanHandle(lib, DROPS, Payloads(input));
    assert [GOOD][..0] == [];
    assert FlatMap(NodeEmitter(lib, DROPS), [GOOD]) == NodeEmitter(lib, DROPS)(GOOD);
    StampKeepsEmits("n", reply.value);
  }

  /** All three runs complete, and yet the whole emits nothing where the parts together emit an item: the
      condition of `Additive`, that no node fails, cannot be weakened to completing. */
  lemma CompletingIsNotEnough(lib: Library, jx: Job, jy: Job, jxy: Job)
    requires FragileRun(lib, jx) && FragileRun(lib, jy) && FragileRun(lib, jxy)
    requires jx.seed == [BAD] && jy.seed == [GOOD] && jxy.seed == [BAD] + [GOOD]
    ensures Valid(FRAGILE) && "n" in Ids(FRAGILE) && Completes(jx) && Completes(jy) && Completes(jxy)
    ensures Bag(jxy, "n") != Bag(jx, "n") + Bag(jy, "n")
  {
    hide Valid, FRAGILE, Out, FanIn, PureOracle;
    BadInput(lib, jx);
    GoodInput(lib, jy);
    BadInput(lib, jxy);
    FragileOutcomes(lib, jx);
    FragileOutcomes(lib, jy);
    FragileOutcomes(lib, jxy);
    FragileParts();
    assert Emit(GOOD, 0) in Bag(jy, "n");
    assert Bag(jxy, "n") == multiset{};
  }
}

/** A connection declared twice: the engine collapses it, and a detour through one of the two undoes that. */
module RepeatedConnection {
  import opened Wrappers
  import opened Workflows
  import opened Items
  import opened Semantics
  import opened Bags
  import opened PerItem
  import opened Additivity
  import opened Executors
  import opened Operators
  import opened Detours
  import opened PassthroughMeaning
  import opened CanonicalForms
  import opened Filtering
  import opened FragileWorkflow

  const EDGE: Connection := Connection("t", 0, "n")

  const TWICE: Workflow := FRAGILE.(connections := [EDGE, EDGE])

  lemma TwiceIsFragile()
    ensures forall c :: c in FRAGILE.connections <==> c in TWICE.connections
    ensures TWICE.nodes == FRAGILE.nodes && TWICE.schemaVersion == FRAGILE.schemaVersion
  {
    assert FRAGILE.connections[0] == EDGE && TWICE.connections[0] == EDGE;
  }

  lemma SameSetIsValid(v: Workflow, w: Workflow)
    requires Valid(v) && v.nodes == w.nodes && v.schemaVersion == w.schemaVersion
    requires forall c :: c in v.connections <==> c in w.connections
    ensures Valid(w) && TriggerId(w) == TriggerId(v) && Ids(w) == Ids(v)
  {
    assert IsRank(w, RankOf(v));
    forall c | c in w.connections
      ensures c.fromNode in Ids(w) && c.toNode in Ids(w)
      ensures var count := NodeOf(w, c.fromNode).kind.PortCount(); count.Some? ==> c.fromPort < count.value
    {
      assert c in v.connections;
    }
  }

  lemma TwiceIsValid()
    ensures Valid(TWICE) && TriggerId(TWICE) == "t" && Ids(TWICE) == {"t", "n"} && "p" !in Ids(TWICE)
    ensures FanIn(TWICE, "n") == [Edge("t", 0)] && Repeated(TWICE, 0) && |TWICE.connections| == 2
  {
    hide Valid, FRAGILE, FanIn;
    FragileIsValid();
    FragileParts();
    FragileFanIn();
    TwiceIsFragile();
    SameSetIsValid(FRAGILE, TWICE);
    FanInOrderFree(FRAGILE, TWICE, "n");
    assert TWICE.connections[0] == TWICE.connections[1];
  }

  /** The runs before and after inserting on the first of the two, started with one item. */
  ghost predicate TwiceRuns(lib: Library, jw: Job, jv: Job, j: Json) {
    && jw.wf == TWICE && jv.wf == Inserted(TWICE, 0, "p")
    && jw.pinned == map[] && jv.pinned == map[] && jw.seed == jv.seed == [j]
    && PureOracle(lib, jw) && PureOracle(lib, jv)
  }

  /** The trigger hands the one item to the node, once. */
  lemma TwiceInputs(lib: Library, jw: Job, jv: Job, j: Json)
    requires TwiceRuns(lib, jw, jv, j)
    ensures Valid(jw.wf) && "t" in Ids(jw.wf) && Emits(Yield(jw, "t")) == [Emit(j, 0)]
    ensures Payloads(Input(jw, "n")) == [j]
  {
    hide Valid, FRAGILE, TWICE, FanIn, Out, Inserted, NodeBehaviour;
    TwiceIsValid();
    TwiceIsFragile();
    FragileParts();
    FragileIsValid();
    var once := jw.(wf := FRAGILE);
    SameNodesPure(lib, jw, once);
    FragileOutcomes(lib, once);
    ConnectionOrderFree(once, jw, "t");
    SeedPayloads([j]);
    var items := Stamp("t", Roots([j]));
    AllOnPort0(items);
    OneEdge(Edge("t", 0), FinalOutputs(jw));
    assert Input(jw, "n") == items;
    OneEmit(items[0]);
    assert items == [items[0]];
  }

  /** The node passes an object on, and drops anything else without stopping the run. */
  lemma TwiceOutcome(lib: Library, jw: Job, jv: Job, j: Json)
    requires TwiceRuns(lib, jw, jv, j) && (j == GOOD || j == BAD)
    ensures Valid(jw.wf) && Ids(jw.wf) == {"t", "n"} && Completes(jw) && Served(jw, "n")
    ensures Bag(jw, "n") == if j == GOOD then multiset{Emit(GOOD, 0)} else multiset{}
  {
    hide Valid, FRAGILE, TWICE, FanIn, Out, Inserted, NodeBehaviour, PureOracle, Served;
    TwiceIsValid();
    TwiceIsFragile();
    FragileParts();
    FragileIsValid();
    var once := jw.(wf := FRAGILE);
    SameNodesPure(lib, jw, once);
    FragileOutcomes(lib, once);
    ConnectionOrderFree(once, jw, "t");
    ConnectionOrderFree(once, jw, "n");
    if j == GOOD { GoodInput(lib, once); } else { BadInput(lib, once); }
    CompletesServes(jw, "n");
  }

  lemma SameNodesPure(lib: Library, a: Job, b: Job)
    requires PureOracle(lib, a) && b == a.(wf := b.wf) && b.wf.nodes == a.wf.nodes
    ensures PureOracle(lib, b)
  {
    hide PureReply;
    assert b.mode == a.mode && b.oracle == a.oracle;
  }

  /** A concrete run: inserting on a connection declared twice delivers its item twice. */
  lemma RepeatedConnectionDoubles(lib: Library, jw: Job, jv: Job)
    requires TwiceRuns(lib, jw, jv, GOOD)
    ensures Valid(jw.wf) && Valid(jv.wf) && Ids(jw.wf) <= Ids(jv.wf)
    ensures multiset(Payloads(Input(jw, "n"))) == multiset{GOOD}
    ensures multiset(Payloads(Input(jv, "n"))) == multiset{GOOD, GOOD}
    ensures !EmissionsKept(jw, jv)
  {
    hide Workflows.Valid, TWICE, FRAGILE, FanIn, Out, Inserted, NodeBehaviour, PureOracle, Input, EmissionsKept, Repeated,
         Arriving, InsertRuns, Clean, Bag, Productive, Served, Completes, SameEnd;
    TwiceIsValid();
    TwiceInputs(lib, jw, jv, GOOD);
    TwiceOutcome(lib, jw, jv, GOOD);
    TwiceEdge();
    PureInserted(lib, jw, jv, 0, "p");
    var f := BehaviourOf(lib, jv.wf);
    PureIsProductive(lib, jv.wf);
    TwiceCarries(jw, GOOD);
    assert Edge(jw.wf.connections[0].fromNode, jw.wf.connections[0].fromPort) == Edge("t", 0);
    InsertOnRepeated(jw, jv, 0, "p", f);
    assert multiset(Payloads(Input(jv, "n"))) == multiset([GOOD]) + multiset([GOOD]);
    InsertIsExact(jw, jv, 0, "p", f);
    assert Emit(GOOD, 0) in Bag(jw, "n");
  }

  /** A concrete run in which the repeated connection carries an item and inserting still changes no emission: the
      target drops what it receives, once or twice. */
  lemma DroppedEitherWay(lib: Library, jw: Job, jv: Job)
    requires TwiceRuns(lib, jw, jv, BAD)
    ensures Valid(jw.wf) && Valid(jv.wf) && Ids(jw.wf) <= Ids(jv.wf) && Completes(jw) && Completes(jv)
    ensures Repeated(TWICE, 0) && Arriving(jw, [Edge("t", 0)]) == [BAD]
    ensures multiset(Payloads(Input(jv, "n"))) == multiset{BAD, BAD}
    ensures EmissionsKept(jw, jv)
  {
    hide Workflows.Valid, TWICE, FRAGILE, FanIn, Out, Inserted, NodeBehaviour, PureOracle, Input, EmissionsKept, Repeated,
         Arriving, InsertRuns, Clean, Bag, Productive, Served, Completes, SameEnd;
    TwiceIsValid();
    TwiceInputs(lib, jw, jv, BAD);
    TwiceOutcome(lib, jw, jv, BAD);
    TwiceEdge();
    PureInserted(lib, jw, jv, 0, "p");
    var f := BehaviourOf(lib, jv.wf);
    PureIsProductive(lib, jv.wf);
    TwiceCarries(jw, BAD);
    assert Edge(jw.wf.connections[0].fromNode, jw.wf.connections[0].fromPort) == Edge("t", 0);
    InsertOnRepeated(jw, jv, 0, "p", f);
    assert multiset(Payloads(Input(jv, "n"))) == multiset([BAD]) + multiset([BAD]);
    InsertIsExact(jw, jv, 0, "p", f);
  }

  /** The same two runs the other way round: the node inserted is a removable pass-through that is bypassed, and
      removing it again delivers the item once where it came twice. */
  lemma RemovingWithBypassLosesOne(lib: Library, jw: Job, jv: Job)
    requires TwiceRuns(lib, jw, jv, GOOD)
    ensures jw.wf == Removed(jv.wf, "p") && !NoBypass(jv.wf, "p")
    ensures EmptyTransform("p") in jv.wf.nodes && Removable(jv.wf, {}, EmptyTransform("p"))
    ensures Valid(jw.wf) && Valid(jv.wf) && Ids(jw.wf) <= Ids(jv.wf)
    ensures multiset(Payloads(Input(jv, "n"))) == multiset{GOOD, GOOD}
    ensures multiset(Payloads(Input(jw, "n"))) == multiset{GOOD}
    ensures !EmissionsKept(jw, jv)
  {
    hide Workflows.Valid, FRAGILE, FanIn, Out, NodeBehaviour, PureOracle, Input, EmissionsKept;
    RepeatedConnectionDoubles(lib, jw, jv);
    TwiceBypassed();
  }

  lemma TwiceBypassed()
    ensures var v := Inserted(TWICE, 0, "p");
            && Removed(v, "p") == TWICE && !NoBypass(v, "p")
            && EmptyTransform("p") in v.nodes && Removable(v, {}, EmptyTransform("p"))
  {
    hide Workflows.Valid, FRAGILE, Canonical, Removed, Keep;
    TwiceIsValid();
    TwiceEdge();
    var v := Inserted(TWICE, 0, "p");
    RemoveUndoesInsert((node: Node) => "", TWICE, 0, "p");
    RemovedKeeps(v, "p");
    assert v.connections == [Connection("t", 0, "p"), EDGE, Connection("p", 0, "n")];
    assert v.connections[0] in Into(v.connections, "p") && v.connections[2] in OutOf(v.connections, "p");
    assert v.connections[1] == EDGE;
    assert Via(v, "p", EDGE);
    assert v.nodes[|v.nodes| - 1] == EmptyTransform("p");
  }

  lemma RemovedKeeps(w: Workflow, id: Id)
    ensures Removed(w, id) == w.(nodes := Removed(w, id).nodes, connections := Removed(w, id).connections)
  {
    hide Keep;
  }

  lemma TwiceEdge()
    ensures |TWICE.connections| > 0 && TWICE.connections[0] == EDGE
  {}

  lemma TwiceCarries(jw: Job, j: Json)
    requires Valid(jw.wf) && "t" in Ids(jw.wf) && Emits(Yield(jw, "t")) == [Emit(j, 0)]
    ensures Arriving(jw, [Edge("t", 0)]) == [j]
  {
    hide Valid, Yield, FlatMap;
    FlatMapNothing(Carry(jw));
    FlatMapLast(Carry(jw), [], Edge("t", 0));
    assert [] + [Edge("t", 0)] == [Edge("t", 0)];
    OneOnPort(Emit(j, 0), 0);
  }
}

/** Chains of stored workflows, each asking for the next: the static check and the run disagree about them. */
module DeepChains {
  import opened Wrappers
  import opened Workflows
  import opened Items
  import opened Semantics
  import opened Operators
  import opened NestedRuns
  import opened StoredWorkflows
  import opened FragileWorkflow
  import C = CycleCheck

  function LinkId(i: nat): Id { "w" + Decimal(i) }

  function Asks(i: nat): Node {
    Node("s", SubWorkflow, JObj(map["workflow_id" := JStr(LinkId(i + 1))]), None, None)
  }

  /** Number `i` of `length` names the next one; the last one has a trigger only. */
  function Link(length: nat, i: nat): Workflow {
    if i + 1 < length then Workflow(SCHEMA_VERSION, LinkId(i), "link", [START, Asks(i)], [Connection("t", 0, "s")])
    else Workflow(SCHEMA_VERSION, LinkId(i), "link", [START], [])
  }

  function IndexOf(n: Id, k: nat): Option<nat> {
    if k == 0 then None else if LinkId(k - 1) == n then Some(k - 1) else IndexOf(n, k - 1)
  }

  /** The store holds the whole chain. */
  function LinkStore(length: nat): Store {
    (n: Id) => var i := IndexOf(n, length); if i.Some? then Some(Link(length, i.value)) else None
  }

  const NoneInline: Inline := (j: Json) => None

  function LinkWorld(length: nat): World {
    World((node: Node, mode: Mode, k: nat, input: seq<Item>) => Ok(input),
          (node: Node, params: Json) => RequestOf(LinkStore(length), NoneInline, params),
          (w: Workflow) => true,
          (node: Node, w: Workflow, outs: map<Id, seq<Item>>) => [])
  }

  lemma LinkIdInjective(i: nat, j: nat)
    requires LinkId(i) == LinkId(j)
    ensures i == j
  {
    assert LinkId(i)[1..] == Decimal(i) && LinkId(j)[1..] == Decimal(j);
    DecimalInjective(i, j);
  }

  lemma {:induction false} IndexOfLink(i: nat, k: nat)
    requires i < k
    ensures IndexOf(LinkId(i), k) == Some(i)
  {
    hide LinkId;
    if LinkId(k - 1) == LinkId(i) { LinkIdInjective(k - 1, i); } else { IndexOfLink(i, k - 1); }
  }

  lemma LinkIsValid(length: nat, i: nat)
    ensures Valid(Link(length, i)) && TriggerId(Link(length, i)) == "t"
    ensures i + 1 < length ==>
      Asks(i) in Link(length, i).nodes && Connection("t", 0, "s") in Link(length, i).connections
      && Producers(Link(length, i), "s") == {"t"}
  {
    hide LinkId;
    var w := Link(length, i);
    assert w.nodes[0] == START;
    assert START in w.nodes;
    if i + 1 < length {
      assert w.nodes[1] == Asks(i) && w.connections[0] == Connection("t", 0, "s");
      assert Ids(w) == {"t", "s"};
    } else {
      assert Ids(w) == {"t"};
    }
    var rank: map<Id, nat> := map["t" := 0, "s" := 1];
    assert IsRank(w, rank);
    NodeOfSelf(w, START);
  }

  /** The node's parameters are read as a request for the next workflow, and seen as a reference to it. */
  lemma AsksForNext(length: nat, i: nat)
    requires i + 1 < length
    ensures RequestOf(LinkStore(length), NoneInline, Asks(i).params) == Ok(Request(Link(length, i + 1), None))
    ensures ReferencesOf(NoneInline, Link(length, i).nodes) == [LinkId(i + 1)]
  {
    hide LinkId, Link;
    IndexOfLink(i + 1, length);
    LinkReferences(length, i);
  }

  lemma LinkReferences(length: nat, i: nat)
    ensures ReferencesOf(NoneInline, Link(length, i).nodes) == if i + 1 < length then [LinkId(i + 1)] else []
  {
    hide LinkId;
    var nodes := Link(length, i).nodes;
    assert nodes[..1] == [START] && [START][..0] == [];
    assert ReferencesOf(NoneInline, [START]) == [];
  }

  lemma LinkCalls(length: nat, i: nat)
    requires i + 1 < length
    ensures Calls(LinkWorld(length), Link(length, i), Link(length, i + 1), Asks(i))
    ensures Relays(LinkWorld(length), Link(length, i), Link(length, i + 1), Asks(i))
  {
    hide Valid, Link, Feeds, Reachable, TriggersPass, RequestOf, ReferencesOf, LinkId, Producers;
    LinkIsValid(length, i);
    LinkIsValid(length, i + 1);
    LinksPass(length);
    AsksForNext(length, i);
    DirectlyFed(LinkWorld(length), Link(length, i), Asks(i));
  }

  lemma LinksPass(length: nat)
    ensures TriggersPass(LinkWorld(length))
  {}

  lemma ReadsLinks(length: nat)
    ensures ReadsParams(LinkWorld(length), LinkStore(length), NoneInline)
  {
    hide RequestOf;
  }

  function Chain(length: nat): (r: seq<Workflow>)
    ensures |r| == length && forall i :: 0 <= i < length ==> r[i] == Link(length, i)
  {
    seq(length, i requires 0 <= i < length => Link(length, i))
  }

  lemma ChainIsStored(length: nat)
    requires length > 0
    ensures StoredChain(LinkStore(length), NoneInline, Chain(length))
  {
    hide LinkId, Link, ReferencesOf, IndexOf;
    forall i: nat | i < length
      ensures LinkStore(length)(Link(length, i).id) == Some(Link(length, i))
      ensures ReferencesOf(NoneInline, Link(length, i).nodes) == if i + 1 < length then [Link(length, i + 1).id] else []
    {
      LinkHasId(length, i);
      LinkHasId(length, i + 1);
      IndexOfLink(i, length);
      LinkReferences(length, i);
    }
    var chain, store := Chain(length), LinkStore(length);
    assert forall i: nat :: i < length ==> chain[i] == Link(length, i);
    forall i | 0 <= i < |chain| ensures store(chain[i].id) == Some(chain[i]) { assert chain[i] == Link(length, i); }
    forall i | 0 <= i < |chain| - 1 ensures ReferencesOf(NoneInline, chain[i].nodes) == [chain[i + 1].id] {
      assert chain[i] == Link(length, i) && chain[i + 1] == Link(length, i + 1);
    }
    LinkReferences(length, length - 1);
    assert chain[length - 1] == Link(length, length - 1);
  }

  lemma LinkHasId(length: nat, i: nat)
    ensures Link(length, i).id == LinkId(i)
  {}

  /** For every length from seven to twenty: the check accepts the chain when its first workflow is saved, and no
      run of it that is started with something completes. */
  lemma AcceptedButRefused(length: nat, seed: seq<Json>)
    requires 7 <= length <= 20 && seed != []
    ensures var first := Link(length, 0);
            var refs := C.WithNew(Index(LinkStore(length), NoneInline), first.id, ReferencesOf(NoneInline, first.nodes));
            forall verdict :: C.Justified(refs, first.id, verdict) ==> verdict.Clean?
    ensures Valid(Link(length, 0))
            && !Completes(Level(LinkWorld(length), 5, 0, Link(length, 0), seed))
  {
    hide Valid, Completes, Calls, Relays, Link, LinkWorld, LinkStore, ReferencesOf, StoredChain, ReadsParams, C.Justified, C.Shallow;
    var chain := Chain(length);
    var subs := seq(length - 1, i requires 0 <= i < length - 1 => Asks(i));
    forall i | 0 <= i < |subs| ensures Calls(LinkWorld(length), chain[i], chain[i + 1], subs[i]) { LinkCalls(length, i); }
    ChainIsStored(length);
    ReadsLinks(length);
    StoredChainFails(LinkWorld(length), LinkStore(length), NoneInline, chain, subs, seed);
  }

  /** The bound on nesting is met: a run of such a chain stacks up to the limit. */
  lemma NestsToTheLimit(length: nat, limit: nat, seed: seq<Json>)
    requires length > limit && seed != []
    ensures Nesting(LinkWorld(length), limit, 0, Link(length, 0), Run, seed) == limit
  {
    hide Valid, Calls, Relays, Link, LinkWorld, Nesting, TriggersPass;
    var chain := Chain(length);
    var subs := seq(length - 1, i requires 0 <= i < length - 1 => Asks(i));
    forall i | 0 <= i < |subs| ensures Relays(LinkWorld(length), chain[i], chain[i + 1], subs[i]) { LinkCalls(length, i); }
    LinksPass(length);
    ChainReaches(LinkWorld(length), limit, 0, chain, subs, seed);
  }
}

/** Identifiers that hold the separators of the canonical form: two workflows the search takes for one. */
module CollidingForms {
  import opened Wrappers
  import opened Bags
  import opened Workflows
  import opened Operators
  import opened CanonicalForms

  const NODES: seq<Node> := [
    Node("t", WebhookTrigger, JObj(map[]), None, None), Node("t:0->a", Transform, JObj(map[]), None, None),
    Node("a:0->b", Transform, JObj(map[]), None, None), Node("b", Transform, JObj(map[]), None, None)]

  const FED: Connection := Connection("t", 0, "a:0->b")
  const UNFED: Connection := Connection("t:0->a", 0, "b")
  const RUNS: Workflow := Workflow(SCHEMA_VERSION, "w", "w", NODES, [FED])
  const IDLES: Workflow := Workflow(SCHEMA_VERSION, "w", "w", NODES, [UNFED])

  lemma SameText()
    ensures ConnectionText(FED) == ConnectionText(UNFED)
  {
    assert Decimal(0) == "0";
  }

  lemma NodesApart(w: Workflow)
    requires w.nodes == NODES
    ensures Ids(w) == {"t", "t:0->a", "a:0->b", "b"}
    ensures forall n :: n in w.nodes ==> n.kind.PortCount() == Some(1) && (n.kind.IsTrigger() <==> n.id == "t")
  {
    assert |"t:0->a"| == 6 && |"a:0->b"| == 6;
    assert NODES[0] in w.nodes && NODES[1] in w.nodes && NODES[2] in w.nodes && NODES[3] in w.nodes;
  }

  lemma IdsApart(w: Workflow)
    requires w.nodes == NODES
    ensures UniqueIds(w)
  {
    assert |"t"| == 1 && |"b"| == 1 && "t"[0] == 't' && "b"[0] == 'b';
    assert |"t:0->a"| == 6 && |"a:0->b"| == 6 && "t:0->a"[0] == 't' && "a:0->b"[0] == 'a';
  }

  lemma OnlyTrigger(w: Workflow)
    requires w.nodes == NODES
    ensures OneTrigger(w) && FindTrigger(w.nodes) == Some(NODES[0]) && NODES[0].id == "t"
  {
    assert NODES[0] in w.nodes;
  }

  lemma OneConnection(w: Workflow, c: Connection)
    requires w == Workflow(SCHEMA_VERSION, "w", "w", NODES, [c])
    requires c.fromPort == 0 && c.fromNode in Ids(w) && c.toNode in Ids(w) && c.toNode != "t" && c.toNode != c.fromNode
    ensures Valid(w) && TriggerId(w) == "t" && Edges(w) == {(c.fromNode, c.toNode)}
  {
    hide UniqueIds, OneTrigger, NODES, Acyclic, PortsInRange, Ids;
    NodesApart(w);
    IdsApart(w);
    OnlyTrigger(w);
    assert w.connections[0] == c;
    OneRank(w, c);
    OnePort(w, c);
  }

  lemma OneRank(w: Workflow, c: Connection)
    requires w.connections == [c] && c.fromNode in Ids(w) && c.toNode in Ids(w) && c.toNode != c.fromNode
    ensures Acyclic(w)
  {
    var rank: map<Id, nat> := map n | n in Ids(w) :: if n == c.toNode then 1 else 0;
    assert IsRank(w, rank);
  }

  lemma OnePort(w: Workflow, c: Connection)
    requires w.connections == [c] && w.nodes == NODES && c.fromPort == 0
    ensures PortsInRange(w)
  {
    hide NODES, Ids;
    NodesApart(w);
    forall d | d in w.connections && d.fromNode in Ids(w)
      ensures var count := NodeOf(w, d.fromNode).kind.PortCount(); count.Some? ==> d.fromPort < count.value
    {
      assert d == c && NodeOf(w, d.fromNode) in w.nodes;
    }
  }

  /** Both are valid and of one form, whatever writes the nodes; in the one a node runs that the other never reaches. */
  lemma FormsCollide(show: Node -> string)
    ensures Valid(RUNS) && Valid(IDLES) && Canonical(show, RUNS) == Canonical(show, IDLES)
    ensures Reachable(RUNS, "a:0->b") && !Reachable(IDLES, "a:0->b")
  {
    hide Valid, NODES, Canonical;
    NodesApart(RUNS);
    NodesApart(IDLES);
    OneConnection(RUNS, FED);
    OneConnection(IDLES, UNFED);
    assert WalkFromTo(RUNS, ["t", "a:0->b"], "t", "a:0->b") by { assert ("t", "a:0->b") in Edges(RUNS); }
    if p :| WalkFromTo(IDLES, p, "t", "a:0->b") { ClosedHoldsReachable(IDLES, {"t"}, p); }
    SameForm(show);
  }

  lemma SameForm(show: Node -> string)
    ensures Canonical(show, RUNS) == Canonical(show, IDLES)
  {
    hide NODES, Decimal, ConnectionText;
    SameText();
    OneText(ConnectionText, FED);
    OneText(ConnectionText, UNFED);
  }
}
