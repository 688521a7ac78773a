/** Routing connections through a pass-through node does not change what the other nodes emit. */
module Detours {
  import opened Wrappers
  import opened Sorting
  import opened Workflows
  import opened Items
  import opened Semantics
  import opened Bags
  import opened PerItem
  import opened Additivity
  import opened Resume

  /** In `v`, what flows along `c` flows through `p` instead. */
  predicate Via(v: Workflow, p: Id, c: Connection) {
    Connection(c.fromNode, c.fromPort, p) in v.connections && Connection(p, 0, c.toNode) in v.connections
  }

  /** `v` is `w` with some connections routed through the extra node `p`; error policies are kept. */
  ghost predicate Detour(w: Workflow, v: Workflow, p: Id) {
    && Valid(w) && Valid(v)
    && p !in Ids(w) && Ids(v) == Ids(w) + {p}
    && TriggerId(w) == TriggerId(v)
    && (forall n :: n in Ids(w) ==> NodeOf(w, n).onError == NodeOf(v, n).onError)
    && (forall c: Connection :: c.fromNode != p && c.toNode != p ==>
          (c in w.connections <==> c in v.connections || Via(v, p, c)))
    && (forall c :: c in v.connections && c.fromNode == p ==> c.fromPort == 0)
  }

  ghost function ThroughP(v: Workflow, p: Id, n: Id): seq<Edge> {
    if Connection(p, 0, n) in v.connections then [Edge(p, 0)] else []
  }

  ghost function IntoP(v: Workflow, p: Id, n: Id): seq<Edge> {
    if Connection(p, 0, n) in v.connections then FanIn(v, p) else []
  }

  lemma NotSelf(v: Workflow, p: Id)
    requires Valid(v)
    ensures forall port :: Connection(p, port, p) !in v.connections
  {
    hide PortsInRange, UniqueIds, OneTrigger, TriggersHaveNoProducer;
    assert IsRank(v, RankOf(v));
    forall c | c in v.connections ensures c.fromNode != c.toNode {
      assert RankOf(v)[c.fromNode] < RankOf(v)[c.toNode];
    }
  }

  /** Edges into `n` that exist both directly and through `p`. */
  function Doubled(v: Workflow, p: Id, n: Id, edges: seq<Edge>): (r: seq<Edge>)
    ensures forall e :: e in r <==> e in edges && e.fromNode != p && Via(v, p, Connection(e.fromNode, e.fromPort, n))
    ensures NoDup(edges) ==> NoDup(r)
  {
    if edges == [] then []
    else
      var k := |edges| - 1;
      var e := edges[k];
      assert edges == edges[..k] + [e];
      assert NoDup(edges) ==> e !in edges[..k];
      Doubled(v, p, n, edges[..k])
      + if e.fromNode != p && Via(v, p, Connection(e.fromNode, e.fromPort, n)) then [e] else []
  }

  function Overlap(v: Workflow, p: Id, n: Id): seq<Edge> { Doubled(v, p, n, FanIn(v, n)) }

  lemma UnionAndIntersection<T>(d: seq<T>, i: seq<T>, union: seq<T>, both: seq<T>)
    requires NoDup(d) && NoDup(i) && NoDup(union) && NoDup(both)
    requires forall x :: x in union <==> x in d || x in i
    requires forall x :: x in both <==> x in d && x in i
    ensures multiset(d + i) == multiset(union + both)
  {
    NoDupIsMultiplicity(d);
    NoDupIsMultiplicity(i);
    NoDupIsMultiplicity(union);
    NoDupIsMultiplicity(both);
    forall x ensures multiset(d + i)[x] == multiset(union + both)[x] {
      assert x in d <==> x in multiset(d);
      assert x in i <==> x in multiset(i);
      assert x in union <==> x in multiset(union);
      assert x in both <==> x in multiset(both);
    }
  }

  lemma FanInWithDetour(w: Workflow, v: Workflow, p: Id, n: Id)
    requires Detour(w, v, p) && n != p
    ensures multiset(FanIn(v, n)) == multiset(NotFrom(FanIn(v, n), p) + ThroughP(v, p, n))
    ensures multiset(NotFrom(FanIn(v, n), p) + IntoP(v, p, n)) == multiset(FanIn(w, n) + Overlap(v, p, n))
  {
    hide Valid, FanIn, NotFrom, Doubled;
    FanInSorted(v, n);
    FanInSorted(w, n);
    FanInSorted(v, p);
    NotFromNoDup(FanIn(v, n), p);
    NotSelf(v, p);
    var direct, through, into := NotFrom(FanIn(v, n), p), ThroughP(v, p, n), IntoP(v, p, n);
    forall i, j | 0 <= i < j < |direct + through| ensures (direct + through)[i] != (direct + through)[j] {
      if j >= |direct| { assert direct[i] in direct; }
    }
    forall e ensures e in FanIn(v, n) <==> e in direct + through {
      if e.fromNode == p { assert Connection(e.fromNode, e.fromPort, n) in v.connections ==> e.fromPort == 0; }
    }
    NoDupSameMultiset(FanIn(v, n), direct + through);
    forall e ensures e in FanIn(w, n) <==> e in direct || e in into {
      WhereFrom(w, v, p, n, e);
    }
    UnionAndIntersection(direct, into, FanIn(w, n), Overlap(v, p, n));
  }

  lemma WhereFrom(w: Workflow, v: Workflow, p: Id, n: Id, e: Edge)
    requires Detour(w, v, p) && n != p
    ensures e in FanIn(w, n) <==> e in NotFrom(FanIn(v, n), p) + IntoP(v, p, n)
  {
    hide PortsInRange, Acyclic, OneTrigger, TriggersHaveNoProducer, UniqueIds, FanIn, NotFrom;
    var c := Connection(e.fromNode, e.fromPort, n);
    NotSelf(v, p);
    if e.fromNode == p {
      assert c !in w.connections;
      assert Connection(e.fromNode, e.fromPort, p) !in v.connections;
    }
  }

  // ---- The two runs ----

  ghost predicate Rerouted(jw: Job, jv: Job, p: Id, f: Behaviour) {
    && Detour(jw.wf, jv.wf, p) && Valid(jw.wf) && Valid(jv.wf)
    && jw.pinned == map[] && jv.pinned == map[] && jw.seed == jv.seed
    && PerItemJob(jw, f) && PerItemJob(jv, f)
    && forall j :: j in Payloads(Input(jv, p)) ==> f(p, j) == Some([Emit(j, 0)])
  }

  lemma ProducersOfDetour(w: Workflow, v: Workflow, p: Id, n: Id, m: Id)
    requires Detour(w, v, p) && n != p && m != p
    ensures m in Producers(w, n) <==> m in Producers(v, n) || (p in Producers(v, n) && m in Producers(v, p))
  {
    hide Valid;
    if m in Producers(w, n) {
      var c :| c in w.connections && c.toNode == n && c.fromNode == m;
      assert c in v.connections || Via(v, p, c);
    }
    if m in Producers(v, n) {
      var c :| c in v.connections && c.toNode == n && c.fromNode == m;
      assert c in w.connections;
    }
    if p in Producers(v, n) && m in Producers(v, p) {
      var c :| c in v.connections && c.toNode == n && c.fromNode == p;
      var d :| d in v.connections && d.toNode == p && d.fromNode == m;
      assert Via(v, p, Connection(m, d.fromPort, n));
      assert Connection(m, d.fromPort, n) in w.connections;
    }
  }

  lemma DetourReachable(jw: Job, jv: Job, p: Id, f: Behaviour, n: Id)
    requires Rerouted(jw, jv, p, f) && n in Ids(jw.wf)
    requires forall m :: m in Producers(jw.wf, n) ==> (Reachable(jw.wf, m) <==> Reachable(jv.wf, m))
    ensures Reachable(jw.wf, n) <==> Reachable(jv.wf, n)
  {
    hide Valid, Producers, Reachable, PerItemJob, Input;
    var w, v := jw.wf, jv.wf;
    ReachableLocally(w, n);
    ReachableLocally(v, n);
    ReachableLocally(v, p);
    ProducersAreNodes(w, n);
    SelfNotProducer(v, p);
    if m :| m in Producers(w, n) && Reachable(w, m) {
      ProducersOfDetour(w, v, p, n, m);
    }
    if m :| m in Producers(v, n) && Reachable(v, m) {
      if m == p {
        var k :| k in Producers(v, p) && Reachable(v, k);
        ProducersOfDetour(w, v, p, n, k);
      } else {
        ProducersOfDetour(w, v, p, n, m);
      }
    }
  }

  lemma SelfNotProducer(v: Workflow, p: Id)
    requires Valid(v)
    ensures p !in Producers(v, p)
  {
    hide Valid;
    NotSelf(v, p);
    forall c | c in v.connections ensures !(c.toNode == p && c.fromNode == p) {
      assert c == Connection(c.fromNode, c.fromPort, c.toNode);
    }
  }

  /** Once its producers have come to an end the node in the middle hands on exactly what it receives. */
  lemma MiddleCarries(jw: Job, jv: Job, p: Id, f: Behaviour)
    requires Rerouted(jw, jv, p, f) && Served(jv, p)
    ensures Settled(jv, p) && multiset(Arriving(jv, [Edge(p, 0)])) == multiset(Arriving(jv, FanIn(jv.wf, p)))
  {
    hide Valid, PerItemJob, Producers, FanIn, FinalOutputs, Yield, Reachable, Bag, CleanAt, Out, Served;
    var v := jv.wf;
    FanInFromNodes(v, p);
    GatherArriving(jv, FanIn(v, p));
    var edges := [Edge(p, 0)];
    assert edges[..0] == [];
    assert Arriving(jv, edges) == Arriving(jv, edges[..0]) + Carry(jv)(edges[0]);
    if Reachable(v, p) {
      assert Handles(f, p, Payloads(Input(jv, p)));
      MiddleIsClean(jv, p, f);
      CleanIsDone(jv, f, p);
      CleanEmits(jv, f, p);
      PassThroughOn(Emitter(f, p), Payloads(Input(jv, p)));
    } else {
      UnreachedYield(jv, p);
      forall e | e in FanIn(v, p) ensures Carry(jv)(e) == [] {
        if Reachable(v, e.fromNode) { ReachableLocally(v, p); }
        UnreachedYield(jv, e.fromNode);
      }
      NothingArrives(jv, FanIn(v, p));
    }
  }

  lemma MiddleIsClean(jv: Job, p: Id, f: Behaviour)
    requires Valid(jv.wf) && jv.pinned == map[] && PerItemJob(jv, f) && p in Ids(jv.wf) && Reachable(jv.wf, p)
    requires Served(jv, p) && Handles(f, p, Payloads(Input(jv, p)))
    ensures CleanAt(jv, f, p)
  {
    hide Valid, PerItemJob, Producers, Input, Handles, Reachable, CleanAt, Out;
    OutcomeAt(jv, f, p);
  }

  lemma {:induction false} NothingArrives(job: Job, edges: seq<Edge>)
    requires Valid(job.wf) && forall e :: e in edges ==> Carry(job)(e) == []
    ensures Arriving(job, edges) == []
  {
    hide Valid;
    if edges != [] { NothingArrives(job, edges[..|edges| - 1]); }
  }

  lemma {:induction false} SameBagArrives(j1: Job, j2: Job, edges: seq<Edge>)
    requires Valid(j1.wf) && Valid(j2.wf)
    requires forall e :: e in edges ==>
      e.fromNode in Ids(j1.wf) && e.fromNode in Ids(j2.wf) && Bag(j1, e.fromNode) == Bag(j2, e.fromNode)
    ensures multiset(Arriving(j1, edges)) == multiset(Arriving(j2, edges))
  {
    hide Valid, Yield;
    if edges != [] {
      var k := |edges| - 1;
      var e := edges[k];
      assert e in edges;
      SameBagArrives(j1, j2, edges[..k]);
      FlatMapPermutes(OnPortOnly(e.fromPort), Emits(Yield(j1, e.fromNode)), Emits(Yield(j2, e.fromNode)));
    }
  }

  lemma DetourInput(jw: Job, jv: Job, p: Id, f: Behaviour, n: Id)
    requires Rerouted(jw, jv, p, f) && n in Ids(jw.wf) && n != TriggerId(jw.wf)
    requires forall m :: m in Producers(jw.wf, n) ==> m in Ids(jw.wf) && Bag(jw, m) == Bag(jv, m)
    requires Connection(p, 0, n) in jv.wf.connections ==>
      multiset(Arriving(jv, [Edge(p, 0)])) == multiset(Arriving(jv, FanIn(jv.wf, p)))
    ensures multiset(Payloads(Input(jv, n))) ==
            multiset(Payloads(Input(jw, n))) + multiset(Arriving(jw, Overlap(jv.wf, p, n)))
  {
    hide Valid, Yield, FinalOutputs, PerItemJob, FanIn, Producers, NotFrom, Bag, FlatMap, Via, Overlap;
    var w, v := jw.wf, jv.wf;
    FanInFromNodes(w, n);
    FanInFromNodes(v, n);
    GatherArriving(jw, FanIn(w, n));
    GatherArriving(jv, FanIn(v, n));
    FanInWithDetour(w, v, p, n);
    var direct, through, into := NotFrom(FanIn(v, n), p), ThroughP(v, p, n), IntoP(v, p, n);
    FlatMapPermutes(Carry(jw), FanIn(w, n) + Overlap(v, p, n), direct + into);
    FlatMapPermutes(Carry(jv), FanIn(v, n), direct + through);
    FlatMapConcat(Carry(jw), FanIn(w, n), Overlap(v, p, n));
    FlatMapConcat(Carry(jw), direct, into);
    FlatMapConcat(Carry(jv), direct, through);
    forall e | e in direct + into ensures e in FanIn(w, n) {
      WhereFrom(w, v, p, n, e);
    }
    forall e | e in direct || e in into
      ensures e.fromNode in Ids(w) && e.fromNode in Ids(v) && Bag(jw, e.fromNode) == Bag(jv, e.fromNode)
    {
      assert e in direct + into;
    }
    SameBagArrives(jw, jv, direct);
    SameBagArrives(jw, jv, into);
    assert through == [] ==> into == [];
  }

  // ---- Which payloads there are: never changed by a detour ----

  /** `j` reaches a node along `edges`. */
  ghost predicate Brings(job: Job, edges: seq<Edge>, j: Json)
    requires Valid(job.wf)
  {
    exists e :: e in edges && e.fromNode in Ids(job.wf) && Emit(j, e.fromPort) in Bag(job, e.fromNode)
  }

  lemma OnPortMember(port: nat, emits: seq<Emit>, j: Json)
    ensures j in FlatMap(OnPortOnly(port), emits) <==> Emit(j, port) in emits
  {
    FlatMapMember(OnPortOnly(port), emits, j);
    if e :| e in emits && j in OnPortOnly(port)(e) { assert e == Emit(j, port); }
    if Emit(j, port) in emits { assert j in OnPortOnly(port)(Emit(j, port)); }
  }

  lemma ArrivingBrings(job: Job, edges: seq<Edge>, j: Json)
    requires Valid(job.wf)
    ensures j in Arriving(job, edges) <==> Brings(job, edges, j)
  {
    hide Valid, Yield, FlatMap;
    FlatMapMember(Carry(job), edges, j);
    forall e | e in edges
      ensures j in Carry(job)(e) <==> e.fromNode in Ids(job.wf) && Emit(j, e.fromPort) in Bag(job, e.fromNode)
    {
      if e.fromNode in Ids(job.wf) { OnPortMember(e.fromPort, Emits(Yield(job, e.fromNode)), j); }
    }
  }

  lemma ArrivesThroughFanIn(job: Job, n: Id, j: Json)
    requires Valid(job.wf) && n != TriggerId(job.wf)
    ensures j in Payloads(Input(job, n)) <==> Brings(job, FanIn(job.wf, n), j)
  {
    hide Valid, FanIn, FinalOutputs, Brings, Arriving;
    FanInFromNodes(job.wf, n);
    GatherArriving(job, FanIn(job.wf, n));
    ArrivingBrings(job, FanIn(job.wf, n), j);
  }

  /** The node comes to the same end and emits the same things, if not equally often. */
  ghost predicate SameSupport(jw: Job, jv: Job, n: Id)
    requires Valid(jw.wf) && Valid(jv.wf) && n in Ids(jw.wf) && n in Ids(jv.wf)
  {
    && (Reachable(jw.wf, n) <==> Reachable(jv.wf, n)) && SameEnd(jw, jv, n)
    && forall e :: e in Bag(jw, n) <==> e in Bag(jv, n)
  }

  lemma BringsEither(job: Job, a: seq<Edge>, b: seq<Edge>, j: Json)
    requires Valid(job.wf)
    ensures Brings(job, a + b, j) <==> Brings(job, a, j) || Brings(job, b, j)
  {
    hide Valid, Bag;
    assert forall e :: e in a + b <==> e in a || e in b;
  }

  lemma BringsSame(job: Job, a: seq<Edge>, b: seq<Edge>, j: Json)
    requires Valid(job.wf) && forall e :: e in a <==> e in b
    ensures Brings(job, a, j) <==> Brings(job, b, j)
  {
    hide Valid, Bag;
  }

  lemma BringsSupport(jw: Job, jv: Job, edges: seq<Edge>, j: Json)
    requires Valid(jw.wf) && Valid(jv.wf)
    requires forall e :: e in edges ==> e.fromNode in Ids(jw.wf) && e.fromNode in Ids(jv.wf)
                                        && forall x :: x in Bag(jw, e.fromNode) <==> x in Bag(jv, e.fromNode)
    ensures Brings(jw, edges, j) <==> Brings(jv, edges, j)
  {
    hide Valid, Bag;
  }

  lemma ThroughBrings(jv: Job, p: Id, n: Id, j: Json)
    requires Valid(jv.wf)
    requires Connection(p, 0, n) in jv.wf.connections ==>
      multiset(Arriving(jv, [Edge(p, 0)])) == multiset(Arriving(jv, FanIn(jv.wf, p)))
    ensures Brings(jv, ThroughP(jv.wf, p, n), j) <==> Brings(jv, IntoP(jv.wf, p, n), j)
  {
    hide Valid, Brings, FanIn, Arriving;
    ArrivingBrings(jv, ThroughP(jv.wf, p, n), j);
    ArrivingBrings(jv, IntoP(jv.wf, p, n), j);
    if Connection(p, 0, n) in jv.wf.connections {
      SameMultisetSameElements(Arriving(jv, [Edge(p, 0)]), Arriving(jv, FanIn(jv.wf, p)));
    }
  }

  lemma InputSupport(jw: Job, jv: Job, p: Id, f: Behaviour, n: Id, j: Json)
    requires Rerouted(jw, jv, p, f) && n in Ids(jw.wf) && n != TriggerId(jw.wf)
    requires forall m :: m in Producers(jw.wf, n) ==> m in Ids(jw.wf) && SameSupport(jw, jv, m)
    requires Connection(p, 0, n) in jv.wf.connections ==>
      multiset(Arriving(jv, [Edge(p, 0)])) == multiset(Arriving(jv, FanIn(jv.wf, p)))
    ensures j in Payloads(Input(jw, n)) <==> j in Payloads(Input(jv, n))
  {
    hide Valid, Brings, FanIn, Input, NotFrom, ThroughP, IntoP, Overlap, PerItemJob, Producers, Via, Bag, Reachable;
    var w, v := jw.wf, jv.wf;
    var direct, through, into := NotFrom(FanIn(v, n), p), ThroughP(v, p, n), IntoP(v, p, n);
    ArrivesThroughFanIn(jw, n, j);
    ArrivesThroughFanIn(jv, n, j);
    FanInWithDetour(w, v, p, n);
    SameMultisetSameElements(FanIn(v, n), direct + through);
    BringsSame(jv, FanIn(v, n), direct + through, j);
    BringsEither(jv, direct, through, j);
    ThroughBrings(jv, p, n, j);
    BringsEither(jv, direct, into, j);
    forall e ensures e in FanIn(w, n) <==> e in direct + into { WhereFrom(w, v, p, n, e); }
    BringsSame(jw, FanIn(w, n), direct + into, j);
    FanInFromNodes(w, n);
    forall e: Edge | e in direct + into ensures e.fromNode in Producers(w, n) { FanInProducer(w, n, e); }
    BringsSupport(jw, jv, direct + into, j);
  }

  lemma FanInProducer(w: Workflow, n: Id, e: Edge)
    requires e in FanIn(w, n)
    ensures e.fromNode in Producers(w, n)
  {
    hide FanIn;
    assert Connection(e.fromNode, e.fromPort, n) in w.connections;
  }

  /** The producers of `p` are producers of whatever `p` feeds. */
  lemma MiddleProducers(w: Workflow, v: Workflow, p: Id, n: Id, m: Id)
    requires Detour(w, v, p) && Connection(p, 0, n) in v.connections && m in Producers(v, p)
    ensures m in Producers(w, n)
  {
    hide Valid;
    NotSelf(v, p);
    SelfNotProducer(v, p);
    var d :| d in v.connections && d.toNode == p && d.fromNode == m;
    assert Connection(p, 0, n) in v.connections && Connection(p, 0, n).toNode == n;
    ProducersOfDetour(w, v, p, n, m);
  }

  lemma ThroughPort0(w: Workflow, v: Workflow, p: Id, n: Id)
    requires Detour(w, v, p) && p in Producers(v, n)
    ensures Connection(p, 0, n) in v.connections
  {
    hide Valid;
    var c :| c in v.connections && c.toNode == n && c.fromNode == p;
    assert c == Connection(p, 0, n);
  }

  /** If the producers come to the same ends, a node is served in both runs or in neither. */
  lemma ServedInBoth(jw: Job, jv: Job, p: Id, f: Behaviour, n: Id)
    requires Rerouted(jw, jv, p, f) && n in Ids(jw.wf)
    requires forall m :: m in Producers(jw.wf, n) ==> m in Ids(jw.wf) && SameEnd(jw, jv, m)
    ensures Served(jw, n) <==> Served(jv, n)
    ensures Served(jw, n) && Connection(p, 0, n) in jv.wf.connections ==>
      multiset(Arriving(jv, [Edge(p, 0)])) == multiset(Arriving(jv, FanIn(jv.wf, p)))
  {
    hide Valid, PerItemJob, Out, Producers, Input, Arriving, FanIn, Via;
    if Served(jw, n) {
      if Connection(p, 0, n) in jv.wf.connections {
        forall m | m in Producers(jv.wf, p) && m in Ids(jv.wf) ensures Settled(jv, m) {
          MiddleProducers(jw.wf, jv.wf, p, n, m);
        }
        MiddleCarries(jw, jv, p, f);
      }
      forall m | m in Producers(jv.wf, n) && m in Ids(jv.wf) ensures Settled(jv, m) {
        if m == p { ThroughPort0(jw.wf, jv.wf, p, n); } else { ProducersOfDetour(jw.wf, jv.wf, p, n, m); }
      }
    } else {
      var m :| m in Producers(jw.wf, n) && m in Ids(jw.wf) && !Settled(jw, m);
      ProducersOfDetour(jw.wf, jv.wf, p, n, m);
      if m !in Producers(jv.wf, n) { StuckProducer(jv, p, m); }
    }
  }

  lemma SupportStep(jw: Job, jv: Job, p: Id, f: Behaviour, n: Id)
    requires Rerouted(jw, jv, p, f) && n in Ids(jw.wf)
    requires forall m :: m in Producers(jw.wf, n) ==> m in Ids(jw.wf) && SameSupport(jw, jv, m)
    ensures SameSupport(jw, jv, n)
    ensures Served(jw, n) ==> (Handles(f, n, Payloads(Input(jw, n))) <==> Handles(f, n, Payloads(Input(jv, n))))
  {
    hide Valid, Reachable, PerItemJob, Producers, Handles, Input, Bag, FanIn, Via, Served, EndsAlike, Arriving;
    DetourReachable(jw, jv, p, f, n);
    ServedInBoth(jw, jv, p, f, n);
    if Served(jw, n) {
      SupportInput(jw, jv, p, f, n);
      AlikeEnds(jw, f, n, jv, f, n);
    } else {
      BothBlocked(jw, jv, n);
    }
  }

  lemma BothBlocked(jw: Job, jv: Job, n: Id)
    requires Valid(jw.wf) && Valid(jv.wf) && jw.pinned == map[] && jv.pinned == map[]
    requires n in Ids(jw.wf) && n in Ids(jv.wf) && !Served(jw, n) && !Served(jv, n)
    ensures SameEnd(jw, jv, n) && Bag(jw, n) == Bag(jv, n) == multiset{}
  {
    hide Valid, Out, Served, Bag;
    UnservedIsBlocked(jw, n);
    UnservedIsBlocked(jv, n);
  }

  lemma SupportInput(jw: Job, jv: Job, p: Id, f: Behaviour, n: Id)
    requires Rerouted(jw, jv, p, f) && n in Ids(jw.wf)
    requires forall m :: m in Producers(jw.wf, n) ==> m in Ids(jw.wf) && SameSupport(jw, jv, m)
    requires Connection(p, 0, n) in jv.wf.connections ==>
      multiset(Arriving(jv, [Edge(p, 0)])) == multiset(Arriving(jv, FanIn(jv.wf, p)))
    ensures forall j :: j in Payloads(Input(jw, n)) <==> j in Payloads(Input(jv, n))
  {
    hide Valid, FanIn, PerItemJob, Producers, Via, Bag, FinalOutputs, SameSupport, Arriving;
    forall j ensures j in Payloads(Input(jw, n)) <==> j in Payloads(Input(jv, n)) {
      if n != TriggerId(jw.wf) { InputSupport(jw, jv, p, f, n, j); }
    }
  }

  lemma {:induction false} SupportAt(jw: Job, jv: Job, p: Id, f: Behaviour, n: Id)
    requires Rerouted(jw, jv, p, f) && n in Ids(jw.wf)
    ensures SameSupport(jw, jv, n)
    ensures Served(jw, n) ==> (Handles(f, n, Payloads(Input(jw, n))) <==> Handles(f, n, Payloads(Input(jv, n))))
    decreases RankOf(jw.wf)[n]
  {
    hide Reachable, PerItemJob, SameSupport, Handles, Input, Producers, Via, Served;
    ProducerRanks(jw.wf, n);
    forall m | m in Producers(jw.wf, n) ensures m in Ids(jw.wf) && SameSupport(jw, jv, m) {
      SupportAt(jw, jv, p, f, m);
    }
    SupportStep(jw, jv, p, f, n);
  }

  /** The node in the middle never fails. */
  lemma MiddleNeverFails(jw: Job, jv: Job, p: Id, f: Behaviour)
    requires Rerouted(jw, jv, p, f)
    ensures p in Ids(jv.wf) && !Out(jv, p).Failed?
  {
    hide Valid, PerItemJob, Out, Input, Via, Served, Arriving, FanIn;
    if Served(jv, p) { MiddleCarries(jw, jv, p, f); } else { UnservedIsBlocked(jv, p); }
  }

  /** In every run, whatever the policies: each original node comes to the same end with and without the detour
      and emits the same things. At most how often it emits them can change. */
  lemma DetourKeepsSupport(jw: Job, jv: Job, p: Id, f: Behaviour)
    requires Rerouted(jw, jv, p, f)
    ensures forall n :: n in Ids(jw.wf) ==> n in Ids(jv.wf) && SameSupport(jw, jv, n)
    ensures (Completes(jw) <==> Completes(jv)) && (Clean(jw, f) <==> Clean(jv, f))
  {
    hide Valid, Reachable, PerItemJob, Bag, Input, Via, Producers, Clean, Out;
    forall n | n in Ids(jw.wf) ensures SameSupport(jw, jv, n) { SupportAt(jw, jv, p, f, n); }
    MiddleNeverFails(jw, jv, p, f);
    DetourKeepsClean(jw, jv, p, f);
  }

  lemma DetourKeepsClean(jw: Job, jv: Job, p: Id, f: Behaviour)
    requires Rerouted(jw, jv, p, f)
    ensures Clean(jw, f) <==> Clean(jv, f)
  {
    hide Valid, Reachable, PerItemJob, Bag, Input, Via, Producers, Clean, Out, Served;
    if Clean(jw, f) || Clean(jv, f) {
      forall n | n in Ids(jw.wf) && Reachable(jw.wf, n)
        ensures Handles(f, n, Payloads(Input(jw, n))) && Handles(f, n, Payloads(Input(jv, n)))
      {
        SupportAt(jw, jv, p, f, n);
        HandledInOne(jw, jv, p, f, n);
      }
      forall n | n in Ids(jv.wf) && Reachable(jv.wf, n) ensures Handles(f, n, Payloads(Input(jv, n))) {
        if n != p { SupportAt(jw, jv, p, f, n); }
      }
      CleanFromHandles(jw, f);
      CleanFromHandles(jv, f);
    }
  }

  lemma HandledInOne(jw: Job, jv: Job, p: Id, f: Behaviour, n: Id)
    requires Rerouted(jw, jv, p, f) && n in Ids(jw.wf) && Reachable(jw.wf, n) && Reachable(jv.wf, n)
    requires Clean(jw, f) || Clean(jv, f)
    ensures Served(jw, n)
    ensures Handles(f, n, Payloads(Input(jw, n))) || Handles(f, n, Payloads(Input(jv, n)))
  {
    hide Valid, Reachable, PerItemJob, Input, Via, Producers, Clean, Handles;
    ProducersAreNodes(jw.wf, n);
    forall m | m in Producers(jw.wf, n) ensures m in Ids(jw.wf) && SameEnd(jw, jv, m) { SupportAt(jw, jv, p, f, m); }
    ServedInBoth(jw, jv, p, f, n);
    if Clean(jw, f) {
      CleanServes(jw, f, n);
      CleanHandles(jw, f, n);
    } else {
      CleanServes(jv, f, n);
      CleanHandles(jv, f, n);
    }
  }

  // ---- How often: what exists both ways arrives once more ----

  /** The payloads that come both directly and through `p`. */
  ghost function Extra(jw: Job, v: Workflow, p: Id, n: Id): seq<Json>
    requires Valid(jw.wf)
  {
    Arriving(jw, Overlap(v, p, n))
  }

  /** What comes twice at `n`, if anything, comes to nothing. */
  ghost predicate UnnoticedAt(jw: Job, v: Workflow, p: Id, n: Id)
    requires Valid(jw.wf) && n in Ids(jw.wf)
  {
    n != TriggerId(jw.wf) ==> Extra(jw, v, p, n) == [] || Bag(jw, n) == multiset{}
  }

  ghost predicate Unnoticed(jw: Job, v: Workflow, p: Id)
    requires Valid(jw.wf)
  {
    forall n :: n in Ids(jw.wf) ==> UnnoticedAt(jw, v, p, n)
  }

  /** The same for the nodes ranked below `r`. */
  ghost predicate UnnoticedBelow(jw: Job, v: Workflow, p: Id, r: nat)
    requires Valid(jw.wf)
  {
    forall n :: n in Ids(jw.wf) && RankOf(jw.wf)[n] < r ==> UnnoticedAt(jw, v, p, n)
  }

  ghost predicate EmissionsKept(jw: Job, jv: Job)
    requires Valid(jw.wf) && Valid(jv.wf) && Ids(jw.wf) <= Ids(jv.wf)
  {
    forall n :: n in Ids(jw.wf) ==> Bag(jv, n) == Bag(jw, n)
  }

  /** A node that is served receives exactly its extra payloads on top, if its producers emit what they did. */
  lemma ExtraOnTop(jw: Job, jv: Job, p: Id, f: Behaviour, n: Id)
    requires Rerouted(jw, jv, p, f) && n in Ids(jw.wf) && n != TriggerId(jw.wf) && Served(jw, n)
    requires forall m :: m in Producers(jw.wf, n) ==> m in Ids(jw.wf) && Bag(jw, m) == Bag(jv, m)
    ensures Served(jv, n)
    ensures multiset(Payloads(Input(jv, n))) == multiset(Payloads(Input(jw, n))) + multiset(Extra(jw, jv.wf, p, n))
  {
    hide Valid, Reachable, PerItemJob, Bag, Input, Via, Overlap, Producers, FanIn, Arriving, Served;
    forall m | m in Producers(jw.wf, n) ensures SameEnd(jw, jv, m) { SupportAt(jw, jv, p, f, m); }
    ServedInBoth(jw, jv, p, f, n);
    DetourInput(jw, jv, p, f, n);
  }

  lemma ExtraArrives(jw: Job, jv: Job, p: Id, f: Behaviour, n: Id)
    requires Rerouted(jw, jv, p, f) && n in Ids(jw.wf) && n != TriggerId(jw.wf) && Served(jw, n)
    requires UnnoticedBelow(jw, jv.wf, p, RankOf(jw.wf)[n])
    ensures Served(jv, n)
    ensures multiset(Payloads(Input(jv, n))) == multiset(Payloads(Input(jw, n))) + multiset(Extra(jw, jv.wf, p, n))
    decreases RankOf(jw.wf)[n], 0
  {
    hide Reachable, PerItemJob, Bag, Input, Via, Overlap, Producers, FanIn, Arriving, UnnoticedAt, Served;
    ProducerRanks(jw.wf, n);
    forall m | m in Producers(jw.wf, n) ensures m in Ids(jw.wf) && Bag(jw, m) == Bag(jv, m) {
      BagBelow(jw, jv, p, f, m);
    }
    ExtraOnTop(jw, jv, p, f, n);
  }

  lemma BagBelow(jw: Job, jv: Job, p: Id, f: Behaviour, n: Id)
    requires Rerouted(jw, jv, p, f) && n in Ids(jw.wf)
    requires UnnoticedBelow(jw, jv.wf, p, RankOf(jw.wf)[n] + 1)
    ensures Bag(jw, n) == Bag(jv, n)
    decreases RankOf(jw.wf)[n], 1
  {
    hide Reachable, PerItemJob, Bag, Input, Via, Overlap, Producers, FanIn, Arriving, Served, EndsAlike, Extra;
    SupportAt(jw, jv, p, f, n);
    assert UnnoticedAt(jw, jv.wf, p, n);
    if Bag(jw, n) == multiset{} {
      assert Bag(jv, n) == multiset{} by { NothingIn(Bag(jv, n)); }
    } else if Served(jw, n) {
      if n == TriggerId(jw.wf) {
        SameTriggerInput(jw, jv, p, f);
      } else {
        ExtraArrives(jw, jv, p, f, n);
      }
      AlikeBags(jw, f, n, jv, f, n);
    } else {
      UnservedIsBlocked(jw, n);
    }
  }

  lemma NothingIn<T>(a: multiset<T>)
    ensures (forall x :: x !in a) ==> a == multiset{}
  {}

  lemma SameTriggerInput(jw: Job, jv: Job, p: Id, f: Behaviour)
    requires Rerouted(jw, jv, p, f)
    ensures var t := TriggerId(jw.wf); Served(jw, t) && Served(jv, t) && Input(jw, t) == Input(jv, t)
  {
    hide Valid, PerItemJob, FanIn, FinalOutputs, Out, Via;
    TriggerHasNoEdges(jw.wf);
    TriggerHasNoEdges(jv.wf);
  }

  /** Whatever a node handles comes to something. */
  ghost predicate Productive(f: Behaviour) {
    forall n, j :: f(n, j).Some? ==> f(n, j).value != []
  }

  lemma {:induction false} ProductiveEmits(f: Behaviour, n: Id, ps: seq<Json>)
    requires Productive(f) && Handles(f, n, ps)
    ensures FlatMap(Emitter(f, n), ps) == [] ==> ps == []
  {
    if ps != [] { assert ps[|ps| - 1] in ps; }
  }

  /** If all emissions are kept, a node that emits something received nothing extra. */
  lemma KeptIsUnnoticed(jw: Job, jv: Job, p: Id, f: Behaviour, n: Id)
    requires Rerouted(jw, jv, p, f) && Productive(f) && n in Ids(jw.wf) && n != TriggerId(jw.wf)
    requires Ids(jw.wf) <= Ids(jv.wf) && EmissionsKept(jw, jv) && Bag(jw, n) != multiset{}
    ensures Extra(jw, jv.wf, p, n) == []
  {
    hide Valid, Reachable, PerItemJob, Input, Via, Producers, FlatMap, Handles, Extra, Bag, Served;
    if !Served(jw, n) { UnservedIsBlocked(jw, n); }
    ProducersAreNodes(jw.wf, n);
    ExtraOnTop(jw, jv, p, f, n);
    var pw, pv, extra := Payloads(Input(jw, n)), Payloads(Input(jv, n)), Extra(jw, jv.wf, p, n);
    ServedBag(jw, f, n);
    ServedBag(jv, f, n);
    HandlesSplits(f, n, pv, pw, extra);
    FlatMapAdds(Emitter(f, n), pv, pw, extra);
    SameSum(multiset(FlatMap(Emitter(f, n), pw)), FlatMap(Emitter(f, n), extra));
    ProductiveEmits(f, n, extra);
  }

  lemma SameSum<T>(a: multiset<T>, more: seq<T>)
    requires a == a + multiset(more)
    ensures more == []
  {
    assert |a + multiset(more)| == |a| + |multiset(more)|;
    assert |multiset(more)| == |more|;
  }

  /** Exactly when a detour changes no emission, in any run: wherever something comes both ways, it comes to
      nothing. */
  lemma DetourIsExact(jw: Job, jv: Job, p: Id, f: Behaviour)
    requires Rerouted(jw, jv, p, f)
    ensures Unnoticed(jw, jv.wf, p) ==> EmissionsKept(jw, jv)
    ensures Productive(f) ==> (EmissionsKept(jw, jv) <==> Unnoticed(jw, jv.wf, p))
  {
    hide Valid, Input, Extra, Bag, Productive, PerItemJob, Via, UnnoticedAt;
    if Unnoticed(jw, jv.wf, p) {
      forall n | n in Ids(jw.wf) ensures Bag(jv, n) == Bag(jw, n) { BagBelow(jw, jv, p, f, n); }
    }
    if Productive(f) && EmissionsKept(jw, jv) {
      forall n | n in Ids(jw.wf) ensures UnnoticedAt(jw, jv.wf, p, n) { KeptAt(jw, jv, p, f, n); }
    }
  }

  lemma KeptAt(jw: Job, jv: Job, p: Id, f: Behaviour, n: Id)
    requires Rerouted(jw, jv, p, f) && Productive(f) && n in Ids(jw.wf)
    requires Ids(jw.wf) <= Ids(jv.wf) && EmissionsKept(jw, jv)
    ensures UnnoticedAt(jw, jv.wf, p, n)
  {
    hide Valid, Input, Extra, Bag, Productive, PerItemJob, Via, EmissionsKept;
    if n != TriggerId(jw.wf) && Bag(jw, n) != multiset{} { KeptIsUnnoticed(jw, jv, p, f, n); }
  }

  // ---- The same for inputs ----

  /** Nothing comes both ways to a node that is served. */
  ghost predicate Quiet(jw: Job, v: Workflow, p: Id)
    requires Valid(jw.wf)
  {
    forall n :: n in Ids(jw.wf) && n != TriggerId(jw.wf) && Served(jw, n) ==> Extra(jw, v, p, n) == []
  }

  /** The nodes that are served receive what they did. */
  ghost predicate InputsKept(jw: Job, jv: Job)
    requires Valid(jw.wf) && Valid(jv.wf)
  {
    forall n :: n in Ids(jw.wf) && Served(jw, n) ==> multiset(Payloads(Input(jv, n))) == multiset(Payloads(Input(jw, n)))
  }

  lemma QuietIsUnnoticed(jw: Job, v: Workflow, p: Id)
    requires Valid(jw.wf) && jw.pinned == map[] && Quiet(jw, v, p)
    ensures Unnoticed(jw, v, p)
  {
    hide Valid, Extra, Bag, Served;
    forall n | n in Ids(jw.wf) ensures UnnoticedAt(jw, v, p, n) {
      if !Served(jw, n) { UnservedIsBlocked(jw, n); }
    }
  }

  lemma KeptInputKeepsBag(jw: Job, jv: Job, p: Id, f: Behaviour, n: Id)
    requires Rerouted(jw, jv, p, f) && InputsKept(jw, jv) && n in Ids(jw.wf)
    ensures Bag(jw, n) == Bag(jv, n)
  {
    hide Valid, Reachable, PerItemJob, Input, Via, Producers, Bag, Served, Out;
    SupportAt(jw, jv, p, f, n);
    ProducersAreNodes(jw.wf, n);
    forall m | m in Producers(jw.wf, n) ensures SameEnd(jw, jv, m) { SupportAt(jw, jv, p, f, m); }
    ServedInBoth(jw, jv, p, f, n);
    if Served(jw, n) { AlikeBags(jw, f, n, jv, f, n); } else { BothBlocked(jw, jv, n); }
  }

  /** Exactly when a detour changes no input of a node that is served. */
  lemma InputsAreExact(jw: Job, jv: Job, p: Id, f: Behaviour)
    requires Rerouted(jw, jv, p, f)
    ensures InputsKept(jw, jv) <==> Quiet(jw, jv.wf, p)
  {
    hide Valid, Input, Extra, Bag, PerItemJob, Via, Served, Producers;
    if Quiet(jw, jv.wf, p) {
      QuietIsUnnoticed(jw, jv.wf, p);
      DetourIsExact(jw, jv, p, f);
    }
    if InputsKept(jw, jv) {
      forall n | n in Ids(jw.wf) ensures Bag(jv, n) == Bag(jw, n) { KeptInputKeepsBag(jw, jv, p, f, n); }
    }
    if InputsKept(jw, jv) || Quiet(jw, jv.wf, p) {
      SameTriggerInput(jw, jv, p, f);
      forall n | n in Ids(jw.wf) && n != TriggerId(jw.wf) && Served(jw, n)
        ensures multiset(Payloads(Input(jv, n))) == multiset(Payloads(Input(jw, n))) + multiset(Extra(jw, jv.wf, p, n))
        ensures InputsKept(jw, jv) ==> Extra(jw, jv.wf, p, n) == []
      {
        ProducersAreNodes(jw.wf, n);
        ExtraOnTop(jw, jv, p, f, n);
        if InputsKept(jw, jv) { SameSum(multiset(Payloads(Input(jw, n))), Extra(jw, jv.wf, p, n)); }
      }
    }
  }

  /** With no edge both ways a detour is invisible, in every run. */
  lemma DetourIsInvisible(jw: Job, jv: Job, p: Id, f: Behaviour)
    requires Rerouted(jw, jv, p, f)
    requires forall n :: n in Ids(jw.wf) ==> Overlap(jv.wf, p, n) == []
    ensures (Completes(jw) <==> Completes(jv)) && (Clean(jw, f) <==> Clean(jv, f))
    ensures forall n :: n in Ids(jw.wf) ==> n in Ids(jv.wf) && SameEnd(jw, jv, n) && Bag(jw, n) == Bag(jv, n)
  {
    hide Valid, PerItemJob, Input, Bag, Via, Overlap, Clean, Out;
    DetourKeepsSupport(jw, jv, p, f);
    NothingArrives(jw, []);
    DetourIsExact(jw, jv, p, f);
  }
}

/** The two pass-through operators of the search: when they change nothing, and by how much otherwise. */
module PassthroughMeaning {
  import opened Wrappers
  import opened Sorting
  import opened Workflows
  import opened Items
  import opened Semantics
  import opened Bags
  import opened PerItem
  import opened Additivity
  import opened Operators
  import opened Detours
  import opened Executors
  import opened CanonicalForms
  import opened Filtering

  predicate Repeated(w: Workflow, i: nat)
    requires i < |w.connections|
  {
    exists j :: 0 <= j < |w.connections| && j != i && w.connections[j] == w.connections[i]
  }

  // ---- Inserting ----

  lemma InsertedConnections(w: Workflow, i: nat, id: Id, x: Connection)
    requires i < |w.connections|
    ensures var c := w.connections[i];
            x in Inserted(w, i, id).connections <==>
              || (x in w.connections && (x != c || Repeated(w, i)))
              || x == Connection(c.fromNode, c.fromPort, id) || x == Connection(id, 0, c.toNode)
  {
    var c := w.connections[i];
    var enter, leave := Connection(c.fromNode, c.fromPort, id), Connection(id, 0, c.toNode);
    var updated := w.connections[i := enter];
    assert updated[i] == enter;
    if x in w.connections && x != c {
      var j :| 0 <= j < |w.connections| && w.connections[j] == x;
      assert updated[j] == x;
    }
    if x == c && Repeated(w, i) {
      var j :| 0 <= j < |w.connections| && j != i && w.connections[j] == c;
      assert updated[j] == x;
    }
    if x in updated && x != enter {
      var j :| 0 <= j < |updated| && updated[j] == x;
      assert w.connections[j] == x;
    }
  }

  lemma InsertedNodes(w: Workflow, i: nat, id: Id)
    requires Valid(w) && i < |w.connections| && id !in Ids(w)
    ensures var v := Inserted(w, i, id);
            && Ids(v) == Ids(w) + {id} && UniqueIds(v) && OneTrigger(v)
            && (forall n :: n in Ids(w) ==> NodeOf(v, n) == NodeOf(w, n))
            && NodeOf(v, id) == EmptyTransform(id)
  {
    hide Acyclic, PortsInRange, NoDangling, TriggersHaveNoProducer;
    var v := Inserted(w, i, id);
    var added := EmptyTransform(id);
    assert v.nodes == w.nodes + [added];
    forall a, b | 0 <= a < b < |v.nodes| ensures v.nodes[a].id != v.nodes[b].id {
      if b == |w.nodes| { assert w.nodes[a].id in Ids(w); }
    }
    NodeOfSelf(v, added);
    forall n | n in Ids(w) ensures NodeOf(v, n) == NodeOf(w, n) { NodeOfSelf(v, NodeOf(w, n)); }
    var t :| t in w.nodes && t.kind.IsTrigger();
    assert t in v.nodes;
    forall a, b | 0 <= a < b < |v.nodes| ensures !(v.nodes[a].kind.IsTrigger() && v.nodes[b].kind.IsTrigger()) {
      if b < |w.nodes| { assert v.nodes[a] == w.nodes[a] && v.nodes[b] == w.nodes[b]; }
    }
  }

  /** Inserting on any connection of a valid workflow gives a valid workflow. */
  lemma InsertedValid(w: Workflow, i: nat, id: Id)
    requires Valid(w) && i < |w.connections| && id !in Ids(w)
    ensures Valid(Inserted(w, i, id)) && TriggerId(Inserted(w, i, id)) == TriggerId(w)
  {
    hide Acyclic, OneTrigger, UniqueIds, Inserted, Repeated;
    var v, c := Inserted(w, i, id), w.connections[i];
    InsertedNodes(w, i, id);
    InsertedRank(w, i, id);
    assert c in w.connections;
    forall x | x in v.connections
      ensures x.fromNode in Ids(v) && x.toNode in Ids(v)
      ensures var count := NodeOf(v, x.fromNode).kind.PortCount(); count.Some? ==> x.fromPort < count.value
    {
      InsertedConnections(w, i, id, x);
    }
    forall x, n | x in v.connections && n in v.nodes && n.id == x.toNode ensures !n.kind.IsTrigger() {
      InsertedConnections(w, i, id, x);
      NodeOfSelf(v, n);
      if x.toNode != id { assert NodeOf(w, n.id) in w.nodes; }
    }
    InsertedKeeps(w, i, id);
    assert NoDangling(v) && PortsInRange(v) && TriggersHaveNoProducer(v);
    SameTrigger(w, v);
  }

  lemma InsertedKeeps(w: Workflow, i: nat, id: Id)
    requires i < |w.connections|
    ensures Inserted(w, i, id).schemaVersion == w.schemaVersion
  {}

  lemma SameTrigger(w: Workflow, v: Workflow)
    requires Valid(w) && Valid(v) && TriggerId(w) in Ids(v) && NodeOf(v, TriggerId(w)) == NodeOf(w, TriggerId(w))
    ensures TriggerId(v) == TriggerId(w)
  {
    hide Acyclic, PortsInRange, NoDangling, TriggersHaveNoProducer;
    NodeOfSelf(w, FindTrigger(w.nodes).value);
    TriggerIsUnique(v, NodeOf(v, TriggerId(w)));
  }

  lemma InsertedRank(w: Workflow, i: nat, id: Id)
    requires Valid(w) && i < |w.connections| && id !in Ids(w)
    ensures Acyclic(Inserted(w, i, id))
  {
    hide UniqueIds, OneTrigger, PortsInRange, TriggersHaveNoProducer, Inserted, Repeated;
    var v, c, r := Inserted(w, i, id), w.connections[i], RankOf(w);
    InsertedNodes(w, i, id);
    assert c in w.connections;
    var rank := map n | n in Ids(v) :: if n in Ids(w) then 2 * r[n] else 2 * r[c.fromNode] + 1;
    forall x | x in v.connections && x.fromNode in rank && x.toNode in rank ensures rank[x.fromNode] < rank[x.toNode] {
      InsertedConnections(w, i, id, x);
    }
    assert IsRank(v, rank);
  }

  lemma InsertIsDetour(w: Workflow, i: nat, id: Id)
    requires Valid(w) && i < |w.connections| && id !in Ids(w)
    ensures var c := w.connections[i];
            var v := Inserted(w, i, id);
            && Detour(w, v, id)
            && (forall n :: n != c.toNode ==> Overlap(v, id, n) == [])
            && Overlap(v, id, c.toNode) == if Repeated(w, i) then [Edge(c.fromNode, c.fromPort)] else []
  {
    hide Valid, Inserted, Repeated, Overlap, FanIn;
    var v, c := Inserted(w, i, id), w.connections[i];
    InsertedValid(w, i, id);
    InsertedNodes(w, i, id);
    forall x: Connection | x.fromNode != id && x.toNode != id
      ensures x in w.connections <==> x in v.connections || Via(v, id, x)
      ensures Via(v, id, x) <==> x == c
    {
      InsertVia(w, i, id, x);
    }
    assert c in w.connections;
    InsertedFresh(w, i, id, c);
    forall x | x in v.connections && x.fromNode == id ensures x.fromPort == 0 {
      InsertedConnections(w, i, id, x);
      if x in w.connections { InsertedFresh(w, i, id, x); }
    }
    forall n | n != c.toNode ensures Overlap(v, id, n) == [] { InsertOverlap(w, i, id, n); }
    InsertOverlap(w, i, id, c.toNode);
  }

  lemma InsertedFresh(w: Workflow, i: nat, id: Id, x: Connection)
    requires Valid(w) && i < |w.connections| && id !in Ids(w) && x in w.connections
    ensures x.fromNode != id && x.toNode != id && w.connections[i].fromNode != id && w.connections[i].toNode != id
  {
    hide Acyclic, UniqueIds, OneTrigger, PortsInRange, TriggersHaveNoProducer;
    assert w.connections[i] in w.connections;
  }

  lemma InsertVia(w: Workflow, i: nat, id: Id, x: Connection)
    requires Valid(w) && i < |w.connections| && id !in Ids(w) && x.fromNode != id && x.toNode != id
    ensures var v := Inserted(w, i, id);
            && (Via(v, id, x) <==> x == w.connections[i])
            && (x in w.connections <==> x in v.connections || Via(v, id, x))
  {
    hide Valid, Inserted, Repeated;
    var v, c := Inserted(w, i, id), w.connections[i];
    var enter, leave := Connection(x.fromNode, x.fromPort, id), Connection(id, 0, x.toNode);
    InsertedConnections(w, i, id, x);
    InsertedConnections(w, i, id, enter);
    InsertedConnections(w, i, id, leave);
    assert c in w.connections;
    InsertedFresh(w, i, id, c);
    if enter in w.connections { InsertedFresh(w, i, id, enter); }
    if leave in w.connections { InsertedFresh(w, i, id, leave); }
  }

  lemma InsertOverlap(w: Workflow, i: nat, id: Id, n: Id)
    requires Valid(w) && i < |w.connections| && id !in Ids(w)
    ensures var c := w.connections[i];
            Overlap(Inserted(w, i, id), id, n) ==
            if n == c.toNode && Repeated(w, i) then [Edge(c.fromNode, c.fromPort)] else []
  {
    hide Valid, Inserted, Repeated, Via, Doubled, FanIn;
    var v, c := Inserted(w, i, id), w.connections[i];
    var overlap := Overlap(v, id, n);
    var expected := if n == c.toNode && Repeated(w, i) then [Edge(c.fromNode, c.fromPort)] else [];
    FanInSorted(v, n);
    assert c in w.connections;
    InsertedFresh(w, i, id, c);
    forall e ensures e in overlap <==> e in expected {
      var x := Connection(e.fromNode, e.fromPort, n);
      InsertedConnections(w, i, id, x);
      if e.fromNode != id {
        if n != id { InsertVia(w, i, id, x); } else { NothingVia(w, i, id, x); }
      }
    }
    SameSingleton(overlap, expected);
  }

  lemma NothingVia(w: Workflow, i: nat, id: Id, x: Connection)
    requires Valid(w) && i < |w.connections| && id !in Ids(w) && x.toNode == id
    ensures !Via(Inserted(w, i, id), id, x)
  {
    hide Valid, Inserted, Repeated;
    InsertedValid(w, i, id);
    NotSelf(Inserted(w, i, id), id);
  }

  lemma SameSingleton<T>(a: seq<T>, b: seq<T>)
    requires NoDup(a) && |b| <= 1 && forall x :: x in a <==> x in b
    ensures a == b
  {
    NoDupSameMultiset(a, b);
    assert |multiset(a)| == |a| && |multiset(b)| == |b|;
    if |a| > 0 { assert a[0] in b; }
  }

  /** Two runs, before and after inserting on connection `i`. */
  ghost predicate InsertRuns(jw: Job, jv: Job, i: nat, id: Id, f: Behaviour) {
    && Valid(jw.wf) && i < |jw.wf.connections| && id !in Ids(jw.wf) && jv.wf == Inserted(jw.wf, i, id)
    && jw.pinned == map[] && jv.pinned == map[] && jw.seed == jv.seed
    && PerItemJob(jw, f) && PerItemJob(jv, f)
    && forall j :: f(id, j) == Some([Emit(j, 0)])
  }

  lemma InsertRerouted(jw: Job, jv: Job, i: nat, id: Id, f: Behaviour)
    requires InsertRuns(jw, jv, i, id, f)
    ensures Rerouted(jw, jv, id, f)
  {
    hide Inserted, PerItemJob, Repeated, Overlap, Via, Input;
    InsertIsDetour(jw.wf, i, id);
  }

  /** Inserting on a connection that is not repeated is a no-op for every original node, in every run. */
  lemma InsertIsNoOp(jw: Job, jv: Job, i: nat, id: Id, f: Behaviour)
    requires InsertRuns(jw, jv, i, id, f) && !Repeated(jw.wf, i)
    ensures Valid(jv.wf) && (Completes(jw) <==> Completes(jv)) && (Clean(jw, f) <==> Clean(jv, f))
    ensures forall n :: n in Ids(jw.wf) ==> n in Ids(jv.wf) && SameEnd(jw, jv, n) && Bag(jw, n) == Bag(jv, n)
  {
    hide Workflows.Valid, Inserted, PerItemJob, Repeated, Overlap, Clean, Bag, Rerouted, Completes, SameEnd;
    InsertedValid(jw.wf, i, id);
    InsertRerouted(jw, jv, i, id, f);
    InsertIsDetour(jw.wf, i, id);
    DetourIsInvisible(jw, jv, id, f);
  }

  /** Inserting on a repeated connection, which the engine collapses, delivers its items twice: the target, if it
      is served, receives what the connection carries once more. */
  lemma InsertOnRepeated(jw: Job, jv: Job, i: nat, id: Id, f: Behaviour)
    requires InsertRuns(jw, jv, i, id, f) && Repeated(jw.wf, i) && Served(jw, jw.wf.connections[i].toNode)
    ensures var c := jw.wf.connections[i];
            && Valid(jv.wf) && Served(jv, c.toNode)
            && multiset(Payloads(Input(jv, c.toNode))) ==
               multiset(Payloads(Input(jw, c.toNode))) + multiset(Arriving(jw, [Edge(c.fromNode, c.fromPort)]))
  {
    hide Workflows.Valid, Inserted, PerItemJob, Repeated, Overlap, Bag, Rerouted, Input, Arriving, Served;
    var c := jw.wf.connections[i];
    InsertedValid(jw.wf, i, id);
    InsertRerouted(jw, jv, i, id, f);
    InsertIsDetour(jw.wf, i, id);
    TargetIsNode(jw.wf, c);
    NothingExtra(jw, jv.wf, id);
    ExtraArrives(jw, jv, id, f, c.toNode);
  }

  lemma NothingExtra(jw: Job, v: Workflow, id: Id)
    requires Workflows.Valid(jw.wf)
    ensures forall m :: Overlap(v, id, m) == [] ==> Extra(jw, v, id, m) == []
  {
    hide Workflows.Valid, Overlap;
  }

  /** In every run inserting lets each node come to the same end and emit the same things. And exactly when it
      changes nothing: the connection is not repeated, or it carries nothing, or its target emits nothing. */
  lemma InsertIsExact(jw: Job, jv: Job, i: nat, id: Id, f: Behaviour)
    requires InsertRuns(jw, jv, i, id, f) && Productive(f)
    ensures Valid(jv.wf) && Ids(jw.wf) <= Ids(jv.wf)
    ensures (Completes(jw) <==> Completes(jv)) && (Clean(jw, f) <==> Clean(jv, f))
    ensures forall n :: n in Ids(jw.wf) ==> SameEnd(jw, jv, n) && forall e :: e in Bag(jv, n) <==> e in Bag(jw, n)
    ensures var c := jw.wf.connections[i];
            c.toNode in Ids(jw.wf) &&
            (EmissionsKept(jw, jv) <==>
               !Repeated(jw.wf, i) || Arriving(jw, [Edge(c.fromNode, c.fromPort)]) == [] || Bag(jw, c.toNode) == multiset{})
  {
    hide Workflows.Valid, Inserted, PerItemJob, Repeated, Overlap, Clean, Bag, Rerouted, Input, Arriving, Productive,
         Completes, SameEnd, Unnoticed;
    var c := jw.wf.connections[i];
    InsertedValid(jw.wf, i, id);
    InsertedNodes(jw.wf, i, id);
    InsertRerouted(jw, jv, i, id, f);
    InsertIsDetour(jw.wf, i, id);
    TargetIsNode(jw.wf, c);
    DetourKeepsSupport(jw, jv, id, f);
    DetourIsExact(jw, jv, id, f);
    ExtraAtTarget(jw, jv.wf, i, id);
  }

  lemma ExtraAtTarget(jw: Job, v: Workflow, i: nat, id: Id)
    requires Workflows.Valid(jw.wf) && i < |jw.wf.connections| && jw.wf.connections[i].toNode in Ids(jw.wf)
    requires var c := jw.wf.connections[i];
             && (forall n :: n != c.toNode ==> Overlap(v, id, n) == [])
             && Overlap(v, id, c.toNode) == if Repeated(jw.wf, i) then [Edge(c.fromNode, c.fromPort)] else []
    ensures var c := jw.wf.connections[i];
            Unnoticed(jw, v, id) <==>
              !Repeated(jw.wf, i) || Arriving(jw, [Edge(c.fromNode, c.fromPort)]) == [] || Bag(jw, c.toNode) == multiset{}
  {
    hide Workflows.Valid, Overlap, Repeated, Arriving, Bag;
    var c := jw.wf.connections[i];
    NothingExtra(jw, v, id);
    TargetIsNode(jw.wf, c);
    assert Unnoticed(jw, v, id) ==> UnnoticedAt(jw, v, id, c.toNode);
  }

  lemma TargetIsNode(w: Workflow, c: Connection)
    requires Valid(w) && c in w.connections
    ensures c.toNode in Ids(w) && c.toNode != TriggerId(w)
  {
    hide Acyclic, UniqueIds, PortsInRange;
    var t := FindTrigger(w.nodes).value;
    assert t.id == c.toNode ==> !t.kind.IsTrigger();
  }

  /** For the pure executors the run after inserting is such a run: the new node passes every item through. */
  lemma PureInserted(lib: Library, jw: Job, jv: Job, i: nat, id: Id)
    requires Valid(jw.wf) && i < |jw.wf.connections| && id !in Ids(jw.wf) && jv.wf == Inserted(jw.wf, i, id)
    requires jw.pinned == map[] && jv.pinned == map[] && jw.seed == jv.seed
    requires PureOracle(lib, jw) && PureOracle(lib, jv)
    ensures InsertRuns(jw, jv, i, id, BehaviourOf(lib, jv.wf))
  {
    hide Workflows.Valid, Inserted, PureOracle, PerItemJob, NodeBehaviour, Ids, NodeOf;
    InsertedValid(jw.wf, i, id);
    InsertedNodes(jw.wf, i, id);
    PureIsPerItem(lib, jw);
    PureIsPerItem(lib, jv);
    SameBehaviourPerItem(jw, BehaviourOf(lib, jw.wf), BehaviourOf(lib, jv.wf));
    forall j ensures NodeBehaviour(lib, EmptyTransform(id), j) == Some([Emit(j, 0)]) {
      EmptyPassthroughMeaning(lib, EmptyTransform(id), j);
    }
  }

  // ---- Removing ----

  /** What an empty `set` does: written out as `{}` it accepts object items only, left out it accepts all. */
  lemma EmptyPassthroughMeaning(lib: Library, node: Node, item: Json)
    requires node.kind.Transform? && IsEmptyPassthrough(node)
    ensures NodeBehaviour(lib, node, item) ==
            if Field(node.params, "set").None? || item.JObj? then Some([Emit(item, 0)]) else None
  {
    var set_ := Field(node.params, "set");
    if set_.Some? && item.JObj? {
      assert Merged(lib, map[], item).Some?;
      assert Merged(lib, map[], item).value.fields == item.fields;
    }
  }

  lemma RemovedNodes(v: Workflow, p: Id)
    requires Valid(v) && p in Ids(v) && !NodeOf(v, p).kind.IsTrigger()
    ensures var w := Removed(v, p);
            && p !in Ids(w) && Ids(v) == Ids(w) + {p} && UniqueIds(w) && OneTrigger(w)
            && (forall n :: n in Ids(w) ==> NodeOf(w, n) == NodeOf(v, n))
  {
    hide Acyclic, PortsInRange, NoDangling, TriggersHaveNoProducer;
    var w := Removed(v, p);
    forall a: nat, b: nat | a < b < |w.nodes|
      ensures w.nodes[a].id != w.nodes[b].id && !(w.nodes[a].kind.IsTrigger() && w.nodes[b].kind.IsTrigger())
    {
      var i, j := KeepsOrder(OtherThan(p), v.nodes, a, b);
    }
    forall n | n in Ids(w) ensures NodeOf(w, n) == NodeOf(v, n) { NodeOfSelf(v, NodeOf(w, n)); }
    var t :| t in v.nodes && t.kind.IsTrigger();
    NodeOfSelf(v, t);
    assert t in w.nodes;
    forall n | n in Ids(v) && n != p ensures n in Ids(w) { assert NodeOf(v, n) in w.nodes; }
  }

  lemma RemovedConnections(v: Workflow, p: Id, x: Connection)
    requires Valid(v) && p in Ids(v) && NodeOf(v, p).kind.Transform?
    ensures x in Removed(v, p).connections <==>
            x.fromNode != p && x.toNode != p && (x in v.connections || Via(v, p, x))
  {
    hide Acyclic, UniqueIds, OneTrigger, NoDangling, TriggersHaveNoProducer;
    NotSelf(v, p);
    var into, outOf := Into(v.connections, p), OutOf(v.connections, p);
    var enter, leave := Connection(x.fromNode, x.fromPort, p), Connection(p, 0, x.toNode);
    if x in Bypasses(into, outOf) {
      var a, b :| a in into && b in outOf && x == Connection(a.fromNode, a.fromPort, b.toNode);
      assert a == enter && b == leave;
      assert a.fromNode != p by { assert a == Connection(a.fromNode, a.fromPort, p); }
      assert b.toNode != p by { assert b == Connection(p, b.fromPort, b.toNode); }
    }
    if Via(v, p, x) {
      assert enter in into && leave in outOf && x == Connection(enter.fromNode, enter.fromPort, leave.toNode);
    }
  }

  lemma RemovedRank(v: Workflow, p: Id)
    requires Valid(v) && p in Ids(v) && NodeOf(v, p).kind.Transform?
    ensures Acyclic(Removed(v, p))
  {
    hide UniqueIds, OneTrigger, PortsInRange, TriggersHaveNoProducer, Removed;
    var w, r := Removed(v, p), RankOf(v);
    RemovedNodes(v, p);
    forall x | x in w.connections && x.fromNode in r && x.toNode in r ensures r[x.fromNode] < r[x.toNode] {
      RemovedConnections(v, p, x);
      if Via(v, p, x) {
        assert r[x.fromNode] < r[p];
        assert r[p] < r[x.toNode];
      }
    }
    assert IsRank(w, r);
  }

  /** Removing a pass-through node of a valid workflow gives a valid workflow. */
  lemma RemovedValid(v: Workflow, p: Id)
    requires Valid(v) && p in Ids(v) && NodeOf(v, p).kind.Transform?
    ensures Valid(Removed(v, p)) && TriggerId(Removed(v, p)) == TriggerId(v)
  {
    hide Acyclic, OneTrigger, UniqueIds, Removed;
    var w := Removed(v, p);
    RemovedNodes(v, p);
    RemovedRank(v, p);
    RemovedKeeps(v, p);
    forall x | x in w.connections
      ensures x.fromNode in Ids(w) && x.toNode in Ids(w)
      ensures var count := NodeOf(w, x.fromNode).kind.PortCount(); count.Some? ==> x.fromPort < count.value
    {
      RemovedConnections(v, p, x);
    }
    forall x, n | x in w.connections && n in w.nodes && n.id == x.toNode ensures !n.kind.IsTrigger() {
      RemovedConnections(v, p, x);
      NodeOfSelf(w, n);
      assert NodeOf(v, n.id) in v.nodes;
    }
    assert NoDangling(w) && PortsInRange(w) && TriggersHaveNoProducer(w);
    TriggerSurvives(v, p);
    SameTrigger(v, w);
  }

  lemma RemovedKeeps(v: Workflow, p: Id)
    ensures Removed(v, p).schemaVersion == v.schemaVersion
  {}

  lemma TriggerSurvives(v: Workflow, p: Id)
    requires Valid(v) && p in Ids(v) && !NodeOf(v, p).kind.IsTrigger()
    ensures TriggerId(v) in Ids(Removed(v, p))
  {
    hide Acyclic, PortsInRange, NoDangling, TriggersHaveNoProducer, Removed;
    RemovedNodes(v, p);
    NodeOfSelf(v, FindTrigger(v.nodes).value);
  }

  lemma RemoveIsDetour(v: Workflow, p: Id)
    requires Valid(v) && p in Ids(v) && NodeOf(v, p).kind.Transform?
    ensures Detour(Removed(v, p), v, p)
  {
    hide UniqueIds, Acyclic, OneTrigger, TriggersHaveNoProducer, Removed, Via;
    RemovedValid(v, p);
    RemovedNodes(v, p);
    forall x: Connection | x.fromNode != p && x.toNode != p
      ensures x in Removed(v, p).connections <==> x in v.connections || Via(v, p, x)
    {
      RemovedConnections(v, p, x);
    }
    forall c | c in v.connections && c.fromNode == p ensures c.fromPort == 0 {}
  }

  /** Two runs, before (`jv`) and after (`jw`) removing `p`, where `p` passes on what it receives. */
  ghost predicate RemoveRuns(jw: Job, jv: Job, p: Id, f: Behaviour) {
    && Valid(jv.wf) && p in Ids(jv.wf) && NodeOf(jv.wf, p).kind.Transform? && jw.wf == Removed(jv.wf, p)
    && jw.pinned == map[] && jv.pinned == map[] && jw.seed == jv.seed
    && PerItemJob(jw, f) && PerItemJob(jv, f)
    && forall j :: j in Payloads(Input(jv, p)) ==> f(p, j) == Some([Emit(j, 0)])
  }

  /** No connection that removing `p` would add is there already. */
  predicate NoBypass(v: Workflow, p: Id) {
    forall c :: c in v.connections && c.fromNode != p ==> !Via(v, p, c)
  }

  /** Removing a pass-through node around which nothing flows is a no-op for every other node, in every run. */
  lemma RemoveIsNoOp(jw: Job, jv: Job, p: Id, f: Behaviour)
    requires RemoveRuns(jw, jv, p, f) && NoBypass(jv.wf, p)
    ensures Valid(jw.wf) && (Completes(jw) <==> Completes(jv)) && (Clean(jw, f) <==> Clean(jv, f))
    ensures forall n :: n in Ids(jw.wf) ==> n in Ids(jv.wf) && SameEnd(jw, jv, n) && Bag(jw, n) == Bag(jv, n)
  {
    hide Workflows.Valid, Removed, PerItemJob, Clean, Bag, Via, Input, Overlap, Completes, SameEnd;
    RemovedValid(jv.wf, p);
    RemoveIsDetour(jv.wf, p);
    forall n ensures Overlap(jv.wf, p, n) == [] { NoBypassNoOverlap(jv.wf, p, n); }
    DetourIsInvisible(jw, jv, p, f);
  }

  lemma NoBypassNoOverlap(v: Workflow, p: Id, n: Id)
    requires NoBypass(v, p)
    ensures Overlap(v, p, n) == []
  {
    hide Via, FanIn, Doubled;
    FanInSorted(v, n);
    NonemptyHasMember(Overlap(v, p, n));
    forall e ensures e !in Overlap(v, p, n) {
      assert Connection(e.fromNode, e.fromPort, n) in v.connections ==>
        e.fromNode == p || !Via(v, p, Connection(e.fromNode, e.fromPort, n));
    }
  }

  /** Where a bypass exists already, removing collapses it with the new connection. In every run each other node
      still comes to the same end and emits the same things. And exactly when removing changes nothing: wherever
      something came both ways, it came to nothing. */
  lemma RemoveIsExact(jw: Job, jv: Job, p: Id, f: Behaviour)
    requires RemoveRuns(jw, jv, p, f) && Productive(f)
    ensures Valid(jw.wf) && Ids(jw.wf) <= Ids(jv.wf)
    ensures (Completes(jw) <==> Completes(jv)) && (Clean(jw, f) <==> Clean(jv, f))
    ensures forall n :: n in Ids(jw.wf) ==> SameEnd(jw, jv, n) && forall e :: e in Bag(jv, n) <==> e in Bag(jw, n)
    ensures EmissionsKept(jw, jv) <==> Unnoticed(jw, jv.wf, p)
  {
    hide Workflows.Valid, Removed, PerItemJob, Clean, Bag, Via, Input, Extra, Productive, Completes, SameEnd, Unnoticed;
    RemovedValid(jv.wf, p);
    RemovedNodes(jv.wf, p);
    RemoveIsDetour(jv.wf, p);
    DetourKeepsSupport(jw, jv, p, f);
    DetourIsExact(jw, jv, p, f);
  }

  /** A consumer that is served, above which nothing that came both ways was noticed, loses exactly one copy of
      what came both ways to it. */
  lemma RemoveWithBypass(jw: Job, jv: Job, p: Id, f: Behaviour, n: Id)
    requires RemoveRuns(jw, jv, p, f) && Valid(jw.wf) && n in Ids(jw.wf) && n != TriggerId(jw.wf) && Served(jw, n)
    requires UnnoticedBelow(jw, jv.wf, p, RankOf(jw.wf)[n])
    ensures Served(jv, n) && multiset(Payloads(Input(jv, n))) ==
            multiset(Payloads(Input(jw, n))) + multiset(Extra(jw, jv.wf, p, n))
  {
    hide Workflows.Valid, Removed, PerItemJob, Bag, Via, Input, Extra, UnnoticedBelow, Served;
    RemoveIsDetour(jv.wf, p);
    ExtraArrives(jw, jv, p, f, n);
  }

  /** Whatever a pure executor accepts it passes on in some form. */
  lemma PureIsProductive(lib: Library, w: Workflow)
    ensures Productive(BehaviourOf(lib, w))
  {
    hide ParseBranch, ParseSwitch, ParseLoop, ParseSet, Merged, Holds, RouteTo;
    forall n, j | BehaviourOf(lib, w)(n, j).Some? ensures BehaviourOf(lib, w)(n, j).value != [] {
      assert NodeBehaviour(lib, NodeOf(w, n), j).Some?;
    }
  }

  /** For the pure executors: every candidate the operator makes is such a run, provided that a node whose
      `set` is written out as `{}` receives only objects. */
  lemma PureRemoved(lib: Library, jw: Job, jv: Job, frozen: set<Id>, node: Node)
    requires Valid(jv.wf) && node in jv.wf.nodes && Removable(jv.wf, frozen, node) && jw.wf == Removed(jv.wf, node.id)
    requires jw.pinned == map[] && jv.pinned == map[] && jw.seed == jv.seed
    requires PureOracle(lib, jw) && PureOracle(lib, jv)
    requires Field(node.params, "set").None? || forall j :: j in Payloads(Input(jv, node.id)) ==> j.JObj?
    ensures RemoveRuns(jw, jv, node.id, BehaviourOf(lib, jv.wf))
  {
    hide Workflows.Valid, Removed, PureOracle, PerItemJob, NodeBehaviour, Ids, NodeOf, Input, IsEmptyPassthrough, Field;
    TransformInPlace(jv.wf, node);
    RemovedValid(jv.wf, node.id);
    RemovedNodes(jv.wf, node.id);
    PureIsPerItem(lib, jw);
    PureIsPerItem(lib, jv);
    forall n, j | n in Ids(jw.wf) ensures BehaviourOf(lib, jw.wf)(n, j) == BehaviourOf(lib, jv.wf)(n, j) {
      assert n in Ids(jv.wf);
    }
    SameBehaviourPerItem(jw, BehaviourOf(lib, jw.wf), BehaviourOf(lib, jv.wf));
    forall j | j in Payloads(Input(jv, node.id)) ensures BehaviourOf(lib, jv.wf)(node.id, j) == Some([Emit(j, 0)]) {
      EmptyPassthroughMeaning(lib, node, j);
    }
  }

  lemma TransformInPlace(w: Workflow, node: Node)
    requires Valid(w) && node in w.nodes
    ensures node.id in Ids(w) && NodeOf(w, node.id) == node
  {
    NodeOfSelf(w, node);
  }

  // ---- Removing what was inserted ----

  /** Removing the node just inserted gives back the same nodes and the same connections, the rerouted one
      now last; so the search recognises the workflow as the one it came from. */
  lemma RemoveUndoesInsert(show: Node -> string, w: Workflow, i: nat, id: Id)
    requires Valid(w) && i < |w.connections| && id !in Ids(w)
    ensures var back := Removed(Inserted(w, i, id), id);
            && back.nodes == w.nodes
            && back.connections == w.connections[..i] + w.connections[i + 1..] + [w.connections[i]]
            && Canonical(show, back) == Canonical(show, w)
  {
    hide Acyclic, UniqueIds, OneTrigger, PortsInRange, TriggersHaveNoProducer, Canonical;
    hide Into, OutOf, Untouched, Bypasses, Without, Keep, IsRank;
    var c, v := w.connections[i], Inserted(w, i, id);
    var before, after := w.connections[..i], w.connections[i + 1..];
    RestoredNodes(w.nodes, id);
    RestoredConnections(w.connections, i, id);
    assert w.connections == before + [c] + after;
    CanonicalOrderFree(show, Removed(v, id), w);
  }

  lemma RestoredNodes(nodes: seq<Node>, id: Id)
    requires forall n :: n in nodes ==> n.id != id
    ensures Without(nodes + [EmptyTransform(id)], id) == nodes
  {
    hide Keep;
    var other := OtherThan(id);
    KeepAll(other, nodes);
    KeepConcat(other, nodes, [EmptyTransform(id)]);
    KeepOne(other, EmptyTransform(id));
  }

  lemma RestoredConnections(s: seq<Connection>, i: nat, id: Id)
    requires i < |s| && forall c :: c in s ==> c.fromNode != id && c.toNode != id
    ensures var enter, leave := Connection(s[i].fromNode, s[i].fromPort, id), Connection(id, 0, s[i].toNode);
            var t := s[i := enter] + [leave];
            Untouched(t, id) + Bypasses(Into(t, id), OutOf(t, id)) == s[..i] + s[i + 1..] + [s[i]]
  {
    hide Keep, Bypasses;
    var c := s[i];
    assert c in s;
    var enter, leave := Connection(c.fromNode, c.fromPort, id), Connection(id, 0, c.toNode);
    var before, after := s[..i], s[i + 1..];
    assert s[i := enter] + [leave] == before + [enter] + after + [leave];
    KeepAll(Passing(id), before);
    KeepAll(Passing(id), after);
    KeepAround(Passing(id), before, enter, after, leave);
    KeepNone(Entering(id), before);
    KeepNone(Entering(id), after);
    KeepAround(Entering(id), before, enter, after, leave);
    KeepNone(Leaving(id), before);
    KeepNone(Leaving(id), after);
    KeepAround(Leaving(id), before, enter, after, leave);
    var t := s[i := enter] + [leave];
    assert Into(t, id) == [enter] && OutOf(t, id) == [leave];
    assert Untouched(t, id) == before + after;
    OneBypass(enter, leave);
    assert c == Connection(c.fromNode, c.fromPort, c.toNode);
  }

  lemma OneBypass(p: Connection, s: Connection)
    ensures Bypasses([p], [s]) == [Connection(p.fromNode, p.fromPort, s.toNode)]
  {
    assert [p][..0] == [];
  }
}
