/** Mapping each element of a list to a list, and what that means for multisets. */
module Bags {
  function FlatMap<A, B>(g: A -> seq<B>, s: seq<A>): seq<B> {
    if s == [] then [] else FlatMap(g, s[..|s| - 1]) + g(s[|s| - 1])
  }

  lemma FlatMapNothing<A, B>(g: A -> seq<B>)
    ensures FlatMap(g, []) == []
  {}

  lemma FlatMapLast<A, B>(g: A -> seq<B>, s: seq<A>, x: A)
    ensures FlatMap(g, s + [x]) == FlatMap(g, s) + g(x)
  {
    assert (s + [x])[..|s + [x]| - 1] == s;
  }

  lemma {:induction false} FlatMapMember<A(!new), B>(g: A -> seq<B>, s: seq<A>, y: B)
    ensures y in FlatMap(g, s) <==> exists x :: x in s && y in g(x)
  {
    hide FlatMap;
    if s == [] {
      FlatMapNothing(g);
    } else {
      var front, last := s[..|s| - 1], s[|s| - 1];
      assert s == front + [last];
      FlatMapMember(g, front, y);
      FlatMapLast(g, front, last);
      if y in g(last) { assert last in s; }
      if x :| x in front && y in g(x) { assert x in s; }
    }
  }

  lemma {:induction false} FlatMapSame<A, B>(g: A -> seq<B>, h: A -> seq<B>, s: seq<A>)
    requires forall x :: x in s ==> g(x) == h(x)
    ensures FlatMap(g, s) == FlatMap(h, s)
  {
    if s != [] {
      FlatMapSame(g, h, s[..|s| - 1]);
    }
  }

  lemma {:induction false} FlatMapConcat<A, B>(g: A -> seq<B>, a: seq<A>, b: seq<A>)
    ensures FlatMap(g, a + b) == FlatMap(g, a) + FlatMap(g, b)
  {
    if b == [] {
      assert a + b == a;
    } else {
      var k := |b| - 1;
      FlatMapConcat(g, a, b[..k]);
      assert (a + b)[..|a + b| - 1] == a + b[..k];
    }
  }

  lemma FlatMapMiddle<A, B>(g: A -> seq<B>, p: seq<A>, x: A, q: seq<A>)
    ensures FlatMap(g, p + [x] + q) == FlatMap(g, p) + g(x) + FlatMap(g, q)
  {
    FlatMapConcat(g, p + [x], q);
    assert (p + [x])[..|p|] == p;
  }

  lemma FlatMapRemove<A, B>(g: A -> seq<B>, s: seq<A>, i: nat)
    requires i < |s|
    ensures multiset(s[..i] + s[i + 1..]) == multiset(s) - multiset{s[i]}
    ensures multiset(FlatMap(g, s)) == multiset(FlatMap(g, s[..i] + s[i + 1..])) + multiset(g(s[i]))
  {
    hide FlatMap;
    var p, x, q := s[..i], s[i], s[i + 1..];
    assert s == p + [x] + q;
    FlatMapMiddle(g, p, x, q);
    FlatMapConcat(g, p, q);
  }

  /** The multiset of results depends on the multiset of arguments alone. */
  lemma {:induction false} FlatMapPermutes<A, B>(g: A -> seq<B>, a: seq<A>, b: seq<A>)
    requires multiset(a) == multiset(b)
    ensures multiset(FlatMap(g, a)) == multiset(FlatMap(g, b))
  {
    assert |multiset(a)| == |a| && |multiset(b)| == |b|;
    if a != [] {
      var k := |a| - 1;
      assert a[k] in multiset(b);
      var i :| 0 <= i < |b| && b[i] == a[k];
      FlatMapRemove(g, a, k);
      FlatMapRemove(g, b, i);
      FlatMapPermutes(g, a[..k] + a[k + 1..], b[..i] + b[i + 1..]);
    }
  }

  lemma FlatMapAdds<A, B>(g: A -> seq<B>, c: seq<A>, a: seq<A>, b: seq<A>)
    requires multiset(c) == multiset(a) + multiset(b)
    ensures multiset(FlatMap(g, c)) == multiset(FlatMap(g, a)) + multiset(FlatMap(g, b))
  {
    assert multiset(a + b) == multiset(a) + multiset(b);
    FlatMapPermutes(g, c, a + b);
    FlatMapConcat(g, a, b);
  }

  /** Everything in `a`, `k` times. */
  ghost predicate Times<T(!new)>(c: multiset<T>, k: nat, a: multiset<T>) {
    forall x :: c[x] == k * a[x]
  }

  lemma NothingTimes<T(!new)>(k: nat)
    ensures Times<T>(multiset{}, k, multiset{})
  {}

  lemma TimesAdds<T(!new)>(c: multiset<T>, a: multiset<T>, d: multiset<T>, b: multiset<T>, k: nat)
    requires Times(c, k, a) && Times(d, k, b)
    ensures Times(c + d, k, a + b)
  {
    forall x ensures (c + d)[x] == k * (a + b)[x] {
      assert c[x] + d[x] == k * a[x] + k * b[x] == k * (a[x] + b[x]);
    }
  }

  lemma TimesOnceMore<T(!new)>(c: multiset<T>, a: multiset<T>, k: nat)
    requires k > 0 && Times(c, k - 1, a)
    ensures Times(c + a, k, a)
  {
    forall x ensures (c + a)[x] == k * a[x] {
      assert c[x] == (k - 1) * a[x];
    }
  }

  lemma TimesZero<T(!new)>(a: multiset<T>)
    ensures Times(multiset{}, 0, a)
  {}

  lemma FlatMapScales<A(!new), B(!new)>(g: A -> seq<B>, c: seq<A>, a: seq<A>, k: nat)
    requires Times(multiset(c), k, multiset(a))
    ensures Times(multiset(FlatMap(g, c)), k, multiset(FlatMap(g, a)))
  {
    var r := Copies(a, k);
    CopiesTimes(a, k);
    forall x ensures multiset(c)[x] == multiset(r)[x] {}
    assert multiset(c) == multiset(r);
    FlatMapPermutes(g, c, r);
    CopiesScale(g, a, k);
  }

  function Copies<A>(a: seq<A>, k: nat): seq<A> {
    if k == 0 then [] else Copies(a, k - 1) + a
  }

  lemma {:induction false} CopiesTimes<A(!new)>(a: seq<A>, k: nat)
    ensures Times(multiset(Copies(a, k)), k, multiset(a))
  {
    hide Times;
    if k > 0 {
      CopiesTimes(a, k - 1);
      TimesOnceMore(multiset(Copies(a, k - 1)), multiset(a), k);
    } else {
      TimesZero(multiset(a));
    }
  }

  lemma {:induction false} CopiesScale<A, B(!new)>(g: A -> seq<B>, a: seq<A>, k: nat)
    ensures Times(multiset(FlatMap(g, Copies(a, k))), k, multiset(FlatMap(g, a)))
  {
    hide FlatMap, Times;
    if k == 0 {
      FlatMapNothing(g);
      TimesZero(multiset(FlatMap(g, a)));
    } else {
      CopiesScale(g, a, k - 1);
      FlatMapConcat(g, Copies(a, k - 1), a);
      TimesOnceMore(multiset(FlatMap(g, Copies(a, k - 1))), multiset(FlatMap(g, a)), k);
    }
  }
}

/** Runs whose nodes treat each item on its own, seen as multisets of (payload, port). */
module PerItem {
  import opened Wrappers
  import opened Sorting
  import opened Workflows
  import opened Items
  import opened Semantics
  import opened Bags

  datatype Emit = Emit(json: Json, port: nat)

  /** What a node makes of one payload: emissions, or a failure. */
  type Behaviour = (Id, Json) -> Option<seq<Emit>>

  function Emits(items: seq<Item>): (r: seq<Emit>)
    ensures |r| == |items|
  {
    if items == [] then []
    else Emits(items[..|items| - 1]) + [Emit(items[|items| - 1].json, items[|items| - 1].port)]
  }

  function Payloads(items: seq<Item>): (r: seq<Json>)
    ensures |r| == |items|
  {
    if items == [] then []
    else Payloads(items[..|items| - 1]) + [items[|items| - 1].json]
  }

  function Emitter(f: Behaviour, n: Id): Json -> seq<Emit> {
    (j: Json) => if f(n, j).Some? then f(n, j).value else []
  }

  function OnPortOnly(port: nat): Emit -> seq<Json> {
    (e: Emit) => if e.port == port then [e.json] else []
  }

  ghost predicate Handles(f: Behaviour, n: Id, payloads: seq<Json>) {
    forall j :: j in payloads ==> f(n, j).Some?
  }

  /** A reply succeeds exactly when every item does, and then it is the items' emissions in order. */
  ghost predicate RepliesPerItem(f: Behaviour, n: Id, input: seq<Item>, reply: Reply) {
    && (reply.Ok? <==> Handles(f, n, Payloads(input)))
    && (reply.Ok? ==> Emits(reply.value) == FlatMap(Emitter(f, n), Payloads(input)))
  }

  /** Every executor in the workflow behaves per item, at every attempt. A non-trigger node is never
      invoked without input, so nothing is asked of it there. */
  ghost predicate PerItemJob(job: Job, f: Behaviour) {
    forall node: Node, k: nat, input: seq<Item> {:trigger job.oracle(node, job.mode, k, input)} ::
      node in job.wf.nodes && (if node.kind.IsTrigger() then forall x :: x in input ==> x.port == 0 else input != [])
      ==> RepliesPerItem(f, node.id, input, job.oracle(node, job.mode, k, input))
  }

  // ---- Lists of items and lists of emissions ----

  lemma StampKeepsEmits(n: Id, items: seq<Item>)
    ensures Emits(Stamp(n, items)) == Emits(items)
  {
    SameEmits(Stamp(n, items), items);
  }

  lemma SameEmits(a: seq<Item>, b: seq<Item>)
    requires |a| == |b| && forall i :: 0 <= i < |a| ==> a[i].json == b[i].json && a[i].port == b[i].port
    ensures Emits(a) == Emits(b)
  {}

  lemma {:induction false} PayloadsOnPort(items: seq<Item>, port: nat)
    ensures Payloads(OnPort(items, port)) == FlatMap(OnPortOnly(port), Emits(items))
  {
    if items != [] {
      var k := |items| - 1;
      PayloadsOnPort(items[..k], port);
      var es := Emits(items);
      assert es[..k] == Emits(items[..k]);
      if items[k].port == port {
        var kept := OnPort(items, port);
        assert kept[..|kept| - 1] == OnPort(items[..k], port);
      }
    }
  }

  lemma {:induction false} PayloadsConcat(a: seq<Item>, b: seq<Item>)
    ensures Payloads(a + b) == Payloads(a) + Payloads(b)
  {
    if b == [] {
      assert a + b == a;
    } else {
      PayloadsConcat(a, b[..|b| - 1]);
      assert (a + b)[..|a + b| - 1] == a + b[..|b| - 1];
    }
  }

  lemma {:induction false} PayloadsOfRoots(seed: seq<Json>)
    ensures Payloads(Roots(seed)) == seed
  {
    if seed != [] {
      var k := |seed| - 1;
      PayloadsOfRoots(seed[..k]);
      assert Roots(seed)[..k] == Roots(seed[..k]);
      assert seed == seed[..k] + [seed[k]];
    }
  }

  /** Emitting each payload once on port 0 and then reading port 0 changes nothing. */
  lemma {:induction false} PassThroughOn(g: Json -> seq<Emit>, s: seq<Json>)
    requires forall j :: j in s ==> g(j) == [Emit(j, 0)]
    ensures FlatMap(OnPortOnly(0), FlatMap(g, s)) == s
  {
    hide FlatMap;
    if s == [] {
      FlatMapNothing(g);
      FlatMapNothing(OnPortOnly(0));
    } else {
      var front, j := s[..|s| - 1], s[|s| - 1];
      assert j in s && s == front + [j];
      PassThroughOn(g, front);
      FlatMapLast(g, front, j);
      FlatMapLast(OnPortOnly(0), FlatMap(g, front), Emit(j, 0));
    }
  }

  // ---- Clean runs ----

  /** The items a node ends with; none if it has no outcome. */
  ghost function Yield(job: Job, n: Id): seq<Item>
    requires Valid(job.wf) && n in Ids(job.wf)
  {
    if Out(job, n).Done? then Out(job, n).items else []
  }

  ghost function Input(job: Job, n: Id): seq<Item>
    requires Valid(job.wf)
  {
    InputOf(job, n, FinalOutputs(job))
  }

  /** Every payload that arrives anywhere can be handled. */
  ghost predicate Clean(job: Job, f: Behaviour)
    requires Valid(job.wf)
  {
    forall n :: n in Ids(job.wf) && Reachable(job.wf, n) ==> Handles(f, n, Payloads(Input(job, n)))
  }

  /** The node handled what it received, and emitted what its behaviour makes of it. */
  ghost predicate CleanAt(job: Job, f: Behaviour, n: Id)
    requires Valid(job.wf) && n in Ids(job.wf)
  {
    && Out(job, n).Done?
    && Handles(f, n, Payloads(Input(job, n)))
    && Emits(Out(job, n).items) == FlatMap(Emitter(f, n), Payloads(Input(job, n)))
  }

  lemma DeliveredInput(job: Job, n: Id)
    requires Valid(job.wf) && job.pinned == map[] && n in Ids(job.wf) && Reachable(job.wf, n)
    requires forall p :: p in Producers(job.wf, n) && p in Ids(job.wf) ==> Out(job, p).Done? || Out(job, p).Absent?
    ensures Out(job, n) == Deliver(job, n, Input(job, n))
  {
    hide Valid, Out, Reachable, InputOf, Deliver;
    ProducersAreNodes(job.wf, n);
    forall p | p in Producers(job.wf, n)
      ensures if p in FinalOutputs(job) then Out(job, p) == Done(FinalOutputs(job)[p]) else Out(job, p) == Absent
    {
      assert p in Ids(job.wf);
    }
    InputFromOutputs(job, n, FinalOutputs(job));
  }

  /** A node whose producers have outcomes is clean if its input can be handled. If not it fails, and its
      error policy decides whether the run fails with it or goes on without its emissions. */
  lemma OutcomeAt(job: Job, f: Behaviour, n: Id)
    requires Valid(job.wf) && job.pinned == map[] && PerItemJob(job, f)
    requires n in Ids(job.wf) && Reachable(job.wf, n)
    requires forall p :: p in Producers(job.wf, n) && p in Ids(job.wf) ==> Out(job, p).Done? || Out(job, p).Absent?
    ensures Handles(f, n, Payloads(Input(job, n))) ==> CleanAt(job, f, n)
    ensures !Handles(f, n, Payloads(Input(job, n))) ==>
      if NodeOf(job.wf, n).onError == Some(Continue) then Out(job, n) == Done([]) else Out(job, n).Failed?
  {
    hide Valid, Out, Reachable, Input, PerItemJob, Starved, TryFrom;
    DeliveredInput(job, n);
    var input := Input(job, n);
    StarvedMeans(job.wf, n, input);
    if !Starved(job.wf, n, input) {
      ReplyAtAttempt(job, f, n, input, 1);
      var reply := TryFrom(job, NodeOf(job.wf, n), input, 1);
      if reply.Ok? { StampKeepsEmits(n, reply.value); }
    }
  }

  lemma CleanStep(job: Job, f: Behaviour, n: Id)
    requires Valid(job.wf) && job.pinned == map[] && PerItemJob(job, f)
    requires n in Ids(job.wf) && Reachable(job.wf, n)
    requires forall p :: p in Producers(job.wf, n) && p in Ids(job.wf) ==> Out(job, p).Done? || Out(job, p).Absent?
    requires Handles(f, n, Payloads(Input(job, n)))
    ensures CleanAt(job, f, n)
  {
    hide Valid, Out, Reachable, Input, PerItemJob, Handles, CleanAt;
    OutcomeAt(job, f, n);
  }

  /** In a clean run every reached node is clean. */
  lemma {:induction false} CleanEverywhere(job: Job, f: Behaviour, n: Id)
    requires Valid(job.wf) && job.pinned == map[] && PerItemJob(job, f) && Clean(job, f)
    requires n in Ids(job.wf)
    ensures Reachable(job.wf, n) ==> CleanAt(job, f, n)
    ensures Out(job, n).Done? || Out(job, n).Absent?
    decreases RankOf(job.wf)[n]
  {
    hide Out, Reachable, Input, PerItemJob, Handles, Producers;
    OutSettled(job, n);
    if Reachable(job.wf, n) {
      ProducerRanks(job.wf, n);
      forall p | p in Producers(job.wf, n) && p in Ids(job.wf) ensures Out(job, p).Done? || Out(job, p).Absent? {
        CleanEverywhere(job, f, p);
      }
      CleanStep(job, f, n);
    }
  }

  lemma ProducerRanks(w: Workflow, n: Id)
    requires Valid(w) && n in Ids(w)
    ensures forall p :: p in Producers(w, n) ==> p in Ids(w) && RankOf(w)[p] < RankOf(w)[n]
  {}

  lemma HandlesNothing(f: Behaviour, n: Id)
    ensures Handles(f, n, [])
  {}

  lemma SameBehaviourPerItem(job: Job, f: Behaviour, g: Behaviour)
    requires PerItemJob(job, f) && forall n, j :: n in Ids(job.wf) ==> f(n, j) == g(n, j)
    ensures PerItemJob(job, g)
  {
    forall node: Node, k: nat, input: seq<Item> |
      node in job.wf.nodes && (if node.kind.IsTrigger() then forall x :: x in input ==> x.port == 0 else input != [])
      ensures RepliesPerItem(g, node.id, input, job.oracle(node, job.mode, k, input))
    {
      assert node.id in Ids(job.wf);
      FlatMapSame(Emitter(f, node.id), Emitter(g, node.id), Payloads(input));
    }
  }

  lemma StarvedMeans(w: Workflow, n: Id, input: seq<Item>)
    ensures Starved(w, n, input) <==> input == [] && FanIn(w, n) != []
  {}

  /** Every attempt meets the same input, so all succeed or none does. */
  lemma {:induction false} ReplyAtAttempt(job: Job, f: Behaviour, n: Id, input: seq<Item>, k: nat)
    requires Valid(job.wf) && PerItemJob(job, f) && n in Ids(job.wf) && Reachable(job.wf, n)
    requires input == Input(job, n) && !Starved(job.wf, n, input)
    requires 1 <= k <= MaxAttempts(job.mode, NodeOf(job.wf, n))
    ensures RepliesPerItem(f, n, input, TryFrom(job, NodeOf(job.wf, n), input, k))
    decreases MaxAttempts(job.mode, NodeOf(job.wf, n)) - k
  {
    hide Valid, Out, Reachable, FinalOutputs, FanIn, Gather, RepliesPerItem;
    var node := NodeOf(job.wf, n);
    if node.kind.IsTrigger() {
      TriggerInput(job, node);
    } else {
      assert input != [] by { NonTriggerHasProducer(job.wf, node); }
    }
    var reply := job.oracle(node, job.mode, k, input);
    assert RepliesPerItem(f, node.id, input, reply);
    if !reply.Ok? && k < MaxAttempts(job.mode, node) { ReplyAtAttempt(job, f, n, input, k + 1); }
  }

  lemma TriggerInput(job: Job, node: Node)
    requires Valid(job.wf) && node in job.wf.nodes && node.kind.IsTrigger()
    ensures Input(job, node.id) == Roots(job.seed)
    ensures forall x :: x in Input(job, node.id) ==> x.port == 0
  {
    hide FinalOutputs, Valid;
    TriggerIsUnique(job.wf, node);
  }

  /** A reachable node other than the trigger has a producer, so it is skipped when nothing arrives. */
  lemma NonTriggerHasProducer(w: Workflow, node: Node)
    requires Valid(w) && node in w.nodes && !node.kind.IsTrigger() && Reachable(w, node.id)
    ensures FanIn(w, node.id) != []
  {
    hide FanIn, Acyclic, PortsInRange;
    TriggerNodeIsTrigger(w, node);
    var p := ReachesPred(w, TriggerId(w), node.id);
    var c :| c in w.connections && c.fromNode == p && c.toNode == node.id;
    assert Edge(c.fromNode, c.fromPort) in FanIn(w, node.id);
  }

  lemma TriggerNodeIsTrigger(w: Workflow, node: Node)
    requires Valid(w) && node in w.nodes
    ensures node.id == TriggerId(w) ==> node.kind.IsTrigger()
  {
    NodeOfSelf(w, node);
    NodeOfSelf(w, FindTrigger(w.nodes).value);
  }

  // ---- Inputs as multisets ----

  /** What one edge carries: the payloads its producer emitted on its port. */
  ghost function Carry(job: Job): Edge -> seq<Json>
    requires Valid(job.wf)
  {
    (e: Edge) => if e.fromNode in Ids(job.wf) then FlatMap(OnPortOnly(e.fromPort), Emits(Yield(job, e.fromNode))) else []
  }

  /** The payloads that reach a node along `edges`, told by the emissions of the producers. */
  ghost function Arriving(job: Job, edges: seq<Edge>): seq<Json>
    requires Valid(job.wf)
  {
    FlatMap(Carry(job), edges)
  }

  lemma {:induction false} GatherArriving(job: Job, edges: seq<Edge>)
    requires Valid(job.wf) && forall e :: e in edges ==> e.fromNode in Ids(job.wf)
    ensures Payloads(Gather(edges, FinalOutputs(job))) == Arriving(job, edges)
  {
    hide Valid, Out;
    if edges != [] {
      var k := |edges| - 1;
      var e := edges[k];
      assert edges == edges[..k] + [e];
      GatherArriving(job, edges[..k]);
      PayloadsConcat(Gather(edges[..k], FinalOutputs(job)), Emitted(FinalOutputs(job), e));
      PayloadsOnPort(Yield(job, e.fromNode), e.fromPort);
    }
  }

  lemma FanInFromNodes(w: Workflow, n: Id)
    requires Valid(w)
    ensures forall e :: e in FanIn(w, n) ==> e.fromNode in Ids(w) && e.fromNode in Producers(w, n)
  {
    forall e | e in FanIn(w, n) ensures e.fromNode in Ids(w) && e.fromNode in Producers(w, n) {
      assert Connection(e.fromNode, e.fromPort, n) in w.connections;
    }
  }
}

/** The engine invariants: a run over more input is the sum of the runs over its parts, whatever the
    order of the input, at every node of the workflow. */
module Additivity {
  import opened Wrappers
  import opened Workflows
  import opened Items
  import opened Semantics
  import opened Sorting
  import opened Filtering
  import opened Bags
  import opened PerItem

  /** What a node emits, as a multiset of (payload, port). */
  ghost function Bag(job: Job, n: Id): multiset<Emit>
    requires Valid(job.wf) && n in Ids(job.wf)
  {
    multiset(Emits(Yield(job, n)))
  }

  /** Three fresh runs of one workflow; the third has the inputs of the first two together. */
  ghost predicate Split(jx: Job, jy: Job, jxy: Job, f: Behaviour) {
    && Valid(jx.wf) && jx.pinned == map[]
    && jy == jx.(seed := jy.seed) && jxy == jx.(seed := jxy.seed)
    && multiset(jxy.seed) == multiset(jx.seed) + multiset(jy.seed)
    && PerItemJob(jx, f) && PerItemJob(jy, f) && PerItemJob(jxy, f)
  }

  lemma {:induction false} ArrivingAdds(jx: Job, jy: Job, jxy: Job, edges: seq<Edge>)
    requires Valid(jx.wf) && jy.wf == jx.wf && jxy.wf == jx.wf
    requires forall e :: e in edges ==>
      e.fromNode in Ids(jx.wf) && Bag(jxy, e.fromNode) == Bag(jx, e.fromNode) + Bag(jy, e.fromNode)
    ensures multiset(Arriving(jxy, edges)) == multiset(Arriving(jx, edges)) + multiset(Arriving(jy, edges))
  {
    hide Valid, Yield;
    if edges != [] {
      var k := |edges| - 1;
      var e := edges[k];
      assert edges == edges[..k] + [e];
      ArrivingAdds(jx, jy, jxy, edges[..k]);
      var g := OnPortOnly(e.fromPort);
      FlatMapAdds(g, Emits(Yield(jxy, e.fromNode)), Emits(Yield(jx, e.fromNode)), Emits(Yield(jy, e.fromNode)));
    }
  }

  lemma InputAdds(jx: Job, jy: Job, jxy: Job, f: Behaviour, n: Id)
    requires Split(jx, jy, jxy, f) && n in Ids(jx.wf)
    requires forall p :: p in Producers(jx.wf, n) && p in Ids(jx.wf) ==> Bag(jxy, p) == Bag(jx, p) + Bag(jy, p)
    ensures multiset(Payloads(Input(jxy, n))) == multiset(Payloads(Input(jx, n))) + multiset(Payloads(Input(jy, n)))
  {
    hide Valid, Yield, FinalOutputs, PerItemJob, Bag, FanIn;
    if n == TriggerId(jx.wf) {
      PayloadsOfRoots(jx.seed);
      PayloadsOfRoots(jy.seed);
      PayloadsOfRoots(jxy.seed);
    } else {
      var edges := FanIn(jx.wf, n);
      FanInFromNodes(jx.wf, n);
      GatherArriving(jx, edges);
      GatherArriving(jy, edges);
      GatherArriving(jxy, edges);
      ArrivingAdds(jx, jy, jxy, edges);
    }
  }

  lemma HandlesSplits(f: Behaviour, n: Id, c: seq<Json>, a: seq<Json>, b: seq<Json>)
    requires multiset(c) == multiset(a) + multiset(b)
    ensures Handles(f, n, c) <==> Handles(f, n, a) && Handles(f, n, b)
  {
    assert forall j :: j in c <==> j in multiset(c);
    assert forall j :: j in a <==> j in multiset(a);
    assert forall j :: j in b <==> j in multiset(b);
  }

  /** If either side of the split is clean, so is the other, and the emissions add up. */
  lemma {:induction false} AdditiveAt(jx: Job, jy: Job, jxy: Job, f: Behaviour, n: Id)
    requires Split(jx, jy, jxy, f) && n in Ids(jx.wf)
    requires Clean(jxy, f) || (Clean(jx, f) && Clean(jy, f))
    ensures Reachable(jx.wf, n) ==> CleanAt(jx, f, n) && CleanAt(jy, f, n) && CleanAt(jxy, f, n)
    ensures !Reachable(jx.wf, n) ==> Yield(jx, n) == Yield(jy, n) == Yield(jxy, n) == []
    ensures Bag(jxy, n) == Bag(jx, n) + Bag(jy, n)
    decreases RankOf(jx.wf)[n]
  {
    hide Out, Reachable, PerItemJob, CleanAt, Bag, Clean, Yield;
    forall p | p in Producers(jx.wf, n) && p in Ids(jx.wf)
      ensures Bag(jxy, p) == Bag(jx, p) + Bag(jy, p)
      ensures Reachable(jx.wf, p) ==> CleanAt(jx, f, p) && CleanAt(jy, f, p) && CleanAt(jxy, f, p)
    {
      AdditiveAt(jx, jy, jxy, f, p);
    }
    if Reachable(jx.wf, n) {
      AdditiveStep(jx, jy, jxy, f, n);
    } else {
      UnreachedYield(jx, n);
      UnreachedYield(jy, n);
      UnreachedYield(jxy, n);
      EmptyBags(jx, jy, jxy, n);
    }
  }

  lemma EmptyBags(jx: Job, jy: Job, jxy: Job, n: Id)
    requires Valid(jx.wf) && jy.wf == jx.wf && jxy.wf == jx.wf && n in Ids(jx.wf)
    requires Yield(jx, n) == Yield(jy, n) == Yield(jxy, n) == []
    ensures Bag(jxy, n) == Bag(jx, n) + Bag(jy, n)
  {
    hide Valid, Yield;
  }

  lemma UnreachedYield(job: Job, n: Id)
    requires Valid(job.wf) && job.pinned == map[] && n in Ids(job.wf) && !Reachable(job.wf, n)
    ensures Out(job, n) == Absent && Yield(job, n) == []
  {
    hide Valid, Out;
    OutSettled(job, n);
  }

  lemma CleanMeansDone(job: Job, f: Behaviour, p: Id)
    requires Valid(job.wf) && job.pinned == map[] && p in Ids(job.wf)
    requires Reachable(job.wf, p) ==> CleanAt(job, f, p)
    ensures Out(job, p).Done? || Out(job, p).Absent?
  {
    hide Valid, Out, Reachable;
    OutSettled(job, p);
  }

  lemma AdditiveStep(jx: Job, jy: Job, jxy: Job, f: Behaviour, n: Id)
    requires Split(jx, jy, jxy, f) && n in Ids(jx.wf) && Reachable(jx.wf, n)
    requires Clean(jxy, f) || (Clean(jx, f) && Clean(jy, f))
    requires forall p :: p in Producers(jx.wf, n) && p in Ids(jx.wf) ==>
      Bag(jxy, p) == Bag(jx, p) + Bag(jy, p)
      && (Reachable(jx.wf, p) ==> CleanAt(jx, f, p) && CleanAt(jy, f, p) && CleanAt(jxy, f, p))
    ensures CleanAt(jx, f, n) && CleanAt(jy, f, n) && CleanAt(jxy, f, n)
    ensures Bag(jxy, n) == Bag(jx, n) + Bag(jy, n)
  {
    hide Valid, Out, Reachable, PerItemJob, Bag, CleanAt, Input, Producers, Handles;
    InputAdds(jx, jy, jxy, f, n);
    var px, py, pxy := Payloads(Input(jx, n)), Payloads(Input(jy, n)), Payloads(Input(jxy, n));
    HandlesSplits(f, n, pxy, px, py);
    if Clean(jxy, f) {
      CleanHandles(jxy, f, n);
    } else {
      CleanHandles(jx, f, n);
      CleanHandles(jy, f, n);
    }
    forall p | p in Producers(jx.wf, n) && p in Ids(jx.wf)
      ensures Out(jx, p).Done? || Out(jx, p).Absent?
      ensures Out(jy, p).Done? || Out(jy, p).Absent?
      ensures Out(jxy, p).Done? || Out(jxy, p).Absent?
    {
      CleanMeansDone(jx, f, p);
      CleanMeansDone(jy, f, p);
      CleanMeansDone(jxy, f, p);
    }
    CleanStep(jx, f, n);
    CleanStep(jy, f, n);
    CleanStep(jxy, f, n);
    CleanBag(jx, f, n);
    CleanBag(jy, f, n);
    CleanBag(jxy, f, n);
    FlatMapAdds(Emitter(f, n), pxy, px, py);
  }

  lemma CleanHandles(job: Job, f: Behaviour, n: Id)
    requires Valid(job.wf) && Clean(job, f) && n in Ids(job.wf) && Reachable(job.wf, n)
    ensures Handles(f, n, Payloads(Input(job, n)))
  {
    hide Valid, Out, Reachable, Input;
  }

  lemma CleanBag(job: Job, f: Behaviour, n: Id)
    requires Valid(job.wf) && n in Ids(job.wf) && CleanAt(job, f, n)
    ensures Bag(job, n) == multiset(FlatMap(Emitter(f, n), Payloads(Input(job, n))))
  {
    hide Valid, Out, Input, FlatMap;
  }

  lemma CleanEmits(job: Job, f: Behaviour, n: Id)
    requires Valid(job.wf) && n in Ids(job.wf) && CleanAt(job, f, n)
    ensures Emits(Yield(job, n)) == FlatMap(Emitter(f, n), Payloads(Input(job, n)))
  {
    hide Valid, Out, Input, FlatMap;
  }

  lemma NothingBag(job: Job, n: Id)
    requires Valid(job.wf) && n in Ids(job.wf) && Yield(job, n) == []
    ensures Bag(job, n) == multiset{}
  {
    hide Valid, Yield;
  }

  function ElseFrom(t: Id): Edge -> bool { (e: Edge) => e.fromNode != t }

  function NotFrom(edges: seq<Edge>, t: Id): (r: seq<Edge>)
    ensures forall e :: e in r <==> e in edges && e.fromNode != t
  {
    Keep(ElseFrom(t), edges)
  }

  lemma {:induction false} NotFromNoDup(edges: seq<Edge>, t: Id)
    requires NoDup(edges)
    ensures NoDup(NotFrom(edges, t))
  {
    if edges != [] {
      var k := |edges| - 1;
      NotFromNoDup(edges[..k], t);
      assert edges[k] !in edges[..k];
    }
  }

  /** Clean at every reached node is clean. */
  lemma CleanFromNodes(job: Job, f: Behaviour)
    requires Valid(job.wf) && forall n :: n in Ids(job.wf) && Reachable(job.wf, n) ==> CleanAt(job, f, n)
    ensures Clean(job, f)
  {
    hide Valid, Out, Reachable, Input, Handles;
  }

  /** Additivity, at every node: running the parts of an input separately and adding up what each node
      emits gives what it emits for the whole. The whole runs without failure if and only if the parts do. */
  lemma Additive(jx: Job, jy: Job, jxy: Job, f: Behaviour)
    requires Split(jx, jy, jxy, f)
    ensures Clean(jxy, f) <==> Clean(jx, f) && Clean(jy, f)
    ensures Clean(jxy, f) ==> forall n :: n in Ids(jx.wf) ==> Bag(jxy, n) == Bag(jx, n) + Bag(jy, n)
  {
    hide Valid, Out, Reachable, PerItemJob, Bag, CleanAt;
    if Clean(jxy, f) || (Clean(jx, f) && Clean(jy, f)) {
      forall n | n in Ids(jx.wf)
        ensures Reachable(jx.wf, n) ==> CleanAt(jx, f, n) && CleanAt(jy, f, n) && CleanAt(jxy, f, n)
        ensures Bag(jxy, n) == Bag(jx, n) + Bag(jy, n)
      {
        AdditiveAt(jx, jy, jxy, f, n);
      }
      CleanFromNodes(jx, f);
      CleanFromNodes(jy, f);
      CleanFromNodes(jxy, f);
    }
  }

  // ---- Reordering and repeating the input, for every run of every workflow ----

  /** Two fresh runs of one workflow; the second has every item of the first's input `k` times. */
  ghost predicate Scaled(a: Job, b: Job, k: nat, f: Behaviour) {
    && Valid(a.wf) && a.pinned == map[] && b == a.(seed := b.seed)
    && Times(multiset(b.seed), k, multiset(a.seed)) && PerItemJob(a, f)
  }

  ghost predicate Settled(job: Job, n: Id)
    requires Valid(job.wf) && n in Ids(job.wf)
  {
    Out(job, n).Done? || Out(job, n).Absent?
  }

  lemma {:induction false} ArrivingScales(a: Job, b: Job, k: nat, edges: seq<Edge>)
    requires Valid(a.wf) && b.wf == a.wf
    requires forall e :: e in edges ==> e.fromNode in Ids(a.wf) && Times(Bag(b, e.fromNode), k, Bag(a, e.fromNode))
    ensures Times(multiset(Arriving(b, edges)), k, multiset(Arriving(a, edges)))
  {
    hide Valid, Yield, Times;
    if edges == [] {
      NothingTimes<Json>(k);
    } else {
      var i := |edges| - 1;
      var e := edges[i];
      assert edges == edges[..i] + [e];
      ArrivingScales(a, b, k, edges[..i]);
      FlatMapScales(OnPortOnly(e.fromPort), Emits(Yield(b, e.fromNode)), Emits(Yield(a, e.fromNode)), k);
      TimesAdds(multiset(Arriving(b, edges[..i])), multiset(Arriving(a, edges[..i])),
                multiset(Carry(b)(e)), multiset(Carry(a)(e)), k);
    }
  }

  lemma InputScales(a: Job, b: Job, k: nat, f: Behaviour, n: Id)
    requires Scaled(a, b, k, f) && n in Ids(a.wf)
    requires forall p :: p in Producers(a.wf, n) && p in Ids(a.wf) ==> Times(Bag(b, p), k, Bag(a, p))
    ensures Times(multiset(Payloads(Input(b, n))), k, multiset(Payloads(Input(a, n))))
  {
    hide Valid, Yield, FinalOutputs, PerItemJob, Bag, FanIn, Times;
    if n == TriggerId(a.wf) {
      PayloadsOfRoots(a.seed);
      PayloadsOfRoots(b.seed);
    } else {
      var edges := FanIn(a.wf, n);
      FanInFromNodes(a.wf, n);
      GatherArriving(a, edges);
      GatherArriving(b, edges);
      ArrivingScales(a, b, k, edges);
    }
  }

  lemma HandlesScaled(f: Behaviour, n: Id, k: nat, c: seq<Json>, a: seq<Json>)
    requires k > 0 && Times(multiset(c), k, multiset(a))
    ensures Handles(f, n, c) <==> Handles(f, n, a)
  {
    forall j ensures j in c <==> j in a {
      assert j in c <==> multiset(c)[j] > 0;
      assert j in a <==> multiset(a)[j] > 0;
    }
  }

  /** Two nodes come to the same end: outputs, a failure, blocked or never reached. */
  ghost predicate EndsAlike(a: Job, n: Id, b: Job, m: Id)
    requires Valid(a.wf) && Valid(b.wf) && n in Ids(a.wf) && m in Ids(b.wf)
  {
    && (Out(a, n).Done? <==> Out(b, m).Done?) && (Out(a, n).Failed? <==> Out(b, m).Failed?)
    && (Out(a, n).Absent? <==> Out(b, m).Absent?)
  }

  /** A node comes to the same end in both runs. */
  ghost predicate SameEnd(a: Job, b: Job, n: Id)
    requires Valid(a.wf) && Valid(b.wf) && n in Ids(a.wf) && n in Ids(b.wf)
  {
    EndsAlike(a, n, b, n)
  }

  lemma SameOraclePerItem(job: Job, other: Job, f: Behaviour)
    requires PerItemJob(job, f) && other == job.(seed := other.seed)
    ensures PerItemJob(other, f)
  {
    hide RepliesPerItem;
    assert other.wf == job.wf && other.mode == job.mode && other.oracle == job.oracle;
  }

  lemma ScaledStep(a: Job, b: Job, k: nat, f: Behaviour, n: Id)
    requires Scaled(a, b, k, f) && k > 0 && n in Ids(a.wf) && Reachable(a.wf, n)
    requires forall p :: p in Producers(a.wf, n) && p in Ids(a.wf) ==>
      Settled(a, p) && Settled(b, p) && Times(Bag(b, p), k, Bag(a, p))
    ensures SameEnd(a, b, n) && Times(Bag(b, n), k, Bag(a, n))
    ensures Handles(f, n, Payloads(Input(a, n))) <==> Handles(f, n, Payloads(Input(b, n)))
  {
    hide Valid, Out, Reachable, Input, PerItemJob, Handles, Producers, Times, FlatMap, Bag;
    SameOraclePerItem(a, b, f);
    InputScales(a, b, k, f, n);
    var pa, pb := Payloads(Input(a, n)), Payloads(Input(b, n));
    HandlesScaled(f, n, k, pb, pa);
    OutcomeAt(a, f, n);
    OutcomeAt(b, f, n);
    if Handles(f, n, pa) {
      CleanBag(a, f, n);
      CleanBag(b, f, n);
      FlatMapScales(Emitter(f, n), pb, pa, k);
    } else {
      NothingBag(a, n);
      NothingBag(b, n);
      NothingTimes<Emit>(k);
    }
  }

  lemma StuckProducer(job: Job, n: Id, p: Id)
    requires Valid(job.wf) && job.pinned == map[] && n in Ids(job.wf)
    requires p in Producers(job.wf, n) && p in Ids(job.wf) && !Settled(job, p)
    ensures Out(job, n) == Blocked && Bag(job, n) == multiset{}
  {
    hide Valid, Out;
    FailureBlocksConsumer(job, p, n);
  }

  /** Whatever the policies and whether or not the runs complete: every node comes to the same end, and emits
      what it emitted before `k` times. */
  lemma {:induction false} ScalesAt(a: Job, b: Job, k: nat, f: Behaviour, n: Id)
    requires Scaled(a, b, k, f) && k > 0 && n in Ids(a.wf)
    ensures SameEnd(a, b, n) && Times(Bag(b, n), k, Bag(a, n))
    decreases RankOf(a.wf)[n]
  {
    hide Out, Reachable, Input, PerItemJob, Producers, Times, Bag;
    if !Reachable(a.wf, n) {
      UnreachedYield(a, n);
      UnreachedYield(b, n);
      NothingBag(a, n);
      NothingBag(b, n);
      NothingTimes<Emit>(k);
    } else {
      ProducerRanks(a.wf, n);
      forall p | p in Producers(a.wf, n) && p in Ids(a.wf) ensures SameEnd(a, b, p) && Times(Bag(b, p), k, Bag(a, p)) {
        ScalesAt(a, b, k, f, p);
      }
      if p :| p in Producers(a.wf, n) && p in Ids(a.wf) && !Settled(a, p) {
        StuckProducer(a, n, p);
        StuckProducer(b, n, p);
        NothingTimes<Emit>(k);
      } else {
        ScaledStep(a, b, k, f, n);
      }
    }
  }

  // ---- Nodes that come to the same end ----

  /** All producers have come to an end that lets the node go on. */
  ghost predicate Served(job: Job, n: Id)
    requires Valid(job.wf)
  {
    forall p :: p in Producers(job.wf, n) && p in Ids(job.wf) ==> Settled(job, p)
  }

  lemma UnservedIsBlocked(job: Job, n: Id)
    requires Valid(job.wf) && job.pinned == map[] && n in Ids(job.wf) && !Served(job, n)
    ensures Out(job, n) == Blocked && Yield(job, n) == [] && Bag(job, n) == multiset{}
  {
    hide Valid, Out, Settled;
    var p :| p in Producers(job.wf, n) && p in Ids(job.wf) && !Settled(job, p);
    StuckProducer(job, n, p);
  }

  /** Two nodes with the same behaviour and error policy. */
  ghost predicate Alike(a: Job, f: Behaviour, n: Id, b: Job, g: Behaviour, m: Id) {
    && Valid(a.wf) && Valid(b.wf) && a.pinned == map[] && b.pinned == map[] && PerItemJob(a, f) && PerItemJob(b, g)
    && n in Ids(a.wf) && m in Ids(b.wf) && (Reachable(a.wf, n) <==> Reachable(b.wf, m))
    && NodeOf(a.wf, n).onError == NodeOf(b.wf, m).onError && forall j :: f(n, j) == g(m, j)
  }

  /** Once they are served they come to the same end on inputs that hold the same things. */
  lemma AlikeEnds(a: Job, f: Behaviour, n: Id, b: Job, g: Behaviour, m: Id)
    requires Alike(a, f, n, b, g, m) && Served(a, n) && Served(b, m)
    requires forall j :: j in Payloads(Input(a, n)) <==> j in Payloads(Input(b, m))
    ensures EndsAlike(a, n, b, m) && (Handles(f, n, Payloads(Input(a, n))) <==> Handles(g, m, Payloads(Input(b, m))))
    ensures forall e :: e in Bag(a, n) <==> e in Bag(b, m)
  {
    hide Valid, Out, Reachable, Input, PerItemJob, Producers, FlatMap, Bag, CleanAt;
    var pa, pb := Payloads(Input(a, n)), Payloads(Input(b, m));
    if Reachable(a.wf, n) {
      OutcomeAt(a, f, n);
      OutcomeAt(b, g, m);
      if Handles(f, n, pa) {
        CleanIsDone(a, f, n);
        CleanIsDone(b, g, m);
        CleanBag(a, f, n);
        CleanBag(b, g, m);
        forall e ensures e in Bag(a, n) <==> e in Bag(b, m) {
          FlatMapMember(Emitter(f, n), pa, e);
          FlatMapMember(Emitter(g, m), pb, e);
          assert forall j :: Emitter(f, n)(j) == Emitter(g, m)(j);
        }
      } else {
        NothingBag(a, n);
        NothingBag(b, m);
      }
    } else {
      UnreachedYield(a, n);
      UnreachedYield(b, m);
      NothingBag(a, n);
      NothingBag(b, m);
    }
  }

  lemma CleanIsDone(job: Job, f: Behaviour, n: Id)
    requires Valid(job.wf) && n in Ids(job.wf) && CleanAt(job, f, n)
    ensures Out(job, n).Done?
  {
    hide Valid, Out, Input;
  }

  /** On the same multiset of payloads they emit the same multiset. */
  lemma AlikeBags(a: Job, f: Behaviour, n: Id, b: Job, g: Behaviour, m: Id)
    requires Alike(a, f, n, b, g, m) && Served(a, n) && Served(b, m)
    requires multiset(Payloads(Input(a, n))) == multiset(Payloads(Input(b, m)))
    ensures EndsAlike(a, n, b, m) && (Handles(f, n, Payloads(Input(a, n))) <==> Handles(g, m, Payloads(Input(b, m))))
    ensures Bag(a, n) == Bag(b, m)
  {
    hide Valid, Out, Reachable, Input, PerItemJob, Producers, FlatMap, Bag, CleanAt, EndsAlike;
    var pa, pb := Payloads(Input(a, n)), Payloads(Input(b, m));
    SameMultisetSameElements(pa, pb);
    AlikeEnds(a, f, n, b, g, m);
    ServedBag(a, f, n);
    ServedBag(b, g, m);
    FlatMapPermutes(Emitter(f, n), pa, pb);
    FlatMapSame(Emitter(f, n), Emitter(g, m), pb);
  }

  /** On the same list they emit the same list. */
  lemma AlikeLists(a: Job, f: Behaviour, n: Id, b: Job, g: Behaviour, m: Id)
    requires Alike(a, f, n, b, g, m) && Served(a, n) && Served(b, m)
    requires Payloads(Input(a, n)) == Payloads(Input(b, m))
    ensures EndsAlike(a, n, b, m) && (Handles(f, n, Payloads(Input(a, n))) <==> Handles(g, m, Payloads(Input(b, m))))
    ensures Emits(Yield(a, n)) == Emits(Yield(b, m))
  {
    hide Valid, Out, Reachable, Input, PerItemJob, Producers, FlatMap, Yield, CleanAt, EndsAlike;
    AlikeEnds(a, f, n, b, g, m);
    ServedEmits(a, f, n);
    ServedEmits(b, g, m);
    FlatMapSame(Emitter(f, n), Emitter(g, m), Payloads(Input(a, n)));
  }

  /** What a served node emits. */
  lemma ServedEmits(job: Job, f: Behaviour, n: Id)
    requires Valid(job.wf) && job.pinned == map[] && PerItemJob(job, f) && n in Ids(job.wf) && Served(job, n)
    ensures var ps := Payloads(Input(job, n));
            Emits(Yield(job, n)) ==
            if Reachable(job.wf, n) && Handles(f, n, ps) then FlatMap(Emitter(f, n), ps) else []
  {
    hide Valid, Out, Reachable, Input, PerItemJob, Handles, CleanAt, FlatMap, Producers;
    if Reachable(job.wf, n) {
      OutcomeAt(job, f, n);
      if Handles(f, n, Payloads(Input(job, n))) { CleanEmits(job, f, n); }
    } else {
      UnreachedYield(job, n);
    }
  }

  lemma ServedBag(job: Job, f: Behaviour, n: Id)
    requires Valid(job.wf) && job.pinned == map[] && PerItemJob(job, f) && n in Ids(job.wf) && Served(job, n)
    ensures var ps := Payloads(Input(job, n));
            Bag(job, n) ==
            if Reachable(job.wf, n) && Handles(f, n, ps) then multiset(FlatMap(Emitter(f, n), ps)) else multiset{}
  {
    hide Valid, Reachable, Input, PerItemJob, Handles, Yield, FlatMap, Served;
    ServedEmits(job, f, n);
  }

  /** In a completing run every node is served. */
  lemma CompletesServes(job: Job, n: Id)
    requires Valid(job.wf) && Completes(job)
    ensures Served(job, n) && forall p :: p in Ids(job.wf) ==> Settled(job, p)
  {
    hide Valid, Out, Completes;
    forall p | p in Ids(job.wf) ensures Settled(job, p) { CompletesMeansUnblocked(job, p); }
  }

  lemma CleanServes(job: Job, f: Behaviour, n: Id)
    requires Valid(job.wf) && job.pinned == map[] && PerItemJob(job, f) && Clean(job, f)
    ensures Served(job, n) && Completes(job)
  {
    hide Valid, Out, PerItemJob, Clean, CleanAt;
    forall p | p in Ids(job.wf) ensures Settled(job, p) { CleanEverywhere(job, f, p); }
  }

  /** A clean run repeated is clean, and the other way round. */
  lemma ScaledIsClean(a: Job, b: Job, k: nat, f: Behaviour)
    requires Scaled(a, b, k, f) && k > 0
    ensures Clean(a, f) <==> Clean(b, f)
  {
    hide Valid, Out, Reachable, Input, PerItemJob, Producers, Times, Bag, Handles, Clean;
    SameOraclePerItem(a, b, f);
    if Clean(a, f) || Clean(b, f) {
      forall n | n in Ids(a.wf) ensures Settled(a, n) && Settled(b, n) && Times(Bag(b, n), k, Bag(a, n)) {
        ScalesAt(a, b, k, f, n);
        if Clean(a, f) { CleanEverywhere(a, f, n); } else { CleanEverywhere(b, f, n); }
      }
      forall n | n in Ids(a.wf) && Reachable(a.wf, n)
        ensures Handles(f, n, Payloads(Input(a, n))) && Handles(f, n, Payloads(Input(b, n)))
      {
        ScaledStep(a, b, k, f, n);
        if Clean(a, f) { CleanHandles(a, f, n); } else { CleanHandles(b, f, n); }
      }
      CleanFromHandles(a, f);
      CleanFromHandles(b, f);
    }
  }

  lemma CleanFromHandles(job: Job, f: Behaviour)
    requires Valid(job.wf)
    requires forall n :: n in Ids(job.wf) && Reachable(job.wf, n) ==> Handles(f, n, Payloads(Input(job, n)))
    ensures Clean(job, f)
  {
    hide Valid, Out, Reachable, Input, Handles;
  }

  lemma {:induction false} EmptyAt(job: Job, f: Behaviour, n: Id)
    requires Valid(job.wf) && job.pinned == map[] && job.seed == [] && PerItemJob(job, f) && n in Ids(job.wf)
    ensures Settled(job, n) && (Reachable(job.wf, n) ==> Handles(f, n, Payloads(Input(job, n))))
    decreases RankOf(job.wf)[n]
  {
    hide Out, Reachable, Input, PerItemJob, Producers, Bag, Handles;
    OutSettled(job, n);
    if Reachable(job.wf, n) {
      ProducerRanks(job.wf, n);
      forall p | p in Producers(job.wf, n) && p in Ids(job.wf) ensures Settled(job, p) && Times(Bag(job, p), 2, Bag(job, p)) {
        EmptyAt(job, f, p);
        ScalesAt(job, job, 2, f, p);
      }
      InputScales(job, job, 2, f, n);
      var ps := Payloads(Input(job, n));
      TwiceItself(multiset(ps));
      assert |multiset(ps)| == |ps|;
      HandlesNothing(f, n);
      OutcomeAt(job, f, n);
    }
  }

  lemma TwiceItself<T(!new)>(a: multiset<T>)
    requires Times(a, 2, a)
    ensures a == multiset{}
  {
    forall x ensures a[x] == 0 {}
  }

  /** With no input every run is clean, completes, and no node emits anything. */
  lemma EmptyInputEmitsNothing(job: Job, f: Behaviour)
    requires Valid(job.wf) && job.pinned == map[] && job.seed == [] && PerItemJob(job, f)
    ensures Clean(job, f) && Completes(job) && forall n :: n in Ids(job.wf) ==> Bag(job, n) == multiset{}
  {
    hide Valid, Out, Reachable, PerItemJob, Bag, Clean, Handles, Input;
    forall n | n in Ids(job.wf)
      ensures Settled(job, n) && (Reachable(job.wf, n) ==> Handles(f, n, Payloads(Input(job, n))))
      ensures Bag(job, n) == multiset{}
    {
      EmptyAt(job, f, n);
      ScalesAt(job, job, 2, f, n);
      TwiceItself(Bag(job, n));
    }
    CleanFromHandles(job, f);
  }

  /** Permutation invariance: reordering the input changes no node's end and no node's emissions. */
  lemma PermutationInvariant(a: Job, b: Job, f: Behaviour)
    requires Valid(a.wf) && a.pinned == map[] && b == a.(seed := b.seed)
    requires multiset(a.seed) == multiset(b.seed) && PerItemJob(a, f)
    ensures (Completes(a) <==> Completes(b)) && (Clean(a, f) <==> Clean(b, f))
    ensures forall n :: n in Ids(a.wf) ==> SameEnd(a, b, n) && Bag(a, n) == Bag(b, n)
  {
    hide Valid, Out, Reachable, PerItemJob, Bag, Clean;
    forall n | n in Ids(a.wf) ensures SameEnd(a, b, n) && Bag(a, n) == Bag(b, n) {
      ScalesAt(a, b, 1, f, n);
    }
    ScaledIsClean(a, b, 1, f);
  }

  /** Duplication scaling: with `k` copies of the input every node emits `k` times what it emitted, and comes to
      the same end unless `k` is zero. */
  lemma DuplicationScales(job: Job, many: Job, f: Behaviour, k: nat)
    requires Valid(job.wf) && job.pinned == map[] && PerItemJob(job, f)
    requires many == job.(seed := Copies(job.seed, k))
    ensures forall n, e :: n in Ids(job.wf) ==> Bag(many, n)[e] == k * Bag(job, n)[e]
    ensures k > 0 ==> (Completes(many) <==> Completes(job)) && (Clean(many, f) <==> Clean(job, f))
    ensures k > 0 ==> forall n :: n in Ids(job.wf) ==> SameEnd(job, many, n)
    ensures k == 0 ==> Completes(many) && Clean(many, f)
  {
    hide Valid, Out, Reachable, PerItemJob, Bag, Clean, Completes;
    CopiesTimes(job.seed, k);
    if k == 0 {
      SameOraclePerItem(job, many, f);
      EmptyInputEmitsNothing(many, f);
    } else {
      forall n | n in Ids(job.wf) ensures SameEnd(job, many, n) && Times(Bag(many, n), k, Bag(job, n)) {
        ScalesAt(job, many, k, f, n);
      }
      SameCompletion(job, many);
      ScaledIsClean(job, many, k, f);
    }
  }

  lemma SameCompletion(a: Job, b: Job)
    requires Valid(a.wf) && b.wf == a.wf && forall n :: n in Ids(a.wf) ==> SameEnd(a, b, n)
    ensures Completes(a) <==> Completes(b)
  {
    hide Valid, Out;
  }

  // ---- Told by what a caller can see: the error policies ----

  predicate Continues(w: Workflow, n: Id)
    requires n in Ids(w)
  {
    NodeOf(w, n).onError == Some(Continue)
  }

  /** No node is told to go on after a failure. */
  predicate NoContinue(w: Workflow) {
    forall node :: node in w.nodes ==> node.onError != Some(Continue)
  }

  /** In a completing run a node either handles its input or has the Continue policy and emits nothing. */
  lemma CompletingOutcome(job: Job, f: Behaviour, n: Id)
    requires Valid(job.wf) && job.pinned == map[] && PerItemJob(job, f) && Completes(job)
    requires n in Ids(job.wf) && Reachable(job.wf, n)
    ensures Handles(f, n, Payloads(Input(job, n))) ==> CleanAt(job, f, n)
    ensures !Handles(f, n, Payloads(Input(job, n))) ==> Continues(job.wf, n) && Out(job, n) == Done([])
  {
    hide Valid, Out, Reachable, Input, PerItemJob, Handles, CleanAt, Producers;
    forall p | p in Producers(job.wf, n) && p in Ids(job.wf) ensures Out(job, p).Done? || Out(job, p).Absent? {
      CompletesMeansUnblocked(job, p);
    }
    OutcomeAt(job, f, n);
  }

  /** Without a Continue policy the runs that complete are the clean ones. */
  lemma CompletesIffClean(job: Job, f: Behaviour)
    requires Valid(job.wf) && job.pinned == map[] && PerItemJob(job, f) && NoContinue(job.wf)
    ensures Completes(job) <==> Clean(job, f)
  {
    hide Valid, Out, Reachable, Input, PerItemJob, Handles, CleanAt;
    if Completes(job) {
      forall n | n in Ids(job.wf) && Reachable(job.wf, n) ensures Handles(f, n, Payloads(Input(job, n))) {
        CompletingOutcome(job, f, n);
      }
    }
    if Clean(job, f) {
      forall n | n in Ids(job.wf) ensures !Out(job, n).Failed? { CleanEverywhere(job, f, n); }
    }
  }

  /** So on such a workflow the whole completes exactly if the parts do, and whatever completes adds up. */
  lemma CompletingRunsAddUp(jx: Job, jy: Job, jxy: Job, f: Behaviour)
    requires Split(jx, jy, jxy, f) && NoContinue(jx.wf)
    ensures Completes(jxy) <==> Completes(jx) && Completes(jy)
    ensures Completes(jxy) ==> forall n :: n in Ids(jx.wf) ==> Bag(jxy, n) == Bag(jx, n) + Bag(jy, n)
  {
    hide Valid, PerItemJob, Bag, Clean, Completes, NoContinue;
    CompletesIffClean(jx, f);
    CompletesIffClean(jy, f);
    CompletesIffClean(jxy, f);
    Additive(jx, jy, jxy, f);
  }

  // ---- Nodes with the Continue policy ----

  /** One part of the input is handled and comes to something, the other part is not handled. Together they
      come to nothing. */
  ghost predicate Clash(jx: Job, jy: Job, f: Behaviour, n: Id)
    requires Valid(jx.wf) && Valid(jy.wf)
  {
    var px, py := Payloads(Input(jx, n)), Payloads(Input(jy, n));
    || (Handles(f, n, px) && FlatMap(Emitter(f, n), px) != [] && !Handles(f, n, py))
    || (Handles(f, n, py) && FlatMap(Emitter(f, n), py) != [] && !Handles(f, n, px))
  }

  /** What a reached node of a completing run emits. */
  lemma CompletingBag(job: Job, f: Behaviour, n: Id)
    requires Valid(job.wf) && job.pinned == map[] && PerItemJob(job, f) && Completes(job)
    requires n in Ids(job.wf) && Reachable(job.wf, n)
    ensures var ps := Payloads(Input(job, n));
            Bag(job, n) == if Handles(f, n, ps) then multiset(FlatMap(Emitter(f, n), ps)) else multiset{}
  {
    hide Valid, Out, Reachable, Input, PerItemJob, Handles, CleanAt, Completes, FlatMap;
    CompletingOutcome(job, f, n);
    if Handles(f, n, Payloads(Input(job, n))) { CleanBag(job, f, n); } else { NothingBag(job, n); }
  }

  ghost predicate Summands(jx: Job, jy: Job, jxy: Job, f: Behaviour) {
    Split(jx, jy, jxy, f) && Completes(jx) && Completes(jy) && Completes(jxy)
  }

  /** Where the producers add up, a node adds up exactly unless it is told to continue and its parts clash. */
  lemma AddsUpUnlessClash(jx: Job, jy: Job, jxy: Job, f: Behaviour, n: Id)
    requires Summands(jx, jy, jxy, f) && n in Ids(jx.wf) && Reachable(jx.wf, n)
    requires forall p :: p in Producers(jx.wf, n) && p in Ids(jx.wf) ==> Bag(jxy, p) == Bag(jx, p) + Bag(jy, p)
    ensures Bag(jxy, n) == Bag(jx, n) + Bag(jy, n) <==> !(Continues(jx.wf, n) && Clash(jx, jy, f, n))
  {
    hide Valid, Out, Reachable, Input, PerItemJob, Handles, CleanAt, Completes, Bag, FlatMap;
    InputAdds(jx, jy, jxy, f, n);
    var px, py, pxy := Payloads(Input(jx, n)), Payloads(Input(jy, n)), Payloads(Input(jxy, n));
    HandlesSplits(f, n, pxy, px, py);
    CompletingBag(jx, f, n);
    CompletingBag(jy, f, n);
    CompletingBag(jxy, f, n);
    CompletingOutcome(jx, f, n);
    CompletingOutcome(jy, f, n);
    FlatMapAdds(Emitter(f, n), pxy, px, py);
    assert |multiset(FlatMap(Emitter(f, n), px))| == |FlatMap(Emitter(f, n), px)|;
    assert |multiset(FlatMap(Emitter(f, n), py))| == |FlatMap(Emitter(f, n), py)|;
  }

  lemma {:induction false} NoClashAddsUp(jx: Job, jy: Job, jxy: Job, f: Behaviour, n: Id)
    requires Summands(jx, jy, jxy, f) && n in Ids(jx.wf)
    requires forall m :: m in Ids(jx.wf) && Reachable(jx.wf, m) ==> !(Continues(jx.wf, m) && Clash(jx, jy, f, m))
    ensures Bag(jxy, n) == Bag(jx, n) + Bag(jy, n)
    decreases RankOf(jx.wf)[n]
  {
    hide Out, Reachable, Input, PerItemJob, Completes, Bag, Clash, Producers, Continues;
    if Reachable(jx.wf, n) {
      ProducerRanks(jx.wf, n);
      forall p | p in Producers(jx.wf, n) && p in Ids(jx.wf) ensures Bag(jxy, p) == Bag(jx, p) + Bag(jy, p) {
        NoClashAddsUp(jx, jy, jxy, f, p);
      }
      AddsUpUnlessClash(jx, jy, jxy, f, n);
    } else {
      UnreachedYield(jx, n);
      UnreachedYield(jy, n);
      UnreachedYield(jxy, n);
      EmptyBags(jx, jy, jxy, n);
    }
  }

  /** Exactly when completing runs add up, whatever the policies: at no node with the Continue policy does one
      part of the input come to something and the other part fail. */
  lemma AddsUpExactly(jx: Job, jy: Job, jxy: Job, f: Behaviour)
    requires Summands(jx, jy, jxy, f)
    ensures (forall n :: n in Ids(jx.wf) ==> Bag(jxy, n) == Bag(jx, n) + Bag(jy, n)) <==>
            (forall n :: n in Ids(jx.wf) && Reachable(jx.wf, n) ==> !(Continues(jx.wf, n) && Clash(jx, jy, f, n)))
  {
    hide Valid, Out, Reachable, Input, PerItemJob, Completes, Bag, Clash, Continues, Producers;
    if forall n :: n in Ids(jx.wf) ==> Bag(jxy, n) == Bag(jx, n) + Bag(jy, n) {
      forall n | n in Ids(jx.wf) && Reachable(jx.wf, n) ensures !(Continues(jx.wf, n) && Clash(jx, jy, f, n)) {
        AddsUpUnlessClash(jx, jy, jxy, f, n);
      }
    }
    if forall n :: n in Ids(jx.wf) && Reachable(jx.wf, n) ==> !(Continues(jx.wf, n) && Clash(jx, jy, f, n)) {
      forall n | n in Ids(jx.wf) ensures Bag(jxy, n) == Bag(jx, n) + Bag(jy, n) { NoClashAddsUp(jx, jy, jxy, f, n); }
    }
  }
}
