/** Running a composition means running the left workflow, then the right one on what it hands over. */
module CompositionMeaning {
  import opened Wrappers
  import opened Sorting
  import opened Strings
  import opened Filtering
  import opened Workflows
  import opened Items
  import opened Semantics
  import opened Bags
  import opened PerItem
  import opened Additivity
  import opened Composition
  import opened Resume
  import opened Executors

  function PrefixEdges(edges: seq<Edge>, prefix: string): (r: seq<Edge>)
    ensures |r| == |edges| && forall i :: 0 <= i < |r| ==> r[i] == Edge(prefix + edges[i].fromNode, edges[i].fromPort)
  {
    if edges == [] then []
    else
      var k := |edges| - 1;
      PrefixEdges(edges[..k], prefix) + [Edge(prefix + edges[k].fromNode, edges[k].fromPort)]
  }

  function EdgesOf(terminals: seq<Id>): (r: seq<Edge>)
    ensures |r| == |terminals| && forall i :: 0 <= i < |r| ==> r[i] == Edge(terminals[i], 0)
  {
    seq(|terminals|, i requires 0 <= i < |terminals| => Edge(terminals[i], 0))
  }

  /** The payloads the left workflow hands over: what its terminals emit on port 0. */
  ghost function HandOff(ja: Job): seq<Json>
    requires Valid(ja.wf)
  {
    Arriving(ja, EdgesOf(Terminals(ja.wf, ja.wf.nodes)))
  }

  /** Prefixed nodes behave as the nodes they were copied from. */
  function Both(fa: Behaviour, fb: Behaviour): Behaviour {
    (n: Id, j: Json) => if IsLeft(n) then fa(Strip(n), j) else if IsRight(n) then fb(Strip(n), j) else None
  }

  /** `jc` runs the splice of the workflows of `ja` and `jb`; `jb` is fed what `ja` hands over. */
  ghost predicate Sequenced(ja: Job, jb: Job, jc: Job, fa: Behaviour, fb: Behaviour) {
    && Valid(ja.wf) && Valid(jb.wf)
    && jc.wf == Spliced(ja.wf, jb.wf, jc.wf.id, jc.wf.name)
    && ja.pinned == map[] && jb.pinned == map[] && jc.pinned == map[]
    && jc.seed == ja.seed && jb.seed == HandOff(ja)
    && PerItemJob(ja, fa) && PerItemJob(jb, fb) && PerItemJob(jc, Both(fa, fb))
    && forall j :: fb(TriggerId(jb.wf), j) == Some([Emit(j, 0)])
  }

  lemma SequencedValid(ja: Job, jb: Job, jc: Job, fa: Behaviour, fb: Behaviour)
    requires Sequenced(ja, jb, jc, fa, fb)
    ensures Valid(jc.wf) && TriggerId(jc.wf) == LEFT + TriggerId(ja.wf)
    ensures forall n :: n in Ids(ja.wf) ==> LEFT + n in Ids(jc.wf)
    ensures forall n :: n in Ids(jb.wf) && n != TriggerId(jb.wf) ==> RIGHT + n in Ids(jc.wf)
  {
    hide Valid, PerItemJob, Spliced, HandOff;
    SpliceIsValid(ja.wf, jb.wf, jc.wf.id, jc.wf.name);
    SplicedNodeOf(ja.wf, jb.wf, jc.wf.id, jc.wf.name);
  }

  // ---- The left side ----

  lemma PrefixEdgesMembers(edges: seq<Edge>, prefix: string)
    requires |prefix| == 2
    ensures forall e :: e in PrefixEdges(edges, prefix) <==>
      |e.fromNode| >= 2 && e.fromNode[..2] == prefix && Edge(Strip(e.fromNode), e.fromPort) in edges
  {
    var r := PrefixEdges(edges, prefix);
    forall e ensures e in r <==>
      |e.fromNode| >= 2 && e.fromNode[..2] == prefix && Edge(Strip(e.fromNode), e.fromPort) in edges
    {
      if e in r {
        var i :| 0 <= i < |r| && r[i] == e;
        assert Strip(e.fromNode) == edges[i].fromNode;
        assert edges[i] in edges;
      }
      if |e.fromNode| >= 2 && e.fromNode[..2] == prefix && Edge(Strip(e.fromNode), e.fromPort) in edges {
        var i :| 0 <= i < |edges| && edges[i] == Edge(Strip(e.fromNode), e.fromPort);
        assert e.fromNode == prefix + Strip(e.fromNode);
        assert r[i] == e;
      }
    }
  }

  lemma PrefixEdgesNoDup(edges: seq<Edge>, prefix: string)
    requires NoDup(edges)
    ensures NoDup(PrefixEdges(edges, prefix))
  {
    var r := PrefixEdges(edges, prefix);
    forall i, j | 0 <= i < j < |r| ensures r[i] != r[j] {
      assert (prefix + edges[i].fromNode)[|prefix|..] == edges[i].fromNode;
      assert (prefix + edges[j].fromNode)[|prefix|..] == edges[j].fromNode;
    }
  }

  lemma PrefixEdgesSorted(edges: seq<Edge>, prefix: string)
    requires Sorted(edges, EdgeLe)
    ensures Sorted(PrefixEdges(edges, prefix), EdgeLe)
  {
    hide StrLe;
    var r := PrefixEdges(edges, prefix);
    forall i, j | 0 <= i < j < |r| ensures EdgeLe(r[i], r[j]) {
      assert EdgeLe(edges[i], edges[j]);
      StrLePrefix(prefix, edges[i].fromNode, edges[j].fromNode);
      assert (prefix + edges[i].fromNode)[|prefix|..] == edges[i].fromNode;
      assert (prefix + edges[j].fromNode)[|prefix|..] == edges[j].fromNode;
    }
  }

  /** Namespacing keeps the order in which inputs are gathered. */
  lemma FanInLeft(a: Workflow, b: Workflow, id: Id, name: string, n: Id)
    requires Valid(a) && Valid(b)
    ensures FanIn(Spliced(a, b, id, name), LEFT + n) == PrefixEdges(FanIn(a, n), LEFT)
  {
    hide Valid, FanIn, Spliced, EdgeLe, Terminals, TargetsOf;
    var w := Spliced(a, b, id, name);
    EdgeLeIsTotalOrder();
    FanInSorted(w, LEFT + n);
    FanInSorted(a, n);
    PrefixEdgesSorted(FanIn(a, n), LEFT);
    PrefixEdgesNoDup(FanIn(a, n), LEFT);
    PrefixEdgesMembers(FanIn(a, n), LEFT);
    PrefixRoundTrip(n);
    forall e ensures e in FanIn(w, LEFT + n) <==> e in PrefixEdges(FanIn(a, n), LEFT) {
      SplicedConnections(a, b, id, name, Connection(e.fromNode, e.fromPort, LEFT + n));
    }
    SortedUnique(FanIn(w, LEFT + n), PrefixEdges(FanIn(a, n), LEFT), EdgeLe);
  }

  /** Edges whose producers emit the same lists carry the same lists. */
  lemma {:induction false} ArrivingSame(j1: Job, j2: Job, edges: seq<Edge>, prefix: string)
    requires Valid(j1.wf) && Valid(j2.wf)
    requires forall e :: e in edges ==> e.fromNode in Ids(j1.wf) && prefix + e.fromNode in Ids(j2.wf)
                                        && Emits(Yield(j1, e.fromNode)) == Emits(Yield(j2, prefix + e.fromNode))
    ensures Arriving(j2, PrefixEdges(edges, prefix)) == Arriving(j1, edges)
  {
    hide Valid, Yield;
    if edges != [] {
      var k := |edges| - 1;
      assert edges[k] in edges;
      ArrivingSame(j1, j2, edges[..k], prefix);
      var r := PrefixEdges(edges, prefix);
      assert r[..k] == PrefixEdges(edges[..k], prefix);
    }
  }

  lemma LeftProducers(a: Workflow, b: Workflow, id: Id, name: string, n: Id, p: Id)
    requires Valid(a) && Valid(b)
    ensures p in Producers(Spliced(a, b, id, name), LEFT + n) <==> IsLeft(p) && Strip(p) in Producers(a, n)
  {
    hide Valid, Spliced, Terminals, TargetsOf;
    var w := Spliced(a, b, id, name);
    PrefixRoundTrip(n);
    PrefixRoundTrip(p);
    if p in Producers(w, LEFT + n) {
      var c :| c in w.connections && c.toNode == LEFT + n && c.fromNode == p;
      SplicedConnections(a, b, id, name, c);
      assert Connection(Strip(p), c.fromPort, n) in a.connections;
    }
    if IsLeft(p) && Strip(p) in Producers(a, n) {
      var c :| c in a.connections && c.toNode == n && c.fromNode == Strip(p);
      SplicedConnections(a, b, id, name, Connection(p, c.fromPort, LEFT + n));
      assert Connection(p, c.fromPort, LEFT + n) in w.connections;
    }
  }

  lemma LeftReachable(ja: Job, jb: Job, jc: Job, fa: Behaviour, fb: Behaviour, n: Id)
    requires Valid(ja.wf) && Valid(jc.wf) && Sequenced(ja, jb, jc, fa, fb) && n in Ids(ja.wf)
    requires forall p :: p in Producers(ja.wf, n) ==> (Reachable(jc.wf, LEFT + p) <==> Reachable(ja.wf, p))
    ensures (Reachable(jc.wf, LEFT + n) <==> Reachable(ja.wf, n))
  {
    hide Valid, Spliced, Producers, Reachable, PerItemJob, HandOff;
    SequencedValid(ja, jb, jc, fa, fb);
    ReachableLocally(ja.wf, n);
    ReachableLocally(jc.wf, LEFT + n);
    PrefixRoundTrip(n);
    PrefixRoundTrip(TriggerId(ja.wf));
    if p :| p in Producers(ja.wf, n) && Reachable(ja.wf, p) {
      PrefixRoundTrip(p);
      LeftProducers(ja.wf, jb.wf, jc.wf.id, jc.wf.name, n, LEFT + p);
    }
    if p :| p in Producers(jc.wf, LEFT + n) && Reachable(jc.wf, p) {
      PrefixRoundTrip(p);
      LeftProducers(ja.wf, jb.wf, jc.wf.id, jc.wf.name, n, p);
    }
  }

  lemma LeftInput(ja: Job, jb: Job, jc: Job, fa: Behaviour, fb: Behaviour, n: Id)
    requires Sequenced(ja, jb, jc, fa, fb) && Valid(jc.wf) && n in Ids(ja.wf)
    requires forall p :: p in Producers(ja.wf, n) && p in Ids(ja.wf) && LEFT + p in Ids(jc.wf) ==>
      Emits(Yield(ja, p)) == Emits(Yield(jc, LEFT + p))
    ensures Payloads(Input(jc, LEFT + n)) == Payloads(Input(ja, n))
  {
    hide Valid, Spliced, Yield, FinalOutputs, PerItemJob, FanIn, HandOff, Producers, Arriving;
    SequencedValid(ja, jb, jc, fa, fb);
    PrefixRoundTrip(n);
    PrefixRoundTrip(TriggerId(ja.wf));
    if n == TriggerId(ja.wf) {
    } else {
      var edges := FanIn(ja.wf, n);
      FanInFromNodes(ja.wf, n);
      FanInFromNodes(jc.wf, LEFT + n);
      FanInLeft(ja.wf, jb.wf, jc.wf.id, jc.wf.name, n);
      ArrivingSame(ja, jc, edges, LEFT);
      GatherArriving(ja, edges);
      GatherArriving(jc, FanIn(jc.wf, LEFT + n));
    }
  }

  /** What holds at a left node and its copy. */
  ghost predicate LeftAgrees(ja: Job, jc: Job, n: Id)
    requires Valid(ja.wf) && Valid(jc.wf) && n in Ids(ja.wf) && LEFT + n in Ids(jc.wf)
  {
    && (Reachable(jc.wf, LEFT + n) <==> Reachable(ja.wf, n))
    && EndsAlike(ja, n, jc, LEFT + n)
    && Emits(Yield(jc, LEFT + n)) == Emits(Yield(ja, n))
  }

  lemma LeftAlike(ja: Job, jb: Job, jc: Job, fa: Behaviour, fb: Behaviour, n: Id)
    requires Sequenced(ja, jb, jc, fa, fb) && n in Ids(ja.wf) && Valid(jc.wf) && LEFT + n in Ids(jc.wf)
    requires Reachable(jc.wf, LEFT + n) <==> Reachable(ja.wf, n)
    ensures Alike(ja, fa, n, jc, Both(fa, fb), LEFT + n)
  {
    hide Valid, Spliced, PerItemJob, HandOff, Reachable;
    SplicedNodeOf(ja.wf, jb.wf, jc.wf.id, jc.wf.name);
    PrefixRoundTrip(n);
  }

  lemma {:induction false} LeftAt(ja: Job, jb: Job, jc: Job, fa: Behaviour, fb: Behaviour, n: Id)
    requires Sequenced(ja, jb, jc, fa, fb) && n in Ids(ja.wf) && Valid(jc.wf) && LEFT + n in Ids(jc.wf)
    ensures LeftAgrees(ja, jc, n)
    ensures Handles(fa, n, Payloads(Input(ja, n))) <==> Handles(Both(fa, fb), LEFT + n, Payloads(Input(jc, LEFT + n)))
    decreases RankOf(ja.wf)[n]
  {
    hide Spliced, Reachable, PerItemJob, HandOff, LeftAgrees, Handles, Input;
    SequencedValid(ja, jb, jc, fa, fb);
    ProducersAreNodes(ja.wf, n);
    forall p | p in Producers(ja.wf, n) ensures p in Ids(ja.wf) && LeftAgrees(ja, jc, p) {
      LeftAt(ja, jb, jc, fa, fb, p);
    }
    LeftStep(ja, jb, jc, fa, fb, n);
  }

  lemma LeftStep(ja: Job, jb: Job, jc: Job, fa: Behaviour, fb: Behaviour, n: Id)
    requires Sequenced(ja, jb, jc, fa, fb) && n in Ids(ja.wf) && Valid(jc.wf) && LEFT + n in Ids(jc.wf)
    requires forall p :: p in Producers(ja.wf, n) ==>
      p in Ids(ja.wf) && LEFT + p in Ids(jc.wf) && LeftAgrees(ja, jc, p)
    ensures LeftAgrees(ja, jc, n)
    ensures Handles(fa, n, Payloads(Input(ja, n))) <==> Handles(Both(fa, fb), LEFT + n, Payloads(Input(jc, LEFT + n)))
  {
    hide Valid, Spliced, Reachable, PerItemJob, HandOff, Yield, Producers, Input, Served, EndsAlike;
    LeftReachable(ja, jb, jc, fa, fb, n);
    LeftInput(ja, jb, jc, fa, fb, n);
    LeftAlike(ja, jb, jc, fa, fb, n);
    LeftServed(ja, jb, jc, fa, fb, n);
    if Served(ja, n) {
      AlikeLists(ja, fa, n, jc, Both(fa, fb), LEFT + n);
    } else {
      BlockedAlike(ja, n, jc, LEFT + n);
    }
  }

  lemma BlockedAlike(a: Job, n: Id, b: Job, m: Id)
    requires Valid(a.wf) && Valid(b.wf) && a.pinned == map[] && b.pinned == map[] && n in Ids(a.wf) && m in Ids(b.wf)
    requires !Served(a, n) && !Served(b, m)
    ensures EndsAlike(a, n, b, m) && Yield(a, n) == Yield(b, m) == [] && Bag(a, n) == Bag(b, m)
  {
    hide Valid, Out, Served, Yield, Bag;
    UnservedIsBlocked(a, n);
    UnservedIsBlocked(b, m);
  }

  lemma LeftServed(ja: Job, jb: Job, jc: Job, fa: Behaviour, fb: Behaviour, n: Id)
    requires Sequenced(ja, jb, jc, fa, fb) && n in Ids(ja.wf) && Valid(jc.wf)
    requires forall p :: p in Producers(ja.wf, n) ==>
      p in Ids(ja.wf) && LEFT + p in Ids(jc.wf) && EndsAlike(ja, p, jc, LEFT + p)
    ensures Served(ja, n) <==> Served(jc, LEFT + n)
  {
    hide Valid, Spliced, PerItemJob, HandOff, Producers, Out;
    forall p | p in Producers(jc.wf, LEFT + n) ensures IsLeft(p) && Strip(p) in Producers(ja.wf, n) && LEFT + Strip(p) == p {
      LeftProducers(ja.wf, jb.wf, jc.wf.id, jc.wf.name, n, p);
      PrefixRoundTrip(p);
    }
    forall p | p in Producers(ja.wf, n) ensures LEFT + p in Producers(jc.wf, LEFT + n) {
      PrefixRoundTrip(p);
      LeftProducers(ja.wf, jb.wf, jc.wf.id, jc.wf.name, n, LEFT + p);
    }
  }

  lemma {:induction false} TerminalsNoDup(w: Workflow, nodes: seq<Node>)
    requires forall i, j :: 0 <= i < j < |nodes| ==> nodes[i].id != nodes[j].id
    ensures NoDup(Terminals(w, nodes))
  {
    if nodes != [] {
      var k := |nodes| - 1;
      TerminalsNoDup(w, nodes[..k]);
      forall x | x in nodes[..k] ensures x.id != nodes[k].id {
        var i :| 0 <= i < k && nodes[i] == x;
      }
    }
  }

  predicate IsEntry(b: Workflow, n: Id, t: Id) {
    n in TargetsOf(b.connections, t)
  }

  /** The trigger feeds an entry through its one port. */
  lemma EntryEdge(b: Workflow, n: Id, e: Edge)
    requires Valid(b) && e.fromNode == TriggerId(b)
    ensures e in FanIn(b, n) <==> e.fromPort == 0 && IsEntry(b, n, TriggerId(b))
  {
    hide Acyclic, UniqueIds, FanIn, OneTrigger;
    var t := TriggerId(b);
    forall c | c in b.connections && c.fromNode == t ensures c.fromPort == 0 {
      TriggerPorts(b, c);
    }
    if IsEntry(b, n, t) && e.fromPort == 0 {
      var c :| c in b.connections && c.fromNode == t && c.toNode == n;
      assert c == Connection(e.fromNode, e.fromPort, n);
    }
  }

  lemma TriggerPorts(b: Workflow, c: Connection)
    requires Valid(b) && c in b.connections && c.fromNode == TriggerId(b)
    ensures c.fromPort == 0
  {
    hide Acyclic;
    NodeOfSelf(b, FindTrigger(b.nodes).value);
  }

  ghost function EntryEdges(b: Workflow, n: Id): seq<Edge>
    requires Valid(b)
  {
    if IsEntry(b, n, TriggerId(b)) then [Edge(TriggerId(b), 0)] else []
  }

  lemma FanInOfRight(b: Workflow, n: Id)
    requires Valid(b)
    ensures multiset(FanIn(b, n)) == multiset(NotFrom(FanIn(b, n), TriggerId(b)) + EntryEdges(b, n))
  {
    hide Valid, FanIn, NotFrom, IsEntry;
    var t, edges := TriggerId(b), FanIn(b, n);
    FanInSorted(b, n);
    NotFromNoDup(edges, t);
    var parts := NotFrom(edges, t) + EntryEdges(b, n);
    forall i, j | 0 <= i < j < |parts| ensures parts[i] != parts[j] {
      if j >= |NotFrom(edges, t)| && i < |NotFrom(edges, t)| { assert parts[i] in NotFrom(edges, t); }
    }
    forall e ensures e in edges <==> e in parts {
      if e.fromNode == t { EntryEdge(b, n, e); }
    }
    NoDupSameMultiset(edges, parts);
  }

  ghost function BridgeEdges(a: Workflow, b: Workflow, n: Id): seq<Edge>
    requires Valid(b)
  {
    if IsEntry(b, n, TriggerId(b)) then PrefixEdges(EdgesOf(Terminals(a, a.nodes)), LEFT) else []
  }

  lemma EdgesOfMembers(terminals: seq<Id>)
    ensures forall e: Edge :: e in EdgesOf(terminals) <==> e.fromPort == 0 && e.fromNode in terminals
    ensures NoDup(terminals) ==> NoDup(EdgesOf(terminals))
  {
    var r := EdgesOf(terminals);
    forall e: Edge | e.fromPort == 0 && e.fromNode in terminals ensures e in r {
      var i :| 0 <= i < |terminals| && terminals[i] == e.fromNode;
      assert r[i] == e;
    }
  }

  lemma BridgeEdgesMembers(a: Workflow, b: Workflow, n: Id)
    requires Valid(a) && Valid(b)
    ensures NoDup(BridgeEdges(a, b, n))
    ensures forall e :: e in BridgeEdges(a, b, n) <==>
      IsLeft(e.fromNode) && e.fromPort == 0 && Strip(e.fromNode) in Terminals(a, a.nodes) && IsEntry(b, n, TriggerId(b))
  {
    hide Acyclic, PortsInRange, OneTrigger, NoDangling, TriggersHaveNoProducer, Terminals, PrefixEdges, EdgesOf, IsEntry;
    TerminalsNoDup(a, a.nodes);
    EdgesOfMembers(Terminals(a, a.nodes));
    PrefixEdgesMembers(EdgesOf(Terminals(a, a.nodes)), LEFT);
    PrefixEdgesNoDup(EdgesOf(Terminals(a, a.nodes)), LEFT);
  }

  lemma FanInRight(a: Workflow, b: Workflow, id: Id, name: string, n: Id)
    requires Valid(a) && Valid(b)
    ensures multiset(FanIn(Spliced(a, b, id, name), RIGHT + n)) ==
            multiset(PrefixEdges(NotFrom(FanIn(b, n), TriggerId(b)), RIGHT) + BridgeEdges(a, b, n))
  {
    hide Valid, FanIn, NotFrom, Spliced, Terminals, PrefixEdges, BridgeEdges;
    var w, t := Spliced(a, b, id, name), TriggerId(b);
    var inner, bridge := PrefixEdges(NotFrom(FanIn(b, n), t), RIGHT), BridgeEdges(a, b, n);
    FanInSorted(w, RIGHT + n);
    FanInSorted(b, n);
    NotFromNoDup(FanIn(b, n), t);
    PrefixEdgesNoDup(NotFrom(FanIn(b, n), t), RIGHT);
    PrefixEdgesMembers(NotFrom(FanIn(b, n), t), RIGHT);
    BridgeEdgesMembers(a, b, n);
    var parts := inner + bridge;
    forall i, j | 0 <= i < j < |parts| ensures parts[i] != parts[j] {
      if j >= |inner| && i < |inner| {
        assert parts[i] in inner && parts[j] in bridge;
        PrefixRoundTrip(parts[i].fromNode);
      }
    }
    PrefixRoundTrip(n);
    forall e ensures e in FanIn(w, RIGHT + n) <==> e in parts {
      SplicedConnections(a, b, id, name, Connection(e.fromNode, e.fromPort, RIGHT + n));
    }
    NoDupSameMultiset(FanIn(w, RIGHT + n), parts);
  }

  /** Edges whose producers emit the same multisets carry the same multisets. */
  lemma {:induction false} ArrivingSameBag(j1: Job, j2: Job, edges: seq<Edge>, prefix: string)
    requires Valid(j1.wf) && Valid(j2.wf)
    requires forall e :: e in edges ==> e.fromNode in Ids(j1.wf) && prefix + e.fromNode in Ids(j2.wf)
                                        && Bag(j1, e.fromNode) == Bag(j2, prefix + e.fromNode)
    ensures multiset(Arriving(j2, PrefixEdges(edges, prefix))) == multiset(Arriving(j1, edges))
  {
    hide Valid, Yield;
    if edges != [] {
      var k := |edges| - 1;
      var e := edges[k];
      assert e in edges;
      ArrivingSameBag(j1, j2, edges[..k], prefix);
      var r := PrefixEdges(edges, prefix);
      assert r[..k] == PrefixEdges(edges[..k], prefix);
      FlatMapPermutes(OnPortOnly(e.fromPort), Emits(Yield(j1, e.fromNode)), Emits(Yield(j2, prefix + e.fromNode)));
    }
  }

  /** Following connections from a reachable node ends in a reachable terminal. */
  lemma ReachableTerminal(a: Workflow, n: Id, rank: map<Id, nat>, top: nat) returns (t: Id)
    requires Valid(a) && IsRank(a, rank) && (forall m :: m in rank ==> rank[m] < top)
    requires n in Ids(a) && Reachable(a, n)
    ensures t in Terminals(a, a.nodes) && Reachable(a, t) && t in Ids(a)
    decreases top - rank[n]
  {
    hide Acyclic, PortsInRange, UniqueIds, OneTrigger, TriggersHaveNoProducer, Reachable;
    if IsTerminal(a, n) {
      t := n;
    } else {
      var c :| c in a.connections && c.fromNode == n;
      assert n in Producers(a, c.toNode);
      ReachableLocally(a, c.toNode);
      t := ReachableTerminal(a, c.toNode, rank, top);
    }
  }

  /** A pass-through trigger emits its seed on port 0. */
  lemma TriggerCarriesSeed(jb: Job, fb: Behaviour)
    requires Valid(jb.wf) && jb.pinned == map[] && PerItemJob(jb, fb)
    requires forall j :: fb(TriggerId(jb.wf), j) == Some([Emit(j, 0)])
    ensures CleanAt(jb, fb, TriggerId(jb.wf)) && Reachable(jb.wf, TriggerId(jb.wf))
    ensures Arriving(jb, [Edge(TriggerId(jb.wf), 0)]) == jb.seed
  {
    hide Valid, PerItemJob, CleanAt, Producers, FanIn, FinalOutputs, Yield;
    var t := TriggerId(jb.wf);
    TriggerHasNoEdges(jb.wf);
    ReachableLocally(jb.wf, t);
    PayloadsOfRoots(jb.seed);
    CleanStep(jb, fb, t);
    CleanEmits(jb, fb, t);
    PassThroughOn(Emitter(fb, t), jb.seed);
    var edges := [Edge(t, 0)];
    assert edges[..0] == [];
    assert Arriving(jb, edges) == Arriving(jb, edges[..0]) + Carry(jb)(edges[0]);
  }

  lemma RightProducers(a: Workflow, b: Workflow, id: Id, name: string, n: Id, p: Id)
    requires Valid(a) && Valid(b)
    ensures p in Producers(Spliced(a, b, id, name), RIGHT + n) <==>
      || (IsRight(p) && Strip(p) in Producers(b, n) && Strip(p) != TriggerId(b))
      || (IsLeft(p) && Strip(p) in Terminals(a, a.nodes) && IsEntry(b, n, TriggerId(b)))
  {
    hide Valid, Spliced, Terminals, TargetsOf;
    var w := Spliced(a, b, id, name);
    PrefixRoundTrip(n);
    PrefixRoundTrip(p);
    if p in Producers(w, RIGHT + n) {
      var c :| c in w.connections && c.toNode == RIGHT + n && c.fromNode == p;
      SplicedConnections(a, b, id, name, c);
      if IsRight(p) { assert Connection(Strip(p), c.fromPort, n) in b.connections; }
    }
    if IsRight(p) && Strip(p) in Producers(b, n) && Strip(p) != TriggerId(b) {
      var c :| c in b.connections && c.toNode == n && c.fromNode == Strip(p);
      SplicedConnections(a, b, id, name, Connection(p, c.fromPort, RIGHT + n));
      assert Connection(p, c.fromPort, RIGHT + n) in w.connections;
    }
    if IsLeft(p) && Strip(p) in Terminals(a, a.nodes) && IsEntry(b, n, TriggerId(b)) {
      SplicedConnections(a, b, id, name, Connection(p, 0, RIGHT + n));
      assert Connection(p, 0, RIGHT + n) in w.connections;
    }
  }

  /** What holds at a right node and its copy. */
  ghost predicate RightAgrees(jb: Job, jc: Job, n: Id)
    requires Valid(jb.wf) && Valid(jc.wf) && n in Ids(jb.wf) && RIGHT + n in Ids(jc.wf)
  {
    && (Reachable(jc.wf, RIGHT + n) <==> Reachable(jb.wf, n))
    && EndsAlike(jb, n, jc, RIGHT + n)
    && Bag(jc, RIGHT + n) == Bag(jb, n)
  }

  /** Everything the right side of the induction may use. */
  ghost predicate RightSetting(ja: Job, jb: Job, jc: Job, fa: Behaviour, fb: Behaviour) {
    && Sequenced(ja, jb, jc, fa, fb) && Valid(ja.wf) && Valid(jb.wf) && Valid(jc.wf)
    && (forall p :: p in Ids(ja.wf) ==> LEFT + p in Ids(jc.wf) && LeftAgrees(ja, jc, p))
    && (forall n :: n in Ids(jb.wf) && n != TriggerId(jb.wf) ==> RIGHT + n in Ids(jc.wf))
  }

  lemma RightReachable(ja: Job, jb: Job, jc: Job, fa: Behaviour, fb: Behaviour, n: Id)
    requires RightSetting(ja, jb, jc, fa, fb) && n in Ids(jb.wf) && n != TriggerId(jb.wf)
    requires forall p :: p in Producers(jb.wf, n) && p != TriggerId(jb.wf) ==>
      (Reachable(jc.wf, RIGHT + p) <==> Reachable(jb.wf, p))
    ensures Reachable(jc.wf, RIGHT + n) <==> Reachable(jb.wf, n)
  {
    hide Valid, Spliced, Producers, Reachable, PerItemJob, HandOff, CleanAt, Clean, Yield, Terminals, TargetsOf;
    var a, b, t := ja.wf, jb.wf, TriggerId(jb.wf);
    SequencedValid(ja, jb, jc, fa, fb);
    ReachableLocally(b, n);
    ReachableLocally(jc.wf, RIGHT + n);
    ReachableLocally(b, t);
    PrefixRoundTrip(n);
    PrefixRoundTrip(TriggerId(a));
    if p :| p in Producers(b, n) && Reachable(b, p) {
      if p == t {
        var term := SomeReachableTerminal(a);
        EntryMeansProducer(b, n);
        PrefixRoundTrip(term);
        RightProducers(a, b, jc.wf.id, jc.wf.name, n, LEFT + term);
        assert LeftAgrees(ja, jc, term);
      } else {
        PrefixRoundTrip(p);
        RightProducers(a, b, jc.wf.id, jc.wf.name, n, RIGHT + p);
      }
    }
    if p :| p in Producers(jc.wf, RIGHT + n) && Reachable(jc.wf, p) {
      PrefixRoundTrip(p);
      RightProducers(a, b, jc.wf.id, jc.wf.name, n, p);
      if IsLeft(p) { EntryMeansProducer(b, n); }
    }
  }

  lemma SomeReachableTerminal(a: Workflow) returns (t: Id)
    requires Valid(a)
    ensures t in Terminals(a, a.nodes) && Reachable(a, t) && t in Ids(a)
  {
    var top := Bounded(RankOf(a));
    ReachableLocally(a, TriggerId(a));
    t := ReachableTerminal(a, TriggerId(a), RankOf(a), top);
  }

  lemma EntryMeansProducer(b: Workflow, n: Id)
    requires Valid(b)
    ensures IsEntry(b, n, TriggerId(b)) <==> TriggerId(b) in Producers(b, n)
  {
    hide Valid;
    if IsEntry(b, n, TriggerId(b)) {
      var c :| c in b.connections && c.fromNode == TriggerId(b) && c.toNode == n;
    }
    if TriggerId(b) in Producers(b, n) {
      var c :| c in b.connections && c.fromNode == TriggerId(b) && c.toNode == n;
    }
  }

  lemma RightInput(ja: Job, jb: Job, jc: Job, fa: Behaviour, fb: Behaviour, n: Id)
    requires RightSetting(ja, jb, jc, fa, fb) && n in Ids(jb.wf) && n != TriggerId(jb.wf)
    requires forall p :: p in Producers(jb.wf, n) && p in Ids(jb.wf) && p != TriggerId(jb.wf) ==>
      Bag(jb, p) == Bag(jc, RIGHT + p)
    ensures multiset(Payloads(Input(jc, RIGHT + n))) == multiset(Payloads(Input(jb, n)))
  {
    hide Valid, Spliced, Yield, FinalOutputs, PerItemJob, FanIn, Producers, Clean, CleanAt, NotFrom, Terminals, TargetsOf,
         PrefixEdges, EdgesOf, IsEntry, Bag, Reachable, FlatMap;
    var a, b, t := ja.wf, jb.wf, TriggerId(jb.wf);
    SequencedValid(ja, jb, jc, fa, fb);
    PrefixRoundTrip(n);
    PrefixRoundTrip(TriggerId(a));
    FanInFromNodes(b, n);
    FanInFromNodes(jc.wf, RIGHT + n);
    GatherArriving(jb, FanIn(b, n));
    GatherArriving(jc, FanIn(jc.wf, RIGHT + n));
    var inner := NotFrom(FanIn(b, n), t);
    FanInOfRight(b, n);
    FanInRight(a, b, jc.wf.id, jc.wf.name, n);
    FlatMapPermutes(Carry(jb), FanIn(b, n), inner + EntryEdges(b, n));
    FlatMapPermutes(Carry(jc), FanIn(jc.wf, RIGHT + n), PrefixEdges(inner, RIGHT) + BridgeEdges(a, b, n));
    FlatMapConcat(Carry(jb), inner, EntryEdges(b, n));
    FlatMapConcat(Carry(jc), PrefixEdges(inner, RIGHT), BridgeEdges(a, b, n));
    ArrivingSameBag(jb, jc, inner, RIGHT);
    BridgeCarriesHandOff(ja, jb, jc, fa, fb, n);
  }

  lemma BridgeCarriesHandOff(ja: Job, jb: Job, jc: Job, fa: Behaviour, fb: Behaviour, n: Id)
    requires RightSetting(ja, jb, jc, fa, fb)
    ensures Arriving(jc, BridgeEdges(ja.wf, jb.wf, n)) == Arriving(jb, EntryEdges(jb.wf, n))
  {
    hide Valid, Spliced, Yield, PerItemJob, Clean, CleanAt, Terminals, TargetsOf, PrefixEdges, EdgesOf, IsEntry, Reachable;
    var terminals := Terminals(ja.wf, ja.wf.nodes);
    var edges := EdgesOf(terminals);
    if IsEntry(jb.wf, n, TriggerId(jb.wf)) {
      TriggerCarriesSeed(jb, fb);
      EdgesOfMembers(terminals);
      forall e | e in edges
        ensures e.fromNode in Ids(ja.wf) && LEFT + e.fromNode in Ids(jc.wf)
        ensures Emits(Yield(ja, e.fromNode)) == Emits(Yield(jc, LEFT + e.fromNode))
      {
        TerminalIsNode(ja.wf, e.fromNode);
        assert LeftAgrees(ja, jc, e.fromNode);
      }
      ArrivingSame(ja, jc, edges, LEFT);
    }
  }

  lemma TerminalIsNode(w: Workflow, t: Id)
    requires t in Terminals(w, w.nodes)
    ensures t in Ids(w)
  {}

  lemma {:induction false} RightAt(ja: Job, jb: Job, jc: Job, fa: Behaviour, fb: Behaviour, n: Id)
    requires RightSetting(ja, jb, jc, fa, fb) && Completes(ja) && n in Ids(jb.wf) && n != TriggerId(jb.wf)
    ensures RightAgrees(jb, jc, n)
    ensures Handles(fb, n, Payloads(Input(jb, n))) <==> Handles(Both(fa, fb), RIGHT + n, Payloads(Input(jc, RIGHT + n)))
    decreases RankOf(jb.wf)[n]
  {
    hide Spliced, Reachable, PerItemJob, HandOff, RightAgrees, LeftAgrees, Handles, Input, Completes;
    ProducersAreNodes(jb.wf, n);
    forall p | p in Producers(jb.wf, n) && p != TriggerId(jb.wf)
      ensures p in Ids(jb.wf) && RightAgrees(jb, jc, p)
    {
      RightAt(ja, jb, jc, fa, fb, p);
    }
    RightStep(ja, jb, jc, fa, fb, n);
  }

  lemma RightStep(ja: Job, jb: Job, jc: Job, fa: Behaviour, fb: Behaviour, n: Id)
    requires RightSetting(ja, jb, jc, fa, fb) && Completes(ja) && n in Ids(jb.wf) && n != TriggerId(jb.wf)
    requires forall p :: p in Producers(jb.wf, n) && p != TriggerId(jb.wf) ==>
      p in Ids(jb.wf) && RightAgrees(jb, jc, p)
    ensures RightAgrees(jb, jc, n)
    ensures Handles(fb, n, Payloads(Input(jb, n))) <==> Handles(Both(fa, fb), RIGHT + n, Payloads(Input(jc, RIGHT + n)))
  {
    hide Valid, Spliced, Reachable, PerItemJob, HandOff, Yield, Producers, Input, Bag, LeftAgrees, Served, EndsAlike, Completes,
         Handles;
    RightReachable(ja, jb, jc, fa, fb, n);
    RightInput(ja, jb, jc, fa, fb, n);
    RightAlike(ja, jb, jc, fa, fb, n);
    RightServed(ja, jb, jc, fa, fb, n);
    SameHandles(fa, fb, n, Payloads(Input(jb, n)), Payloads(Input(jc, RIGHT + n)));
    if Served(jb, n) {
      AlikeBags(jb, fb, n, jc, Both(fa, fb), RIGHT + n);
    } else {
      BlockedAlike(jb, n, jc, RIGHT + n);
    }
  }

  lemma SameHandles(fa: Behaviour, fb: Behaviour, n: Id, pb: seq<Json>, pc: seq<Json>)
    requires multiset(pb) == multiset(pc)
    ensures Handles(fb, n, pb) <==> Handles(Both(fa, fb), RIGHT + n, pc)
  {
    PrefixRoundTrip(n);
    SameMultisetSameElements(pb, pc);
  }

  lemma RightAlike(ja: Job, jb: Job, jc: Job, fa: Behaviour, fb: Behaviour, n: Id)
    requires RightSetting(ja, jb, jc, fa, fb) && n in Ids(jb.wf) && n != TriggerId(jb.wf)
    requires Reachable(jc.wf, RIGHT + n) <==> Reachable(jb.wf, n)
    ensures Alike(jb, fb, n, jc, Both(fa, fb), RIGHT + n)
  {
    hide Valid, Spliced, PerItemJob, HandOff, Reachable, LeftAgrees;
    SplicedNodeOf(ja.wf, jb.wf, jc.wf.id, jc.wf.name);
    PrefixRoundTrip(n);
  }

  /** The left part has completed, so only a right producer can keep a right node from being served. */
  lemma RightServed(ja: Job, jb: Job, jc: Job, fa: Behaviour, fb: Behaviour, n: Id)
    requires RightSetting(ja, jb, jc, fa, fb) && Completes(ja) && n in Ids(jb.wf) && n != TriggerId(jb.wf)
    requires forall p :: p in Producers(jb.wf, n) && p != TriggerId(jb.wf) ==>
      p in Ids(jb.wf) && EndsAlike(jb, p, jc, RIGHT + p)
    ensures Served(jb, n) <==> Served(jc, RIGHT + n)
  {
    hide Valid, Spliced, PerItemJob, HandOff, Producers, Out, Completes, Reachable, Yield, Terminals;
    TriggerIsSettled(jb, fb);
    forall p | p in Producers(jc.wf, RIGHT + n) && p in Ids(jc.wf)
      ensures IsLeft(p) ==> Settled(jc, p)
      ensures !IsLeft(p) ==> IsRight(p) && RIGHT + Strip(p) == p && Strip(p) in Producers(jb.wf, n)
                             && Strip(p) != TriggerId(jb.wf)
    {
      RightProducers(ja.wf, jb.wf, jc.wf.id, jc.wf.name, n, p);
      PrefixRoundTrip(p);
      if IsLeft(p) {
        TerminalIsNode(ja.wf, Strip(p));
        CompletesServes(ja, Strip(p));
        assert LeftAgrees(ja, jc, Strip(p));
      }
    }
    forall p | p in Producers(jb.wf, n) && p != TriggerId(jb.wf) ensures RIGHT + p in Producers(jc.wf, RIGHT + n) {
      PrefixRoundTrip(p);
      RightProducers(ja.wf, jb.wf, jc.wf.id, jc.wf.name, n, RIGHT + p);
    }
  }

  lemma TriggerIsSettled(jb: Job, fb: Behaviour)
    requires Valid(jb.wf) && jb.pinned == map[] && PerItemJob(jb, fb)
    requires forall j :: fb(TriggerId(jb.wf), j) == Some([Emit(j, 0)])
    ensures Out(jb, TriggerId(jb.wf)).Done? && Settled(jb, TriggerId(jb.wf))
  {
    hide Valid, PerItemJob, CleanAt, Out, Reachable;
    TriggerCarriesSeed(jb, fb);
    CleanIsDone(jb, fb, TriggerId(jb.wf));
  }

  lemma SettingHolds(ja: Job, jb: Job, jc: Job, fa: Behaviour, fb: Behaviour)
    requires Sequenced(ja, jb, jc, fa, fb)
    ensures RightSetting(ja, jb, jc, fa, fb)
    ensures Completes(jc) ==> Completes(ja)
  {
    hide Valid, Spliced, Reachable, PerItemJob, HandOff, Yield, Out;
    SequencedValid(ja, jb, jc, fa, fb);
    forall p | p in Ids(ja.wf) ensures LEFT + p in Ids(jc.wf) && LeftAgrees(ja, jc, p) {
      LeftAt(ja, jb, jc, fa, fb, p);
    }
  }

  // ---- If the left part fails the right one never runs ----

  /** Whatever is stuck leads to a terminal that is stuck. */
  lemma {:induction false} StuckTerminal(ja: Job, n: Id, rank: map<Id, nat>, top: nat) returns (t: Id)
    requires Valid(ja.wf) && ja.pinned == map[] && IsRank(ja.wf, rank) && (forall m :: m in rank ==> rank[m] < top)
    requires n in Ids(ja.wf) && !Settled(ja, n)
    ensures t in Terminals(ja.wf, ja.wf.nodes) && t in Ids(ja.wf) && !Settled(ja, t)
    decreases top - rank[n]
  {
    hide Acyclic, PortsInRange, UniqueIds, OneTrigger, TriggersHaveNoProducer, Out;
    if IsTerminal(ja.wf, n) {
      t := n;
    } else {
      var c :| c in ja.wf.connections && c.fromNode == n;
      assert n in Producers(ja.wf, c.toNode);
      StuckProducer(ja, c.toNode, n);
      t := StuckTerminal(ja, c.toNode, rank, top);
    }
  }

  /** Every entry waits for all terminals, and everything else on the right waits for an entry. */
  lemma {:induction false} RightIsBlocked(ja: Job, jb: Job, jc: Job, fa: Behaviour, fb: Behaviour, stuck: Id, n: Id)
    requires RightSetting(ja, jb, jc, fa, fb) && n in Ids(jb.wf) && n != TriggerId(jb.wf) && Reachable(jb.wf, n)
    requires stuck in Terminals(ja.wf, ja.wf.nodes) && stuck in Ids(ja.wf) && !Settled(ja, stuck)
    ensures Out(jc, RIGHT + n) == Blocked
    decreases RankOf(jb.wf)[n]
  {
    hide Spliced, Reachable, PerItemJob, HandOff, Out, Terminals, Producers;
    ReachableLocally(jb.wf, n);
    ProducerRanks(jb.wf, n);
    var p :| p in Producers(jb.wf, n) && Reachable(jb.wf, p);
    if p == TriggerId(jb.wf) {
      EntryMeansProducer(jb.wf, n);
      PrefixRoundTrip(stuck);
      RightProducers(ja.wf, jb.wf, jc.wf.id, jc.wf.name, n, LEFT + stuck);
      assert LeftAgrees(ja, jc, stuck);
      StuckProducer(jc, RIGHT + n, LEFT + stuck);
    } else {
      PrefixRoundTrip(p);
      RightIsBlocked(ja, jb, jc, fa, fb, stuck, p);
      RightProducers(ja.wf, jb.wf, jc.wf.id, jc.wf.name, n, RIGHT + p);
      StuckProducer(jc, RIGHT + n, RIGHT + p);
    }
  }

  /** Nothing to the right of a failure runs. */
  lemma FailureStaysLeft(ja: Job, jb: Job, jc: Job, fa: Behaviour, fb: Behaviour)
    requires RightSetting(ja, jb, jc, fa, fb) && !Completes(ja)
    ensures forall n :: n in Ids(jb.wf) && n != TriggerId(jb.wf) && Reachable(jb.wf, n) ==> Out(jc, RIGHT + n) == Blocked
  {
    hide Valid, Spliced, Reachable, PerItemJob, HandOff, Out, Terminals, LeftAgrees;
    var failed :| failed in Ids(ja.wf) && Out(ja, failed).Failed?;
    var rank := HasRank(ja.wf);
    var top := Bounded(rank);
    var stuck := StuckTerminal(ja, failed, rank, top);
    forall n | n in Ids(jb.wf) && n != TriggerId(jb.wf) && Reachable(jb.wf, n) ensures Out(jc, RIGHT + n) == Blocked {
      RightIsBlocked(ja, jb, jc, fa, fb, stuck, n);
    }
  }

  lemma HasRank(w: Workflow) returns (rank: map<Id, nat>)
    requires Valid(w)
    ensures IsRank(w, rank)
  {
    rank := RankOf(w);
  }

  // ---- The whole ----

  lemma SpliceCompletes(ja: Job, jb: Job, jc: Job, fa: Behaviour, fb: Behaviour)
    requires RightSetting(ja, jb, jc, fa, fb)
    ensures Completes(jc) <==> Completes(ja) && Completes(jb)
  {
    hide Valid, Spliced, Reachable, PerItemJob, HandOff, Yield, Out, Bag, Ids;
    SettingHolds(ja, jb, jc, fa, fb);
    if Completes(ja) {
      TriggerIsSettled(jb, fb);
      forall n | n in Ids(jb.wf) && n != TriggerId(jb.wf) ensures EndsAlike(jb, n, jc, RIGHT + n) {
        RightAt(ja, jb, jc, fa, fb, n);
      }
      forall m | m in Ids(jc.wf) && Completes(jb) ensures !Out(jc, m).Failed? {
        SplicedIds(ja.wf, jb.wf, jc.wf.id, jc.wf.name, m);
        PrefixRoundTrip(m);
        if IsLeft(m) {
          assert LeftAgrees(ja, jc, Strip(m));
        } else {
          assert EndsAlike(jb, Strip(m), jc, RIGHT + Strip(m));
        }
      }
    }
  }

  lemma SpliceClean(ja: Job, jb: Job, jc: Job, fa: Behaviour, fb: Behaviour)
    requires RightSetting(ja, jb, jc, fa, fb)
    ensures Clean(jc, Both(fa, fb)) <==> Clean(ja, fa) && Clean(jb, fb)
  {
    hide Valid, Spliced, Reachable, PerItemJob, HandOff, Yield, Bag, Ids, Handles, Input, Completes;
    SettingHolds(ja, jb, jc, fa, fb);
    if Clean(jc, Both(fa, fb)) {
      CleanServes(jc, Both(fa, fb), TriggerId(jc.wf));
    } else if Clean(ja, fa) {
      CleanServes(ja, fa, TriggerId(ja.wf));
    }
    forall n | n in Ids(ja.wf)
      ensures Reachable(jc.wf, LEFT + n) <==> Reachable(ja.wf, n)
      ensures Handles(fa, n, Payloads(Input(ja, n))) <==> Handles(Both(fa, fb), LEFT + n, Payloads(Input(jc, LEFT + n)))
    {
      LeftAt(ja, jb, jc, fa, fb, n);
    }
    if Completes(ja) {
      TriggerHandles(jb, fb);
      forall n | n in Ids(jb.wf) && n != TriggerId(jb.wf)
        ensures Reachable(jc.wf, RIGHT + n) <==> Reachable(jb.wf, n)
        ensures Handles(fb, n, Payloads(Input(jb, n))) <==> Handles(Both(fa, fb), RIGHT + n, Payloads(Input(jc, RIGHT + n)))
      {
        RightAt(ja, jb, jc, fa, fb, n);
      }
      forall m | m in Ids(jc.wf) && Clean(ja, fa) && Clean(jb, fb) && Reachable(jc.wf, m)
        ensures Handles(Both(fa, fb), m, Payloads(Input(jc, m)))
      {
        SplicedIds(ja.wf, jb.wf, jc.wf.id, jc.wf.name, m);
        PrefixRoundTrip(m);
        if IsLeft(m) { CleanHandles(ja, fa, Strip(m)); } else { CleanHandles(jb, fb, Strip(m)); }
      }
    }
  }

  lemma TriggerHandles(jb: Job, fb: Behaviour)
    requires Valid(jb.wf) && forall j :: fb(TriggerId(jb.wf), j) == Some([Emit(j, 0)])
    ensures Handles(fb, TriggerId(jb.wf), Payloads(Input(jb, TriggerId(jb.wf))))
  {}

  /** Composition is sequencing, in every run and under every error policy. Each left node comes to the same end
      as alone and emits exactly the list it emits alone. If the left part completes, each right node comes to the
      same end and emits the same multiset as when the right workflow runs on what the left one's terminals emit
      on port 0; if not, no right node runs. So the splice completes if and only if both parts do. */
  lemma CompositionIsSequencing(ja: Job, jb: Job, jc: Job, fa: Behaviour, fb: Behaviour)
    requires Sequenced(ja, jb, jc, fa, fb)
    ensures Valid(jc.wf)
    ensures Completes(jc) <==> Completes(ja) && Completes(jb)
    ensures Clean(jc, Both(fa, fb)) <==> Clean(ja, fa) && Clean(jb, fb)
    ensures forall n :: n in Ids(ja.wf) ==>
      LEFT + n in Ids(jc.wf) && EndsAlike(ja, n, jc, LEFT + n) && Emits(Yield(jc, LEFT + n)) == Emits(Yield(ja, n))
    ensures forall n :: n in Ids(jb.wf) && n != TriggerId(jb.wf) ==>
      RIGHT + n in Ids(jc.wf) &&
      if Completes(ja) then EndsAlike(jb, n, jc, RIGHT + n) && Bag(jc, RIGHT + n) == Bag(jb, n)
      else Reachable(jb.wf, n) ==> Out(jc, RIGHT + n) == Blocked
  {
    hide Workflows.Valid, Spliced, Reachable, PerItemJob, HandOff, Yield, Bag, Clean, Out, Completes;
    SequencedValid(ja, jb, jc, fa, fb);
    SettingHolds(ja, jb, jc, fa, fb);
    SpliceCompletes(ja, jb, jc, fa, fb);
    SpliceClean(ja, jb, jc, fa, fb);
    forall n | n in Ids(ja.wf)
      ensures EndsAlike(ja, n, jc, LEFT + n) && Emits(Yield(jc, LEFT + n)) == Emits(Yield(ja, n))
    {
      assert LeftAgrees(ja, jc, n);
    }
    if Completes(ja) {
      forall n | n in Ids(jb.wf) && n != TriggerId(jb.wf)
        ensures EndsAlike(jb, n, jc, RIGHT + n) && Bag(jc, RIGHT + n) == Bag(jb, n)
      {
        RightAt(ja, jb, jc, fa, fb, n);
      }
    } else {
      FailureStaysLeft(ja, jb, jc, fa, fb);
    }
  }

  /** The theorem applies to the pure executors: prefixing an id does not change what a node does. */
  lemma PureSequenced(lib: Library, ja: Job, jb: Job, jc: Job)
    requires Valid(ja.wf) && Valid(jb.wf) && jc.wf == Spliced(ja.wf, jb.wf, jc.wf.id, jc.wf.name)
    requires ja.pinned == map[] && jb.pinned == map[] && jc.pinned == map[]
    requires jc.seed == ja.seed && jb.seed == HandOff(ja)
    requires PureOracle(lib, ja) && PureOracle(lib, jb) && PureOracle(lib, jc)
    ensures Sequenced(ja, jb, jc, BehaviourOf(lib, ja.wf), BehaviourOf(lib, jb.wf))
  {
    hide Workflows.Valid, Spliced, PureOracle, PerItemJob, HandOff, NodeBehaviour;
    PureIsPerItem(lib, ja);
    PureIsPerItem(lib, jb);
    SpliceIsValid(ja.wf, jb.wf, jc.wf.id, jc.wf.name);
    PureIsPerItem(lib, jc);
    SplicedBehaviour(lib, ja.wf, jb.wf, jc.wf.id, jc.wf.name);
    SameBehaviourPerItem(jc, BehaviourOf(lib, jc.wf), Both(BehaviourOf(lib, ja.wf), BehaviourOf(lib, jb.wf)));
    TriggerPassesThrough(lib, jb.wf);
  }

  lemma SplicedBehaviour(lib: Library, a: Workflow, b: Workflow, id: Id, name: string)
    requires Valid(a) && Valid(b)
    ensures forall n, j :: n in Ids(Spliced(a, b, id, name)) ==>
      BehaviourOf(lib, Spliced(a, b, id, name))(n, j) == Both(BehaviourOf(lib, a), BehaviourOf(lib, b))(n, j)
  {
    hide Workflows.Valid, Spliced, NodeBehaviour, Ids, NodeOf;
    var w := Spliced(a, b, id, name);
    SplicedNodeOf(a, b, id, name);
    forall n, j | n in Ids(w)
      ensures BehaviourOf(lib, w)(n, j) == Both(BehaviourOf(lib, a), BehaviourOf(lib, b))(n, j)
    {
      SplicedIds(a, b, id, name, n);
      PrefixRoundTrip(n);
      var m := Strip(n);
      if IsLeft(n) { IdDoesNotMatter(lib, NodeOf(a, m), n, j); } else { IdDoesNotMatter(lib, NodeOf(b, m), n, j); }
    }
  }

  lemma IdDoesNotMatter(lib: Library, node: Node, id: Id, j: Json)
    ensures NodeBehaviour(lib, node.(id := id), j) == NodeBehaviour(lib, node, j)
  {}

  lemma TriggerPassesThrough(lib: Library, w: Workflow)
    requires Valid(w)
    ensures forall j :: BehaviourOf(lib, w)(TriggerId(w), j) == Some([Emit(j, 0)])
  {
    hide Acyclic, PortsInRange;
    NodeOfSelf(w, FindTrigger(w.nodes).value);
  }
}
