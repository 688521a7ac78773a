/** The left part of a composition runs as it does alone, whatever its executors do. */
module CopiedRuns {
  import opened Wrappers
  import opened Sorting
  import opened Workflows
  import opened Items
  import opened Semantics
  import opened Resume
  import opened Composition
  import opened CompositionMeaning

  // ---- Items whose lineage names the copies ----

  function RenamedItem(x: Item): Item {
    if x.source.Produced? then x.(source := Produced("a_" + x.source.nodeId, x.source.itemIndex)) else x
  }

  function Renamed(items: seq<Item>): (r: seq<Item>)
    ensures |r| == |items| && forall i :: 0 <= i < |r| ==> r[i] == RenamedItem(items[i])
  {
    seq(|items|, i requires 0 <= i < |items| => RenamedItem(items[i]))
  }

  /** The same end, with the same error, or the same items under their new lineage. */
  function RenamedOutcome(o: Outcome): Outcome {
    if o.Done? then Done(Renamed(o.items)) else o
  }

  /** Replies that differ in nothing the engine keeps: it overwrites the lineage anyway. */
  ghost predicate SameReply(r: Reply, s: Reply) {
    match (r, s)
    case (Ok(items), Ok(others)) =>
      |items| == |others| && forall i :: 0 <= i < |items| ==> items[i].json == others[i].json && items[i].port == others[i].port
    case (Err(e), Err(e')) => e == e'
    case _ => false
  }

  /** Attempt by attempt, the executors answer a copy as they answer the node it was copied from. */
  ghost predicate AnswerAlike(a: Workflow, mode: Mode, oa: Oracle, oc: Oracle) {
    forall x: Node, y: Node, k: nat, input: seq<Item> {:trigger oa(x, mode, k, input), oc(y, mode, k, Renamed(input))} ::
      x in a.nodes && IsCopy(x, "a_", y) ==> SameReply(oa(x, mode, k, input), oc(y, mode, k, Renamed(input)))
  }

  /** `jc` runs the splice of the workflow of `ja` with `b`, with the same mode and trigger input. */
  ghost predicate RunsSplice(ja: Job, b: Workflow, jc: Job) {
    && Valid(ja.wf) && Valid(b) && Valid(jc.wf) && jc.wf == Spliced(ja.wf, b, jc.wf.id, jc.wf.name)
    && ja.pinned == map[] && jc.pinned == map[] && jc.seed == ja.seed && jc.mode == ja.mode
    && AnswerAlike(ja.wf, ja.mode, ja.oracle, jc.oracle)
  }

  // ---- Inputs ----

  lemma {:induction false} OnPortRenamed(items: seq<Item>, port: nat)
    ensures OnPort(Renamed(items), port) == Renamed(OnPort(items, port))
  {
    if items != [] {
      var k := |items| - 1;
      OnPortRenamed(items[..k], port);
      assert Renamed(items)[..k] == Renamed(items[..k]);
    }
  }

  /** The copies have emitted what the originals have. */
  ghost predicate OutsRenamed(oa: map<Id, seq<Item>>, oc: map<Id, seq<Item>>, edges: seq<Edge>) {
    forall e :: e in edges ==>
      (e.fromNode in oa <==> "a_" + e.fromNode in oc)
      && (e.fromNode in oa ==> oc["a_" + e.fromNode] == Renamed(oa[e.fromNode]))
  }

  lemma RenamedConcat(a: seq<Item>, b: seq<Item>)
    ensures Renamed(a + b) == Renamed(a) + Renamed(b)
  {}

  lemma GatherLast(edges: seq<Edge>, e: Edge, outs: map<Id, seq<Item>>)
    ensures Gather(edges + [e], outs) == Gather(edges, outs) + Emitted(outs, e)
  {
    assert (edges + [e])[..|edges|] == edges;
  }

  lemma EmittedRenamed(e: Edge, oa: map<Id, seq<Item>>, oc: map<Id, seq<Item>>)
    requires OutsRenamed(oa, oc, [e])
    ensures Emitted(oc, Edge("a_" + e.fromNode, e.fromPort)) == Renamed(Emitted(oa, e))
  {
    hide Renamed, OnPort;
    assert e in [e];
    if e.fromNode in oa { OnPortRenamed(oa[e.fromNode], e.fromPort); } else { NothingRenamed(); }
  }

  lemma NothingRenamed()
    ensures Renamed([]) == []
  {}

  lemma {:induction false} GatherRenamed(edges: seq<Edge>, oa: map<Id, seq<Item>>, oc: map<Id, seq<Item>>)
    requires OutsRenamed(oa, oc, edges)
    ensures Gather(PrefixEdges(edges, "a_"), oc) == Renamed(Gather(edges, oa))
  {
    hide Renamed, Emitted, Gather;
    if edges == [] {
      NothingGathered(oa);
      NothingGathered(oc);
      NothingRenamed();
    } else {
      var front, e := edges[..|edges| - 1], edges[|edges| - 1];
      assert edges == front + [e] && e in edges;
      assert OutsRenamed(oa, oc, [e]);
      GatherRenamed(front, oa, oc);
      EmittedRenamed(e, oa, oc);
      GatherLast(front, e, oa);
      GatherLast(PrefixEdges(front, "a_"), Edge("a_" + e.fromNode, e.fromPort), oc);
      RenamedConcat(Gather(front, oa), Emitted(oa, e));
    }
  }

  lemma NothingGathered(outs: map<Id, seq<Item>>)
    ensures Gather([], outs) == []
  {}

  lemma InputRenamed(ja: Job, b: Workflow, jc: Job, n: Id, oa: map<Id, seq<Item>>, oc: map<Id, seq<Item>>)
    requires RunsSplice(ja, b, jc) && n in Ids(ja.wf) && OutsRenamed(oa, oc, FanIn(ja.wf, n))
    ensures InputOf(jc, "a_" + n, oc) == Renamed(InputOf(ja, n, oa))
    ensures FanIn(jc.wf, "a_" + n) == [] <==> FanIn(ja.wf, n) == []
  {
    hide Valid, Spliced, FanIn, AnswerAlike;
    SpliceIsValid(ja.wf, b, jc.wf.id, jc.wf.name);
    FanInLeft(ja.wf, b, jc.wf.id, jc.wf.name, n);
    GatherRenamed(FanIn(ja.wf, n), oa, oc);
    PrefixRoundTrip(n);
    PrefixRoundTrip(TriggerId(ja.wf));
  }

  // ---- One node ----

  lemma {:induction false} TriesAlike(ja: Job, b: Workflow, jc: Job, x: Node, y: Node, input: seq<Item>, k: nat)
    requires RunsSplice(ja, b, jc) && x in ja.wf.nodes && IsCopy(x, "a_", y) && 1 <= k <= MaxAttempts(ja.mode, x)
    ensures MaxAttempts(jc.mode, y) == MaxAttempts(ja.mode, x)
    ensures SameReply(TryFrom(ja, x, input, k), TryFrom(jc, y, Renamed(input), k))
    decreases MaxAttempts(ja.mode, x) - k
  {
    hide Valid, Spliced;
    assert SameReply(ja.oracle(x, ja.mode, k, input), jc.oracle(y, jc.mode, k, Renamed(input)));
    if ja.oracle(x, ja.mode, k, input).Err? && k < MaxAttempts(ja.mode, x) { TriesAlike(ja, b, jc, x, y, input, k + 1); }
  }

  lemma SettlesAlike(x: Node, y: Node, r: Reply, s: Reply)
    requires IsCopy(x, "a_", y) && SameReply(r, s)
    ensures Settle(y, s) == RenamedOutcome(Settle(x, r))
  {
    if r.Ok? { assert Stamp(y.id, s.value) == Renamed(Stamp(x.id, r.value)); }
  }

  lemma DeliversAlike(ja: Job, b: Workflow, jc: Job, n: Id, input: seq<Item>)
    requires RunsSplice(ja, b, jc) && n in Ids(ja.wf) && "a_" + n in Ids(jc.wf)
    requires FanIn(jc.wf, "a_" + n) == [] <==> FanIn(ja.wf, n) == []
    ensures Deliver(jc, "a_" + n, Renamed(input)) == RenamedOutcome(Deliver(ja, n, input))
  {
    hide Valid, Spliced, FanIn, AnswerAlike, MaxAttempts, TryFrom, NodeOf;
    SplicedNodeOf(ja.wf, b, jc.wf.id, jc.wf.name);
    var x, y := NodeOf(ja.wf, n), NodeOf(jc.wf, "a_" + n);
    TriesAlike(ja, b, jc, x, y, input, 1);
    SettlesAlike(x, y, TryFrom(ja, x, input, 1), TryFrom(jc, y, Renamed(input), 1));
  }

  lemma StepsAlike(ja: Job, b: Workflow, jc: Job, n: Id)
    requires RunsSplice(ja, b, jc) && n in Ids(ja.wf) && "a_" + n in Ids(jc.wf)
    requires Reachable(ja.wf, n) && Reachable(jc.wf, "a_" + n)
    requires forall p :: p in Producers(ja.wf, n) ==>
      p in Ids(ja.wf) && "a_" + p in Ids(jc.wf) && Out(jc, "a_" + p) == RenamedOutcome(Out(ja, p))
    requires forall p :: p in Producers(jc.wf, "a_" + n) <==> exists q :: q in Producers(ja.wf, n) && p == "a_" + q
    ensures Out(jc, "a_" + n) == RenamedOutcome(Out(ja, n))
  {
    hide Valid, Spliced, FanIn, AnswerAlike, Out, Deliver, Producers, Reachable, InputOf;
    OutUnfold(ja, n);
    OutUnfold(jc, "a_" + n);
    var ea, ec := ProducerOutcomes(ja, n), ProducerOutcomes(jc, "a_" + n);
    if p :| p in ea && Stuck(ea[p]) {
      assert "a_" + p in ec && Stuck(ec["a_" + p]);
    } else {
      forall p | p in ec ensures !Stuck(ec[p]) {
        var q :| q in Producers(ja.wf, n) && p == "a_" + q;
        assert q in ea;
      }
      OutputsRenamed(ja, jc, n, ea, ec);
      InputRenamed(ja, b, jc, n, Outputs(ea), Outputs(ec));
      DeliversAlike(ja, b, jc, n, InputOf(ja, n, Outputs(ea)));
    }
  }

  lemma OutputsRenamed(ja: Job, jc: Job, n: Id, ea: map<Id, Outcome>, ec: map<Id, Outcome>)
    requires ea.Keys == Producers(ja.wf, n)
    requires forall p :: p in ea ==> "a_" + p in ec && ec["a_" + p] == RenamedOutcome(ea[p])
    ensures OutsRenamed(Outputs(ea), Outputs(ec), FanIn(ja.wf, n))
  {
    hide FanIn, Renamed;
    forall e | e in FanIn(ja.wf, n) ensures e.fromNode in ea {
      assert Connection(e.fromNode, e.fromPort, n) in ja.wf.connections;
    }
  }

  /** Node by node, attempt by attempt: each copy of a left node comes to the end its original comes to alone, with
      the same error, or with the same items on the same ports. */
  lemma {:induction false} LeftRunsAsAlone(ja: Job, b: Workflow, jc: Job, n: Id)
    requires RunsSplice(ja, b, jc) && n in Ids(ja.wf)
    ensures "a_" + n in Ids(jc.wf) && Out(jc, "a_" + n) == RenamedOutcome(Out(ja, n))
    decreases RankOf(ja.wf)[n]
  {
    hide Spliced, Out, AnswerAlike, Reachable, NodeOf;
    SplicedNodeOf(ja.wf, b, jc.wf.id, jc.wf.name);
    ProducersAreNodes(ja.wf, n);
    forall p | p in Producers(ja.wf, n)
      ensures p in Ids(ja.wf) && "a_" + p in Ids(jc.wf) && Out(jc, "a_" + p) == RenamedOutcome(Out(ja, p))
      ensures Reachable(jc.wf, "a_" + p) <==> Reachable(ja.wf, p)
    {
      LeftRunsAsAlone(ja, b, jc, p);
      LeftIsReached(ja.wf, b, jc.wf.id, jc.wf.name, p);
    }
    LeftIsReached(ja.wf, b, jc.wf.id, jc.wf.name, n);
    LeftHasProducers(ja.wf, b, jc.wf.id, jc.wf.name, n);
    if Reachable(ja.wf, n) {
      StepsAlike(ja, b, jc, n);
    } else {
      OutSettled(ja, n);
      OutSettled(jc, "a_" + n);
    }
  }

  lemma LeftHasProducers(a: Workflow, b: Workflow, id: Id, name: string, n: Id)
    requires Valid(a) && Valid(b)
    ensures forall p :: p in Producers(Spliced(a, b, id, name), "a_" + n) <==> exists q :: q in Producers(a, n) && p == "a_" + q
  {
    hide Valid, Spliced, Producers;
    forall p ensures p in Producers(Spliced(a, b, id, name), "a_" + n) <==> exists q :: q in Producers(a, n) && p == "a_" + q {
      LeftProducers(a, b, id, name, n, p);
      PrefixRoundTrip(p);
      if q :| q in Producers(a, n) && p == "a_" + q { PrefixRoundTrip(q); }
    }
  }

  lemma {:induction false} LeftIsReached(a: Workflow, b: Workflow, id: Id, name: string, n: Id)
    requires Valid(a) && Valid(b) && Valid(Spliced(a, b, id, name)) && n in Ids(a)
    ensures Reachable(Spliced(a, b, id, name), "a_" + n) <==> Reachable(a, n)
    decreases RankOf(a)[n]
  {
    hide Spliced, Reachable;
    var w := Spliced(a, b, id, name);
    SpliceIsValid(a, b, id, name);
    ReachableLocally(a, n);
    ReachableLocally(w, "a_" + n);
    LeftHasProducers(a, b, id, name, n);
    PrefixRoundTrip(n);
    PrefixRoundTrip(TriggerId(a));
    forall p | p in Producers(a, n) ensures Reachable(w, "a_" + p) <==> Reachable(a, p) {
      LeftIsReached(a, b, id, name, p);
    }
  }
}
