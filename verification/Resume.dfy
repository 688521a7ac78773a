/** Lineage of gathered items, and what resuming a crashed run gives back. */
module Resume {
  import opened Wrappers
  import opened Sorting
  import opened Strings
  import opened Workflows
  import opened Items
  import opened Semantics
  import opened Events
  import opened Schedule
  import opened Confluence

  // ---- Lineage ----

  /** Every item names its own producer and its own position there. */
  ghost predicate Stamped(outs: map<Id, seq<Item>>) {
    forall p, i :: p in outs && 0 <= i < |outs[p]| ==> outs[p][i].source == Produced(p, i)
  }

  lemma OutputsStamped(job: Job, n: Id)
    requires Valid(job.wf) && Stamped(job.pinned) && n in Ids(job.wf) && Out(job, n).Done?
    ensures forall i :: 0 <= i < |Out(job, n).items| ==> Out(job, n).items[i].source == Produced(n, i)
  {
    hide Valid, TryFrom, InputOf, Out, Starved;
    OutSettled(job, n);
    if n !in job.pinned { OutUnfold(job, n); }
  }

  lemma FinalOutputsStamped(job: Job)
    requires Valid(job.wf) && Stamped(job.pinned)
    ensures Stamped(FinalOutputs(job))
  {
    hide Valid, Out;
    forall n | n in Ids(job.wf) && Out(job, n).Done?
      ensures forall i :: 0 <= i < |Out(job, n).items| ==> Out(job, n).items[i].source == Produced(n, i)
    {
      OutputsStamped(job, n);
    }
  }

  lemma {:induction false} OnPortNoDup(items: seq<Item>, port: nat)
    requires NoDup(items)
    ensures NoDup(OnPort(items, port))
  {
    if items != [] {
      var k := |items| - 1;
      OnPortNoDup(items[..k], port);
      assert items[k] !in items[..k];
    }
  }

  lemma StampedNoDup(outs: map<Id, seq<Item>>, p: Id)
    requires Stamped(outs) && p in outs
    ensures NoDup(outs[p])
  {
    forall i, j | 0 <= i < j < |outs[p]| ensures outs[p][i] != outs[p][j] {
      assert outs[p][i].source == Produced(p, i) && outs[p][j].source == Produced(p, j);
    }
  }

  /** Fan-in is exact: an item is gathered if and only if some producer emitted it on a connected port,
      its source leads back to that very item, and nothing is gathered twice. */
  lemma {:induction false} GatherIsExact(edges: seq<Edge>, outs: map<Id, seq<Item>>)
    requires Stamped(outs) && NoDup(edges)
    ensures NoDup(Gather(edges, outs))
    ensures forall x :: x in Gather(edges, outs) <==>
      x.source.Produced?
      && var p, i := x.source.nodeId, x.source.itemIndex;
         p in outs && i < |outs[p]| && outs[p][i] == x && Edge(p, x.port) in edges
  {
    if edges != [] {
      var k := |edges| - 1;
      var e := edges[k];
      assert edges == edges[..k] + [e];
      assert e !in edges[..k];
      GatherIsExact(edges[..k], outs);
      EmittedIsExact(e, outs);
      var before, added := Gather(edges[..k], outs), Emitted(outs, e);
      forall i, j | 0 <= i < |before| && 0 <= j < |added| ensures before[i] != added[j] {
        assert before[i] in before && added[j] in added;
      }
    }
  }

  lemma EmittedIsExact(e: Edge, outs: map<Id, seq<Item>>)
    requires Stamped(outs)
    ensures NoDup(Emitted(outs, e))
    ensures forall x :: x in Emitted(outs, e) <==>
      x.source.Produced? && x.port == e.fromPort && x.source.nodeId == e.fromNode
      && e.fromNode in outs && x.source.itemIndex < |outs[e.fromNode]| && outs[e.fromNode][x.source.itemIndex] == x
  {
    if e.fromNode in outs {
      StampedNoDup(outs, e.fromNode);
      OnPortNoDup(outs[e.fromNode], e.fromPort);
      forall x | x in outs[e.fromNode]
        ensures x.source.Produced? && x.source.nodeId == e.fromNode
        ensures x.source.itemIndex < |outs[e.fromNode]| && outs[e.fromNode][x.source.itemIndex] == x
      {
        var i :| 0 <= i < |outs[e.fromNode]| && outs[e.fromNode][i] == x;
        assert outs[e.fromNode][i].source == Produced(e.fromNode, i);
      }
    }
  }

  // ---- Resume ----

  /** The input of a scheduled node is exactly what its producers emitted on the connected ports, each
      item once, and each item's source leads back to it in the outputs. */
  lemma FanInIsExact(job: Job, n: Id)
    requires Valid(job.wf) && Stamped(job.pinned) && n in Ids(job.wf) && n != TriggerId(job.wf)
    ensures var outs := FinalOutputs(job);
            var input := InputOf(job, n, outs);
            && NoDup(input)
            && forall x :: x in input <==>
                 x.source.Produced?
                 && var p, i := x.source.nodeId, x.source.itemIndex;
                    p in outs && i < |outs[p]| && outs[p][i] == x && Connection(p, x.port, n) in job.wf.connections
  {
    hide Valid, Out, FinalOutputs, Stamped, Gather, FanIn;
    FinalOutputsStamped(job);
    FanInSorted(job.wf, n);
    GatherIsExact(FanIn(job.wf, n), FinalOutputs(job));
  }

  /** Items on one port keep the order in which they were emitted. */
  lemma {:induction false} OnPortInOrder(items: seq<Item>, port: nat, i: nat, j: nat) returns (a: nat, b: nat)
    requires i < j < |OnPort(items, port)|
    ensures a < b < |items| && items[a] == OnPort(items, port)[i] && items[b] == OnPort(items, port)[j]
  {
    var k := |items| - 1;
    var before := OnPort(items[..k], port);
    if j < |before| {
      a, b := OnPortInOrder(items[..k], port, i, j);
    } else {
      assert before[i] in items[..k];
      a :| 0 <= a < k && items[a] == before[i];
      b := k;
    }
  }

  /** What is gathered earlier comes along an earlier edge, or was emitted earlier along the same edge. */
  ghost predicate InFanInOrder(x: Item, y: Item) {
    && x.source.Produced? && y.source.Produced?
    && var d, e := Edge(x.source.nodeId, x.port), Edge(y.source.nodeId, y.port);
       EdgeLe(d, e) && (d == e ==> x.source.itemIndex < y.source.itemIndex)
  }

  lemma {:induction false} GatherInOrder(edges: seq<Edge>, outs: map<Id, seq<Item>>, i: nat, j: nat)
    requires Stamped(outs) && NoDup(edges) && Sorted(edges, EdgeLe) && i < j < |Gather(edges, outs)|
    ensures InFanInOrder(Gather(edges, outs)[i], Gather(edges, outs)[j])
  {
    hide EdgeLe;
    var k := |edges| - 1;
    var e := edges[k];
    var before, added := Gather(edges[..k], outs), Emitted(outs, e);
    var x, y := Gather(edges, outs)[i], Gather(edges, outs)[j];
    EmittedIsExact(e, outs);
    if j < |before| {
      GatherInOrder(edges[..k], outs, i, j);
    } else if i < |before| {
      GatherIsExact(edges[..k], outs);
      assert x in before && y in added;
      var d := Edge(x.source.nodeId, x.port);
      assert d in edges[..k];
      var m :| 0 <= m < k && edges[m] == d;
      assert EdgeLe(edges[m], edges[k]);
    } else {
      SameEdgeInOrder(e, outs, i - |before|, j - |before|);
      EdgeLeIsTotalOrder();
    }
  }

  lemma SameEdgeInOrder(e: Edge, outs: map<Id, seq<Item>>, i: nat, j: nat)
    requires Stamped(outs) && i < j < |Emitted(outs, e)|
    ensures var x, y := Emitted(outs, e)[i], Emitted(outs, e)[j];
            && x.source.Produced? && y.source.Produced? && x.source.nodeId == y.source.nodeId == e.fromNode
            && x.port == y.port == e.fromPort && x.source.itemIndex < y.source.itemIndex
  {
    var x, y := Emitted(outs, e)[i], Emitted(outs, e)[j];
    assert x in Emitted(outs, e) && y in Emitted(outs, e);
    var a, b := OnPortInOrder(outs[e.fromNode], e.fromPort, i, j);
    assert outs[e.fromNode][a].source == Produced(e.fromNode, a);
    assert outs[e.fromNode][b].source == Produced(e.fromNode, b);
  }

  /** Fan-in is ordered: by producer, compared code point by code point, then by port, then as emitted. */
  lemma FanInIsOrdered(job: Job, n: Id, i: nat, j: nat)
    requires Valid(job.wf) && Stamped(job.pinned) && n in Ids(job.wf) && n != TriggerId(job.wf)
    requires i < j < |InputOf(job, n, FinalOutputs(job))|
    ensures var x, y := InputOf(job, n, FinalOutputs(job))[i], InputOf(job, n, FinalOutputs(job))[j];
            && x.source.Produced? && y.source.Produced?
            && var p, q := x.source.nodeId, y.source.nodeId;
               if p == q then x.port < y.port || (x.port == y.port && x.source.itemIndex < y.source.itemIndex)
               else
                 || (|p| < |q| && q[..|p|] == p)
                 || exists k :: 0 <= k < |p| && k < |q| && p[..k] == q[..k] && p[k] < q[k]
  {
    hide Valid, Out, FinalOutputs, Stamped, Gather, FanIn, StrLe;
    FinalOutputsStamped(job);
    FanInSorted(job.wf, n);
    GatherInOrder(FanIn(job.wf, n), FinalOutputs(job), i, j);
    var x, y := InputOf(job, n, FinalOutputs(job))[i], InputOf(job, n, FinalOutputs(job))[j];
    var p, q := x.source.nodeId, y.source.nodeId;
    StrLeMeans(p, q);
    if |p| == |q| { assert q[..|p|] == q; }
    if k: nat :| SmallerAt(p, q, k) { assert p[..k] == q[..k] && p[k] < q[k]; }
  }

  /** The trigger receives what the run was started with, on port 0 and without lineage. */
  lemma TriggerInputIs(job: Job)
    requires Valid(job.wf)
    ensures var input := InputOf(job, TriggerId(job.wf), FinalOutputs(job));
            |input| == |job.seed| && forall i :: 0 <= i < |input| ==> input[i] == Item(job.seed[i], FromTrigger, 0)
  {
    hide Valid, Out;
  }

  /** `resumed` restarts `first` with no trigger input and with `pinned` hydrated: outputs of nodes that finished,
      and nothing for nodes recorded as unreachable. */
  ghost predicate Resumes(first: Job, resumed: Job)
    requires Valid(first.wf)
  {
    && resumed == first.(seed := [], pinned := resumed.pinned)
    && first.pinned.Keys <= resumed.pinned.Keys <= Ids(first.wf)
    && forall n :: n in resumed.pinned ==> Hydratable(Out(first, n), resumed.pinned[n])
  }

  ghost predicate Hydratable(outcome: Outcome, items: seq<Item>) {
    outcome == Done(items) || (outcome.Absent? && items == [])
  }

  /** An unreachable node that is hydrated counts as done with no output; nothing else changes. */
  ghost predicate SameButHydrated(before: Outcome, after: Outcome) {
    after == before || (before.Absent? && after == Done([]))
  }

  lemma {:induction false} ResumedOutcome(first: Job, resumed: Job, n: Id)
    requires Valid(first.wf) && Resumes(first, resumed) && TriggerId(first.wf) in resumed.pinned
    requires n in Ids(first.wf)
    ensures Out(resumed, n) == if n in resumed.pinned then Done(resumed.pinned[n]) else Out(first, n)
    ensures SameButHydrated(Out(first, n), Out(resumed, n))
    decreases RankOf(first.wf)[n]
  {
    hide Out, Reachable;
    ProducersAreNodes(first.wf, n);
    forall p | p in Producers(first.wf, n) ensures SameButHydrated(Out(first, p), Out(resumed, p)) {
      ResumedOutcome(first, resumed, p);
    }
    ResumedStep(first, resumed, n);
  }

  lemma ResumedStep(first: Job, resumed: Job, n: Id)
    requires Valid(first.wf) && Resumes(first, resumed) && TriggerId(first.wf) in resumed.pinned
    requires n in Ids(first.wf)
    requires forall p :: p in Producers(first.wf, n) && p in Ids(first.wf) ==> SameButHydrated(Out(first, p), Out(resumed, p))
    ensures Out(resumed, n) == if n in resumed.pinned then Done(resumed.pinned[n]) else Out(first, n)
    ensures SameButHydrated(Out(first, n), Out(resumed, n))
  {
    hide Valid, FanIn, TryFrom, Gather, StepOutcome, Out;
    OutSettled(first, n);
    OutSettled(resumed, n);
    if n !in resumed.pinned && Reachable(first.wf, n) {
      OutUnfold(first, n);
      OutUnfold(resumed, n);
      SeedMattersOnlyToTrigger(first, resumed, n, ProducerOutcomes(first, n));
      HydratedProducers(resumed, n, ProducerOutcomes(first, n), ProducerOutcomes(resumed, n));
    }
  }

  /** To a consumer a producer without output is as good as one that was never reached. */
  lemma HydratedProducers(job: Job, n: Id, env1: map<Id, Outcome>, env2: map<Id, Outcome>)
    requires Valid(job.wf) && n in Ids(job.wf) && env1.Keys == env2.Keys
    requires forall p :: p in env1 ==> SameButHydrated(env1[p], env2[p])
    ensures StepOutcome(job, n, env1) == StepOutcome(job, n, env2)
  {
    hide Valid, FanIn, TryFrom;
    GatherHydrated(FanIn(job.wf, n), env1, env2);
    forall p | p in env1 ensures Stuck(env1[p]) <==> Stuck(env2[p]) {}
  }

  lemma {:induction false} GatherHydrated(edges: seq<Edge>, env1: map<Id, Outcome>, env2: map<Id, Outcome>)
    requires env1.Keys == env2.Keys && forall p :: p in env1 ==> SameButHydrated(env1[p], env2[p])
    ensures Gather(edges, Outputs(env1)) == Gather(edges, Outputs(env2))
  {
    if edges != [] { GatherHydrated(edges[..|edges| - 1], env1, env2); }
  }

  lemma SeedMattersOnlyToTrigger(first: Job, resumed: Job, n: Id, env: map<Id, Outcome>)
    requires Valid(first.wf) && resumed == first.(seed := resumed.seed, pinned := resumed.pinned)
    requires n in Ids(first.wf) && n != TriggerId(first.wf)
    ensures StepOutcome(first, n, env) == StepOutcome(resumed, n, env)
  {
    hide Valid, FanIn, TryFrom, Gather;
    TryFromSameOracle(first, resumed, NodeOf(first.wf, n), InputOf(first, n, Outputs(env)), 1);
  }

  /** Crash at any moment of any schedule, hydrate any of the nodes recorded as finished so far, unreachable ones
      with no output, as long as the trigger is among them, and resume: the outputs are those the first run was
      heading for. */
  lemma ResumeEqualsFresh(first: Job, permits: nat, crashed: State, resumed: Job)
    requires JobOk(first) && Reached(first, permits, crashed)
    requires resumed == first.(seed := [], pinned := resumed.pinned)
    requires first.pinned.Keys <= resumed.pinned.Keys <= crashed.done
    requires forall n :: n in resumed.pinned ==>
      resumed.pinned[n] == if n in crashed.outputs then crashed.outputs[n] else []
    requires TriggerId(first.wf) in resumed.pinned
    ensures JobOk(resumed)
    ensures FinalOutputs(resumed) == FinalOutputs(first) + Empty(resumed.pinned.Keys - crashed.outputs.Keys)
    ensures forall n :: n in resumed.pinned && n !in crashed.outputs ==> n in Ids(first.wf) && Out(first, n).Absent?
    ensures Completes(resumed) <==> Completes(first)
  {
    hide Out, Valid, Reached, FinalOutputs, Completes, Empty, NodeAgrees;
    ReachedAgrees(first, permits, crashed);
    forall n | n in crashed.done
      ensures n in Ids(first.wf)
      ensures Out(first, n) == if n in crashed.outputs then Done(crashed.outputs[n]) else Absent
    {
      DoneAgrees(first, crashed, n);
    }
    HydratedAreDone(first, crashed, resumed);
    ResumedOutputs(first, resumed);
  }

  lemma HydratedAreDone(first: Job, crashed: State, resumed: Job)
    requires Valid(first.wf) && resumed.pinned.Keys <= crashed.done <= Ids(first.wf)
    requires forall n :: n in crashed.done ==>
      Out(first, n) == if n in crashed.outputs then Done(crashed.outputs[n]) else Absent
    ensures resumed.pinned.Keys - crashed.outputs.Keys == resumed.pinned.Keys - FinalOutputs(first).Keys
  {
    hide Out, Valid;
  }

  /** Nodes that are done without output. */
  function Empty(nodes: set<Id>): map<Id, seq<Item>> { map n | n in nodes :: [] }

  lemma DoneAgrees(job: Job, s: State, n: Id)
    requires JobOk(job) && Agrees(job, s) && n in s.done
    ensures n in Ids(job.wf) && Out(job, n) == if n in s.outputs then Done(s.outputs[n]) else Absent
  {
    hide Out, Valid, OnTrack;
    assert n in Ids(job.wf) && NodeAgrees(job, s, n);
  }

  lemma ResumedOutputs(first: Job, resumed: Job)
    requires Valid(first.wf) && Resumes(first, resumed) && TriggerId(first.wf) in resumed.pinned
    ensures FinalOutputs(resumed) == FinalOutputs(first) + Empty(resumed.pinned.Keys - FinalOutputs(first).Keys)
    ensures Completes(resumed) <==> Completes(first)
  {
    hide Out, Valid;
    forall n | n in Ids(first.wf)
      ensures Out(resumed, n) == if n in resumed.pinned then Done(resumed.pinned[n]) else Out(first, n)
    {
      ResumedOutcome(first, resumed, n);
    }
  }

  /** Side effects do not fire again: a hydrated node only ever has its Resumed event. */
  lemma {:induction false} HydratedNeverRuns(job: Job, permits: nat, run: seq<State>, i: nat, n: Id)
    requires JobOk(job) && IsRun(job, permits, run) && i < |run| && n in job.pinned
    ensures Trace(run[i].log, n) == [ResumedEvent(n, |job.pinned[n]|)]
  {
    hide Step, Reachable, Agrees, HydrationLog, UnreachedLog;
    if i == 0 {
      HydrationTrace(job, job.wf.nodes, n);
      UnreachedTrace(job, job.wf.nodes, n);
      TraceConcat(HydrationLog(job, job.wf.nodes), UnreachedLog(job, job.wf.nodes), n);
      assert exists x :: x in job.wf.nodes && x.id == n;
    } else {
      HydratedNeverRuns(job, permits, run, i - 1, n);
      assert CanStep(job, permits, run[i - 1], run[i - 1 + 1]);
      var m :| Step(job, permits, run[i - 1], run[i], m);
      RunAgrees(job, permits, run, i - 1);
      HydratedUntouched(job, permits, run[i - 1], run[i], m, n);
    }
  }

  lemma HydratedUntouched(job: Job, permits: nat, s: State, t: State, m: Id, n: Id)
    requires JobOk(job) && Agrees(job, s) && Step(job, permits, s, t, m) && n in job.pinned
    ensures Trace(t.log, n) == Trace(s.log, n)
  {
    hide Valid, Out, OnTrack, Skip, Start, FailAttempt, Finish, Trace;
    var e := StepIsLocal(job, permits, s, t, m);
    assert NodeAgrees(job, s, n);
    assert m != n by {
      StepTouchesPending(job, permits, s, t, m);
    }
    TraceAppend(s.log, e, n);
  }

  lemma StepTouchesPending(job: Job, permits: nat, s: State, t: State, m: Id)
    requires JobOk(job) && Agrees(job, s) && Step(job, permits, s, t, m)
    ensures m !in s.done
  {
    hide Valid, Out, OnTrack, InputOf, Starved, Settle;
    if m in s.active { assert m in Ids(job.wf) && NodeAgrees(job, s, m); }
  }

  /** The trigger has to be hydrated: a resume that re-runs a pass-through trigger seeds it with nothing,
      so it reproduces the first run if and only if the first run had no input to begin with. */
  lemma ResumeWithoutTrigger(first: Job, resumed: Job)
    requires Valid(first.wf) && resumed == first.(seed := [], pinned := resumed.pinned)
    requires TriggerId(first.wf) !in resumed.pinned && TriggerId(first.wf) !in first.pinned
    requires forall input :: first.oracle(NodeOf(first.wf, TriggerId(first.wf)), first.mode, 1, input) == Ok(input)
    ensures Out(resumed, TriggerId(first.wf)) == Out(first, TriggerId(first.wf)) <==> first.seed == []
  {
    TriggerOutcome(first);
    TriggerOutcome(resumed);
    assert |Out(first, TriggerId(first.wf)).items| == |first.seed|;
  }

  lemma TriggerHasNoEdges(w: Workflow)
    requires Valid(w)
    ensures Producers(w, TriggerId(w)) == {} && FanIn(w, TriggerId(w)) == []
  {
    hide PortsInRange, Acyclic, UniqueIds;
    var t := TriggerId(w);
    var node := FindTrigger(w.nodes).value;
    forall c | c in w.connections ensures c.toNode != t {
      assert c.toNode == node.id ==> !node.kind.IsTrigger();
    }
    NonemptyHasMember(FanIn(w, t));
  }

  lemma TriggerOutcome(job: Job)
    requires Valid(job.wf) && TriggerId(job.wf) !in job.pinned
    requires forall input :: job.oracle(NodeOf(job.wf, TriggerId(job.wf)), job.mode, 1, input) == Ok(input)
    ensures Out(job, TriggerId(job.wf)) == Done(Stamp(TriggerId(job.wf), Roots(job.seed)))
  {
    hide Valid, NodeOf, FanIn, Gather;
    var t := TriggerId(job.wf);
    TriggerHasNoEdges(job.wf);
    ReachesSelf(job.wf, t);
    OutUnfold(job, t);
    assert ProducerOutcomes(job, t) == map[];
    assert StepOutcome(job, t, map[]) == Settle(NodeOf(job.wf, t), TryFrom(job, NodeOf(job.wf, t), Roots(job.seed), 1));
  }
}
