/** Waves: which nodes are runnable after so many rounds, told by walks alone. */
module Waves {
  import opened Wrappers
  import opened Workflows
  import opened Items
  import opened Semantics
  import opened Events
  import opened Schedule
  import opened Confluence

  /** No walk from the trigger to `n` has more than `k` nodes. */
  ghost predicate WithinDepth(w: Workflow, n: Id, k: nat)
    requires Valid(w)
  {
    forall p :: WalkFromTo(w, p, TriggerId(w), n) ==> |p| <= k
  }

  /** The nodes that are done once `k` waves of a fresh run have passed. */
  ghost function DoneAfter(w: Workflow, k: nat): set<Id>
    requires Valid(w)
  {
    set n | n in Ids(w) && WithinDepth(w, n, k)
  }

  /** The nodes whose longest walk from the trigger has exactly `k` nodes. */
  ghost function WaveOf(w: Workflow, k: nat): set<Id>
    requires Valid(w) && k > 0
  {
    DoneAfter(w, k) - DoneAfter(w, k - 1)
  }

  lemma UnreachedIsDepthZero(w: Workflow)
    requires Valid(w)
    ensures DoneAfter(w, 0) == Unreached(w)
  {
    hide Valid;
    forall n | n in Ids(w) ensures WithinDepth(w, n, 0) <==> !Reachable(w, n) {
      if Reachable(w, n) {
        var p :| WalkFromTo(w, p, TriggerId(w), n);
        assert !WithinDepth(w, n, 0);
      }
    }
  }

  lemma DeeperByOne(w: Workflow, p: Id, n: Id, k: nat)
    requires Valid(w) && (p, n) in Edges(w) && WithinDepth(w, n, k + 1)
    ensures WithinDepth(w, p, k)
  {
    hide Valid;
    forall q | WalkFromTo(w, q, TriggerId(w), p) ensures |q| <= k {
      assert WalkFromTo(w, q + [n], TriggerId(w), n);
    }
  }

  lemma WithinDepthFromProducers(w: Workflow, n: Id, k: nat)
    requires Valid(w) && n in Ids(w)
    requires forall p :: p in Producers(w, n) ==> WithinDepth(w, p, k)
    ensures WithinDepth(w, n, k + 1)
  {
    hide Valid;
    forall q | WalkFromTo(w, q, TriggerId(w), n) ensures |q| <= k + 1 {
      if |q| > 1 {
        var i := |q| - 2;
        assert (q[i], q[i + 1]) in Edges(w);
        var c :| c in w.connections && c.fromNode == q[i] && c.toNode == q[i + 1];
        assert q[i] in Producers(w, n);
        assert WalkFromTo(w, q[..i + 1], TriggerId(w), q[i]);
      }
    }
  }

  /** One wave: exactly the nodes one step deeper become runnable. */
  lemma WaveIsNextDepth(job: Job, s: State, k: nat, n: Id)
    requires JobOk(job) && s.active == map[] && s.failed == map[] && s.done == DoneAfter(job.wf, k)
    requires n in Ids(job.wf)
    ensures Runnable(job, s, n) <==> n in WaveOf(job.wf, k + 1)
  {
    hide Valid, WithinDepth;
    var w := job.wf;
    ProducersAreNodes(w, n);
    if Producers(w, n) <= s.done { WithinDepthFromProducers(w, n, k); }
    if WithinDepth(w, n, k + 1) {
      forall p | p in Producers(w, n) ensures WithinDepth(w, p, k) {
        var c :| c in w.connections && c.fromNode == p && c.toNode == n;
        DeeperByOne(w, p, n, k);
      }
    }
  }

  lemma DepthGrows(w: Workflow, k: nat)
    requires Valid(w)
    ensures DoneAfter(w, k) <= DoneAfter(w, k + 1)
  {
    hide Valid;
    forall n | n in DoneAfter(w, k) ensures WithinDepth(w, n, k + 1) {
      assert WithinDepth(w, n, k);
    }
  }

  /** The number of waves is the number of nodes on the longest walk from the trigger. */
  lemma LastWaveHasLongestWalk(w: Workflow, k: nat)
    requires Valid(w) && DoneAfter(w, k + 1) == Ids(w) && DoneAfter(w, k) != Ids(w)
    ensures forall p :: IsWalk(w, p) && p[0] == TriggerId(w) ==> |p| <= k + 1
    ensures exists p :: IsWalk(w, p) && p[0] == TriggerId(w) && |p| == k + 1
  {
    hide Valid;
    forall p | IsWalk(w, p) && p[0] == TriggerId(w) ensures |p| <= k + 1 {
      WalkStaysInside(w, p);
      assert WithinDepth(w, p[|p| - 1], k + 1);
      assert WalkFromTo(w, p, TriggerId(w), p[|p| - 1]);
    }
    var n :| n in Ids(w) && !WithinDepth(w, n, k);
    var p :| WalkFromTo(w, p, TriggerId(w), n) && |p| > k;
    assert |p| == k + 1;
  }

  lemma WalkStaysInside(w: Workflow, p: seq<Id>)
    requires Valid(w) && IsWalk(w, p) && p[0] in Ids(w)
    ensures p[|p| - 1] in Ids(w)
  {
    RankRisesAlongWalk(w, RankOf(w), p);
  }

  // ---- The waves of any run, fresh or resumed ----

  /** The nodes that are done once `k` waves have passed. */
  ghost function DoneBy(job: Job, k: nat): set<Id>
    requires JobOk(job)
  {
    if k == 0 then Init(job).done
    else DoneBy(job, k - 1) + set n | n in Ids(job.wf) && Producers(job.wf, n) <= DoneBy(job, k - 1)
  }

  /** The nodes of wave `k`, counted from 0. */
  ghost function WaveAt(job: Job, k: nat): set<Id>
    requires JobOk(job)
  {
    DoneBy(job, k + 1) - DoneBy(job, k)
  }

  lemma DoneByGrows(job: Job, j: nat, k: nat)
    requires JobOk(job) && j <= k
    ensures DoneBy(job, j) <= DoneBy(job, k) <= Ids(job.wf)
    decreases k
  {
    hide Valid, Producers;
    if j < k { DoneByGrows(job, j, k - 1); } else if k > 0 { DoneByGrows(job, 0, k - 1); }
  }

  lemma RunnableIsWave(job: Job, s: State, k: nat, n: Id)
    requires JobOk(job) && s.active == map[] && s.failed == map[] && s.done == DoneBy(job, k)
    ensures Runnable(job, s, n) <==> n in WaveAt(job, k)
  {
    hide Valid, Producers;
    DoneByGrows(job, k, k + 1);
  }

  lemma WaveIsDepth(job: Job, k: nat)
    requires JobOk(job) && DoneBy(job, k) == DoneAfter(job.wf, k)
    ensures WaveAt(job, k) == WaveOf(job.wf, k + 1) && DoneBy(job, k + 1) == DoneAfter(job.wf, k + 1)
  {
    hide Valid, Reachable, Runnable, DoneAfter, DoneBy, Init;
    var w := job.wf;
    var s := Init(job).(done := DoneBy(job, k), active := map[], failed := map[]);
    DoneByGrows(job, k, k + 1);
    DepthGrows(w, k);
    DoneAreNodes(w, k + 1);
    forall n | n in Ids(w) ensures n in WaveAt(job, k) <==> n in WaveOf(w, k + 1) {
      RunnableIsWave(job, s, k, n);
      WaveIsNextDepth(job, s, k, n);
    }
    assert DoneBy(job, k + 1) == DoneBy(job, k) + WaveAt(job, k);
    assert DoneAfter(w, k + 1) == DoneAfter(w, k) + WaveOf(w, k + 1);
  }

  /** In a fresh run the waves are the depths. */
  lemma {:induction false} FreshWaves(job: Job, k: nat)
    requires JobOk(job) && job.pinned == map[]
    ensures DoneBy(job, k) == DoneAfter(job.wf, k)
    ensures WaveAt(job, k) == WaveOf(job.wf, k + 1)
  {
    hide Valid, Reachable, DoneAfter, WaveAt, WaveOf;
    if k == 0 { UnreachedIsDepthZero(job.wf); } else { FreshWaves(job, k - 1); WaveIsDepth(job, k - 1); }
    WaveIsDepth(job, k);
  }

  lemma DoneAreNodes(w: Workflow, k: nat)
    requires Valid(w)
    ensures DoneAfter(w, k) <= Ids(w)
  {
    hide Valid, WithinDepth;
  }

  // ---- Waves in the event log ----

  /** The segment of the log that one wave writes: events of its nodes alone, and for each the complete trace. */
  ghost predicate IsWave(job: Job, wave: set<Id>, segment: seq<StepEvent>) {
    && wave <= Ids(job.wf)
    && (forall e :: e in segment ==> e.nodeId in wave)
    && forall n :: n in wave ==> CompleteTrace(Trace(segment, n), MaxAttempts(job.mode, NodeOf(job.wf, n)))
  }

  ghost function Flatten(segments: seq<seq<StepEvent>>): seq<StepEvent> {
    if segments == [] then [] else Flatten(segments[..|segments| - 1]) + segments[|segments| - 1]
  }

  /** Behind what is logged for hydrated and unreached nodes the log is cut into the waves of the run, in order. */
  ghost predicate InWaves(job: Job, log: seq<StepEvent>, segments: seq<seq<StepEvent>>)
    requires JobOk(job)
  {
    && log == Init(job).log + Flatten(segments)
    && forall k :: 0 <= k < |segments| ==> IsWave(job, WaveAt(job, k), segments[k])
  }

  lemma InWavesNext(job: Job, log: seq<StepEvent>, segments: seq<seq<StepEvent>>, segment: seq<StepEvent>)
    requires JobOk(job) && InWaves(job, log, segments) && IsWave(job, WaveAt(job, |segments|), segment)
    ensures InWaves(job, log + segment, segments + [segment])
  {
    hide JobOk, IsWave, WaveAt, Init;
    var longer := segments + [segment];
    assert longer[..|longer| - 1] == segments;
  }

  /** Nothing follows a complete trace. */
  lemma CompleteIsFinal(a: seq<StepEvent>, b: seq<StepEvent>, attempts: nat)
    requires CompleteTrace(a, attempts) && CompleteTrace(a + b, attempts)
    ensures b == []
  {
    var t := a + b;
    var front := t[..|t| - 1];
    assert forall i :: 0 <= i < |front| ==> front[i] == t[i];
    assert t[|a| - 1] == a[|a| - 1];
  }

  lemma TraceOfNothing(segment: seq<StepEvent>, n: Id)
    requires Trace(segment, n) == []
    ensures forall e :: e in segment ==> e.nodeId != n
  {
    hide Trace;
    TraceMembers(segment, n);
    forall e | e in segment ensures e.nodeId != n {
      assert e.nodeId == n ==> e in Trace(segment, n);
    }
  }

  /** What is logged between two moments at rest is one wave, if exactly its nodes came to an end in between. */
  lemma SegmentIsWave(job: Job, permits: nat, s: State, t: State, wave: set<Id>)
    requires JobOk(job) && Reached(job, permits, s) && Reached(job, permits, t)
    requires s.active == map[] && s.failed == map[] && t.active == map[] && s.log <= t.log
    requires wave !! s.done && wave <= Ids(job.wf) && t.done + t.failed.Keys == s.done + wave
    ensures IsWave(job, wave, t.log[|s.log|..])
  {
    hide Valid, Reached, Trace, CompleteTrace, StartsInOrder;
    ReachedLogOk(job, permits, s);
    ReachedLogOk(job, permits, t);
    var segment := t.log[|s.log|..];
    assert t.log == s.log + segment;
    forall n | n in Ids(job.wf)
      ensures n in wave ==> CompleteTrace(Trace(segment, n), MaxAttempts(job.mode, NodeOf(job.wf, n)))
      ensures n !in wave ==> forall e :: e in segment ==> e.nodeId != n
    {
      SegmentTrace(job, s, t, n, segment);
      if n !in wave { TraceOfNothing(segment, n); }
    }
    forall e | e in segment ensures e.nodeId in wave { assert e in t.log; }
  }

  lemma SegmentTrace(job: Job, s: State, t: State, n: Id, segment: seq<StepEvent>)
    requires n in Ids(job.wf) && TraceOk(job, s, n) && TraceOk(job, t, n) && t.log == s.log + segment
    requires s.active == map[] && s.failed == map[] && t.active == map[]
    requires n in s.done ==> n in t.done || n in t.failed
    ensures n in s.done || !(n in t.done || n in t.failed) ==> Trace(segment, n) == []
    ensures n !in s.done && (n in t.done || n in t.failed) ==>
      CompleteTrace(Trace(segment, n), MaxAttempts(job.mode, NodeOf(job.wf, n)))
  {
    hide Trace, CompleteTrace, MaxAttempts, NodeOf;
    TraceConcat(s.log, segment, n);
    if n in s.done {
      CompleteIsFinal(Trace(s.log, n), Trace(segment, n), MaxAttempts(job.mode, NodeOf(job.wf, n)));
    } else {
      assert Trace(s.log, n) == [];
      assert [] + Trace(segment, n) == Trace(segment, n);
    }
  }

  // ---- Which failure a run reports ----

  ghost predicate Before(nodes: seq<Node>, a: Id, b: Id) {
    exists i, j :: 0 <= i < j < |nodes| && nodes[i].id == a && nodes[j].id == b
  }

  /** The first node of the wave, in order of declaration, that fails under a policy that stops the run. */
  ghost predicate FirstFailing(job: Job, wave: set<Id>, n: Id)
    requires JobOk(job) && wave <= Ids(job.wf)
  {
    n in wave && Out(job, n).Failed? && forall m :: m in wave && Before(job.wf.nodes, m, n) ==> !Out(job, m).Failed?
  }

  /** Wave `k` is the first in which a node fails, and `n` is the first of those. */
  ghost predicate StopsAt(job: Job, k: nat, n: Id)
    requires JobOk(job)
  {
    DoneByGrows(job, k, k + 1);
    FirstFailing(job, WaveAt(job, k), n) && forall m :: m in DoneBy(job, k) ==> !Out(job, m).Failed?
  }

  lemma OneBeforeTheOther(nodes: seq<Node>, a: Id, b: Id)
    requires (exists x :: x in nodes && x.id == a) && (exists x :: x in nodes && x.id == b) && a != b
    ensures Before(nodes, a, b) || Before(nodes, b, a)
  {
    var x :| x in nodes && x.id == a;
    var y :| y in nodes && y.id == b;
    var i :| 0 <= i < |nodes| && nodes[i] == x;
    var j :| 0 <= j < |nodes| && nodes[j] == y;
    if i < j { assert nodes[i].id == a && nodes[j].id == b; } else { assert nodes[j].id == b && nodes[i].id == a; }
  }

  /** There is one such wave and one such node at most. */
  lemma StopIsUnique(job: Job, j: nat, m: Id, k: nat, n: Id)
    requires JobOk(job) && StopsAt(job, j, m) && StopsAt(job, k, n)
    ensures j == k && m == n
  {
    hide JobOk, Out, DoneBy, Before;
    DoneByGrows(job, j, j + 1);
    DoneByGrows(job, k, k + 1);
    if j < k { DoneByGrows(job, j + 1, k); }
    if k < j { DoneByGrows(job, k + 1, j); }
    if m != n {
      NodeIsListed(job.wf, m);
      NodeIsListed(job.wf, n);
      OneBeforeTheOther(job.wf.nodes, m, n);
    }
  }

  lemma NodeIsListed(w: Workflow, n: Id)
    requires n in Ids(w)
    ensures exists x :: x in w.nodes && x.id == n
  {}
}
