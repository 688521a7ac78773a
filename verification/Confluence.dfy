/** Consequences for whole schedules: the result does not depend on the interleaving, no schedule gets
    stuck before its work is done, every schedule ends, and the event log is well formed. */
module Confluence {
  import opened Wrappers
  import opened Workflows
  import opened Items
  import opened Semantics
  import opened Events
  import opened Schedule

  // ---- Progress ----

  ghost predicate Quiescent(job: Job, permits: nat, s: State)
    requires JobOk(job)
  {
    forall t, n :: !Step(job, permits, s, t, n)
  }

  lemma ActiveCanStep(job: Job, permits: nat, s: State, n: Id) returns (t: State)
    requires JobOk(job) && n in s.active && n in Ids(job.wf)
    ensures Step(job, permits, s, t, n)
  {
    hide JobOk, CurrentReply, MaxAttempts;
    var a := s.active[n];
    if WillRecordAttempt(job, n, a) {
      var max := MaxAttempts(job.mode, NodeOf(job.wf, n));
      t := s.(active := s.active[n := a.(failures := a.failures + 1)],
              log := s.log + [AttemptEvent(n, |a.input|, a.failures + 1, max, CurrentReply(job, n, a).error)]);
      assert FailAttempt(job, s, t, n);
    } else {
      var reply := CurrentReply(job, n, a);
      t := s.(active := s.active - {n}, log := s.log + [ClosingEvent(n, |a.input|, reply)]);
      match Settle(NodeOf(job.wf, n), reply) {
        case Done(items) => t := t.(outputs := t.outputs[n := items], done := t.done + {n});
        case Failed(e) => t := t.(failed := t.failed[n := e]);
      }
      assert Finish(job, s, t, n);
    }
  }

  lemma RunnableCanStep(job: Job, permits: nat, s: State, n: Id) returns (t: State)
    requires JobOk(job) && Runnable(job, s, n) && |s.active| < permits
    ensures Step(job, permits, s, t, n)
  {
    hide Valid, InputOf, Starved;
    var input := InputOf(job, n, s.outputs);
    if Starved(job.wf, n, input) {
      t := s.(outputs := s.outputs[n := []], done := s.done + {n}, log := s.log + [SkippedEvent(n, NoInput)]);
      assert Skip(job, s, t, n);
    } else {
      t := s.(active := s.active[n := Activity(input, 0)], log := s.log + [StartedEvent(n, |input|)]);
      assert Start(job, permits, s, t, n);
    }
  }

  /** When nothing is active and nothing can start, whatever is neither done nor failed is blocked. */
  lemma {:induction false} UnrunnableIsBlocked(job: Job, s: State, n: Id)
    requires JobOk(job) && Agrees(job, s)
    requires s.active == map[] && forall m :: !Runnable(job, s, m)
    requires n in Ids(job.wf) && n !in s.done && n !in s.failed
    ensures Out(job, n) == Blocked
    decreases RankOf(job.wf)[n]
  {
    hide Out, OnTrack;
    assert NodeAgrees(job, s, n);
    assert !Runnable(job, s, n);
    var p :| p in Producers(job.wf, n) && p !in s.done;
    ProducersAreNodes(job.wf, n);
    assert NodeAgrees(job, s, p);
    var c :| c in job.wf.connections && c.fromNode == p && c.toNode == n;
    if p !in s.failed {
      UnrunnableIsBlocked(job, s, p);
    }
    FailureBlocksConsumer(job, p, n);
  }

  lemma QuiescentIsIdle(job: Job, permits: nat, s: State)
    requires JobOk(job) && permits >= 1 && Agrees(job, s) && Quiescent(job, permits, s)
    ensures s.active == map[] && forall m :: !Runnable(job, s, m)
  {
    hide Out, Step, Runnable, JobOk, NodeAgrees;
    if n :| n in s.active {
      var t := ActiveCanStep(job, permits, s, n);
      assert false;
    }
    if n :| Runnable(job, s, n) {
      var t := RunnableCanStep(job, permits, s, n);
      assert false;
    }
  }

  lemma IdleNode(job: Job, s: State, n: Id)
    requires JobOk(job) && Agrees(job, s)
    requires s.active == map[] && forall m :: !Runnable(job, s, m)
    requires n in Ids(job.wf)
    ensures n in s.failed <==> Out(job, n).Failed?
    ensures n in s.done <==> Out(job, n).Done? || Out(job, n).Absent?
    ensures n in s.outputs <==> Out(job, n).Done?
    ensures n in s.outputs ==> Out(job, n) == Done(s.outputs[n])
  {
    hide Out, JobOk, OnTrack, Runnable;
    assert NodeAgrees(job, s, n);
    if n !in s.done && n !in s.failed { UnrunnableIsBlocked(job, s, n); }
  }

  /** Confluence. Whatever the interleaving and the permit bound, a schedule that can go no further has
      the outputs of the denotation, and has failed exactly the nodes the denotation fails. */
  lemma Confluent(job: Job, permits: nat, s: State)
    requires JobOk(job) && permits >= 1 && Reached(job, permits, s) && Quiescent(job, permits, s)
    ensures s.outputs == FinalOutputs(job)
    ensures forall n :: n in Ids(job.wf) ==> (n in s.failed <==> Out(job, n).Failed?)
    ensures forall n :: n in Ids(job.wf) ==> (n in s.done <==> Out(job, n).Done? || Out(job, n).Absent?)
  {
    hide Out, Valid, OnTrack, Runnable, NodeAgrees;
    ReachedAgrees(job, permits, s);
    QuiescentIsIdle(job, permits, s);
    forall n | n in Ids(job.wf)
      ensures n in s.failed <==> Out(job, n).Failed?
      ensures n in s.done <==> Out(job, n).Done? || Out(job, n).Absent?
      ensures n in s.outputs <==> Out(job, n).Done?
      ensures n in s.outputs ==> Out(job, n) == Done(s.outputs[n])
    {
      IdleNode(job, s, n);
    }
  }

  /** Any two schedules of one job, under any two permit bounds, end with the same outputs, the same
      failures and the same finished nodes. */
  lemma SchedulesAgree(job: Job, permits1: nat, s1: State, permits2: nat, s2: State)
    requires JobOk(job) && permits1 >= 1 && permits2 >= 1
    requires Reached(job, permits1, s1) && Quiescent(job, permits1, s1)
    requires Reached(job, permits2, s2) && Quiescent(job, permits2, s2)
    ensures s1.outputs == s2.outputs && s1.failed == s2.failed && s1.done == s2.done
  {
    hide Out, Step, JobOk, OnTrack, Reached, Quiescent, FinalOutputs;
    Confluent(job, permits1, s1);
    Confluent(job, permits2, s2);
    ReachedAgrees(job, permits1, s1);
    ReachedAgrees(job, permits2, s2);
    forall n | n in Ids(job.wf)
      ensures (n in s1.failed <==> n in s2.failed) && (n in s1.done <==> n in s2.done)
      ensures n in s1.failed ==> s1.failed[n] == s2.failed[n]
    {
      assert NodeAgrees(job, s1, n) && NodeAgrees(job, s2, n);
    }
  }

  /** Progress: as long as nothing has failed and some node is not done, the scheduler can move. */
  lemma NeverStuck(job: Job, permits: nat, s: State)
    requires JobOk(job) && permits >= 1 && Reached(job, permits, s)
    requires s.failed == map[] && s.done != Ids(job.wf)
    ensures !Quiescent(job, permits, s)
  {
    hide Out, Step, Quiescent, OnTrack, NodeAgrees, Valid;
    ReachedAgrees(job, permits, s);
    if Quiescent(job, permits, s) {
      Confluent(job, permits, s);
      forall n | n in Ids(job.wf) ensures n in s.done {
        CompletesMeansUnblocked(job, n);
      }
    }
  }

  // ---- Termination ----

  /** Events a node may still record. */
  ghost function Left(job: Job, s: State, node: Node): nat {
    var max := MaxAttempts(job.mode, node);
    if node.id in s.done || node.id in s.failed then 0
    else if node.id in s.active then 1 + (if s.active[node.id].failures <= max then max - s.active[node.id].failures else 0)
    else 2 + max
  }

  ghost function LeftInAll(job: Job, s: State, nodes: seq<Node>): nat {
    if nodes == [] then 0
    else LeftInAll(job, s, nodes[..|nodes| - 1]) + Left(job, s, nodes[|nodes| - 1])
  }

  lemma {:induction false} LeftDrops(job: Job, s: State, t: State, n: Id, node: Node, nodes: seq<Node>)
    requires forall m :: m != n ==> SameAt(s, t, m)
    requires forall x :: x in nodes && x.id == n ==> x == node
    requires Left(job, t, node) < Left(job, s, node)
    ensures LeftInAll(job, t, nodes) <= LeftInAll(job, s, nodes)
    ensures node in nodes && node.id == n ==> LeftInAll(job, t, nodes) < LeftInAll(job, s, nodes)
  {
    if nodes != [] {
      var x := nodes[|nodes| - 1];
      LeftDrops(job, s, t, n, node, nodes[..|nodes| - 1]);
      assert nodes == nodes[..|nodes| - 1] + [x];
      if x.id != n { assert SameAt(s, t, x.id); }
    }
  }

  // ---- The event log ----

  ghost predicate TraceOk(job: Job, s: State, n: Id)
    requires n in Ids(job.wf)
  {
    var max := MaxAttempts(job.mode, NodeOf(job.wf, n));
    if n in s.done || n in s.failed then CompleteTrace(Trace(s.log, n), max)
    else if n in s.active then OpenTrace(Trace(s.log, n), max) && |Trace(s.log, n)| == 1 + s.active[n].failures
    else Trace(s.log, n) == []
  }

  /** No node starts before each of its producers has recorded its last event. */
  ghost predicate StartsInOrder(w: Workflow, log: seq<StepEvent>) {
    forall i, p :: 0 <= i < |log| && log[i].kind.StepStarted? && p in Producers(w, log[i].nodeId)
      ==> ClosedBefore(log, i, p)
  }

  ghost predicate ClosedBefore(log: seq<StepEvent>, i: nat, p: Id) {
    exists j :: 0 <= j < i && j < |log| && log[j].nodeId == p && IsTerminal(log[j])
  }

  ghost predicate LogOk(job: Job, s: State) {
    && (forall n :: n in Ids(job.wf) ==> TraceOk(job, s, n))
    && StartsInOrder(job.wf, s.log)
    && forall e :: e in s.log ==> e.nodeId in Ids(job.wf)
  }

  /** The log starts with one Finished event for each hydrated and each unreachable node. */
  lemma {:induction false} HydrationTrace(job: Job, nodes: seq<Node>, n: Id)
    requires forall i, j :: 0 <= i < j < |nodes| ==> nodes[i].id != nodes[j].id
    ensures Trace(HydrationLog(job, nodes), n) ==
            if n in job.pinned && exists x :: x in nodes && x.id == n then [ResumedEvent(n, |job.pinned[n]|)] else []
  {
    if nodes != [] {
      var k := |nodes| - 1;
      assert nodes == nodes[..k] + [nodes[k]];
      HydrationTrace(job, nodes[..k], n);
      LastOrBefore(nodes, n);
      var m := nodes[k].id;
      if m in job.pinned {
        TraceAppend(HydrationLog(job, nodes[..k]), ResumedEvent(m, |job.pinned[m]|), n);
      }
    }
  }

  lemma LastOrBefore(nodes: seq<Node>, n: Id)
    requires nodes != [] && forall i, j :: 0 <= i < j < |nodes| ==> nodes[i].id != nodes[j].id
    ensures var k := |nodes| - 1;
            && (nodes[k].id == n ==> forall x :: x in nodes[..k] ==> x.id != n)
            && ((exists x :: x in nodes && x.id == n) <==> nodes[k].id == n || exists x :: x in nodes[..k] && x.id == n)
  {
    assert nodes == nodes[..|nodes| - 1] + [nodes[|nodes| - 1]];
  }

  lemma {:induction false} UnreachedTrace(job: Job, nodes: seq<Node>, n: Id)
    requires Valid(job.wf)
    requires forall i, j :: 0 <= i < j < |nodes| ==> nodes[i].id != nodes[j].id
    ensures Trace(UnreachedLog(job, nodes), n) ==
            if n !in job.pinned && !Reachable(job.wf, n) && (exists x :: x in nodes && x.id == n)
            then [SkippedEvent(n, Note.Unreachable)] else []
  {
    hide Valid, Reachable;
    if nodes != [] {
      hide Trace;
      var k := |nodes| - 1;
      assert nodes == nodes[..k] + [nodes[k]];
      UnreachedTrace(job, nodes[..k], n);
      var m := nodes[k].id;
      LastOrBefore(nodes, n);
      TraceAppend(UnreachedLog(job, nodes[..k]), SkippedEvent(m, Note.Unreachable), n);
    }
  }

  lemma LoggedIsNode(job: Job, e: StepEvent)
    requires JobOk(job) && e in Init(job).log
    ensures e.nodeId in Ids(job.wf)
  {
    hide HydrationLog, UnreachedLog, Trace, Reachable, Acyclic, PortsInRange, NoDangling;
    var nodes := job.wf.nodes;
    HydrationTrace(job, nodes, e.nodeId);
    UnreachedTrace(job, nodes, e.nodeId);
    TraceMembers(HydrationLog(job, nodes), e.nodeId);
    TraceMembers(UnreachedLog(job, nodes), e.nodeId);
    var x :| x in nodes && x.id == e.nodeId;
  }

  lemma LogOkInit(job: Job)
    requires JobOk(job)
    ensures LogOk(job, Init(job))
  {
    hide HydrationLog, UnreachedLog, Trace, Reachable, Acyclic, PortsInRange, NoDangling;
    var s := Init(job);
    forall n | n in Ids(job.wf) ensures TraceOk(job, s, n) {
      HydrationTrace(job, job.wf.nodes, n);
      UnreachedTrace(job, job.wf.nodes, n);
      TraceConcat(HydrationLog(job, job.wf.nodes), UnreachedLog(job, job.wf.nodes), n);
      assert exists x :: x in job.wf.nodes && x.id == n;
    }
    forall e | e in s.log ensures e.nodeId in Ids(job.wf) { LoggedIsNode(job, e); }
    forall i | 0 <= i < |s.log| ensures !s.log[i].kind.StepStarted? {
      assert s.log[i] in HydrationLog(job, job.wf.nodes) || s.log[i] in UnreachedLog(job, job.wf.nodes);
    }
  }

  lemma SkipRecords(job: Job, s: State, t: State, n: Id)
    requires JobOk(job) && Skip(job, s, t, n)
    ensures n in Ids(job.wf)
    ensures Left(job, t, NodeOf(job.wf, n)) < Left(job, s, NodeOf(job.wf, n))
    ensures TraceOk(job, s, n) ==> TraceOk(job, t, n)
  {
    hide JobOk, InputOf, Starved, Trace, NodeOf, Producers;
    TraceAppend(s.log, SkippedEvent(n, NoInput), n);
  }

  lemma StartRecords(job: Job, permits: nat, s: State, t: State, n: Id)
    requires JobOk(job) && Start(job, permits, s, t, n)
    ensures n in Ids(job.wf)
    ensures Left(job, t, NodeOf(job.wf, n)) < Left(job, s, NodeOf(job.wf, n))
    ensures TraceOk(job, s, n) ==> TraceOk(job, t, n)
  {
    hide Valid, InputOf, Starved, Trace, NodeOf, Producers;
    TraceAppend(s.log, StartedEvent(n, |InputOf(job, n, s.outputs)|), n);
  }

  lemma FailAttemptRecords(job: Job, s: State, t: State, n: Id)
    requires JobOk(job) && Agrees(job, s) && FailAttempt(job, s, t, n)
    ensures n in Ids(job.wf)
    ensures Left(job, t, NodeOf(job.wf, n)) < Left(job, s, NodeOf(job.wf, n))
    ensures TraceOk(job, s, n) ==> TraceOk(job, t, n)
  {
    hide JobOk, Trace, NodeOf, Out, CurrentReply, TryFrom;
    assert NodeAgrees(job, s, n);
    TraceAppend(s.log, t.log[|s.log|], n);
  }

  lemma FinishRecords(job: Job, s: State, t: State, n: Id)
    requires JobOk(job) && Agrees(job, s) && Finish(job, s, t, n)
    ensures n in Ids(job.wf)
    ensures Left(job, t, NodeOf(job.wf, n)) < Left(job, s, NodeOf(job.wf, n))
    ensures TraceOk(job, s, n) ==> TraceOk(job, t, n)
  {
    hide Valid, Trace, NodeOf, Out, Finish, TryFrom, MaxAttempts;
    var e := FinishIsLocal(job, s, t, n);
    assert NodeAgrees(job, s, n);
    TraceAppend(s.log, e, n);
    assert Trace(t.log, n)[..|Trace(s.log, n)|] == Trace(s.log, n);
  }

  /** Every step records one event of one node and leaves that node less to do. */
  lemma StepRecords(job: Job, permits: nat, s: State, t: State, n: Id)
    requires JobOk(job) && Agrees(job, s) && Step(job, permits, s, t, n)
    ensures n in Ids(job.wf) && Left(job, t, NodeOf(job.wf, n)) < Left(job, s, NodeOf(job.wf, n))
    ensures TraceOk(job, s, n) ==> TraceOk(job, t, n)
  {
    hide JobOk, Agrees, NodeOf, TraceOk, Left, InputOf, Starved;
    if Skip(job, s, t, n) { SkipRecords(job, s, t, n); }
    else if Start(job, permits, s, t, n) { StartRecords(job, permits, s, t, n); }
    else if FailAttempt(job, s, t, n) { FailAttemptRecords(job, s, t, n); }
    else { FinishRecords(job, s, t, n); }
  }

  lemma StepShrinksWork(job: Job, permits: nat, s: State, t: State, n: Id)
    requires JobOk(job) && Agrees(job, s) && Step(job, permits, s, t, n)
    ensures LeftInAll(job, t, job.wf.nodes) < LeftInAll(job, s, job.wf.nodes)
  {
    hide Agrees, Step, SameAt, Left, LeftInAll, PortsInRange, OneTrigger;
    StepRecords(job, permits, s, t, n);
    var _ := StepIsLocal(job, permits, s, t, n);
    forall x | x in job.wf.nodes && x.id == n ensures x == NodeOf(job.wf, n) {
      NodeOfSelf(job.wf, x);
    }
    LeftDrops(job, s, t, n, NodeOf(job.wf, n), job.wf.nodes);
  }

  /** Every schedule ends: it makes at most as many steps as there were events left to record. */
  lemma {:induction false} SchedulesEnd(job: Job, permits: nat, run: seq<State>)
    requires JobOk(job) && IsRun(job, permits, run)
    ensures |run| - 1 + LeftInAll(job, run[|run| - 1], job.wf.nodes) <= LeftInAll(job, Init(job), job.wf.nodes)
  {
    hide JobOk, Step, Agrees, LeftInAll, Init;
    if |run| > 1 {
      var shorter := run[..|run| - 1];
      var s, t := run[|run| - 2], run[|run| - 1];
      forall i | 0 <= i < |shorter| - 1 ensures CanStep(job, permits, shorter[i], shorter[i + 1]) {
        assert CanStep(job, permits, run[i], run[i + 1]);
      }
      SchedulesEnd(job, permits, shorter);
      assert CanStep(job, permits, run[|run| - 2], run[|run| - 2 + 1]);
      var n :| Step(job, permits, s, t, n);
      RunAgrees(job, permits, run, |run| - 2);
      StepShrinksWork(job, permits, s, t, n);
    }
  }

  lemma StepLogOk(job: Job, permits: nat, s: State, t: State, n: Id)
    requires JobOk(job) && Agrees(job, s) && Step(job, permits, s, t, n) && LogOk(job, s)
    ensures LogOk(job, t)
  {
    hide JobOk, Agrees, Trace, InputOf, Starved, Valid, CompleteTrace, OpenTrace, Finish, FailAttempt, Skip, Start;
    StepRecords(job, permits, s, t, n);
    var e := StepIsLocal(job, permits, s, t, n);
    forall m | m in Ids(job.wf) ensures TraceOk(job, t, m) {
      if m != n {
        assert SameAt(s, t, m);
        TraceAppend(s.log, e, m);
      }
    }
    assert StartsInOrder(job.wf, t.log) by { StepStartsInOrder(job, permits, s, t, n); }
    assert forall x :: x in t.log ==> x in s.log || x == e;
  }

  lemma ClosedWhenDone(job: Job, s: State, p: Id)
    requires p in Ids(job.wf) && p in s.done && TraceOk(job, s, p)
    ensures ClosedBefore(s.log, |s.log|, p)
  {
    hide Trace;
    var tr := Trace(s.log, p);
    var last := tr[|tr| - 1];
    TraceMembers(s.log, p);
    assert last in tr;
    var j :| 0 <= j < |s.log| && s.log[j] == last;
  }

  lemma StepStartsInOrder(job: Job, permits: nat, s: State, t: State, n: Id)
    requires JobOk(job) && Step(job, permits, s, t, n) && LogOk(job, s)
    ensures StartsInOrder(job.wf, t.log)
  {
    hide Valid, Trace, InputOf, Starved, TraceOk, Settle, MaxAttempts, NodeOf, CurrentReply, Producers;
    var e := StepIsLocal(job, permits, s, t, n);
    forall i, p | 0 <= i < |t.log| && t.log[i].kind.StepStarted? && p in Producers(job.wf, t.log[i].nodeId)
      ensures ClosedBefore(t.log, i, p)
    {
      if i < |s.log| {
        assert ClosedBefore(s.log, i, p);
        var j :| 0 <= j < i && s.log[j].nodeId == p && IsTerminal(s.log[j]);
        assert t.log[j] == s.log[j];
      } else {
        StartedByStart(job, permits, s, t, n, e);
        ProducersAreNodes(job.wf, n);
        assert p in s.done && TraceOk(job, s, p);
        ClosedWhenDone(job, s, p);
        var j :| 0 <= j < |s.log| && s.log[j].nodeId == p && IsTerminal(s.log[j]);
        assert t.log[j] == s.log[j];
      }
    }
  }

  lemma StartedByStart(job: Job, permits: nat, s: State, t: State, n: Id, e: StepEvent)
    requires JobOk(job) && Step(job, permits, s, t, n) && t.log == s.log + [e] && e.kind.StepStarted?
    ensures Producers(job.wf, n) <= s.done
  {
    hide JobOk, InputOf, Starved, Settle, MaxAttempts, NodeOf, CurrentReply, Producers;
    assert t.log[|s.log|] == e;
  }

  /** Trace safety, for every reachable state of every schedule. */
  lemma {:induction false} RunLogOk(job: Job, permits: nat, run: seq<State>, i: nat)
    requires JobOk(job) && IsRun(job, permits, run) && i < |run|
    ensures LogOk(job, run[i])
  {
    hide LogOk, Agrees, Step, JobOk;
    if i == 0 {
      LogOkInit(job);
    } else {
      RunLogOk(job, permits, run, i - 1);
      RunAgrees(job, permits, run, i - 1);
      assert CanStep(job, permits, run[i - 1], run[i - 1 + 1]);
      var n :| Step(job, permits, run[i - 1], run[i], n);
      StepLogOk(job, permits, run[i - 1], run[i], n);
    }
  }

  lemma ReachedLogOk(job: Job, permits: nat, s: State)
    requires JobOk(job) && Reached(job, permits, s)
    ensures LogOk(job, s)
  {
    hide LogOk, Step, JobOk;
    var run :| IsRun(job, permits, run) && run[|run| - 1] == s;
    RunLogOk(job, permits, run, |run| - 1);
  }

  lemma {:induction false} FailureBlocksWalk(job: Job, walk: seq<Id>)
    requires Valid(job.wf) && IsWalk(job.wf, walk) && |walk| > 1
    requires walk[0] in Ids(job.wf) && Stuck(Out(job, walk[0]))
    requires forall i :: 1 <= i < |walk| ==> walk[i] !in job.pinned
    ensures walk[|walk| - 1] in Ids(job.wf) && Out(job, walk[|walk| - 1]) == Blocked
  {
    hide Out;
    var k := |walk| - 2;
    var q := walk[..k + 1];
    if |q| > 1 { FailureBlocksWalk(job, q); }
    assert (walk[k], walk[k + 1]) in Edges(job.wf);
    FailureBlocksConsumer(job, walk[k], walk[k + 1]);
  }

  lemma BlockedHasNoEvents(job: Job, s: State, n: Id)
    requires JobOk(job) && Agrees(job, s) && n in Ids(job.wf) && TraceOk(job, s, n)
    requires Out(job, n) == Blocked
    ensures Trace(s.log, n) == []
  {
    hide Out, Trace, Valid, TryFrom;
    assert NodeAgrees(job, s, n);
  }

  /** After a Stop failure nothing downstream of the failed node ever records an event, unless it or
      something before it was hydrated. */
  lemma NothingDownstreamStarts(job: Job, permits: nat, s: State, walk: seq<Id>)
    requires JobOk(job) && Reached(job, permits, s)
    requires IsWalk(job.wf, walk) && |walk| > 1 && walk[0] in s.failed
    requires forall i :: 1 <= i < |walk| ==> walk[i] !in job.pinned
    ensures forall e :: e in s.log ==> e.nodeId != walk[|walk| - 1]
  {
    hide Out, Trace, IsWalk, Valid, Edges, StartsInOrder;
    ReachedAgrees(job, permits, s);
    ReachedLogOk(job, permits, s);
    assert NodeAgrees(job, s, walk[0]);
    FailureBlocksWalk(job, walk);
    var n := walk[|walk| - 1];
    BlockedHasNoEvents(job, s, n);
    TraceMembers(s.log, n);
  }
}
