/** What every node leaves in the event log, to the last field. */
module Traces {
  import opened Wrappers
  import opened Workflows
  import opened Items
  import opened Semantics
  import opened Events
  import opened Schedule
  import opened Confluence
  import opened Filtering

  /** Started, with the size of the input, then one failure for each failed attempt, numbered from 1. */
  ghost predicate StartsAs(job: Job, node: Node, input: seq<Item>, last: nat, failures: nat, t: seq<StepEvent>) {
    && |t| >= failures + 1 && t[0] == StepEvent(node.id, StepStarted, |input|, 0, NoNote)
    && forall i: nat :: 1 <= i <= failures ==>
         job.oracle(node, job.mode, i, input).Err?
         && t[i] == StepEvent(node.id, StepFailed, |input|, 0, AttemptFailed(i, last, job.oracle(node, job.mode, i, input).error))
  }

  /** The last event of a node that ran: how many items it emitted, or why it failed. */
  ghost predicate ClosesAs(n: Id, inputs: nat, reply: Reply, e: StepEvent) {
    match reply
    case Ok(items) => e == StepEvent(n, StepFinished, inputs, |items|, NoNote)
    case Err(error) => e == StepEvent(n, StepFailed, inputs, 0, NodeFailed(error))
  }

  /** The trace of a node that ran on `input`. Attempts leave events of their own only if there may be several. */
  ghost predicate RanAs(job: Job, node: Node, input: seq<Item>, t: seq<StepEvent>) {
    var last := if job.mode.Run? && node.retry.Some? && node.retry.value.maxAttempts >= 2
                then node.retry.value.maxAttempts else 1;
    RanWithin(job, node, input, last, t)
  }

  ghost predicate RanWithin(job: Job, node: Node, input: seq<Item>, last: nat, t: seq<StepEvent>) {
    exists k: nat :: 1 <= k <= last && Decides(job, node, input, last, k) && LeftBy(job, node, input, last, k, t)
  }

  /** The trace if attempt `k` of at most `last` decides. */
  ghost predicate LeftBy(job: Job, node: Node, input: seq<Item>, last: nat, k: nat, t: seq<StepEvent>)
    requires k >= 1
  {
    var reply := job.oracle(node, job.mode, k, input);
    var failures := if last == 1 then 0 else if reply.Ok? then k - 1 else k;
    && |t| == failures + 2 && StartsAs(job, node, input, last, failures, t)
    && ClosesAs(node.id, |input|, reply, t[failures + 1])
  }

  /** The trace of a node that has come to an end. */
  ghost predicate EndedAs(job: Job, n: Id, t: seq<StepEvent>)
    requires JobOk(job) && n in Ids(job.wf)
  {
    var input := InputOf(job, n, FinalOutputs(job));
    if n in job.pinned then t == [StepEvent(n, StepFinished, 0, |job.pinned[n]|, Resumed)]
    else if !Reachable(job.wf, n) then t == [StepEvent(n, StepFinished, 0, 0, Note.Unreachable)]
    else if input == [] && exists c :: c in job.wf.connections && c.toNode == n then
      t == [StepEvent(n, StepFinished, 0, 0, NoInput)]
    else RanAs(job, NodeOf(job.wf, n), input, t)
  }

  /** What is kept true of one node. */
  ghost predicate TraceExact(job: Job, s: State, n: Id)
    requires JobOk(job) && n in Ids(job.wf)
  {
    var t := Trace(s.log, n);
    if n in s.done || n in s.failed then EndedAs(job, n, t)
    else if n in s.active then RunningAs(job, s.active[n], n, t)
    else t == []
  }

  ghost predicate RunningAs(job: Job, a: Activity, n: Id, t: seq<StepEvent>)
    requires JobOk(job) && n in Ids(job.wf)
  {
    var node := NodeOf(job.wf, n);
    && n !in job.pinned && Reachable(job.wf, n)
    && a.input == InputOf(job, n, FinalOutputs(job)) && !Starved(job.wf, n, a.input)
    && a.failures <= MaxAttempts(job.mode, node) && (MaxAttempts(job.mode, node) == 1 ==> a.failures == 0)
    && |t| == a.failures + 1 && StartsAs(job, node, a.input, MaxAttempts(job.mode, node), a.failures, t)
  }

  lemma StartsExact(job: Job, n: Id)
    requires JobOk(job) && n in Ids(job.wf)
    ensures TraceExact(job, Init(job), n)
  {
    hide HydrationLog, UnreachedLog, Trace, Reachable, Acyclic, PortsInRange, NoDangling, FinalOutputs, InputOf;
    HydrationTrace(job, job.wf.nodes, n);
    UnreachedTrace(job, job.wf.nodes, n);
    TraceConcat(HydrationLog(job, job.wf.nodes), UnreachedLog(job, job.wf.nodes), n);
    assert exists x :: x in job.wf.nodes && x.id == n;
  }

  /** A runnable node reads what it will be said to have read in the end. */
  lemma InputIsFinal(job: Job, s: State, n: Id)
    requires JobOk(job) && Agrees(job, s) && Runnable(job, s, n)
    ensures n !in job.pinned && Reachable(job.wf, n)
    ensures InputOf(job, n, s.outputs) == InputOf(job, n, FinalOutputs(job))
  {
    hide Valid, Out, Gather, FanIn, OnTrack, Reachable;
    RunnableInput(job, s, n);
    ProducersAreNodes(job.wf, n);
    forall e | e in FanIn(job.wf, n) ensures Emitted(s.outputs, e) == Emitted(FinalOutputs(job), e) {
      assert Connection(e.fromNode, e.fromPort, n) in job.wf.connections;
      assert e.fromNode in Producers(job.wf, n);
      assert NodeAgrees(job, s, e.fromNode);
    }
    GatherCongruence(FanIn(job.wf, n), s.outputs, FinalOutputs(job));
  }

  lemma SkipExact(job: Job, s: State, t: State, n: Id)
    requires JobOk(job) && Agrees(job, s) && Skip(job, s, t, n) && TraceExact(job, s, n)
    ensures TraceExact(job, t, n)
  {
    hide Valid, Trace, InputOf, FinalOutputs, Reachable, FanIn;
    InputIsFinal(job, s, n);
    ConnectedHasFanIn(job.wf, n);
    TraceAppend(s.log, SkippedEvent(n, NoInput), n);
  }

  lemma StartExact(job: Job, permits: nat, s: State, t: State, n: Id)
    requires JobOk(job) && Agrees(job, s) && Start(job, permits, s, t, n) && TraceExact(job, s, n)
    ensures TraceExact(job, t, n)
  {
    hide Valid, Trace, InputOf, FinalOutputs, Reachable, Starved;
    InputIsFinal(job, s, n);
    TraceAppend(s.log, StartedEvent(n, |InputOf(job, n, s.outputs)|), n);
  }

  lemma FailAttemptExact(job: Job, s: State, t: State, n: Id)
    requires JobOk(job) && Agrees(job, s) && FailAttempt(job, s, t, n) && TraceExact(job, s, n)
    ensures TraceExact(job, t, n)
  {
    hide Valid, Trace, InputOf, FinalOutputs, Reachable, Starved, MaxAttempts, Out, OnTrack, NodeOf;
    assert NodeAgrees(job, s, n);
    TraceAppend(s.log, t.log[|s.log|], n);
  }

  lemma FinishExact(job: Job, s: State, t: State, n: Id)
    requires JobOk(job) && Agrees(job, s) && Finish(job, s, t, n) && TraceExact(job, s, n)
    ensures TraceExact(job, t, n)
  {
    hide Valid, Trace, InputOf, FinalOutputs, Reachable, Out, OnTrack, NodeOf, RanAs, MaxAttempts;
    assert NodeAgrees(job, s, n);
    var a, node := s.active[n], NodeOf(job.wf, n);
    var e := ClosingEvent(n, |a.input|, CurrentReply(job, n, a));
    TraceAppend(s.log, e, n);
    ConnectedHasFanIn(job.wf, n);
    FinishedRan(job, a, node, Trace(s.log, n), e);
  }

  /** The attempt under way decides once it is no longer recorded as a failed one. */
  lemma FinishedRan(job: Job, a: Activity, node: Node, t: seq<StepEvent>, e: StepEvent)
    requires node.id in Ids(job.wf) && NodeOf(job.wf, node.id) == node && !WillRecordAttempt(job, node.id, a)
    requires a.failures <= MaxAttempts(job.mode, node) && (MaxAttempts(job.mode, node) == 1 ==> a.failures == 0)
    requires |t| == a.failures + 1 && StartsAs(job, node, a.input, MaxAttempts(job.mode, node), a.failures, t)
    requires e == ClosingEvent(node.id, |a.input|, CurrentReply(job, node.id, a))
    ensures RanAs(job, node, a.input, t + [e])
  {
    hide NodeOf;
    var last := MaxAttempts(job.mode, node);
    var k := if a.failures < last then a.failures + 1 else last;
    var reply := job.oracle(node, job.mode, k, a.input);
    assert Decides(job, node, a.input, last, k);
    assert LeftBy(job, node, a.input, last, k, t + [e]);
    RanBy(job, node, a.input, last, k, t + [e]);
  }

  lemma RanBy(job: Job, node: Node, input: seq<Item>, last: nat, k: nat, t: seq<StepEvent>)
    requires 1 <= k <= last && Decides(job, node, input, last, k) && LeftBy(job, node, input, last, k, t)
    ensures RanWithin(job, node, input, last, t)
  {
    hide Decides, LeftBy;
  }

  lemma StepExact(job: Job, permits: nat, s: State, t: State, m: Id, n: Id)
    requires JobOk(job) && Agrees(job, s) && Step(job, permits, s, t, m) && n in Ids(job.wf) && TraceExact(job, s, n)
    ensures TraceExact(job, t, n)
  {
    hide JobOk, Agrees, Trace, EndedAs, RunningAs, Skip, Start, FailAttempt, Finish;
    if m == n {
      if Skip(job, s, t, n) { SkipExact(job, s, t, n); }
      else if Start(job, permits, s, t, n) { StartExact(job, permits, s, t, n); }
      else if FailAttempt(job, s, t, n) { FailAttemptExact(job, s, t, n); }
      else { FinishExact(job, s, t, n); }
    } else {
      var e := StepIsLocal(job, permits, s, t, m);
      assert SameAt(s, t, n);
      TraceAppend(s.log, e, n);
    }
  }

  lemma {:induction false} RunExact(job: Job, permits: nat, run: seq<State>, i: nat, n: Id)
    requires JobOk(job) && IsRun(job, permits, run) && i < |run| && n in Ids(job.wf)
    ensures TraceExact(job, run[i], n)
  {
    hide TraceExact, Agrees, Step, JobOk;
    if i == 0 {
      StartsExact(job, n);
    } else {
      RunExact(job, permits, run, i - 1, n);
      RunAgrees(job, permits, run, i - 1);
      assert CanStep(job, permits, run[i - 1], run[i - 1 + 1]);
      var m :| Step(job, permits, run[i - 1], run[i], m);
      StepExact(job, permits, run[i - 1], run[i], m, n);
    }
  }

  /** In every state of every schedule: the events of each node that has come to an end are exactly these. */
  lemma TracesAreExact(job: Job, permits: nat, s: State, n: Id)
    requires JobOk(job) && Reached(job, permits, s) && n in Ids(job.wf)
    ensures n in s.done || n in s.failed ==> EndedAs(job, n, Trace(s.log, n))
    ensures n !in s.done && n !in s.failed && n !in s.active ==> Trace(s.log, n) == []
  {
    hide Step, JobOk, EndedAs, Trace, RunningAs, Init;
    var run :| IsRun(job, permits, run) && run[|run| - 1] == s;
    RunExact(job, permits, run, |run| - 1, n);
  }

  /** So whatever the interleaving, two schedules of one job leave the same events of a node that ends in both. */
  lemma TracesAgree(job: Job, n: Id, t1: seq<StepEvent>, t2: seq<StepEvent>)
    requires JobOk(job) && n in Ids(job.wf) && EndedAs(job, n, t1) && EndedAs(job, n, t2)
    ensures t1 == t2
  {
    hide Valid, InputOf, FinalOutputs, Reachable, Decides, LeftBy;
    if n !in job.pinned && Reachable(job.wf, n) {
      var node, input := NodeOf(job.wf, n), InputOf(job, n, FinalOutputs(job));
      var last := MaxAttempts(job.mode, node);
      if RanWithin(job, node, input, last, t1) && RanWithin(job, node, input, last, t2) {
        var k1: nat :| 1 <= k1 <= last && Decides(job, node, input, last, k1) && LeftBy(job, node, input, last, k1, t1);
        var k2: nat :| 1 <= k2 <= last && Decides(job, node, input, last, k2) && LeftBy(job, node, input, last, k2, t2);
        OneDecides(job, node, input, last, k1, k2);
        OneTrace(job, node, input, last, k1, t1, t2);
      }
    }
  }

  lemma OneDecides(job: Job, node: Node, input: seq<Item>, last: nat, j: nat, k: nat)
    requires 1 <= j <= last && 1 <= k <= last
    requires Decides(job, node, input, last, j) && Decides(job, node, input, last, k)
    ensures j == k
  {
    assert j < k ==> job.oracle(node, job.mode, j, input).Err?;
    assert k < j ==> job.oracle(node, job.mode, k, input).Err?;
  }

  lemma OneTrace(job: Job, node: Node, input: seq<Item>, last: nat, k: nat, t1: seq<StepEvent>, t2: seq<StepEvent>)
    requires k >= 1 && LeftBy(job, node, input, last, k, t1) && LeftBy(job, node, input, last, k, t2)
    ensures t1 == t2
  {
    forall i | 0 <= i < |t1| ensures t1[i] == t2[i] {}
  }

  // ---- How the log begins ----

  ghost function IsPinned(job: Job): nat -> bool { (k: nat) => k < |job.wf.nodes| && job.wf.nodes[k].id in job.pinned }

  ghost function IsUnwired(job: Job): nat -> bool
    requires Valid(job.wf)
  {
    (k: nat) => k < |job.wf.nodes| && job.wf.nodes[k].id !in job.pinned && !Reachable(job.wf, job.wf.nodes[k].id)
  }

  /** One event for each position: what an earlier run had stored. */
  ghost predicate LogsResumed(job: Job, at: seq<nat>, log: seq<StepEvent>) {
    |at| == |log| && forall i :: 0 <= i < |at| ==> LogsOne(job, at[i], log[i])
  }

  ghost predicate LogsOne(job: Job, k: nat, e: StepEvent) {
    && k < |job.wf.nodes| && job.wf.nodes[k].id in job.pinned
    && e == StepEvent(job.wf.nodes[k].id, StepFinished, 0, |job.pinned[job.wf.nodes[k].id]|, Resumed)
  }

  /** One event for each position: the node is not connected to the trigger. */
  ghost predicate LogsUnwired(job: Job, at: seq<nat>, log: seq<StepEvent>) {
    |at| == |log| && forall i :: 0 <= i < |at| ==>
      at[i] < |job.wf.nodes| && log[i] == StepEvent(job.wf.nodes[at[i]].id, StepFinished, 0, 0, Note.Unreachable)
  }

  lemma {:induction false} ResumedInOrder(job: Job, m: nat) returns (at: seq<nat>)
    requires m <= |job.wf.nodes|
    ensures Picks(at, m, IsPinned(job)) && LogsResumed(job, at, HydrationLog(job, job.wf.nodes[..m]))
  {
    hide Picks;
    if m == 0 {
      at := [];
      NothingPicked(IsPinned(job));
    } else {
      var before := ResumedInOrder(job, m - 1);
      PicksNext(before, m - 1, IsPinned(job));
      at := if IsPinned(job)(m - 1) then before + [m - 1] else before;
      assert job.wf.nodes[..m][..m - 1] == job.wf.nodes[..m - 1];
    }
  }

  lemma {:induction false} UnwiredInOrder(job: Job, m: nat) returns (at: seq<nat>)
    requires Valid(job.wf) && m <= |job.wf.nodes|
    ensures Picks(at, m, IsUnwired(job)) && LogsUnwired(job, at, UnreachedLog(job, job.wf.nodes[..m]))
  {
    hide Picks, Valid, Reachable;
    if m == 0 {
      at := [];
      NothingPicked(IsUnwired(job));
    } else {
      var before := UnwiredInOrder(job, m - 1);
      PicksNext(before, m - 1, IsUnwired(job));
      at := if IsUnwired(job)(m - 1) then before + [m - 1] else before;
      assert job.wf.nodes[..m][..m - 1] == job.wf.nodes[..m - 1];
    }
  }

  /** The log opens with one event for each hydrated node and then one for each unreachable one, both in order of
      declaration. */
  lemma LogOpens(job: Job) returns (pinned: seq<nat>, unwired: seq<nat>)
    requires JobOk(job)
    ensures Picks(pinned, |job.wf.nodes|, IsPinned(job)) && Picks(unwired, |job.wf.nodes|, IsUnwired(job))
    ensures var log := Init(job).log;
            |log| >= |pinned| && LogsResumed(job, pinned, log[..|pinned|]) && LogsUnwired(job, unwired, log[|pinned|..])
  {
    hide Picks, Valid, HydrationLog, UnreachedLog, IsPinned, IsUnwired;
    pinned := ResumedInOrder(job, |job.wf.nodes|);
    unwired := UnwiredInOrder(job, |job.wf.nodes|);
    assert job.wf.nodes[..|job.wf.nodes|] == job.wf.nodes;
    var log := Init(job).log;
    assert log[..|pinned|] == HydrationLog(job, job.wf.nodes) && log[|pinned|..] == UnreachedLog(job, job.wf.nodes);
  }
}
