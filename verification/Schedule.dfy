/** Step events, as the event log records them. Run ids, latencies and metrics are left out. */
module Events {
  import opened Workflows
  import opened Semantics

  datatype StepKind = StepStarted | StepFinished | StepFailed

  datatype Note =
    | NoNote
    | Resumed                                                    // hydrated from an earlier run
    | Unreachable                                                // not connected to the trigger
    | NoInput                                                    // producers routed nothing here
    | AttemptFailed(attempt: nat, attempts: nat, cause: NodeError)
    | NodeFailed(error: NodeError)

  datatype StepEvent = StepEvent(nodeId: Id, kind: StepKind, inputItems: nat, outputItems: nat, note: Note)

  function StartedEvent(n: Id, inputs: nat): StepEvent { StepEvent(n, StepStarted, inputs, 0, NoNote) }

  function SkippedEvent(n: Id, why: Note): StepEvent { StepEvent(n, StepFinished, 0, 0, why) }

  function ResumedEvent(n: Id, outputs: nat): StepEvent { StepEvent(n, StepFinished, 0, outputs, Resumed) }

  function AttemptEvent(n: Id, inputs: nat, attempt: nat, attempts: nat, e: NodeError): StepEvent {
    StepEvent(n, StepFailed, inputs, 0, AttemptFailed(attempt, attempts, e))
  }

  /** The last event of a node that ran. */
  function ClosingEvent(n: Id, inputs: nat, reply: Reply): StepEvent {
    match reply
    case Ok(items) => StepEvent(n, StepFinished, inputs, |items|, NoNote)
    case Err(e) => StepEvent(n, StepFailed, inputs, 0, NodeFailed(e))
  }

  /** The events of one node, in order. */
  function Trace(log: seq<StepEvent>, n: Id): seq<StepEvent> {
    if log == [] then []
    else
      var last := log[|log| - 1];
      if last.nodeId == n then Trace(log[..|log| - 1], n) + [last] else Trace(log[..|log| - 1], n)
  }

  lemma TraceAppend(log: seq<StepEvent>, e: StepEvent, n: Id)
    ensures Trace(log + [e], n) == if e.nodeId == n then Trace(log, n) + [e] else Trace(log, n)
  {
    assert (log + [e])[..|log|] == log;
  }

  lemma TraceMembers(log: seq<StepEvent>, n: Id)
    ensures forall e :: e in Trace(log, n) <==> e in log && e.nodeId == n
  {
    if log != [] {
      TraceMembers(log[..|log| - 1], n);
      assert log == log[..|log| - 1] + [log[|log| - 1]];
    }
  }

  lemma {:induction false} TraceConcat(a: seq<StepEvent>, b: seq<StepEvent>, n: Id)
    ensures Trace(a + b, n) == Trace(a, n) + Trace(b, n)
  {
    if b == [] {
      assert a + b == a;
    } else {
      var k := |b| - 1;
      TraceConcat(a, b[..k], n);
      TraceAppend(a + b[..k], b[k], n);
      assert a + b == (a + b[..k]) + [b[k]];
    }
  }

  predicate IsTerminal(e: StepEvent) {
    e.kind.StepFinished? || (e.kind.StepFailed? && e.note.NodeFailed?)
  }

  /** A node that was never invoked leaves one Finished event; a node that ran leaves Started, the
      numbered failed attempts, and one terminal event. */
  ghost predicate CompleteTrace(t: seq<StepEvent>, attempts: nat) {
    || (|t| == 1 && t[0].kind.StepFinished?)
    || (|t| >= 2 && OpenTrace(t[..|t| - 1], attempts) && IsTerminal(t[|t| - 1]))
  }

  /** Started, then at most `attempts` failed attempts, numbered from 1. */
  ghost predicate OpenTrace(t: seq<StepEvent>, attempts: nat) {
    && 1 <= |t| <= attempts + 1
    && (attempts == 1 ==> |t| == 1)
    && t[0].kind.StepStarted?
    && forall i :: 1 <= i < |t| ==> t[i].kind.StepFailed? && t[i].note.AttemptFailed?
                                    && t[i].note.attempt == i && t[i].note.attempts == attempts
  }
}

/** The scheduler as a step relation. Any runnable node may start and any active node may proceed, in
    any order, as long as at most `permits` nodes are active. The engine's waves, under any
    concurrency cap, are among these schedules. */
module Schedule {
  import opened Cardinality
  import opened Wrappers
  import opened Workflows
  import opened Items
  import opened Semantics
  import opened Events

  datatype Activity = Activity(input: seq<Item>, failures: nat)

  datatype State = State(
    outputs: map<Id, seq<Item>>,
    done: set<Id>,
    active: map<Id, Activity>,
    failed: map<Id, NodeError>,
    log: seq<StepEvent>)

  ghost predicate JobOk(job: Job) {
    Valid(job.wf) && job.pinned.Keys <= Ids(job.wf)
  }

  ghost function Unreached(w: Workflow): set<Id>
    requires Valid(w)
  {
    set n | n in Ids(w) && !Reachable(w, n)
  }

  /** Events of hydrated nodes come first, then one per unreachable node. */
  ghost function HydrationLog(job: Job, nodes: seq<Node>): (log: seq<StepEvent>)
    ensures forall e :: e in log ==> e.kind.StepFinished?
  {
    if nodes == [] then []
    else
      var n := nodes[|nodes| - 1].id;
      var before := HydrationLog(job, nodes[..|nodes| - 1]);
      if n in job.pinned then before + [ResumedEvent(n, |job.pinned[n]|)] else before
  }

  ghost function UnreachedLog(job: Job, nodes: seq<Node>): (log: seq<StepEvent>)
    requires Valid(job.wf)
    ensures forall e :: e in log ==> e.kind.StepFinished?
  {
    if nodes == [] then []
    else
      var n := nodes[|nodes| - 1].id;
      var before := UnreachedLog(job, nodes[..|nodes| - 1]);
      if n !in job.pinned && !Reachable(job.wf, n) then before + [SkippedEvent(n, Note.Unreachable)] else before
  }

  ghost function Init(job: Job): State
    requires JobOk(job)
  {
    State(job.pinned, job.pinned.Keys + Unreached(job.wf), map[], map[],
          HydrationLog(job, job.wf.nodes) + UnreachedLog(job, job.wf.nodes))
  }

  // ---- Steps ----

  ghost predicate Runnable(job: Job, s: State, n: Id) {
    && n in Ids(job.wf) && n !in s.done && n !in s.active && n !in s.failed
    && Producers(job.wf, n) <= s.done
  }

  ghost predicate Skip(job: Job, s: State, t: State, n: Id)
    requires JobOk(job)
  {
    && Runnable(job, s, n)
    && Starved(job.wf, n, InputOf(job, n, s.outputs))
    && t == s.(outputs := s.outputs[n := []], done := s.done + {n}, log := s.log + [SkippedEvent(n, NoInput)])
  }

  ghost predicate Start(job: Job, permits: nat, s: State, t: State, n: Id)
    requires JobOk(job)
  {
    var input := InputOf(job, n, s.outputs);
    && Runnable(job, s, n)
    && !Starved(job.wf, n, input)
    && |s.active| < permits
    && t == s.(active := s.active[n := Activity(input, 0)], log := s.log + [StartedEvent(n, |input|)])
  }

  /** The attempt under way, or the last one once attempts are used up. */
  ghost function CurrentReply(job: Job, n: Id, a: Activity): Reply
    requires n in Ids(job.wf)
  {
    var node := NodeOf(job.wf, n);
    var max := MaxAttempts(job.mode, node);
    job.oracle(node, job.mode, if a.failures < max then a.failures + 1 else max, a.input)
  }

  /** A failed attempt that is recorded before the node either tries again or gives up. */
  ghost predicate WillRecordAttempt(job: Job, n: Id, a: Activity)
    requires n in Ids(job.wf)
  {
    var max := MaxAttempts(job.mode, NodeOf(job.wf, n));
    max > 1 && a.failures < max && CurrentReply(job, n, a).Err?
  }

  ghost predicate FailAttempt(job: Job, s: State, t: State, n: Id) {
    && n in s.active && n in Ids(job.wf)
    && var a := s.active[n];
       && WillRecordAttempt(job, n, a)
       && t == s.(active := s.active[n := a.(failures := a.failures + 1)],
                  log := s.log + [AttemptEvent(n, |a.input|, a.failures + 1,
                                               MaxAttempts(job.mode, NodeOf(job.wf, n)),
                                               CurrentReply(job, n, a).error)])
  }

  /** The node's last event, and the commit of its outcome under its error policy. */
  ghost predicate Finish(job: Job, s: State, t: State, n: Id) {
    && n in s.active && n in Ids(job.wf)
    && var a := s.active[n];
       && !WillRecordAttempt(job, n, a)
       && var reply := CurrentReply(job, n, a);
          var u := s.(active := s.active - {n}, log := s.log + [ClosingEvent(n, |a.input|, reply)]);
          match Settle(NodeOf(job.wf, n), reply)
          case Done(items) => t == u.(outputs := u.outputs[n := items], done := u.done + {n})
          case Failed(e) => t == u.(failed := u.failed[n := e])
          case _ => false
  }

  ghost predicate Step(job: Job, permits: nat, s: State, t: State, n: Id)
    requires JobOk(job)
  {
    Skip(job, s, t, n) || Start(job, permits, s, t, n) || FailAttempt(job, s, t, n) || Finish(job, s, t, n)
  }

  ghost predicate CanStep(job: Job, permits: nat, s: State, t: State)
    requires JobOk(job)
  {
    exists n :: Step(job, permits, s, t, n)
  }

  ghost predicate IsRun(job: Job, permits: nat, run: seq<State>)
    requires JobOk(job)
  {
    && run != [] && run[0] == Init(job)
    && forall i :: 0 <= i < |run| - 1 ==> CanStep(job, permits, run[i], run[i + 1])
  }

  ghost predicate Reached(job: Job, permits: nat, s: State)
    requires JobOk(job)
  {
    exists run :: IsRun(job, permits, run) && run[|run| - 1] == s
  }

  lemma ReachedStep(job: Job, permits: nat, s: State, t: State, n: Id)
    requires JobOk(job) && Reached(job, permits, s) && Step(job, permits, s, t, n)
    ensures Reached(job, permits, t)
  {
    hide Step, JobOk, Init;
    var run :| IsRun(job, permits, run) && run[|run| - 1] == s;
    var longer := run + [t];
    forall i | 0 <= i < |longer| - 1 ensures CanStep(job, permits, longer[i], longer[i + 1]) {
      if i < |run| - 1 {
        assert CanStep(job, permits, run[i], run[i + 1]);
      } else {
        assert Step(job, permits, longer[i], longer[i + 1], n);
      }
    }
    assert IsRun(job, permits, longer);
  }

  // ---- What every step keeps: the state agrees with the denotation ----

  /** An active node is on its way to the outcome the denotation gives it. */
  ghost predicate OnTrack(job: Job, n: Id, a: Activity)
    requires JobOk(job)
  {
    && n in Ids(job.wf)
    && var node := NodeOf(job.wf, n);
       && Out(job, n) == Settle(node, TryFrom(job, node, a.input, 1))
       && a.failures <= MaxAttempts(job.mode, node)
       && (MaxAttempts(job.mode, node) == 1 ==> a.failures == 0)
       && forall k :: 1 <= k <= a.failures ==> job.oracle(node, job.mode, k, a.input).Err?
  }

  /** What holds of each node at every moment of every schedule. */
  ghost predicate NodeAgrees(job: Job, s: State, n: Id)
    requires JobOk(job) && n in Ids(job.wf)
  {
    && (n in s.outputs ==> n in s.done)
    && (n in s.done ==>
          && n !in s.active && n !in s.failed
          && (if n in s.outputs then Out(job, n) == Done(s.outputs[n]) else Out(job, n) == Absent))
    && (n in s.active ==> n !in s.failed && OnTrack(job, n, s.active[n]))
    && (n in s.failed ==> Out(job, n) == Failed(s.failed[n]))
    && (n in job.pinned || !Reachable(job.wf, n) ==> n in s.done)
  }

  ghost predicate Agrees(job: Job, s: State)
    requires JobOk(job)
  {
    && s.outputs.Keys + s.done + s.active.Keys + s.failed.Keys <= Ids(job.wf)
    && forall n :: n in Ids(job.wf) ==> NodeAgrees(job, s, n)
  }

  /** A step changes the state at one node only. */
  ghost predicate SameAt(s: State, t: State, m: Id) {
    && (m in s.done <==> m in t.done)
    && (m in s.outputs <==> m in t.outputs) && (m in s.outputs ==> s.outputs[m] == t.outputs[m])
    && (m in s.active <==> m in t.active) && (m in s.active ==> s.active[m] == t.active[m])
    && (m in s.failed <==> m in t.failed) && (m in s.failed ==> s.failed[m] == t.failed[m])
  }

  lemma FinishIsLocal(job: Job, s: State, t: State, n: Id) returns (e: StepEvent)
    requires JobOk(job) && Finish(job, s, t, n)
    ensures n in Ids(job.wf) && n in s.active && (n in t.done || n in t.failed)
    ensures forall m :: m != n ==> SameAt(s, t, m)
    ensures e.nodeId == n && IsTerminal(e) && t.log == s.log + [e]
  {
    hide JobOk, CurrentReply, MaxAttempts, WillRecordAttempt, Settle;
    e := ClosingEvent(n, |s.active[n].input|, CurrentReply(job, n, s.active[n]));
  }

  lemma StepIsLocal(job: Job, permits: nat, s: State, t: State, n: Id) returns (e: StepEvent)
    requires JobOk(job) && Step(job, permits, s, t, n)
    ensures forall m :: m != n ==> SameAt(s, t, m)
    ensures e.nodeId == n && t.log == s.log + [e]
  {
    hide JobOk, InputOf, Starved, CurrentReply, MaxAttempts, WillRecordAttempt, Finish;
    if Finish(job, s, t, n) {
      e := FinishIsLocal(job, s, t, n);
    } else {
      e := t.log[|t.log| - 1];
    }
  }

  lemma AgreesInit(job: Job)
    requires JobOk(job)
    ensures Agrees(job, Init(job))
  {
  }

  /** A runnable node reads from its producers exactly what the denotation says. */
  lemma RunnableInput(job: Job, s: State, n: Id)
    requires JobOk(job) && Agrees(job, s) && Runnable(job, s, n)
    ensures n !in job.pinned && Reachable(job.wf, n)
    ensures Out(job, n) == Deliver(job, n, InputOf(job, n, s.outputs))
  {
    hide Valid, Out, Deliver, InputOf, OnTrack;
    assert NodeAgrees(job, s, n);
    ProducersAreNodes(job.wf, n);
    forall p | p in Producers(job.wf, n)
      ensures p in Ids(job.wf) && (if p in s.outputs then Out(job, p) == Done(s.outputs[p]) else Out(job, p) == Absent)
    {
      assert NodeAgrees(job, s, p);
    }
    InputFromOutputs(job, n, s.outputs);
  }

  /** Failed attempts do not change the final reply. */
  lemma {:induction false} TryFromSkipsFailures(job: Job, node: Node, input: seq<Item>, k: nat)
    requires k < MaxAttempts(job.mode, node)
    requires forall j :: 1 <= j <= k ==> job.oracle(node, job.mode, j, input).Err?
    ensures TryFrom(job, node, input, 1) == TryFrom(job, node, input, k + 1)
  {
    if k > 0 {
      TryFromSkipsFailures(job, node, input, k - 1);
      assert job.oracle(node, job.mode, k, input).Err?;
    }
  }

  lemma FinishingReply(job: Job, n: Id, a: Activity)
    requires JobOk(job) && n in Ids(job.wf) && OnTrack(job, n, a) && !WillRecordAttempt(job, n, a)
    ensures Out(job, n) == Settle(NodeOf(job.wf, n), CurrentReply(job, n, a))
  {
    hide Valid, Out, NodeOf, Settle;
    var node := NodeOf(job.wf, n);
    var max := MaxAttempts(job.mode, node);
    TryFromSkipsFailures(job, node, a.input, if a.failures < max then a.failures else max - 1);
  }

  lemma SkipAgrees(job: Job, s: State, t: State, n: Id)
    requires JobOk(job) && Agrees(job, s) && Skip(job, s, t, n)
    ensures n in Ids(job.wf) && NodeAgrees(job, t, n)
  {
    hide Valid, Out, OnTrack, InputOf, Starved;
    assert NodeAgrees(job, s, n);
    RunnableInput(job, s, n);
  }

  lemma StartAgrees(job: Job, permits: nat, s: State, t: State, n: Id)
    requires JobOk(job) && Agrees(job, s) && Start(job, permits, s, t, n)
    ensures n in Ids(job.wf) && NodeAgrees(job, t, n)
  {
    hide Valid, Out, InputOf, Starved, TryFrom, Settle;
    assert NodeAgrees(job, s, n);
    RunnableInput(job, s, n);
  }

  lemma FailAttemptAgrees(job: Job, s: State, t: State, n: Id)
    requires JobOk(job) && Agrees(job, s) && FailAttempt(job, s, t, n)
    ensures n in Ids(job.wf) && NodeAgrees(job, t, n)
  {
    hide Valid, Out, TryFrom, Settle;
    assert NodeAgrees(job, s, n);
  }

  lemma FinishAgrees(job: Job, s: State, t: State, n: Id)
    requires JobOk(job) && Agrees(job, s) && Finish(job, s, t, n)
    ensures n in Ids(job.wf) && NodeAgrees(job, t, n)
  {
    hide Valid, Out, OnTrack, CurrentReply, WillRecordAttempt;
    assert NodeAgrees(job, s, n);
    FinishingReply(job, n, s.active[n]);
  }

  lemma LocalChangeAgrees(job: Job, s: State, t: State, n: Id)
    requires JobOk(job) && Agrees(job, s) && n in Ids(job.wf) && NodeAgrees(job, t, n)
    requires forall m :: m != n ==> SameAt(s, t, m)
    ensures Agrees(job, t)
  {
    hide JobOk, Out, OnTrack;
    forall m | m in Ids(job.wf) ensures NodeAgrees(job, t, m) {
      if m != n { assert SameAt(s, t, m) && NodeAgrees(job, s, m); }
    }
    forall m | m in t.outputs.Keys + t.done + t.active.Keys + t.failed.Keys ensures m in Ids(job.wf) {
      if m != n { assert SameAt(s, t, m); }
    }
  }

  lemma StepAgrees(job: Job, permits: nat, s: State, t: State, n: Id)
    requires JobOk(job) && Agrees(job, s) && Step(job, permits, s, t, n)
    ensures Agrees(job, t)
  {
    hide JobOk, Agrees, NodeAgrees, SameAt, Skip, Start, FailAttempt, Finish;
    var _ := StepIsLocal(job, permits, s, t, n);
    if Skip(job, s, t, n) { SkipAgrees(job, s, t, n); }
    else if Start(job, permits, s, t, n) { StartAgrees(job, permits, s, t, n); }
    else if FailAttempt(job, s, t, n) { FailAttemptAgrees(job, s, t, n); }
    else { FinishAgrees(job, s, t, n); }
    LocalChangeAgrees(job, s, t, n);
  }

  lemma {:induction false} RunAgrees(job: Job, permits: nat, run: seq<State>, i: nat)
    requires JobOk(job) && IsRun(job, permits, run) && i < |run|
    ensures Agrees(job, run[i])
  {
    hide Agrees, Step, JobOk;
    if i == 0 {
      AgreesInit(job);
    } else {
      RunAgrees(job, permits, run, i - 1);
      assert CanStep(job, permits, run[i - 1], run[i - 1 + 1]);
      var n :| Step(job, permits, run[i - 1], run[i], n);
      StepAgrees(job, permits, run[i - 1], run[i], n);
    }
  }

  lemma ReachedAgrees(job: Job, permits: nat, s: State)
    requires JobOk(job) && Reached(job, permits, s)
    ensures Agrees(job, s)
  {
    hide Agrees, Step, JobOk;
    var run :| IsRun(job, permits, run) && run[|run| - 1] == s;
    RunAgrees(job, permits, run, |run| - 1);
  }

  // ---- The bound on permits ----

  lemma {:induction false} RunKeepsWithin(job: Job, permits: nat, run: seq<State>, i: nat)
    requires JobOk(job) && IsRun(job, permits, run) && i < |run|
    ensures |run[i].active| <= permits
  {
    hide JobOk, Step;
    if i > 0 {
      RunKeepsWithin(job, permits, run, i - 1);
      assert CanStep(job, permits, run[i - 1], run[i - 1 + 1]);
      var n :| Step(job, permits, run[i - 1], run[i], n);
      StepKeepsWithin(job, permits, run[i - 1], run[i], n);
    }
  }

  lemma StepKeepsWithin(job: Job, permits: nat, s: State, t: State, n: Id)
    requires JobOk(job) && Step(job, permits, s, t, n) && |s.active| <= permits
    ensures |t.active| <= permits
  {
    hide JobOk, Skip, Start, FailAttempt, Finish;
    if Start(job, permits, s, t, n) { StartKeepsWithin(job, permits, s, t, n); }
    else { OthersKeepWithin(job, permits, s, t, n); }
  }

  lemma StartKeepsWithin(job: Job, permits: nat, s: State, t: State, n: Id)
    requires JobOk(job) && Start(job, permits, s, t, n)
    ensures |t.active| <= permits
  {
    hide Valid, InputOf, Starved;
    assert t.active.Keys == s.active.Keys + {n};
    assert |t.active.Keys| == |t.active| && |s.active.Keys| == |s.active|;
  }

  lemma OthersKeepWithin(job: Job, permits: nat, s: State, t: State, n: Id)
    requires JobOk(job) && (Skip(job, s, t, n) || FailAttempt(job, s, t, n) || Finish(job, s, t, n))
    ensures |t.active| <= |s.active|
  {
    hide Valid, InputOf, Starved, CurrentReply, WillRecordAttempt, Settle, Runnable;
    assert t.active.Keys <= s.active.Keys;
    SubsetSize(t.active.Keys, s.active.Keys);
    assert |t.active.Keys| == |t.active| && |s.active.Keys| == |s.active|;
  }

  /** Never more nodes are active than there are permits. */
  lemma WithinPermits(job: Job, permits: nat, s: State)
    requires JobOk(job) && Reached(job, permits, s)
    ensures |s.active| <= permits
  {
    hide JobOk;
    var run :| IsRun(job, permits, run) && run[|run| - 1] == s;
    RunKeepsWithin(job, permits, run, |run| - 1);
  }

  /** While one is free, every runnable node can be started, or skipped, whatever else goes on. */
  lemma FreePermitIsUsable(job: Job, permits: nat, s: State, n: Id)
    requires JobOk(job) && Runnable(job, s, n) && |s.active| < permits
    ensures exists t :: Step(job, permits, s, t, n) && (n in t.active || n in t.done)
  {
    hide InputOf, Starved, Valid;
    var input := InputOf(job, n, s.outputs);
    if Starved(job.wf, n, input) {
      var t := s.(outputs := s.outputs[n := []], done := s.done + {n}, log := s.log + [SkippedEvent(n, NoInput)]);
      assert Skip(job, s, t, n);
    } else {
      var t := s.(active := s.active[n := Activity(input, 0)], log := s.log + [StartedEvent(n, |input|)]);
      assert Start(job, permits, s, t, n);
    }
  }
}
