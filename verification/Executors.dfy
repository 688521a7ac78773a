/** The pure node executors: Transform, Branch, Switch, Loop, Merge and the triggers. */
module Executors {
  import opened Wrappers
  import opened Workflows
  import opened Items
  import opened Semantics
  import opened Bags
  import opened PerItem

  /** What the executors call and this model does not define: JSON pointer resolution, substring search,
      and rendering of a `set` value whose strings may hold expressions. */
  datatype Library = Library(
    pointer: (Json, string) -> Option<Json>,
    contains: (string, string) -> bool,
    render: (Json, Json) -> Result<Json, NodeError>)

  function Field(params: Json, key: string): Option<Json> {
    if params.JObj? && key in params.fields then Some(params.fields[key]) else None
  }

  function Resolve(lib: Library, path: string, item: Json): Option<Json> {
    if path == "" || path == "/" then Some(item) else lib.pointer(item, path)
  }

  // ---- Branch ----

  datatype BranchOp = Truthy | Equal | NotEqual | Contains

  datatype BranchCondition = BranchCondition(path: string, op: BranchOp, value: Json)

  function ParseOp(op: Option<Json>): Option<BranchOp> {
    match op
    case None => Some(Truthy)
    case Some(JStr(s)) =>
      if s == "truthy" then Some(Truthy) else if s == "eq" then Some(Equal)
      else if s == "ne" then Some(NotEqual) else if s == "contains" then Some(Contains) else None
    case _ => None
  }

  function ParseBranch(params: Json): Result<BranchCondition, NodeError> {
    match Field(params, "condition")
    case None => Err(BadParams("Branch requires a `condition`"))
    case Some(raw) =>
      var cond: Option<BranchCondition> :=
        if raw.JStr? then Some(BranchCondition(raw.s, Truthy, JNull))
        else
          var path, op := Field(raw, "path"), ParseOp(Field(raw, "op"));
          if path.Some? && path.value.JStr? && op.Some? then
            Some(BranchCondition(path.value.s, op.value, if Field(raw, "value").Some? then Field(raw, "value").value else JNull))
          else None;
      if cond.None? then Err(BadParams("Branch `condition` must be a pointer string or an object"))
      else if cond.value.op.Truthy? && (cond.value.path == "" || cond.value.path == "/") then
        Err(BadParams("Branch `condition.path` must point at a real field"))
      else Ok(cond.value)
  }

  predicate IsTruthy(v: Option<Json>) {
    match v
    case None => false
    case Some(JNull) => false
    case Some(JBool(b)) => b
    case Some(JNum(n)) => n != 0.0
    case Some(JStr(s)) => s != ""
    case Some(JArr(a)) => a != []
    case Some(JObj(o)) => o != map[]
  }

  predicate Holds(lib: Library, cond: BranchCondition, item: Json) {
    var resolved := Resolve(lib, cond.path, item);
    match cond.op
    case Truthy => IsTruthy(resolved)
    case Equal => resolved.Some? && resolved.value == cond.value
    case NotEqual => resolved.Some? && resolved.value != cond.value
    case Contains =>
      (match resolved
       case Some(JStr(s)) => cond.value.JStr? && lib.contains(s, cond.value.s)
       case Some(JArr(a)) => cond.value in a
       case Some(JObj(o)) => cond.value.JStr? && cond.value.s in o
       case _ => false)
  }

  // ---- Switch ----

  datatype SwitchCase = SwitchCase(value: Json, port: nat)

  datatype SwitchSpec = SwitchSpec(key: string, cases: seq<SwitchCase>, defaultPort: Option<nat>)

  function AsPort(v: Json): Option<nat> {
    if v.JNum? && v.n >= 0.0 && v.n.Floor as real == v.n then Some(v.n.Floor) else None
  }

  function ParseCases(cases: seq<Json>): Option<seq<SwitchCase>> {
    if cases == [] then Some([])
    else
      var k := |cases| - 1;
      var before := ParseCases(cases[..k]);
      var value, port := Field(cases[k], "value"), Field(cases[k], "port");
      if before.Some? && value.Some? && port.Some? && AsPort(port.value).Some?
      then Some(before.value + [SwitchCase(value.value, AsPort(port.value).value)])
      else None
  }

  function ParseSwitch(params: Json): Result<SwitchSpec, NodeError> {
    var key, cases, fallback := Field(params, "key"), Field(params, "cases"), Field(params, "default_port");
    var parsed: Option<seq<SwitchCase>> := if cases.Some? && cases.value.JArr? then ParseCases(cases.value.elements) else None;
    if key.None? || !key.value.JStr? || parsed.None? then Err(BadParams("Switch params invalid"))
    else if fallback.None? || fallback.value.JNull? then Ok(SwitchSpec(key.value.s, parsed.value, None))
    else if AsPort(fallback.value).None? then Err(BadParams("Switch params invalid"))
    else Ok(SwitchSpec(key.value.s, parsed.value, AsPort(fallback.value)))
  }

  function HighestPort(cases: seq<SwitchCase>): nat
    requires cases != []
  {
    var last := cases[|cases| - 1].port;
    if |cases| == 1 then last
    else if HighestPort(cases[..|cases| - 1]) > last then HighestPort(cases[..|cases| - 1]) else last
  }

  function FirstMatch(cases: seq<SwitchCase>, v: Json): (r: Option<nat>)
    ensures r.Some? <==> exists c :: c in cases && c.value == v
    ensures r.Some? ==> exists i :: 0 <= i < |cases| && cases[i].value == v && r.value == cases[i].port
                                    && forall j :: 0 <= j < i ==> cases[j].value != v
  {
    if cases == [] then None
    else if cases[0].value == v then Some(cases[0].port)
    else
      var rest := FirstMatch(cases[1..], v);
      assert forall c :: c in cases <==> c == cases[0] || c in cases[1..];
      assert rest.Some? ==>
        var i :| 0 <= i < |cases[1..]| && cases[1..][i].value == v && rest.value == cases[1..][i].port
                 && forall j :: 0 <= j < i ==> cases[1..][j].value != v;
        cases[i + 1].value == v && rest.value == cases[i + 1].port
        && forall j :: 0 <= j < i + 1 ==> cases[j].value != v;
      rest
  }

  function RouteTo(lib: Library, spec: SwitchSpec, item: Json): nat {
    var resolved := Resolve(lib, spec.key, item);
    var hit := if resolved.Some? then FirstMatch(spec.cases, resolved.value) else None;
    if hit.Some? then hit.value
    else if spec.defaultPort.Some? then spec.defaultPort.value
    else if spec.cases == [] then 0 else HighestPort(spec.cases) + 1
  }

  // ---- Loop ----

  function ParseLoop(params: Json): Result<string, NodeError> {
    var over := Field(params, "over");
    if over.Some? && over.value.JStr? then Ok(over.value.s) else Err(BadParams("Loop params invalid"))
  }

  function Element(parent: Json, elements: seq<Json>, i: nat): Json
    requires i < |elements|
  {
    JObj(map["index" := JNum(i as real), "value" := elements[i], "parent" := parent])
  }

  /** The first `k` elements, one emission each on port 0. */
  function Elements(parent: Json, elements: seq<Json>, k: nat): seq<Emit>
    requires k <= |elements|
  {
    if k == 0 then [] else Elements(parent, elements, k - 1) + [Emit(Element(parent, elements, k - 1), 0)]
  }

  function Summary(parent: Json, count: nat): Json {
    JObj(map["parent" := parent, "count" := JNum(count as real)])
  }

  function Unroll(lib: Library, over: string, item: Json): seq<Emit> {
    var resolved := Resolve(lib, over, item);
    if resolved.Some? && resolved.value.JArr? then
      Elements(item, resolved.value.elements, |resolved.value.elements|)
      + [Emit(Summary(item, |resolved.value.elements|), 1)]
    else [Emit(item, 0)]
  }

  // ---- Transform ----

  /** The `set` object: absent or null means pass through; anything else but an object is an error. */
  function ParseSet(params: Json): Result<Option<map<string, Json>>, NodeError> {
    match Field(params, "set")
    case None => Ok(None)
    case Some(JNull) => Ok(None)
    case Some(JObj(fields)) => Ok(Some(fields))
    case Some(_) => Err(BadParams("Transform `set` must be a JSON object"))
  }

  /** Every field is rendered against the item as it arrived, then laid over it. */
  function Merged(lib: Library, set_: map<string, Json>, item: Json): Option<Json> {
    if item.JObj? && forall k :: k in set_ ==> lib.render(set_[k], item).Ok?
    then Some(JObj(item.fields + map k | k in set_ :: if lib.render(set_[k], item).Ok? then lib.render(set_[k], item).value else JNull))
    else None
  }

  // ---- Behaviour of a node ----

  predicate IsPure(kind: Kind) {
    kind.IsTrigger() || kind.Transform? || kind.Branch? || kind.Switch? || kind.Loop? || kind.Merge?
  }

  /** What a pure node makes of one payload; None when it fails. */
  function NodeBehaviour(lib: Library, node: Node, item: Json): Option<seq<Emit>> {
    match node.kind
    case Branch =>
      (match ParseBranch(node.params)
       case Ok(cond) => Some([Emit(item, if Holds(lib, cond, item) then 0 else 1)])
       case Err(_) => None)
    case Switch =>
      (match ParseSwitch(node.params)
       case Ok(spec) => Some([Emit(item, RouteTo(lib, spec, item))])
       case Err(_) => None)
    case Loop =>
      (match ParseLoop(node.params)
       case Ok(over) => Some(Unroll(lib, over, item))
       case Err(_) => None)
    case Transform =>
      (match ParseSet(node.params)
       case Ok(None) => Some([Emit(item, 0)])
       case Ok(Some(fields)) => (match Merged(lib, fields, item) case Some(v) => Some([Emit(v, 0)]) case None => None)
       case Err(_) => None)
    case _ => Some([Emit(item, 0)])
  }

  function BehaviourOf(lib: Library, w: Workflow): Behaviour {
    (n: Id, item: Json) => if n in Ids(w) then NodeBehaviour(lib, NodeOf(w, n), item) else None
  }

  function NodeEmitter(lib: Library, node: Node): Json -> seq<Emit> {
    (j: Json) => if NodeBehaviour(lib, node, j).Some? then NodeBehaviour(lib, node, j).value else []
  }

  ghost predicate CanHandle(lib: Library, node: Node, payloads: seq<Json>) {
    forall j :: j in payloads ==> NodeBehaviour(lib, node, j).Some?
  }

  /** The reply of an executor, stated over all its input at once. */
  ghost predicate Answers(lib: Library, node: Node, input: seq<Item>, reply: Reply) {
    && (reply.Ok? <==> CanHandle(lib, node, Payloads(input)))
    && (reply.Ok? ==> Emits(reply.value) == FlatMap(NodeEmitter(lib, node), Payloads(input)))
  }

  // ---- The executors, as the source runs them ----

  /** Half-way through the input: what has been pushed is what the items so far make. */
  ghost predicate Pushed(lib: Library, node: Node, input: seq<Item>, i: nat, out: seq<Item>) {
    && i <= |input|
    && CanHandle(lib, node, Payloads(input[..i]))
    && Emits(out) == FlatMap(NodeEmitter(lib, node), Payloads(input[..i]))
  }

  lemma PushedNext(lib: Library, node: Node, input: seq<Item>, i: nat, out: seq<Item>, more: seq<Item>)
    requires i < |input| && Pushed(lib, node, input, i, out)
    requires NodeBehaviour(lib, node, input[i].json) == Some(Emits(more))
    ensures Pushed(lib, node, input, i + 1, out + more)
  {
    hide NodeBehaviour;
    assert input[..i + 1][..i] == input[..i];
    EmitsConcat(out, more);
    var ps := Payloads(input[..i + 1]);
    assert ps[..|ps| - 1] == Payloads(input[..i]);
  }

  lemma {:induction false} EmitsConcat(a: seq<Item>, b: seq<Item>)
    ensures Emits(a + b) == Emits(a) + Emits(b)
  {
    if b == [] {
      assert a + b == a;
    } else {
      EmitsConcat(a, b[..|b| - 1]);
      assert (a + b)[..|a + b| - 1] == a + b[..|b| - 1];
    }
  }

  lemma OneEmit(item: Item)
    ensures Emits([item]) == [Emit(item.json, item.port)]
  {
    assert [item][..0] == [];
  }

  lemma PushedAll(lib: Library, node: Node, input: seq<Item>, out: seq<Item>)
    requires Pushed(lib, node, input, |input|, out)
    ensures Answers(lib, node, input, Ok(out))
  {
    hide NodeBehaviour;
    assert input[..|input|] == input;
  }

  lemma FailsAt(lib: Library, node: Node, input: seq<Item>, i: nat, e: NodeError)
    requires i < |input| && NodeBehaviour(lib, node, input[i].json).None?
    ensures Answers(lib, node, input, Err(e))
  {
    hide NodeBehaviour;
    PayloadAt(input, i);
  }

  lemma PayloadAt(input: seq<Item>, i: nat)
    requires i < |input|
    ensures input[i].json in Payloads(input)
  {
    if i < |input| - 1 { PayloadAt(input[..|input| - 1], i); }
  }

  lemma BranchRefused(params: Json)
    ensures ParseBranch(params).Err? ==> ParseBranch(params).error.BadParams?
  {}

  lemma SwitchRefused(params: Json)
    ensures ParseSwitch(params).Err? ==> ParseSwitch(params).error.BadParams?
  {}

  lemma LoopRefused(params: Json)
    ensures ParseLoop(params).Err? ==> ParseLoop(params).error.BadParams?
  {}

  lemma SetRefused(params: Json)
    ensures ParseSet(params).Err? ==> ParseSet(params).error.BadParams?
  {}

  method ExecuteBranch(lib: Library, node: Node, input: seq<Item>) returns (reply: Reply)
    requires node.kind.Branch?
    ensures ParseBranch(node.params).Err? ==> reply.Err? && reply.error.BadParams?
    ensures input != [] || ParseBranch(node.params).Ok? ==> Answers(lib, node, input, reply)
  {
    hide Pushed, Answers, ParseBranch, Holds;
    var parsed := ParseBranch(node.params);
    if parsed.Err? {
      BranchRefused(node.params);
      if input != [] { FailsAt(lib, node, input, 0, parsed.error); }
      return Err(parsed.error);
    }
    var out := [];
    var i := 0;
    PushedNone(lib, node, input);
    while i < |input|
      invariant 0 <= i <= |input| && Pushed(lib, node, input, i, out)
    {
      var item := input[i].(port := if Holds(lib, parsed.value, input[i].json) then 0 else 1);
      OneEmit(item);
      PushedNext(lib, node, input, i, out, [item]);
      out := out + [item];
      i := i + 1;
    }
    PushedAll(lib, node, input, out);
    reply := Ok(out);
  }

  lemma PushedNone(lib: Library, node: Node, input: seq<Item>)
    ensures Pushed(lib, node, input, 0, [])
  {}

  method ExecuteSwitch(lib: Library, node: Node, input: seq<Item>) returns (reply: Reply)
    requires node.kind.Switch?
    ensures ParseSwitch(node.params).Err? ==> reply.Err? && reply.error.BadParams?
    ensures input != [] || ParseSwitch(node.params).Ok? ==> Answers(lib, node, input, reply)
  {
    hide Pushed, Answers, ParseSwitch, RouteTo;
    var parsed := ParseSwitch(node.params);
    if parsed.Err? {
      SwitchRefused(node.params);
      if input != [] { FailsAt(lib, node, input, 0, parsed.error); }
      return Err(parsed.error);
    }
    var out := [];
    var i := 0;
    PushedNone(lib, node, input);
    while i < |input|
      invariant 0 <= i <= |input| && Pushed(lib, node, input, i, out)
    {
      var item := input[i].(port := RouteTo(lib, parsed.value, input[i].json));
      OneEmit(item);
      PushedNext(lib, node, input, i, out, [item]);
      out := out + [item];
      i := i + 1;
    }
    PushedAll(lib, node, input, out);
    reply := Ok(out);
  }

  /** One item per element on port 0 and a count on port 1; an item without an array passes through. */
  method UnrollItem(lib: Library, over: string, nodeId: Id, item: Item) returns (more: seq<Item>)
    ensures Emits(more) == Unroll(lib, over, item.json)
  {
    var resolved := Resolve(lib, over, item.json);
    if resolved.Some? && resolved.value.JArr? {
      var elements := resolved.value.elements;
      more := [];
      var k := 0;
      while k < |elements|
        invariant 0 <= k <= |elements| && Emits(more) == Elements(item.json, elements, k)
      {
        var element := Item(Element(item.json, elements, k), Produced(nodeId, 0), 0);
        EmitsConcat(more, [element]);
        OneEmit(element);
        more := more + [element];
        k := k + 1;
      }
      var summary := Item(Summary(item.json, |elements|), Produced(nodeId, 0), 1);
      EmitsConcat(more, [summary]);
      OneEmit(summary);
      more := more + [summary];
    } else {
      more := [item.(port := 0)];
      OneEmit(item.(port := 0));
    }
  }

  method ExecuteLoop(lib: Library, node: Node, input: seq<Item>) returns (reply: Reply)
    requires node.kind.Loop?
    ensures ParseLoop(node.params).Err? ==> reply.Err? && reply.error.BadParams?
    ensures input != [] || ParseLoop(node.params).Ok? ==> Answers(lib, node, input, reply)
  {
    hide Pushed, Answers, ParseLoop, Unroll;
    var parsed := ParseLoop(node.params);
    if parsed.Err? {
      LoopRefused(node.params);
      if input != [] { FailsAt(lib, node, input, 0, parsed.error); }
      return Err(parsed.error);
    }
    var out := [];
    var i := 0;
    PushedNone(lib, node, input);
    while i < |input|
      invariant 0 <= i <= |input| && Pushed(lib, node, input, i, out)
    {
      var more := UnrollItem(lib, parsed.value, node.id, input[i]);
      PushedNext(lib, node, input, i, out, more);
      out := out + more;
      i := i + 1;
    }
    PushedAll(lib, node, input, out);
    reply := Ok(out);
  }

  /** Item `i` is the first that fails: no object, or a field that cannot be rendered. */
  ghost predicate FailsFirst(lib: Library, node: Node, input: seq<Item>, i: nat, e: NodeError) {
    && i < |input| && (forall j :: 0 <= j < i ==> NodeBehaviour(lib, node, input[j].json).Some?)
    && NodeBehaviour(lib, node, input[i].json).None?
    && (if input[i].json.JObj? then e.Runtime? else e.BadParams?)
  }

  lemma FirstFailure(lib: Library, node: Node, input: seq<Item>, i: nat, out: seq<Item>, e: NodeError)
    requires i < |input| && Pushed(lib, node, input, i, out) && NodeBehaviour(lib, node, input[i].json).None?
    requires if input[i].json.JObj? then e.Runtime? else e.BadParams?
    ensures FailsFirst(lib, node, input, i, e)
  {
    hide NodeBehaviour;
    forall j | 0 <= j < i ensures NodeBehaviour(lib, node, input[j].json).Some? {
      PayloadAt(input[..i], j);
    }
  }

  method ExecuteTransform(lib: Library, node: Node, input: seq<Item>) returns (reply: Reply)
    requires node.kind.Transform?
    ensures ParseSet(node.params).Err? ==> reply.Err? && reply.error.BadParams?
    ensures ParseSet(node.params).Ok? && reply.Err? ==> exists i :: FailsFirst(lib, node, input, i, reply.error)
    ensures input != [] || ParseSet(node.params).Ok? ==> Answers(lib, node, input, reply)
  {
    hide Pushed, Answers, ParseSet, Merged, FailsFirst;
    var parsed := ParseSet(node.params);
    if parsed.Err? {
      SetRefused(node.params);
      if input != [] { FailsAt(lib, node, input, 0, parsed.error); }
      return Err(parsed.error);
    }
    var out := [];
    var i := 0;
    PushedNone(lib, node, input);
    while i < |input|
      invariant 0 <= i <= |input| && Pushed(lib, node, input, i, out)
    {
      var json := input[i].json;
      if parsed.value.Some? {
        var merged := Merged(lib, parsed.value.value, json);
        if merged.None? {
          var e := if json.JObj? then Runtime("transform expression failed")
                   else BadParams("Transform with `set` requires object items");
          FailsAt(lib, node, input, i, e);
          FirstFailure(lib, node, input, i, out, e);
          return Err(e);
        }
        json := merged.value;
      }
      var item := Item(json, Produced(node.id, 0), 0);
      OneEmit(item);
      PushedNext(lib, node, input, i, out, [item]);
      out := out + [item];
      i := i + 1;
    }
    PushedAll(lib, node, input, out);
    reply := Ok(out);
  }

  /** Merge resets every port, whatever producer routed the item here. */
  function ExecuteMerge(input: seq<Item>): Reply {
    Ok(seq(|input|, i requires 0 <= i < |input| => input[i].(port := 0)))
  }

  lemma {:induction false} MergeAnswers(lib: Library, node: Node, input: seq<Item>)
    requires node.kind.Merge?
    ensures Answers(lib, node, input, ExecuteMerge(input))
  {
    PassThroughAnswers(lib, node, input, ExecuteMerge(input).value);
  }

  lemma {:induction false} PassThroughAnswers(lib: Library, node: Node, input: seq<Item>, out: seq<Item>)
    requires node.kind.Merge? || node.kind.IsTrigger()
    requires |out| == |input| && forall i :: 0 <= i < |out| ==> out[i].json == input[i].json && out[i].port == 0
    ensures Answers(lib, node, input, Ok(out))
  {
    hide Pushed, Answers, NodeBehaviour;
    PassThroughPushed(lib, node, input, out, |input|);
    assert out[..|out|] == out;
    PushedAll(lib, node, input, out);
  }

  lemma {:induction false} PassThroughPushed(lib: Library, node: Node, input: seq<Item>, out: seq<Item>, k: nat)
    requires node.kind.Merge? || node.kind.IsTrigger()
    requires |out| == |input| && forall i :: 0 <= i < |out| ==> out[i].json == input[i].json && out[i].port == 0
    requires k <= |input|
    ensures Pushed(lib, node, input, k, out[..k])
  {
    hide Pushed, NodeBehaviour;
    if k == 0 {
      assert out[..0] == [];
      PushedNone(lib, node, input);
    } else {
      PassThroughPushed(lib, node, input, out, k - 1);
      OneEmit(out[k - 1]);
      PassesThrough(lib, node, input[k - 1].json);
      PushedNext(lib, node, input, k - 1, out[..k - 1], [out[k - 1]]);
      assert out[..k] == out[..k - 1] + [out[k - 1]];
    }
  }

  lemma PassesThrough(lib: Library, node: Node, j: Json)
    requires node.kind.Merge? || node.kind.IsTrigger()
    ensures NodeBehaviour(lib, node, j) == Some([Emit(j, 0)])
  {}

  // ---- Any such engine run is per item ----

  /** The executors registered for the pure kinds answer as above. */
  ghost predicate PureOracle(lib: Library, job: Job) {
    forall node: Node, k: nat, input: seq<Item> {:trigger job.oracle(node, job.mode, k, input)} ::
      node in job.wf.nodes ==> PureReply(lib, node, input, job.oracle(node, job.mode, k, input))
  }

  /** Triggers pass their input on; the others answer anything that arrives as their executor does. */
  ghost predicate PureReply(lib: Library, node: Node, input: seq<Item>, reply: Reply) {
    && IsPure(node.kind)
    && (node.kind.IsTrigger() ==> reply == Ok(input))
    && (!node.kind.IsTrigger() && input != [] ==> Answers(lib, node, input, reply))
  }

  lemma PureIsPerItem(lib: Library, job: Job)
    requires Valid(job.wf) && PureOracle(lib, job)
    ensures PerItemJob(job, BehaviourOf(lib, job.wf))
  {
    hide Acyclic, PortsInRange, NoDangling, OneTrigger, NodeBehaviour;
    var f := BehaviourOf(lib, job.wf);
    forall node: Node, k: nat, input: seq<Item> |
      node in job.wf.nodes && (if node.kind.IsTrigger() then forall x :: x in input ==> x.port == 0 else input != [])
      ensures RepliesPerItem(f, node.id, input, job.oracle(node, job.mode, k, input))
    {
      var reply := job.oracle(node, job.mode, k, input);
      if node.kind.IsTrigger() {
        PassThroughAnswers(lib, node, input, input);
      }
      NodeOfSelf(job.wf, node);
      AnswersAreReplies(lib, job.wf, node, input, reply);
    }
  }

  lemma AnswersAreReplies(lib: Library, w: Workflow, node: Node, input: seq<Item>, reply: Reply)
    requires node.id in Ids(w) && NodeOf(w, node.id) == node && Answers(lib, node, input, reply)
    ensures RepliesPerItem(BehaviourOf(lib, w), node.id, input, reply)
  {
    hide NodeBehaviour;
    FlatMapSame(Emitter(BehaviourOf(lib, w), node.id), NodeEmitter(lib, node), Payloads(input));
  }

  // ---- What the routing nodes guarantee ----

  function Routed(lib: Library, node: Node, payloads: seq<Json>, port: nat): seq<Json> {
    FlatMap(OnPortOnly(port), FlatMap(NodeEmitter(lib, node), payloads))
  }

  lemma RoutedLast(lib: Library, node: Node, front: seq<Json>, j: Json, port: nat)
    ensures Routed(lib, node, front + [j], port) ==
            Routed(lib, node, front, port) + FlatMap(OnPortOnly(port), NodeEmitter(lib, node)(j))
  {
    hide NodeBehaviour;
    assert (front + [j])[..|front + [j]| - 1] == front;
    FlatMapConcat(OnPortOnly(port), FlatMap(NodeEmitter(lib, node), front), NodeEmitter(lib, node)(j));
  }

  lemma OneOnPort(e: Emit, port: nat)
    ensures FlatMap(OnPortOnly(port), [e]) == if e.port == port then [e.json] else []
  {
    assert [e][..0] == [];
  }

  lemma BranchEmits(lib: Library, node: Node, cond: BranchCondition, j: Json)
    requires node.kind.Branch? && ParseBranch(node.params) == Ok(cond)
    ensures NodeEmitter(lib, node)(j) == [Emit(j, if Holds(lib, cond, j) then 0 else 1)]
  {}

  /** Branch loses nothing and repeats nothing: port 0 gets the items that satisfy the condition, port 1 the rest. */
  lemma {:induction false} BranchPartitions(lib: Library, node: Node, cond: BranchCondition, payloads: seq<Json>)
    requires node.kind.Branch? && ParseBranch(node.params) == Ok(cond)
    ensures multiset(Routed(lib, node, payloads, 0)) + multiset(Routed(lib, node, payloads, 1)) == multiset(payloads)
    ensures forall j :: j in Routed(lib, node, payloads, 0) ==> Holds(lib, cond, j)
    ensures forall j :: j in Routed(lib, node, payloads, 1) ==> !Holds(lib, cond, j)
  {
    hide ParseBranch, Holds, Routed, NodeBehaviour, NodeEmitter, FlatMap;
    if payloads == [] {
      NothingRouted(lib, node);
    } else {
      var front, j := payloads[..|payloads| - 1], payloads[|payloads| - 1];
      assert payloads == front + [j];
      BranchPartitions(lib, node, cond, front);
      RoutedLast(lib, node, front, j, 0);
      RoutedLast(lib, node, front, j, 1);
      BranchEmits(lib, node, cond, j);
      var e := Emit(j, if Holds(lib, cond, j) then 0 else 1);
      OneOnPort(e, 0);
      OneOnPort(e, 1);
      assert Routed(lib, node, payloads, 0) == if Holds(lib, cond, j) then Routed(lib, node, front, 0) + [j]
                                               else Routed(lib, node, front, 0);
      assert Routed(lib, node, payloads, 1) == if Holds(lib, cond, j) then Routed(lib, node, front, 1)
                                               else Routed(lib, node, front, 1) + [j];
    }
  }

  lemma NothingRouted(lib: Library, node: Node)
    ensures Routed(lib, node, [], 0) == [] && Routed(lib, node, [], 1) == []
  {}

  lemma {:induction false} HighestBounds(cases: seq<SwitchCase>)
    requires cases != []
    ensures forall c :: c in cases ==> c.port <= HighestPort(cases)
  {
    if |cases| > 1 {
      var k := |cases| - 1;
      HighestBounds(cases[..k]);
      assert cases == cases[..k] + [cases[k]];
    }
  }

  /** The first matching case wins; an item that matches none goes to the default port if there is one. */
  lemma SwitchRoutes(lib: Library, spec: SwitchSpec, item: Json, i: nat)
    requires Resolve(lib, spec.key, item).Some? && i <= |spec.cases|
    requires forall k :: 0 <= k < i ==> spec.cases[k].value != Resolve(lib, spec.key, item).value
    requires i < |spec.cases| ==> spec.cases[i].value == Resolve(lib, spec.key, item).value
    ensures i < |spec.cases| ==> RouteTo(lib, spec, item) == spec.cases[i].port
    ensures i == |spec.cases| && spec.defaultPort.Some? ==> RouteTo(lib, spec, item) == spec.defaultPort.value
  {
    var v := Resolve(lib, spec.key, item).value;
    var hit := FirstMatch(spec.cases, v);
    if i < |spec.cases| {
      assert spec.cases[i] in spec.cases;
      var k :| 0 <= k < |spec.cases| && spec.cases[k].value == v && hit.value == spec.cases[k].port
               && forall j :: 0 <= j < k ==> spec.cases[j].value != v;
      assert k == i;
    }
  }

  /** Without a default port an item that no case matches goes to a port of its own, past every case. */
  lemma UnmatchedGoesPast(lib: Library, spec: SwitchSpec, item: Json)
    requires spec.defaultPort.None?
    requires var v := Resolve(lib, spec.key, item); v.Some? ==> forall c :: c in spec.cases ==> c.value != v.value
    ensures forall c :: c in spec.cases ==> c.port < RouteTo(lib, spec, item)
    ensures spec.cases == [] ==> RouteTo(lib, spec, item) == 0
  {
    if spec.cases != [] { HighestBounds(spec.cases); }
  }

  lemma {:induction false} ElementsAt(parent: Json, elements: seq<Json>, k: nat)
    requires k <= |elements|
    ensures |Elements(parent, elements, k)| == k
    ensures forall i :: 0 <= i < k ==> Elements(parent, elements, k)[i] == Emit(Element(parent, elements, i), 0)
  {
    if k > 0 { ElementsAt(parent, elements, k - 1); }
  }

  /** Loop: element by element on port 0, each with its index, then one summary with the count on port 1. */
  lemma LoopFansOut(lib: Library, over: string, item: Json)
    ensures var resolved, out := Resolve(lib, over, item), Unroll(lib, over, item);
            if resolved.Some? && resolved.value.JArr? then
              var elements := resolved.value.elements;
              && |out| == |elements| + 1
              && (forall i :: 0 <= i < |elements| ==> out[i] == Emit(Element(item, elements, i), 0))
              && out[|elements|] == Emit(Summary(item, |elements|), 1)
            else out == [Emit(item, 0)]
  {
    var resolved := Resolve(lib, over, item);
    if resolved.Some? && resolved.value.JArr? {
      ElementsAt(item, resolved.value.elements, |resolved.value.elements|);
    }
  }
}
