/** What the pure nodes do, told from the JSON of their parameters to the items they emit. */
module NodeParameters {
  import opened Wrappers
  import opened Workflows
  import opened Items
  import opened Semantics
  import opened Bags
  import opened PerItem
  import opened Executors

  /** What a pointer leads to; the empty one and the slash stand for the whole item. */
  function At(lib: Library, path: string, item: Json): Option<Json> {
    if |path| == 0 || path == "/" then Some(item) else lib.pointer(item, path)
  }

  predicate Has(params: Json, key: string) { params.JObj? && key in params.fields }

  function Get(params: Json, key: string): Json { if Has(params, key) then params.fields[key] else JNull }

  predicate HasString(params: Json, key: string) { Has(params, key) && Get(params, key).JStr? }

  // ---- Branch ----

  const BRANCH_OPS: set<string> := {"truthy", "eq", "ne", "contains"}

  /** A pointer string, or an object with a pointer and perhaps an operator; truth may not be asked of the root. */
  predicate IsCondition(raw: Json) {
    || (raw.JStr? && raw.s != "" && raw.s != "/")
    || (HasString(raw, "path")
        && (Has(raw, "op") ==> Get(raw, "op").JStr? && Get(raw, "op").s in BRANCH_OPS)
        && (!Has(raw, "op") || Get(raw, "op") == JStr("truthy") ==> Get(raw, "path").s != "" && Get(raw, "path").s != "/"))
  }

  /** Neither null, false, zero, nor empty. */
  predicate IsSomething(v: Json) {
    v !in {JNull, JBool(false), JNum(0.0), JStr(""), JArr([]), JObj(map[])}
  }

  predicate Includes(lib: Library, whole: Json, part: Json) {
    || (whole.JStr? && part.JStr? && lib.contains(whole.s, part.s))
    || (whole.JArr? && part in whole.elements)
    || (whole.JObj? && part.JStr? && part.s in whole.fields)
  }

  /** Whether the item goes to port 0. What the pointer does not lead to meets no condition. */
  predicate Meets(lib: Library, raw: Json, item: Json)
    requires IsCondition(raw)
  {
    var path := if raw.JStr? then raw.s else Get(raw, "path").s;
    var op := if raw.JStr? || !Has(raw, "op") then "truthy" else Get(raw, "op").s;
    var value := if raw.JObj? && Has(raw, "value") then Get(raw, "value") else JNull;
    var found := At(lib, path, item);
    && found.Some?
    && (op == "truthy" ==> IsSomething(found.value))
    && (op == "eq" ==> found.value == value)
    && (op == "ne" ==> found.value != value)
    && (op == "contains" ==> Includes(lib, found.value, value))
  }

  lemma BranchMeans(lib: Library, node: Node, item: Json)
    requires node.kind.Branch?
    ensures NodeBehaviour(lib, node, item) ==
      if Has(node.params, "condition") && IsCondition(Get(node.params, "condition"))
      then Some([Emit(item, if Meets(lib, Get(node.params, "condition"), item) then 0 else 1)]) else None
  {
    hide Includes, IsSomething, IsTruthy;
    if Has(node.params, "condition") {
      var raw := Get(node.params, "condition");
      ConditionIsRead(node.params, raw);
      if IsCondition(raw) { ConditionMeans(lib, raw, ParseBranch(node.params).value, item); }
    }
  }

  /** How the condition is read. */
  ghost predicate ReadAs(raw: Json, cond: BranchCondition)
    requires IsCondition(raw)
  {
    && cond.path == (if raw.JStr? then raw.s else Get(raw, "path").s)
    && cond.value == (if raw.JObj? && Has(raw, "value") then Get(raw, "value") else JNull)
    && cond.op == if raw.JStr? || !Has(raw, "op") || Get(raw, "op").s == "truthy" then Truthy
                  else if Get(raw, "op").s == "eq" then Equal else if Get(raw, "op").s == "ne" then NotEqual else Contains
  }

  lemma ConditionIsRead(params: Json, raw: Json)
    requires Has(params, "condition") && Get(params, "condition") == raw
    ensures ParseBranch(params).Ok? <==> IsCondition(raw)
    ensures IsCondition(raw) ==> ReadAs(raw, ParseBranch(params).value)
  {
    if raw.JObj? && Has(raw, "op") && Get(raw, "op").JStr? { OpIsRead(Get(raw, "op").s); }
  }

  lemma OpIsRead(s: string)
    ensures ParseOp(Some(JStr(s))).Some? <==> s in BRANCH_OPS
    ensures ParseOp(Some(JStr(s))) == Some(Truthy) <==> s == "truthy"
  {}

  lemma ConditionMeans(lib: Library, raw: Json, cond: BranchCondition, item: Json)
    requires IsCondition(raw) && ReadAs(raw, cond)
    ensures Holds(lib, cond, item) <==> Meets(lib, raw, item)
  {
    hide IsTruthy, IsSomething;
    var found := At(lib, cond.path, item);
    if found.Some? { TruthyMeans(found.value); } else { NothingIsFalse(); }
  }

  lemma NothingIsFalse()
    ensures !IsTruthy(None)
  {}

  lemma TruthyMeans(v: Json)
    ensures IsTruthy(Some(v)) <==> IsSomething(v)
  {}

  // ---- Switch ----

  predicate IsPortNumber(v: Json) { v.JNum? && v.n >= 0.0 && v.n == v.n.Floor as real }

  predicate IsCase(c: Json) { Has(c, "value") && Has(c, "port") && IsPortNumber(Get(c, "port")) }

  predicate HasDefault(params: Json) { Has(params, "default_port") && Get(params, "default_port") != JNull }

  predicate IsSwitch(params: Json) {
    && HasString(params, "key")
    && Has(params, "cases") && Get(params, "cases").JArr? && (forall c :: c in Get(params, "cases").elements ==> IsCase(c))
    && (HasDefault(params) ==> IsPortNumber(Get(params, "default_port")))
  }

  /** The port of the first case with the value found; without one the default; without that one past every case. */
  ghost predicate SwitchesTo(lib: Library, params: Json, item: Json, port: nat)
    requires IsSwitch(params)
  {
    var found, cases := At(lib, Get(params, "key").s, item), Get(params, "cases").elements;
    if found.Some? && exists c :: c in cases && Get(c, "value") == found.value then
      exists i :: 0 <= i < |cases| && Get(cases[i], "value") == found.value && Get(cases[i], "port") == JNum(port as real)
                  && forall j :: 0 <= j < i ==> Get(cases[j], "value") != found.value
    else if HasDefault(params) then Get(params, "default_port") == JNum(port as real)
    else if cases == [] then port == 0
    else
      && (forall c :: c in cases ==> Get(c, "port").n < port as real)
      && exists c :: c in cases && Get(c, "port").n == (port - 1) as real
  }

  lemma SwitchMeans(lib: Library, node: Node, item: Json)
    requires node.kind.Switch?
    ensures IsSwitch(node.params) ==>
      exists port :: SwitchesTo(lib, node.params, item, port) && NodeBehaviour(lib, node, item) == Some([Emit(item, port)])
    ensures !IsSwitch(node.params) ==> NodeBehaviour(lib, node, item) == None
  {
    hide SwitchesTo, RouteTo, IsCase;
    SwitchIsRead(node.params);
    if IsSwitch(node.params) { SwitchRoutesTo(lib, node.params, ParseSwitch(node.params).value, item); }
  }

  /** The cases one by one. */
  ghost predicate CasesReadAs(cases: seq<Json>, read: seq<SwitchCase>) {
    |read| == |cases| && forall i :: 0 <= i < |cases| ==>
      IsCase(cases[i]) && read[i].value == Get(cases[i], "value") && Get(cases[i], "port") == JNum(read[i].port as real)
  }

  lemma {:induction false} CasesAreRead(cases: seq<Json>)
    ensures ParseCases(cases).Some? <==> forall c :: c in cases ==> IsCase(c)
    ensures ParseCases(cases).Some? ==> CasesReadAs(cases, ParseCases(cases).value)
  {
    if cases != [] {
      var k := |cases| - 1;
      CasesAreRead(cases[..k]);
      assert cases == cases[..k] + [cases[k]];
      hide IsCase, AsPort;
      CaseIsRead(cases[k]);
    }
  }

  lemma CaseIsRead(c: Json)
    ensures var value, port := Field(c, "value"), Field(c, "port");
            && (value.Some? && port.Some? && AsPort(port.value).Some? <==> IsCase(c))
            && (IsCase(c) ==> value.value == Get(c, "value") && Get(c, "port") == JNum(AsPort(port.value).value as real))
  {
    hide AsPort, IsPortNumber;
    if Has(c, "port") { PortIsRead(Get(c, "port")); }
  }

  lemma PortIsRead(v: Json)
    ensures AsPort(v).Some? <==> IsPortNumber(v)
    ensures AsPort(v).Some? ==> v == JNum(AsPort(v).value as real)
  {}

  lemma SwitchIsRead(params: Json)
    ensures ParseSwitch(params).Ok? <==> IsSwitch(params)
    ensures IsSwitch(params) ==>
      var spec := ParseSwitch(params).value;
      && spec.key == Get(params, "key").s && CasesReadAs(Get(params, "cases").elements, spec.cases)
      && (spec.defaultPort.Some? <==> HasDefault(params))
      && (HasDefault(params) ==> Get(params, "default_port") == JNum(spec.defaultPort.value as real))
  {
    hide AsPort, IsPortNumber, ParseCases, CasesReadAs, IsCase;
    if Has(params, "cases") && Get(params, "cases").JArr? { CasesAreRead(Get(params, "cases").elements); }
    if Has(params, "default_port") { PortIsRead(Get(params, "default_port")); }
  }

  lemma SwitchRoutesTo(lib: Library, params: Json, spec: SwitchSpec, item: Json)
    requires IsSwitch(params) && spec.key == Get(params, "key").s
    requires CasesReadAs(Get(params, "cases").elements, spec.cases)
    requires spec.defaultPort.Some? <==> HasDefault(params)
    requires HasDefault(params) ==> Get(params, "default_port") == JNum(spec.defaultPort.value as real)
    ensures SwitchesTo(lib, params, item, RouteTo(lib, spec, item))
  {
    var found, cases, port := At(lib, spec.key, item), Get(params, "cases").elements, RouteTo(lib, spec, item);
    if found.Some? { FirstCase(cases, spec.cases, found.value); }
    if spec.cases != [] { PastTheHighest(cases, spec.cases); }
  }

  lemma FirstCase(cases: seq<Json>, read: seq<SwitchCase>, v: Json)
    requires CasesReadAs(cases, read)
    ensures FirstMatch(read, v).Some? <==> exists c :: c in cases && IsCase(c) && Get(c, "value") == v
    ensures FirstMatch(read, v).Some? ==>
      exists i :: 0 <= i < |cases| && Get(cases[i], "value") == v && Get(cases[i], "port") == JNum(FirstMatch(read, v).value as real)
                  && forall j :: 0 <= j < i ==> Get(cases[j], "value") != v
  {
    hide IsCase;
    var hit := FirstMatch(read, v);
    if hit.Some? {
      var i :| 0 <= i < |read| && read[i].value == v && hit.value == read[i].port
               && forall j :: 0 <= j < i ==> read[j].value != v;
      assert cases[i] in cases;
      CaseHas(cases[i]);
      forall j | 0 <= j < i ensures Has(cases[j], "value") { CaseHas(cases[j]); }
    }
    if c :| c in cases && IsCase(c) && Get(c, "value") == v {
      var i :| 0 <= i < |cases| && cases[i] == c;
      assert read[i] in read;
    }
  }

  lemma CaseHas(c: Json)
    requires IsCase(c)
    ensures Has(c, "value") && Has(c, "port") && Get(c, "port").JNum?
  {}

  lemma PastTheHighest(cases: seq<Json>, read: seq<SwitchCase>)
    requires CasesReadAs(cases, read) && read != []
    ensures var port := HighestPort(read) + 1;
            && (forall c :: c in cases ==> IsCase(c) && Get(c, "port").n < port as real)
            && exists c :: c in cases && IsCase(c) && Get(c, "port").n == (port - 1) as real
  {
    var k := HighestIsThere(read);
    HighestBounds(read);
    assert cases[k] in cases && Get(cases[k], "port").n == HighestPort(read) as real;
    forall c | c in cases ensures IsCase(c) && Get(c, "port").n < (HighestPort(read) + 1) as real {
      var i :| 0 <= i < |cases| && cases[i] == c;
      assert read[i] in read;
    }
  }

  lemma {:induction false} HighestIsThere(read: seq<SwitchCase>) returns (k: nat)
    requires read != []
    ensures k < |read| && read[k].port == HighestPort(read)
  {
    k := |read| - 1;
    if |read| > 1 && HighestPort(read[..k]) > read[k].port { k := HighestIsThere(read[..k]); }
  }

  // ---- Loop ----

  /** Element by element, then a summary; what leads to no array passes through. */
  lemma LoopMeans(lib: Library, node: Node, item: Json)
    requires node.kind.Loop?
    ensures !HasString(node.params, "over") ==> NodeBehaviour(lib, node, item) == None
    ensures HasString(node.params, "over") ==>
      var found := At(lib, Get(node.params, "over").s, item);
      var out := NodeBehaviour(lib, node, item);
      if found.Some? && found.value.JArr? then
        var elements := found.value.elements;
        && out.Some? && |out.value| == |elements| + 1
        && (forall i :: 0 <= i < |elements| ==>
              out.value[i] == Emit(JObj(map["index" := JNum(i as real), "value" := elements[i], "parent" := item]), 0))
        && out.value[|elements|] == Emit(JObj(map["parent" := item, "count" := JNum(|elements| as real)]), 1)
      else out == Some([Emit(item, 0)])
  {
    hide Unroll;
    if HasString(node.params, "over") { LoopFansOut(lib, Get(node.params, "over").s, item); }
  }

  // ---- Transform ----

  /** A field of `set` is rendered against the item as it came and wins over a field of the same name; all others
      stay. An item that is no object, or a field that cannot be rendered, fails the node. */
  lemma TransformMeans(lib: Library, node: Node, item: Json)
    requires node.kind.Transform?
    ensures var out := NodeBehaviour(lib, node, item);
            if !Has(node.params, "set") || Get(node.params, "set") == JNull then out == Some([Emit(item, 0)])
            else if !Get(node.params, "set").JObj? || !item.JObj? then out == None
            else
              var fields := Get(node.params, "set").fields;
              if exists k :: k in fields && lib.render(fields[k], item).Err? then out == None
              else
                && out.Some? && |out.value| == 1 && out.value[0].port == 0 && out.value[0].json.JObj?
                && (forall k :: k in out.value[0].json.fields <==> k in item.fields || k in fields)
                && forall k :: k in out.value[0].json.fields ==>
                     if k in fields then lib.render(fields[k], item) == Ok(out.value[0].json.fields[k])
                     else out.value[0].json.fields[k] == item.fields[k]
  {
    if Has(node.params, "set") && Get(node.params, "set").JObj? && item.JObj? {
      var fields := Get(node.params, "set").fields;
      MergedMeans(lib, fields, item);
    }
  }

  lemma MergedMeans(lib: Library, fields: map<string, Json>, item: Json)
    requires item.JObj?
    ensures Merged(lib, fields, item).Some? <==> forall k :: k in fields ==> lib.render(fields[k], item).Ok?
    ensures Merged(lib, fields, item).Some? ==>
      var merged := Merged(lib, fields, item).value;
      && merged.JObj? && (forall k :: k in merged.fields <==> k in item.fields || k in fields)
      && forall k :: k in merged.fields ==>
           if k in fields then lib.render(fields[k], item) == Ok(merged.fields[k]) else merged.fields[k] == item.fields[k]
  {}

  /** Merge and the triggers pass every item on, on port 0. */
  lemma OthersPass(lib: Library, node: Node, item: Json)
    requires node.kind == Merge || node.kind == WebhookTrigger || node.kind == ScheduleTrigger
    ensures NodeBehaviour(lib, node, item) == Some([Emit(item, 0)])
  {}
}
