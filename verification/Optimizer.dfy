/** Parallelize: rewiring a node that waits for a producer whose data it does not read. */
module Optimizer {
  import opened Wrappers
  import opened Workflows
  import opened Filtering
  import opened Sorting
  import opened Operators
  import opened CriticalPaths

  datatype SerialEdge = SerialEdge(predecessor: Id, dependent: Id)

  datatype InEdge = InEdge(fromNode: Id, fromPort: nat)

  datatype IrOp = AddConnection(c: Connection) | RemoveConnection(c: Connection)

  /** Whether parameters mention their input in either template syntax. */
  type Consumes = Json -> bool

  // ---- Which edges qualify ----

  function InCount(conns: seq<Connection>, b: Id): nat {
    |Into(conns, b)|
  }

  /** `b` waits for `a` alone, `a` is no trigger, and `b` does not read its input. */
  predicate IsSerial(w: Workflow, consumes: Consumes, a: Id, b: Id) {
    && InCount(w.connections, b) == 1
    && a in Ids(w) && !LastNode(w.nodes, a).value.kind.IsTrigger()
    && b in Ids(w) && !consumes(LastNode(w.nodes, b).value.params)
  }

  /** The node an index by id holds: the last one declared with that id. */
  function LastNode(nodes: seq<Node>, n: Id): (r: Option<Node>)
    ensures r.Some? ==> r.value in nodes && r.value.id == n
    ensures r.None? ==> forall x :: x in nodes ==> x.id != n
  {
    if nodes == [] then None
    else
      var k := |nodes| - 1;
      if nodes[k].id == n then Some(nodes[k]) else LastNode(nodes[..k], n)
  }

  method IndexNodes(nodes: seq<Node>) returns (index: map<Id, Node>)
    ensures forall n :: (if n in index then Some(index[n]) else None) == LastNode(nodes, n)
  {
    index := map[];
    var i := 0;
    while i < |nodes|
      invariant 0 <= i <= |nodes|
      invariant forall n :: (if n in index then Some(index[n]) else None) == LastNode(nodes[..i], n)
    {
      assert nodes[..i + 1][..i] == nodes[..i];
      index := index[nodes[i].id := nodes[i]];
      i := i + 1;
    }
    assert nodes[..i] == nodes;
  }

  function SerialList(w: Workflow, consumes: Consumes, conns: seq<Connection>): (r: seq<SerialEdge>)
    ensures forall e :: e in r <==> exists c :: c in conns && e == SerialEdge(c.fromNode, c.toNode)
                                              && IsSerial(w, consumes, c.fromNode, c.toNode)
  {
    if conns == [] then []
    else
      var k := |conns| - 1;
      var c := conns[k];
      assert conns == conns[..k] + [c];
      SerialList(w, consumes, conns[..k])
      + if IsSerial(w, consumes, c.fromNode, c.toNode) then [SerialEdge(c.fromNode, c.toNode)] else []
  }

  method CountIncoming(conns: seq<Connection>) returns (count: map<Id, nat>)
    ensures forall b :: (if b in count then count[b] else 0) == InCount(conns, b)
  {
    count := map[];
    var i := 0;
    while i < |conns|
      invariant 0 <= i <= |conns|
      invariant forall b :: (if b in count then count[b] else 0) == InCount(conns[..i], b)
    {
      var c := conns[i];
      forall b ensures InCount(conns[..i + 1], b) == InCount(conns[..i], b) + if c.toNode == b then 1 else 0 {
        assert conns[..i + 1][..i] == conns[..i];
      }
      count := count[c.toNode := (if c.toNode in count then count[c.toNode] else 0) + 1];
      i := i + 1;
    }
    assert conns[..i] == conns;
  }

  method SerialIndependentEdges(w: Workflow, consumes: Consumes) returns (edges: seq<SerialEdge>)
    ensures edges == SerialList(w, consumes, w.connections)
  {
    hide InCount, LastNode;
    var count := CountIncoming(w.connections);
    var index := IndexNodes(w.nodes);
    edges := [];
    var i := 0;
    while i < |w.connections|
      invariant 0 <= i <= |w.connections| && edges == SerialList(w, consumes, w.connections[..i])
    {
      assert w.connections[..i + 1][..i] == w.connections[..i];
      var a, b := w.connections[i].fromNode, w.connections[i].toNode;
      var alone := (if b in count then count[b] else 0) == 1;
      Indexed(w, index, a);
      Indexed(w, index, b);
      if alone && a in index && !index[a].kind.IsTrigger() && b in index && !consumes(index[b].params) {
        edges := edges + [SerialEdge(a, b)];
      }
      i := i + 1;
    }
    assert w.connections[..i] == w.connections;
  }

  lemma Indexed(w: Workflow, index: map<Id, Node>, n: Id)
    requires forall n :: (if n in index then Some(index[n]) else None) == LastNode(w.nodes, n)
    ensures n in index <==> n in Ids(w)
    ensures n in index ==> LastNode(w.nodes, n) == Some(index[n])
  {
    hide LastNode;
    assert (if n in index then Some(index[n]) else None) == LastNode(w.nodes, n);
  }

  // ---- The rewrite of one edge ----

  function InEdges(conns: seq<Connection>, n: Id): (r: seq<InEdge>)
    ensures forall e :: e in r <==> Connection(e.fromNode, e.fromPort, n) in conns
  {
    if conns == [] then []
    else
      var k := |conns| - 1;
      var c := conns[k];
      assert conns == conns[..k] + [c];
      InEdges(conns[..k], n) + if c.toNode == n then [InEdge(c.fromNode, c.fromPort)] else []
  }

  lemma InEdgesLast(conns: seq<Connection>, c: Connection, n: Id)
    ensures InEdges(conns + [c], n) == InEdges(conns, n) + if c.toNode == n then [InEdge(c.fromNode, c.fromPort)] else []
  {
    assert (conns + [c])[..|conns + [c]| - 1] == conns;
  }

  ghost predicate Lists(incoming: map<Id, seq<InEdge>>, conns: seq<Connection>) {
    forall n :: (if n in incoming then incoming[n] else []) == InEdges(conns, n)
  }

  lemma ListsNothing()
    ensures Lists(map[], [])
  {}

  lemma ListsOneMore(incoming: map<Id, seq<InEdge>>, conns: seq<Connection>, c: Connection)
    requires Lists(incoming, conns)
    ensures var before := if c.toNode in incoming then incoming[c.toNode] else [];
            Lists(incoming[c.toNode := before + [InEdge(c.fromNode, c.fromPort)]], conns + [c])
  {
    hide InEdges;
    forall n ensures InEdges(conns + [c], n) ==
      InEdges(conns, n) + if c.toNode == n then [InEdge(c.fromNode, c.fromPort)] else []
    {
      InEdgesLast(conns, c, n);
    }
  }

  method IncomingEdges(conns: seq<Connection>) returns (incoming: map<Id, seq<InEdge>>)
    ensures Lists(incoming, conns)
  {
    hide Lists;
    incoming := map[];
    var i := 0;
    assert conns[..0] == [];
    ListsNothing();
    while i < |conns|
      invariant 0 <= i <= |conns| && Lists(incoming, conns[..i])
    {
      var c := conns[i];
      assert conns[..i + 1] == conns[..i] + [c];
      ListsOneMore(incoming, conns[..i], c);
      var before := if c.toNode in incoming then incoming[c.toNode] else [];
      incoming := incoming[c.toNode := before + [InEdge(c.fromNode, c.fromPort)]];
      i := i + 1;
    }
    assert conns[..i] == conns;
  }

  /** The port of the first connection from `a` to `b`. */
  function EdgePort(conns: seq<Connection>, a: Id, b: Id): (port: nat)
    ensures (exists c :: c in conns && c.fromNode == a && c.toNode == b) ==> Connection(a, port, b) in conns
  {
    if conns == [] then 0
    else
      var c := conns[0];
      assert conns == [c] + conns[1..];
      assert c.fromNode == a && c.toNode == b ==> c == Connection(a, c.fromPort, b);
      if c.fromNode == a && c.toNode == b then c.fromPort else EdgePort(conns[1..], a, b)
  }

  function Adds(edges: seq<InEdge>, b: Id): (r: seq<IrOp>)
    ensures |r| == |edges|
    ensures forall i :: 0 <= i < |r| ==> r[i] == AddConnection(Connection(edges[i].fromNode, edges[i].fromPort, b))
  {
    seq(|edges|, i requires 0 <= i < |edges| => AddConnection(Connection(edges[i].fromNode, edges[i].fromPort, b)))
  }

  /** Drop `a -> b`, and connect each producer of `a` straight to `b`. */
  function OpsFor(w: Workflow, e: SerialEdge): seq<IrOp> {
    var a, b := e.predecessor, e.dependent;
    [RemoveConnection(Connection(a, EdgePort(w.connections, a, b), b))] + Adds(InEdges(w.connections, a), b)
  }

  method Rewire(a: Id, b: Id, port: nat, producers: seq<InEdge>) returns (ops: seq<IrOp>)
    ensures ops == [RemoveConnection(Connection(a, port, b))] + Adds(producers, b)
  {
    ops := [RemoveConnection(Connection(a, port, b))];
    var j := 0;
    while j < |producers|
      invariant 0 <= j <= |producers|
      invariant ops == [RemoveConnection(Connection(a, port, b))] + Adds(producers, b)[..j]
    {
      ops := ops + [AddConnection(Connection(producers[j].fromNode, producers[j].fromPort, b))];
      j := j + 1;
    }
    assert Adds(producers, b)[..j] == Adds(producers, b);
  }

  // ---- Which edges those are, and what is done to them ----

  /** The node an id refers to: the last one declared with it. */
  ghost predicate RefersTo(nodes: seq<Node>, n: Id, i: nat) {
    i < |nodes| && nodes[i].id == n && forall j :: i < j < |nodes| ==> nodes[j].id != n
  }

  ghost predicate LeavesNoTrigger(nodes: seq<Node>, n: Id) {
    exists i: nat :: RefersTo(nodes, n, i) && nodes[i].kind != WebhookTrigger && nodes[i].kind != ScheduleTrigger
  }

  ghost predicate ReadsNoInput(nodes: seq<Node>, consumes: Consumes, n: Id) {
    exists i: nat :: RefersTo(nodes, n, i) && !consumes(nodes[i].params)
  }

  /** Connection `k` is the only one into its target, does not leave a trigger, and its target does not read its
      input. */
  ghost predicate IsDispensable(w: Workflow, consumes: Consumes, k: nat) {
    && k < |w.connections|
    && (forall j :: 0 <= j < |w.connections| && w.connections[j].toNode == w.connections[k].toNode ==> j == k)
    && LeavesNoTrigger(w.nodes, w.connections[k].fromNode)
    && ReadsNoInput(w.nodes, consumes, w.connections[k].toNode)
  }

  /** The first op drops the connection; the others connect every producer of its source to its target, port by port
      in order of declaration. */
  ghost predicate Rewires(w: Workflow, c: Connection, ops: seq<IrOp>, at: seq<nat>) {
    && EnterAt(w.connections, c.fromNode, at)
    && |ops| == |at| + 1 && ops[0] == RemoveConnection(c)
    && forall i :: 0 <= i < |at| ==> at[i] < |w.connections| && ops[i + 1] == AddConnection(w.connections[at[i]].(toNode := c.toNode))
  }

  /** One suggestion for each connection that qualifies, in order of declaration. */
  ghost predicate Suggests(w: Workflow, consumes: Consumes, suggestions: seq<seq<IrOp>>, at: seq<nat>) {
    && |at| == |suggestions| && Rising(at) && (forall k: nat :: k in at <==> IsDispensable(w, consumes, k))
    && forall i :: 0 <= i < |at| ==> at[i] < |w.connections| && RewiredAt(w, w.connections[at[i]], suggestions[i])
  }

  ghost predicate RewiredAt(w: Workflow, c: Connection, ops: seq<IrOp>) {
    exists into: seq<nat> :: Rewires(w, c, ops, into)
  }

  lemma {:induction false} LastIsReferred(nodes: seq<Node>, n: Id) returns (i: nat)
    ensures LastNode(nodes, n) == if i < |nodes| then Some(nodes[i]) else None
    ensures i < |nodes| ==> RefersTo(nodes, n, i)
    ensures i >= |nodes| ==> forall j: nat :: !RefersTo(nodes, n, j)
  {
    if nodes == [] {
      i := 0;
    } else {
      var k := |nodes| - 1;
      if nodes[k].id == n {
        i := k;
      } else {
        i := LastIsReferred(nodes[..k], n);
        if i < k {
          assert RefersTo(nodes, n, i);
        } else {
          i := |nodes|;
          forall j: nat ensures !RefersTo(nodes, n, j) {
            if j < k { assert nodes[..k][j] == nodes[j]; assert !RefersTo(nodes[..k], n, j); }
          }
        }
      }
    }
  }

  lemma ReferenceIsUnique(nodes: seq<Node>, n: Id, i: nat, j: nat)
    requires RefersTo(nodes, n, i) && RefersTo(nodes, n, j)
    ensures i == j
  {}

  /** Both conditions on nodes, told by the index. */
  lemma NodesQualify(w: Workflow, consumes: Consumes, a: Id, b: Id)
    ensures a in Ids(w) && !LastNode(w.nodes, a).value.kind.IsTrigger() <==> LeavesNoTrigger(w.nodes, a)
    ensures b in Ids(w) && !consumes(LastNode(w.nodes, b).value.params) <==> ReadsNoInput(w.nodes, consumes, b)
  {
    hide LastNode, RefersTo;
    var i := LastIsReferred(w.nodes, a);
    var j := LastIsReferred(w.nodes, b);
    ReferredIsNode(w, a);
    ReferredIsNode(w, b);
    forall k: nat | RefersTo(w.nodes, a, k) ensures k == i < |w.nodes| {
      if i < |w.nodes| { ReferenceIsUnique(w.nodes, a, i, k); }
    }
    forall k: nat | RefersTo(w.nodes, b, k) ensures k == j < |w.nodes| {
      if j < |w.nodes| { ReferenceIsUnique(w.nodes, b, j, k); }
    }
  }

  lemma ReferredIsNode(w: Workflow, n: Id)
    ensures LastNode(w.nodes, n).Some? <==> n in Ids(w)
  {
    hide LastNode;
  }

  lemma CountedOnce(conns: seq<Connection>, k: nat)
    requires k < |conns|
    ensures InCount(conns, conns[k].toNode) == 1 <==>
      forall j :: 0 <= j < |conns| && conns[j].toNode == conns[k].toNode ==> j == k
  {
    hide Keep;
    var enters := Entering(conns[k].toNode);
    var at := KeptAt(enters, conns, |conns|);
    assert conns[..|conns|] == conns;
    assert Passes(enters, conns)(k) && k in at;
    var i :| 0 <= i < |at| && at[i] == k;
    forall j: nat | j < |conns| && conns[j].toNode == conns[k].toNode ensures j in at { assert Passes(enters, conns)(j); }
    if |at| > 1 {
      var other := if i == 0 then 1 else 0;
      PicksBelow(at, |conns|, Passes(enters, conns), other);
      assert at[other] != k;
    }
  }

  lemma DispensableMeans(w: Workflow, consumes: Consumes, k: nat)
    requires k < |w.connections|
    ensures IsDispensable(w, consumes, k) <==> IsSerial(w, consumes, w.connections[k].fromNode, w.connections[k].toNode)
  {
    hide InCount, LastNode, LeavesNoTrigger, ReadsNoInput;
    CountedOnce(w.connections, k);
    NodesQualify(w, consumes, w.connections[k].fromNode, w.connections[k].toNode);
  }

  ghost function Dispensable(w: Workflow, consumes: Consumes): nat -> bool {
    (k: nat) => IsDispensable(w, consumes, k)
  }

  lemma SerialLast(w: Workflow, consumes: Consumes, conns: seq<Connection>, c: Connection)
    ensures SerialList(w, consumes, conns + [c]) ==
            SerialList(w, consumes, conns)
            + if IsSerial(w, consumes, c.fromNode, c.toNode) then [SerialEdge(c.fromNode, c.toNode)] else []
  {
    hide IsSerial;
    assert (conns + [c])[..|conns|] == conns;
  }

  lemma {:induction false} SerialAt(w: Workflow, consumes: Consumes, m: nat) returns (at: seq<nat>)
    requires m <= |w.connections|
    ensures Picks(at, m, Dispensable(w, consumes)) && |at| == |SerialList(w, consumes, w.connections[..m])|
    ensures forall i :: 0 <= i < |at| ==>
      at[i] < m
      && SerialList(w, consumes, w.connections[..m])[i] == SerialEdge(w.connections[at[i]].fromNode, w.connections[at[i]].toNode)
  {
    hide IsDispensable, IsSerial, Picks, SerialList;
    if m == 0 {
      at := [];
      NothingPicked(Dispensable(w, consumes));
      NothingSerial(w, consumes);
    } else {
      var before := SerialAt(w, consumes, m - 1);
      PicksNext(before, m - 1, Dispensable(w, consumes));
      assert w.connections[..m] == w.connections[..m - 1] + [w.connections[m - 1]];
      SerialLast(w, consumes, w.connections[..m - 1], w.connections[m - 1]);
      DispensableMeans(w, consumes, m - 1);
      at := if IsDispensable(w, consumes, m - 1) then before + [m - 1] else before;
    }
  }

  lemma NothingSerial(w: Workflow, consumes: Consumes)
    ensures SerialList(w, consumes, []) == []
  {}

  lemma {:induction false} InEdgesAt(conns: seq<Connection>, n: Id, m: nat) returns (at: seq<nat>)
    requires m <= |conns|
    ensures Picks(at, m, Passes(Entering(n), conns)) && |at| == |InEdges(conns[..m], n)|
    ensures forall i :: 0 <= i < |at| ==>
      at[i] < m && InEdges(conns[..m], n)[i] == InEdge(conns[at[i]].fromNode, conns[at[i]].fromPort)
  {
    hide Picks, InEdges;
    if m == 0 {
      at := [];
      NothingPicked(Passes(Entering(n), conns));
      NoInEdges(n);
    } else {
      var before := InEdgesAt(conns, n, m - 1);
      PicksNext(before, m - 1, Passes(Entering(n), conns));
      at := if conns[m - 1].toNode == n then before + [m - 1] else before;
      assert conns[..m] == conns[..m - 1] + [conns[m - 1]];
      InEdgesLast(conns[..m - 1], conns[m - 1], n);
    }
  }

  lemma NoInEdges(n: Id)
    ensures InEdges([], n) == []
  {}

  lemma EntersAt(conns: seq<Connection>, n: Id, at: seq<nat>)
    requires Picks(at, |conns|, Passes(Entering(n), conns))
    ensures EnterAt(conns, n, at)
  {}

  lemma OnlyEdgePort(w: Workflow, consumes: Consumes, k: nat)
    requires IsDispensable(w, consumes, k)
    ensures k < |w.connections|
    ensures var c := w.connections[k]; Connection(c.fromNode, EdgePort(w.connections, c.fromNode, c.toNode), c.toNode) == c
  {
    hide EdgePort, LeavesNoTrigger, ReadsNoInput;
    var c := w.connections[k];
    assert c in w.connections;
    var port := EdgePort(w.connections, c.fromNode, c.toNode);
    var j :| 0 <= j < |w.connections| && w.connections[j] == Connection(c.fromNode, port, c.toNode);
    assert j == k;
  }

  lemma OpsRewire(w: Workflow, consumes: Consumes, k: nat) returns (into: seq<nat>)
    requires IsDispensable(w, consumes, k)
    ensures k < |w.connections|
    ensures Rewires(w, w.connections[k], OpsFor(w, SerialEdge(w.connections[k].fromNode, w.connections[k].toNode)), into)
  {
    hide InEdges, EdgePort, IsDispensable, EnterAt;
    OnlyEdgePort(w, consumes, k);
    var c := w.connections[k];
    into := InEdgesAt(w.connections, c.fromNode, |w.connections|);
    assert w.connections[..|w.connections|] == w.connections;
    EntersAt(w.connections, c.fromNode, into);
    var edges := InEdges(w.connections, c.fromNode);
    var ops := OpsFor(w, SerialEdge(c.fromNode, c.toNode));
    assert ops == [RemoveConnection(c)] + Adds(edges, c.toNode);
    hide OpsFor;
    forall i | 0 <= i < |into| ensures into[i] < |w.connections| && ops[i + 1] == AddConnection(w.connections[into[i]].(toNode := c.toNode)) {
      assert ops[i + 1] == Adds(edges, c.toNode)[i];
    }
  }

  /** The ops of the Parallelize suggestions, one list per qualifying edge, in declaration order. */
  method AnalyzeParallelize(w: Workflow, consumes: Consumes) returns (suggestions: seq<seq<IrOp>>)
    ensures var serial := SerialList(w, consumes, w.connections);
            |suggestions| == |serial| && forall i :: 0 <= i < |serial| ==> suggestions[i] == OpsFor(w, serial[i])
    ensures exists at: seq<nat> :: Suggests(w, consumes, suggestions, at)
  {
    hide SerialList, InEdges, Adds, EdgePort, Suggests;
    var incoming := IncomingEdges(w.connections);
    var serial := SerialIndependentEdges(w, consumes);
    suggestions := [];
    var i := 0;
    while i < |serial|
      invariant 0 <= i == |suggestions| <= |serial|
      invariant forall k :: 0 <= k < i ==> suggestions[k] == OpsFor(w, serial[k])
    {
      var a, b := serial[i].predecessor, serial[i].dependent;
      assert (if a in incoming then incoming[a] else []) == InEdges(w.connections, a);
      var ops := Rewire(a, b, EdgePort(w.connections, a, b), if a in incoming then incoming[a] else []);
      assert ops == OpsFor(w, serial[i]);
      suggestions := suggestions + [ops];
      i := i + 1;
    }
    ghost var at := SuggestionsMean(w, consumes, suggestions);
  }

  /** Exactly the connections that qualify are suggested for rewiring, and that is what the ops do. */
  lemma SuggestionsMean(w: Workflow, consumes: Consumes, suggestions: seq<seq<IrOp>>) returns (at: seq<nat>)
    requires var serial := SerialList(w, consumes, w.connections);
             |suggestions| == |serial| && forall i :: 0 <= i < |serial| ==> suggestions[i] == OpsFor(w, serial[i])
    ensures Suggests(w, consumes, suggestions, at)
  {
    hide SerialList, OpsFor, IsDispensable, Rewires;
    at := SerialAt(w, consumes, |w.connections|);
    assert w.connections[..|w.connections|] == w.connections;
    var serial := SerialList(w, consumes, w.connections);
    forall i | 0 <= i < |at| ensures at[i] < |w.connections| && RewiredAt(w, w.connections[at[i]], suggestions[i]) {
      assert at[i] in at;
      var c := w.connections[at[i]];
      assert suggestions[i] == OpsFor(w, serial[i]) && serial[i] == SerialEdge(c.fromNode, c.toNode);
      var into := OpsRewire(w, consumes, at[i]);
    }
    forall k: nat | IsDispensable(w, consumes, k) ensures k < |w.connections| { DispensableInRange(w, consumes, k); }
  }

  lemma DispensableInRange(w: Workflow, consumes: Consumes, k: nat)
    requires IsDispensable(w, consumes, k)
    ensures k < |w.connections|
  {}

  // ---- Applying ops ----

  function Not(c: Connection): Connection -> bool { (x: Connection) => x != c }

  function AppliedOne(conns: seq<Connection>, op: IrOp): seq<Connection> {
    match op
    case RemoveConnection(c) => Keep(Not(c), conns)
    case AddConnection(c) => if c in conns then conns else conns + [c]
  }

  function AppliedTo(conns: seq<Connection>, ops: seq<IrOp>): seq<Connection> {
    if ops == [] then conns else AppliedOne(AppliedTo(conns, ops[..|ops| - 1]), ops[|ops| - 1])
  }

  function Applied(w: Workflow, ops: seq<IrOp>): Workflow {
    w.(connections := AppliedTo(w.connections, ops))
  }

  /** The last word on `c`: added and not removed since, or there from the start and never removed. */
  ghost predicate Stands(conns: seq<Connection>, ops: seq<IrOp>, c: Connection) {
    || (c in conns && RemoveConnection(c) !in ops)
    || exists i :: 0 <= i < |ops| && ops[i] == AddConnection(c) && forall j :: i < j < |ops| ==> ops[j] != RemoveConnection(c)
  }

  ghost function NeverRemoved(ops: seq<IrOp>): Connection -> bool { (c: Connection) => RemoveConnection(c) !in ops }

  /** In front, in their order, the connections that no op removes; behind them additions, each new to the list. */
  ghost predicate Laid(conns: seq<Connection>, ops: seq<IrOp>, added: seq<Connection>, r: seq<Connection>) {
    && r == Keep(NeverRemoved(ops), conns) + added && NoDup(added)
    && forall c :: c in added ==> c !in Keep(NeverRemoved(ops), conns)
  }

  lemma {:induction false} AppliedMeans(conns: seq<Connection>, ops: seq<IrOp>) returns (added: seq<Connection>)
    ensures Laid(conns, ops, added, AppliedTo(conns, ops))
    ensures forall c :: c in AppliedTo(conns, ops) <==> Stands(conns, ops, c)
  {
    hide AppliedOne, Laid, Stands, Keep;
    if ops == [] {
      added := [];
      NothingApplied(conns);
    } else {
      var before, op := ops[..|ops| - 1], ops[|ops| - 1];
      assert ops == before + [op];
      added := AppliedMeans(conns, before);
      var was := AppliedTo(conns, before);
      forall c ensures c in AppliedOne(was, op) <==> Stands(conns, ops, c) { OneMoreStands(conns, before, op, was, c); }
      added := OneMoreLaid(conns, before, op, added, was);
    }
  }

  lemma NothingApplied(conns: seq<Connection>)
    ensures Laid(conns, [], [], conns) && forall c :: c in conns <==> Stands(conns, [], c)
  {
    KeepAll(NeverRemoved([]), conns);
  }

  lemma OneMoreStands(conns: seq<Connection>, ops: seq<IrOp>, op: IrOp, was: seq<Connection>, c: Connection)
    requires c in was <==> Stands(conns, ops, c)
    ensures c in AppliedOne(was, op) <==> Stands(conns, ops + [op], c)
  {
    hide Keep;
    var more := ops + [op];
    assert more[|ops|] == op;
    assert RemoveConnection(c) in more <==> RemoveConnection(c) in ops || op == RemoveConnection(c);
    if op != RemoveConnection(c) {
      if i :| 0 <= i < |ops| && ops[i] == AddConnection(c) && forall j :: i < j < |ops| ==> ops[j] != RemoveConnection(c) {
        assert more[i] == AddConnection(c);
      }
      if i :| 0 <= i < |more| && more[i] == AddConnection(c) && forall j :: i < j < |more| ==> more[j] != RemoveConnection(c) {
        if i < |ops| {
          assert ops[i] == AddConnection(c);
          forall j | i < j < |ops| ensures ops[j] != RemoveConnection(c) { assert more[j] == ops[j]; }
        }
      }
    }
  }

  lemma {:induction false} KeepTwice(p: Connection -> bool, q: Connection -> bool, r: Connection -> bool, s: seq<Connection>)
    requires forall c :: r(c) <==> p(c) && q(c)
    ensures Keep(q, Keep(p, s)) == Keep(r, s)
  {
    hide Keep;
    if s == [] {
      KeepNone(p, s);
      KeepNone(q, s);
      KeepNone(r, s);
    } else {
      var front, c := s[..|s| - 1], s[|s| - 1];
      assert s == front + [c];
      KeepTwice(p, q, r, front);
      KeepLast(p, front, c);
      KeepLast(q, Keep(p, front), c);
      KeepLast(r, front, c);
    }
  }

  lemma OneMoreLaid(conns: seq<Connection>, ops: seq<IrOp>, op: IrOp, added: seq<Connection>, was: seq<Connection>)
    returns (more: seq<Connection>)
    requires Laid(conns, ops, added, was)
    ensures Laid(conns, ops + [op], more, AppliedOne(was, op))
  {
    hide Keep;
    var kept := Keep(NeverRemoved(ops), conns);
    match op
    case RemoveConnection(c) =>
      more := Keep(Not(c), added);
      KeepConcat(Not(c), kept, added);
      KeepTwice(NeverRemoved(ops), Not(c), NeverRemoved(ops + [op]), conns);
      StillDistinct(Not(c), added);
    case AddConnection(c) =>
      more := if c in was then added else added + [c];
      SameRemovals(ops, c, conns);
  }

  lemma StillDistinct(p: Connection -> bool, s: seq<Connection>)
    requires NoDup(s)
    ensures NoDup(Keep(p, s))
  {
    hide Keep;
    forall a, b | 0 <= a < b < |Keep(p, s)| ensures Keep(p, s)[a] != Keep(p, s)[b] {
      var i, j := KeepsOrder(p, s, a, b);
    }
  }

  lemma SameRemovals(ops: seq<IrOp>, c: Connection, conns: seq<Connection>)
    ensures Keep(NeverRemoved(ops + [AddConnection(c)]), conns) == Keep(NeverRemoved(ops), conns)
  {
    hide Keep;
    KeepTwice(NeverRemoved(ops), NeverRemoved(ops), NeverRemoved(ops + [AddConnection(c)]), conns);
    KeepAll(NeverRemoved(ops), Keep(NeverRemoved(ops), conns));
  }

  method Apply(w: Workflow, ops: seq<IrOp>) returns (out: Workflow)
    ensures out == Applied(w, ops)
  {
    hide Keep;
    out := w;
    var i := 0;
    while i < |ops|
      invariant 0 <= i <= |ops| && out == Applied(w, ops[..i])
    {
      assert ops[..i + 1][..i] == ops[..i];
      match ops[i] {
        case RemoveConnection(c) =>
          out := out.(connections := Keep(Not(c), out.connections));
        case AddConnection(c) =>
          if c !in out.connections { out := out.(connections := out.connections + [c]); }
      }
      i := i + 1;
    }
    assert ops[..i] == ops;
  }

  // ---- What a list of chosen suggestions comes to ----

  function OpsForAll(w: Workflow, chosen: seq<SerialEdge>): seq<IrOp> {
    if chosen == [] then []
    else OpsForAll(w, chosen[..|chosen| - 1]) + OpsFor(w, chosen[|chosen| - 1])
  }

  ghost predicate Qualify(w: Workflow, consumes: Consumes, chosen: seq<SerialEdge>) {
    forall e :: e in chosen ==> e in SerialList(w, consumes, w.connections)
  }

  ghost predicate IsDependent(chosen: seq<SerialEdge>, b: Id) {
    exists e :: e in chosen && e.dependent == b
  }

  /** `c` enters `n` from where a chosen predecessor of `n` was entered. */
  ghost predicate Bypassing(w: Workflow, chosen: seq<SerialEdge>, c: Connection) {
    exists e :: e in chosen && e.dependent == c.toNode && Connection(c.fromNode, c.fromPort, e.predecessor) in w.connections
  }

  /** Every dependent has exactly its predecessor's original in-edges; every other node keeps its own. */
  ghost predicate Expected(w: Workflow, chosen: seq<SerialEdge>, c: Connection) {
    c.toNode in Ids(w) && if IsDependent(chosen, c.toNode) then Bypassing(w, chosen, c) else c in w.connections
  }

  ghost predicate Rewired(w: Workflow, chosen: seq<SerialEdge>, conns: seq<Connection>) {
    forall c :: c in conns <==> Expected(w, chosen, c)
  }

  lemma {:induction false} AppliedConcat(conns: seq<Connection>, a: seq<IrOp>, b: seq<IrOp>)
    ensures AppliedTo(conns, a + b) == AppliedTo(AppliedTo(conns, a), b)
  {
    hide AppliedOne;
    if b == [] {
      assert a + b == a;
    } else {
      AppliedConcat(conns, a, b[..|b| - 1]);
      assert (a + b)[..|a + b| - 1] == a + b[..|b| - 1];
    }
  }

  lemma {:induction false} AddsAdd(conns: seq<Connection>, edges: seq<InEdge>, b: Id, c: Connection)
    ensures c in AppliedTo(conns, Adds(edges, b)) <==>
            c in conns || (c.toNode == b && InEdge(c.fromNode, c.fromPort) in edges)
  {
    if edges != [] {
      var k := |edges| - 1;
      AddsAdd(conns, edges[..k], b, c);
      AddsAdd(conns, edges[..k], b, Connection(edges[k].fromNode, edges[k].fromPort, b));
      assert Adds(edges, b)[..k] == Adds(edges[..k], b);
      assert edges == edges[..k] + [edges[k]];
      assert c == Connection(c.fromNode, c.fromPort, c.toNode);
    }
  }

  /** One suggestion, as a set of connections. */
  lemma OpsForMeans(w: Workflow, conns: seq<Connection>, e: SerialEdge, c: Connection)
    ensures c in AppliedTo(conns, OpsFor(w, e)) <==>
            || (c in conns && c != Connection(e.predecessor, EdgePort(w.connections, e.predecessor, e.dependent), e.dependent))
            || (c.toNode == e.dependent && Connection(c.fromNode, c.fromPort, e.predecessor) in w.connections)
  {
    hide InEdges, EdgePort, Adds;
    var a, b := e.predecessor, e.dependent;
    var removal := [RemoveConnection(Connection(a, EdgePort(w.connections, a, b), b))];
    AppliedConcat(conns, removal, Adds(InEdges(w.connections, a), b));
    assert removal[..0] == [];
    AddsAdd(AppliedTo(conns, removal), InEdges(w.connections, a), b, c);
  }

  lemma OnlyMember<T>(s: seq<T>, x: T, y: T)
    requires |s| == 1 && x in s && y in s
    ensures x == y
  {}

  /** The one connection into a dependent is the one that is dropped. */
  lemma OnlyInEdge(w: Workflow, consumes: Consumes, e: SerialEdge, c: Connection)
    requires e in SerialList(w, consumes, w.connections)
    requires c in w.connections && c.toNode == e.dependent
    ensures c == Connection(e.predecessor, EdgePort(w.connections, e.predecessor, e.dependent), e.dependent)
  {
    hide SerialList, EdgePort;
    var x :| x in w.connections && e == SerialEdge(x.fromNode, x.toNode) && IsSerial(w, consumes, x.fromNode, x.toNode);
    var y := Connection(e.predecessor, EdgePort(w.connections, e.predecessor, e.dependent), e.dependent);
    assert y in w.connections;
    OnlyMember(Into(w.connections, e.dependent), c, y);
  }

  lemma SerialMeans(w: Workflow, consumes: Consumes, e: SerialEdge)
    requires Valid(w) && e in SerialList(w, consumes, w.connections)
    ensures Connection(e.predecessor, EdgePort(w.connections, e.predecessor, e.dependent), e.dependent) in w.connections
    ensures e.predecessor in Ids(w) && e.dependent in Ids(w) && !NodeOf(w, e.predecessor).kind.IsTrigger()
  {
    hide SerialList, EdgePort, LastNode, Acyclic, PortsInRange, NoDangling, OneTrigger, TriggersHaveNoProducer;
    var x :| x in w.connections && e == SerialEdge(x.fromNode, x.toNode) && IsSerial(w, consumes, x.fromNode, x.toNode);
    NodeOfSelf(w, LastNode(w.nodes, e.predecessor).value);
  }

  /** A node depends on one chosen predecessor only. */
  lemma SamePredecessor(w: Workflow, consumes: Consumes, e: SerialEdge, f: SerialEdge)
    requires Valid(w) && e in SerialList(w, consumes, w.connections) && f in SerialList(w, consumes, w.connections)
    requires e.dependent == f.dependent
    ensures e == f
  {
    hide SerialList, EdgePort, Valid;
    SerialMeans(w, consumes, f);
    OnlyInEdge(w, consumes, e, Connection(f.predecessor, EdgePort(w.connections, f.predecessor, f.dependent), f.dependent));
  }

  lemma NotItsOwnProducer(w: Workflow, c: Connection)
    requires Valid(w) && c in w.connections
    ensures c.fromNode != c.toNode && c.fromNode in Ids(w) && c.toNode in Ids(w)
  {
    hide UniqueIds, OneTrigger, PortsInRange, TriggersHaveNoProducer;
    var r := RankOf(w);
    assert r[c.fromNode] < r[c.toNode];
  }

  /** Applying any list of Parallelize suggestions, in any order and with repetitions, rewires exactly that. */
  lemma {:induction false} ChosenAreRewired(w: Workflow, consumes: Consumes, chosen: seq<SerialEdge>)
    requires Valid(w) && Qualify(w, consumes, chosen)
    ensures Rewired(w, chosen, Applied(w, OpsForAll(w, chosen)).connections)
  {
    hide Valid, SerialList, OpsFor, Rewired;
    if chosen == [] {
      assert OpsForAll(w, chosen) == [];
      NothingRewired(w);
    } else {
      var k := |chosen| - 1;
      assert chosen == chosen[..k] + [chosen[k]];
      ChosenAreRewired(w, consumes, chosen[..k]);
      AppliedConcat(w.connections, OpsForAll(w, chosen[..k]), OpsFor(w, chosen[k]));
      OneMoreRewired(w, consumes, chosen[..k], chosen[k], AppliedTo(w.connections, OpsForAll(w, chosen[..k])));
    }
  }

  lemma NothingRewired(w: Workflow)
    requires Valid(w)
    ensures Rewired(w, [], w.connections)
  {
    hide Valid;
    forall c ensures c in w.connections <==> Expected(w, [], c) {
      if c in w.connections { NotItsOwnProducer(w, c); }
    }
  }

  lemma OneMoreRewired(w: Workflow, consumes: Consumes, chosen: seq<SerialEdge>, e: SerialEdge, conns: seq<Connection>)
    requires Valid(w) && Qualify(w, consumes, chosen + [e]) && Rewired(w, chosen, conns)
    ensures Rewired(w, chosen + [e], AppliedTo(conns, OpsFor(w, e)))
  {
    hide Valid, SerialList, OpsFor, AppliedTo, EdgePort, Expected, Qualify;
    QualifyParts(w, consumes, chosen, e);
    forall c ensures c in AppliedTo(conns, OpsFor(w, e)) <==> Expected(w, chosen + [e], c) {
      OpsForMeans(w, conns, e, c);
      assert c in conns <==> Expected(w, chosen, c);
      if c.toNode == e.dependent {
        ExpectedAtDependent(w, consumes, chosen, e, c);
      } else {
        ExpectedElsewhere(w, chosen, e, c);
      }
    }
  }

  lemma QualifyParts(w: Workflow, consumes: Consumes, chosen: seq<SerialEdge>, e: SerialEdge)
    requires Qualify(w, consumes, chosen + [e])
    ensures e in SerialList(w, consumes, w.connections) && Qualify(w, consumes, chosen)
  {
    hide SerialList;
    assert e in chosen + [e] && forall y :: y in chosen ==> y in chosen + [e];
  }

  lemma ExpectedElsewhere(w: Workflow, chosen: seq<SerialEdge>, e: SerialEdge, c: Connection)
    requires c.toNode != e.dependent
    ensures Expected(w, chosen + [e], c) <==> Expected(w, chosen, c)
  {
    assert forall y :: y in chosen + [e] <==> y in chosen || y == e;
  }

  lemma ExpectedAtDependent(w: Workflow, consumes: Consumes, chosen: seq<SerialEdge>, e: SerialEdge, c: Connection)
    requires Valid(w) && Qualify(w, consumes, chosen) && e in SerialList(w, consumes, w.connections)
    requires c.toNode == e.dependent
    ensures Expected(w, chosen + [e], c) <==> Connection(c.fromNode, c.fromPort, e.predecessor) in w.connections
    ensures Expected(w, chosen, c) ==>
      || Connection(c.fromNode, c.fromPort, e.predecessor) in w.connections
      || c == Connection(e.predecessor, EdgePort(w.connections, e.predecessor, e.dependent), e.dependent)
  {
    hide Valid, SerialList, EdgePort;
    SerialMeans(w, consumes, e);
    assert e in chosen + [e] && forall y :: y in chosen + [e] <==> y in chosen || y == e;
    forall y | y in chosen && y.dependent == e.dependent ensures y == e { SamePredecessor(w, consumes, y, e); }
    if !IsDependent(chosen, c.toNode) && c in w.connections { OnlyInEdge(w, consumes, e, c); }
  }

  // ---- Why it is safe ----

  ghost predicate Parallelized(w: Workflow, v: Workflow, consumes: Consumes, chosen: seq<SerialEdge>) {
    && Valid(w) && Qualify(w, consumes, chosen)
    && v == w.(connections := v.connections) && Rewired(w, chosen, v.connections)
  }

  /** Where a connection of the rewritten workflow comes from. */
  lemma Origin(w: Workflow, v: Workflow, consumes: Consumes, chosen: seq<SerialEdge>, c: Connection)
    returns (via: Option<Id>)
    requires Parallelized(w, v, consumes, chosen) && c in v.connections
    ensures via.None? ==> c in w.connections
    ensures via.Some? ==> Connection(c.fromNode, c.fromPort, via.value) in w.connections
    ensures via.Some? ==> exists port :: Connection(via.value, port, c.toNode) in w.connections
  {
    hide Valid, SerialList, EdgePort, Qualify;
    assert Expected(w, chosen, c);
    if IsDependent(chosen, c.toNode) {
      var e :| e in chosen && e.dependent == c.toNode && Connection(c.fromNode, c.fromPort, e.predecessor) in w.connections;
      Qualifies(w, consumes, chosen, e);
      SerialMeans(w, consumes, e);
      via := Some(e.predecessor);
    } else {
      via := None;
    }
  }

  lemma Qualifies(w: Workflow, consumes: Consumes, chosen: seq<SerialEdge>, e: SerialEdge)
    requires Qualify(w, consumes, chosen) && e in chosen
    ensures e in SerialList(w, consumes, w.connections)
  {
    hide SerialList;
  }

  lemma StillAcyclic(w: Workflow, v: Workflow, consumes: Consumes, chosen: seq<SerialEdge>)
    requires Parallelized(w, v, consumes, chosen)
    ensures IsRank(v, RankOf(w)) && Acyclic(v)
  {
    hide UniqueIds, OneTrigger, PortsInRange, TriggersHaveNoProducer, Rewired, Qualify;
    var r := RankOf(w);
    forall c | c in v.connections && c.fromNode in r && c.toNode in r ensures r[c.fromNode] < r[c.toNode] {
      var via := Origin(w, v, consumes, chosen, c);
      if via.Some? {
        var port :| Connection(via.value, port, c.toNode) in w.connections;
        var d, f := Connection(c.fromNode, c.fromPort, via.value), Connection(via.value, port, c.toNode);
        assert d in w.connections && f in w.connections;
        assert r[d.fromNode] < r[d.toNode] && r[f.fromNode] < r[f.toNode];
      }
    }
    assert IsRank(v, r);
  }

  /** The rewritten workflow is valid. */
  lemma StillValid(w: Workflow, v: Workflow, consumes: Consumes, chosen: seq<SerialEdge>)
    requires Parallelized(w, v, consumes, chosen)
    ensures Valid(v) && TriggerId(v) == TriggerId(w)
  {
    hide Acyclic, UniqueIds, OneTrigger, Rewired, Qualify;
    StillAcyclic(w, v, consumes, chosen);
    SameOneTrigger(w, v);
    forall c | c in v.connections
      ensures c.fromNode in Ids(v) && c.toNode in Ids(v)
      ensures var count := NodeOf(v, c.fromNode).kind.PortCount(); count.Some? ==> c.fromPort < count.value
      ensures forall n :: n in v.nodes && n.id == c.toNode ==> !n.kind.IsTrigger()
    {
      var via := Origin(w, v, consumes, chosen, c);
      if via.Some? {
        var port :| Connection(via.value, port, c.toNode) in w.connections;
        assert Connection(c.fromNode, c.fromPort, via.value) in w.connections;
        assert Connection(via.value, port, c.toNode).toNode == c.toNode;
      }
    }
    assert NoDangling(v) && PortsInRange(v) && TriggersHaveNoProducer(v);
  }

  lemma SameOneTrigger(w: Workflow, v: Workflow)
    requires v == w.(connections := v.connections)
    ensures UniqueIds(w) ==> UniqueIds(v)
    ensures OneTrigger(w) ==> OneTrigger(v)
    ensures w.schemaVersion == v.schemaVersion
  {}

  lemma EdgeMeans(w: Workflow, a: Id, b: Id) returns (c: Connection)
    requires (a, b) in Edges(w)
    ensures c in w.connections && c.fromNode == a && c.toNode == b
  {
    c :| c in w.connections && c.fromNode == a && c.toNode == b;
  }

  lemma ConnectionIsEdge(w: Workflow, c: Connection)
    requires c in w.connections
    ensures (c.fromNode, c.toNode) in Edges(w)
  {}

  /** No node becomes reachable that was not. */
  lemma {:induction false} NothingNewReached(w: Workflow, v: Workflow, consumes: Consumes, chosen: seq<SerialEdge>, p: seq<Id>)
    requires Parallelized(w, v, consumes, chosen) && IsWalk(v, p)
    ensures Reaches(w, p[0], p[|p| - 1])
  {
    hide Valid, Rewired, Qualify, Reaches, Edges;
    if |p| == 1 {
      ReachesSelf(w, p[0]);
    } else {
      var k := |p| - 2;
      assert (p[k], p[k + 1]) in Edges(v);
      NothingNewReached(w, v, consumes, chosen, p[..k + 1]);
      var c := EdgeMeans(v, p[k], p[k + 1]);
      var via := Origin(w, v, consumes, chosen, c);
      if via.Some? {
        var port :| Connection(via.value, port, c.toNode) in w.connections;
        ConnectionIsEdge(w, Connection(c.fromNode, c.fromPort, via.value));
        ConnectionIsEdge(w, Connection(via.value, port, c.toNode));
        ReachesStep(w, p[0], p[k], via.value);
        ReachesStep(w, p[0], via.value, p[k + 1]);
      } else {
        ConnectionIsEdge(w, c);
        ReachesStep(w, p[0], p[k], p[k + 1]);
      }
    }
  }

  /** No node is lost: what a dependent no longer waits for, its predecessor's producers replace. */
  lemma {:induction false} NothingLost(w: Workflow, v: Workflow, consumes: Consumes, chosen: seq<SerialEdge>, n: Id)
    requires Parallelized(w, v, consumes, chosen) && n in Ids(w) && Reachable(w, n)
    ensures Reaches(v, TriggerId(w), n)
    decreases RankOf(w)[n]
  {
    hide Valid, Rewired, Qualify, Reaches, Edges, SerialList;
    if n == TriggerId(w) {
      ReachesSelf(v, n);
    } else {
      var p := ReachesPred(w, TriggerId(w), n);
      var c := EdgeMeans(w, p, n);
      RankRises(w, c);
      if IsDependent(chosen, n) {
        var e :| e in chosen && e.dependent == n;
        PredecessorHasProducer(w, consumes, chosen, e, c);
        var q := ReachesPred(w, TriggerId(w), p);
        var d := EdgeMeans(w, q, p);
        RankRises(w, d);
        NothingLost(w, v, consumes, chosen, q);
        StraightIn(w, v, consumes, chosen, e, Connection(q, d.fromPort, n));
        ConnectionIsEdge(v, Connection(q, d.fromPort, n));
        ReachesStep(v, TriggerId(w), q, n);
      } else {
        NothingLost(w, v, consumes, chosen, p);
        StaysIn(w, v, consumes, chosen, c);
        ConnectionIsEdge(v, c);
        ReachesStep(v, TriggerId(w), p, n);
      }
    }
  }

  lemma RankRises(w: Workflow, c: Connection)
    requires Valid(w) && c in w.connections
    ensures c.fromNode in Ids(w) && c.toNode in Ids(w)
    ensures RankOf(w)[c.fromNode] < RankOf(w)[c.toNode]
  {
    hide UniqueIds, OneTrigger, PortsInRange, TriggersHaveNoProducer;
  }

  lemma PredecessorHasProducer(w: Workflow, consumes: Consumes, chosen: seq<SerialEdge>, e: SerialEdge, c: Connection)
    requires Valid(w) && Qualify(w, consumes, chosen) && e in chosen && c in w.connections && c.toNode == e.dependent
    ensures c.fromNode == e.predecessor != TriggerId(w)
  {
    hide Acyclic, PortsInRange, SerialList, EdgePort, Qualify;
    Qualifies(w, consumes, chosen, e);
    SerialMeans(w, consumes, e);
    OnlyInEdge(w, consumes, e, c);
    NodeOfSelf(w, FindTrigger(w.nodes).value);
  }

  lemma StraightIn(w: Workflow, v: Workflow, consumes: Consumes, chosen: seq<SerialEdge>, e: SerialEdge, c: Connection)
    requires Parallelized(w, v, consumes, chosen) && e in chosen && c.toNode == e.dependent
    requires Connection(c.fromNode, c.fromPort, e.predecessor) in w.connections
    ensures c in v.connections
  {
    hide Valid, Qualify, SerialList, EdgePort;
    Qualifies(w, consumes, chosen, e);
    SerialMeans(w, consumes, e);
    assert Expected(w, chosen, c);
  }

  lemma StaysIn(w: Workflow, v: Workflow, consumes: Consumes, chosen: seq<SerialEdge>, c: Connection)
    requires Parallelized(w, v, consumes, chosen) && c in w.connections && !IsDependent(chosen, c.toNode)
    ensures c in v.connections
  {
    hide Valid, Qualify;
    NotItsOwnProducer(w, c);
    assert Expected(w, chosen, c);
  }

  /** The same nodes are reachable from the trigger. */
  lemma SameReachable(w: Workflow, v: Workflow, consumes: Consumes, chosen: seq<SerialEdge>, n: Id)
    requires Parallelized(w, v, consumes, chosen) && n in Ids(w)
    ensures Valid(v) && (Reachable(v, n) <==> Reachable(w, n))
  {
    hide Valid, Rewired, Qualify;
    StillValid(w, v, consumes, chosen);
    if Reachable(v, n) {
      var p :| WalkFromTo(v, p, TriggerId(v), n);
      NothingNewReached(w, v, consumes, chosen, p);
    }
    if Reachable(w, n) { NothingLost(w, v, consumes, chosen, n); }
  }

  // ---- Latency ----

  /** Each path of the rewritten workflow is a path of the original with nodes left out. */
  lemma {:induction false} Lengthen(w: Workflow, v: Workflow, consumes: Consumes, chosen: seq<SerialEdge>, weight: Weights, p: seq<Id>)
    returns (q: seq<Id>)
    requires Parallelized(w, v, consumes, chosen) && IsPath(v, p)
    ensures IsPath(w, q) && q[|q| - 1] == p[|p| - 1]
    ensures Weight(weight, q) >= Weight(weight, p) && |q| >= |p|
  {
    hide Valid, Rewired, Qualify, IsEdge, IsPath;
    NonemptyPath(v, p);
    if |p| == 1 {
      q := p;
      SingleStays(w, v, p);
    } else {
      PathFront(v, p);
      var m, n := p[|p| - 2], p[|p| - 1];
      var front := Lengthen(w, v, consumes, chosen, weight, p[..|p| - 1]);
      NonemptyPath(w, front);
      var via := EdgeOrigin(w, v, consumes, chosen, m, n);
      if via.Some? {
        Extended(w, front, via.value);
        Extended(w, front + [via.value], n);
        q := front + [via.value] + [n];
        assert q[..|q| - 1] == front + [via.value];
        assert (front + [via.value])[..|front|] == front;
      } else {
        Extended(w, front, n);
        q := front + [n];
        assert q[..|q| - 1] == front;
      }
    }
  }

  lemma SingleStays(w: Workflow, v: Workflow, p: seq<Id>)
    requires v.nodes == w.nodes && |p| == 1 && IsPath(v, p)
    ensures IsPath(w, p)
  {}

  lemma EdgeOrigin(w: Workflow, v: Workflow, consumes: Consumes, chosen: seq<SerialEdge>, m: Id, n: Id) returns (via: Option<Id>)
    requires Parallelized(w, v, consumes, chosen) && IsEdge(v, m, n)
    ensures via.None? ==> IsEdge(w, m, n)
    ensures via.Some? ==> IsEdge(w, m, via.value) && IsEdge(w, via.value, n)
  {
    hide Valid, Rewired, Qualify, Edges;
    var c := EdgeMeans(v, m, n);
    via := Origin(w, v, consumes, chosen, c);
    if via.Some? {
      var port :| Connection(via.value, port, c.toNode) in w.connections;
      var d, f := Connection(c.fromNode, c.fromPort, via.value), Connection(via.value, port, c.toNode);
      ConnectionIsEdge(w, d);
      ConnectionIsEdge(w, f);
      NotItsOwnProducer(w, d);
      NotItsOwnProducer(w, f);
    } else {
      ConnectionIsEdge(w, c);
      NotItsOwnProducer(w, c);
    }
  }

  /** Whatever the latencies, the critical path of the rewritten workflow is not longer. */
  lemma NeverSlower(w: Workflow, v: Workflow, consumes: Consumes, chosen: seq<SerialEdge>, weight: Weights,
                    before: seq<Id>, after: seq<Id>)
    requires Parallelized(w, v, consumes, chosen)
    requires Critical(w, weight, before) && Critical(v, weight, after)
    ensures Weight(weight, after) <= Weight(weight, before) || Weight(weight, before) >= 18446744073709551615
    ensures Fits(w, weight) ==> NotAbove(weight, after, before)
  {
    hide Valid, Rewired, Qualify, IsEdge, IsPath, Fits, IsRoot, IsSink, Parallelized;
    var q := Lengthen(w, v, consumes, chosen, weight, after);
  }

  lemma InEdgesOfDependent(w: Workflow, v: Workflow, consumes: Consumes, chosen: seq<SerialEdge>, e: SerialEdge, c: Connection)
    requires Parallelized(w, v, consumes, chosen) && e in chosen && c.toNode == e.dependent
    ensures c in v.connections <==> Connection(c.fromNode, c.fromPort, e.predecessor) in w.connections
  {
    hide Valid, SerialList, EdgePort, Qualify;
    Qualifies(w, consumes, chosen, e);
    SerialMeans(w, consumes, e);
    assert c in v.connections <==> Expected(w, chosen, c);
    forall y | y in chosen && y.dependent == e.dependent ensures y == e {
      Qualifies(w, consumes, chosen, y);
      SamePredecessor(w, consumes, y, e);
    }
  }

  /** Parallelize is structurally safe, for every choice of its suggestions. */
  lemma ParallelizeIsSafe(w: Workflow, consumes: Consumes, chosen: seq<SerialEdge>)
    requires Valid(w) && Qualify(w, consumes, chosen)
    ensures var v := Applied(w, OpsForAll(w, chosen));
            && Parallelized(w, v, consumes, chosen)
            && Valid(v) && Ids(v) == Ids(w)
            && (forall n :: n in Ids(w) ==> (Reachable(v, n) <==> Reachable(w, n)))
            && (forall e, c: Connection :: e in chosen && c.toNode == e.dependent ==>
                  (c in v.connections <==> Connection(c.fromNode, c.fromPort, e.predecessor) in w.connections))
  {
    hide Valid, Qualify, OpsForAll, AppliedTo, Reachable, SerialList;
    var v := Applied(w, OpsForAll(w, chosen));
    ChosenAreRewired(w, consumes, chosen);
    StillValid(w, v, consumes, chosen);
    forall n | n in Ids(w) ensures Reachable(v, n) <==> Reachable(w, n) { SameReachable(w, v, consumes, chosen, n); }
    forall e, c: Connection | e in chosen && c.toNode == e.dependent
      ensures c in v.connections <==> Connection(c.fromNode, c.fromPort, e.predecessor) in w.connections
    {
      InEdgesOfDependent(w, v, consumes, chosen, e, c);
    }
  }
}
