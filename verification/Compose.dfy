/** Sequential composition of two stored workflows into one graph. */
module Composition {
  import opened Wrappers
  import opened Sorting
  import opened Strings
  import opened Filtering
  import opened Workflows

  datatype Skill = Skill(workflow: Workflow, observeNode: Id)

  datatype ComposeError = NoTerminal | NoTrigger | TriggerFeedsNothing | InvalidSplice

  const LEFT := "a_"
  const RIGHT := "b_"

  function PrefixedNode(n: Node, prefix: string): Node { n.(id := prefix + n.id) }

  function PrefixedConn(c: Connection, prefix: string): Connection {
    Connection(prefix + c.fromNode, c.fromPort, prefix + c.toNode)
  }

  function PrefixedNodes(nodes: seq<Node>, prefix: string): (r: seq<Node>)
    ensures |r| == |nodes| && forall i :: 0 <= i < |r| ==> r[i] == PrefixedNode(nodes[i], prefix)
  {
    seq(|nodes|, i requires 0 <= i < |nodes| => PrefixedNode(nodes[i], prefix))
  }

  function PrefixedConns(conns: seq<Connection>, prefix: string): (r: seq<Connection>)
    ensures |r| == |conns| && forall i :: 0 <= i < |r| ==> r[i] == PrefixedConn(conns[i], prefix)
  {
    seq(|conns|, i requires 0 <= i < |conns| => PrefixedConn(conns[i], prefix))
  }

  predicate IsTerminal(w: Workflow, n: Id) {
    forall c :: c in w.connections ==> c.fromNode != n
  }

  /** Nodes without an outgoing connection, in declaration order. */
  function Terminals(w: Workflow, nodes: seq<Node>): (r: seq<Id>)
    ensures forall n :: n in r <==> IsTerminal(w, n) && exists x :: x in nodes && x.id == n
  {
    if nodes == [] then []
    else
      var k := |nodes| - 1;
      assert nodes == nodes[..k] + [nodes[k]];
      Terminals(w, nodes[..k]) + if IsTerminal(w, nodes[k].id) then [nodes[k].id] else []
  }

  /** Targets of the connections out of `from`, in declaration order, repetitions included. */
  function TargetsOf(conns: seq<Connection>, from: Id): (r: seq<Id>)
    ensures forall n :: n in r <==> exists c :: c in conns && c.fromNode == from && c.toNode == n
  {
    if conns == [] then []
    else
      var k := |conns| - 1;
      assert conns == conns[..k] + [conns[k]];
      TargetsOf(conns[..k], from) + if conns[k].fromNode == from then [conns[k].toNode] else []
  }

  function LeavingOther(id: Id): Connection -> bool { (c: Connection) => c.fromNode != id }

  function ConnsNotFrom(conns: seq<Connection>, id: Id): (r: seq<Connection>)
    ensures forall c :: c in r <==> c in conns && c.fromNode != id
  {
    Keep(LeavingOther(id), conns)
  }

  function BridgeFrom(t: Id, entries: seq<Id>): (r: seq<Connection>)
    ensures |r| == |entries| && forall i :: 0 <= i < |r| ==> r[i] == Connection(LEFT + t, 0, RIGHT + entries[i])
  {
    seq(|entries|, i requires 0 <= i < |entries| => Connection(LEFT + t, 0, RIGHT + entries[i]))
  }

  /** Every terminal of the left workflow to every entry of the right one. */
  function Bridges(terminals: seq<Id>, entries: seq<Id>): (r: seq<Connection>)
    ensures forall c :: c in r <==>
      exists t, e :: t in terminals && e in entries && c == Connection(LEFT + t, 0, RIGHT + e)
  {
    if terminals == [] then []
    else
      var k := |terminals| - 1;
      var last := BridgeFrom(terminals[k], entries);
      assert terminals == terminals[..k] + [terminals[k]];
      assert forall c :: c in last <==> exists e :: e in entries && c == Connection(LEFT + terminals[k], 0, RIGHT + e);
      Bridges(terminals[..k], entries) + last
  }

  /** `a`, then `b` without node `t` and what leaves it, joined at what `t` fed. */
  function Joined(a: Workflow, b: Workflow, t: Id, id: Id, name: string): Workflow {
    Workflow(SCHEMA_VERSION, id, name,
             PrefixedNodes(a.nodes, LEFT) + PrefixedNodes(Without(b.nodes, t), RIGHT),
             PrefixedConns(a.connections, LEFT) + PrefixedConns(ConnsNotFrom(b.connections, t), RIGHT)
             + Bridges(Terminals(a, a.nodes), TargetsOf(b.connections, t)))
  }

  ghost function Spliced(a: Workflow, b: Workflow, id: Id, name: string): Workflow
    requires Valid(b)
  {
    Joined(a, b, TriggerId(b), id, name)
  }

  /** What stands in the way of joining, in the order in which it is looked for. */
  function Refusal(a: Workflow, b: Workflow, id: Id, name: string, validator: Workflow -> bool): Option<ComposeError> {
    var trigger := FindTrigger(b.nodes);
    if Terminals(a, a.nodes) == [] then Some(NoTerminal)
    else if trigger.None? then Some(NoTrigger)
    else if TargetsOf(b.connections, trigger.value.id) == [] then Some(TriggerFeedsNothing)
    else if !validator(Joined(a, b, trigger.value.id, id, name)) then Some(InvalidSplice)
    else None
  }

  /** Splice `b` behind `a`. `validator` gives the verdict on the result. */
  method ComposeSequential(a: Skill, b: Skill, id: Id, name: string, validator: Workflow -> bool)
    returns (r: Result<(Workflow, Id), ComposeError>)
    ensures var refusal := Refusal(a.workflow, b.workflow, id, name, validator);
            if refusal.Some? then r == Err(refusal.value)
            else
              var trigger := FindTrigger(b.workflow.nodes).value.id;
              r == Ok((Joined(a.workflow, b.workflow, trigger, id, name), "b_" + b.observeNode))
    ensures Valid(b.workflow) && r.Ok? ==> r.value.0 == Spliced(a.workflow, b.workflow, id, name)
  {
    hide Acyclic, PortsInRange, UniqueIds, NoDangling, TriggersHaveNoProducer, Without, ConnsNotFrom, Bridges,
         Terminals, TargetsOf;
    var wa, wb := a.workflow, b.workflow;
    var nodes := PrefixedNodes(wa.nodes, LEFT);
    var connections := PrefixedConns(wa.connections, LEFT);
    var terminals := Terminals(wa, wa.nodes);
    if terminals == [] {
      return Err(NoTerminal);
    }
    var found := FindTrigger(wb.nodes);
    if found.None? {
      return Err(NoTrigger);
    }
    var trigger := found.value.id;
    var entries := TargetsOf(wb.connections, trigger);
    if entries == [] {
      return Err(TriggerFeedsNothing);
    }
    var kept := CopyNodes(wb.nodes, trigger);
    nodes := nodes + kept;
    var inner := CopyConns(wb.connections, trigger);
    connections := connections + inner;
    var bridges := Bridge(terminals, entries);
    connections := connections + bridges;
    var w := Workflow(SCHEMA_VERSION, id, name, nodes, connections);
    if !validator(w) {
      return Err(InvalidSplice);
    }
    r := Ok((w, RIGHT + b.observeNode));
  }

  method CopyNodes(nodes: seq<Node>, trigger: Id) returns (kept: seq<Node>)
    ensures kept == PrefixedNodes(Without(nodes, trigger), RIGHT)
  {
    kept := [];
    var i := 0;
    while i < |nodes|
      invariant 0 <= i <= |nodes| && kept == PrefixedNodes(Without(nodes[..i], trigger), RIGHT)
    {
      assert nodes[..i + 1][..i] == nodes[..i];
      if nodes[i].id != trigger {
        kept := kept + [PrefixedNode(nodes[i], RIGHT)];
      }
      i := i + 1;
    }
    assert nodes[..i] == nodes;
  }

  method CopyConns(conns: seq<Connection>, trigger: Id) returns (kept: seq<Connection>)
    ensures kept == PrefixedConns(ConnsNotFrom(conns, trigger), RIGHT)
  {
    kept := [];
    var i := 0;
    while i < |conns|
      invariant 0 <= i <= |conns| && kept == PrefixedConns(ConnsNotFrom(conns[..i], trigger), RIGHT)
    {
      assert conns[..i + 1][..i] == conns[..i];
      if conns[i].fromNode != trigger {
        kept := kept + [PrefixedConn(conns[i], RIGHT)];
      }
      i := i + 1;
    }
    assert conns[..i] == conns;
  }

  method Bridge(terminals: seq<Id>, entries: seq<Id>) returns (bridges: seq<Connection>)
    ensures bridges == Bridges(terminals, entries)
  {
    bridges := [];
    var i := 0;
    while i < |terminals|
      invariant 0 <= i <= |terminals| && bridges == Bridges(terminals[..i], entries)
    {
      assert terminals[..i + 1][..i] == terminals[..i];
      ghost var before := bridges;
      var j := 0;
      while j < |entries|
        invariant 0 <= j <= |entries| && bridges == before + BridgeFrom(terminals[i], entries)[..j]
      {
        bridges := bridges + [Connection(LEFT + terminals[i], 0, RIGHT + entries[j])];
        j := j + 1;
      }
      i := i + 1;
    }
    assert terminals[..i] == terminals;
  }

  // ---- What is refused, and what is built ----

  /** Everything but the id of a node is copied. */
  ghost predicate IsCopy(x: Node, prefix: string, y: Node) {
    y.id == prefix + x.id && y.kind == x.kind && y.params == x.params && y.retry == x.retry && y.onError == x.onError
  }

  /** The positions of the nodes with another id. */
  ghost predicate ElseAt(nodes: seq<Node>, t: Id, at: seq<nat>) {
    Rising(at) && forall k: nat :: k in at <==> k < |nodes| && nodes[k].id != t
  }

  /** Copies of the nodes at the given positions, in order. */
  ghost predicate AreCopies(nodes: seq<Node>, at: seq<nat>, prefix: string, r: seq<Node>) {
    |r| == |at| && forall i :: 0 <= i < |at| ==> at[i] < |nodes| && IsCopy(nodes[at[i]], prefix, r[i])
  }

  /** The nodes are those of the left workflow, in place, and then those of the right one but node `t`, in order. */
  lemma JoinedNodes(a: Workflow, b: Workflow, t: Id, id: Id, name: string) returns (at: seq<nat>)
    ensures var w := Joined(a, b, t, id, name);
            && w.id == id && w.name == name && w.schemaVersion == 1 && |w.nodes| >= |a.nodes|
            && (forall i :: 0 <= i < |a.nodes| ==> IsCopy(a.nodes[i], "a_", w.nodes[i]))
            && ElseAt(b.nodes, t, at) && AreCopies(b.nodes, at, "b_", w.nodes[|a.nodes|..])
  {
    hide Keep;
    assert b.nodes[..|b.nodes|] == b.nodes;
    at := KeptAt(OtherThan(t), b.nodes, |b.nodes|);
    var w, right := Joined(a, b, t, id, name), Without(b.nodes, t);
    assert w.nodes[|a.nodes|..] == PrefixedNodes(right, RIGHT);
  }

  ghost predicate IsCopiedConn(c: Connection, prefix: string, d: Connection) {
    d.fromNode == prefix + c.fromNode && d.fromPort == c.fromPort && d.toNode == prefix + c.toNode
  }

  /** Port 0 of a node no connection leaves, to what `t` feeds. */
  ghost predicate IsBridge(a: Workflow, b: Workflow, t: Id, d: Connection) {
    exists x, c :: x in a.nodes && c in b.connections && Bridging(a, t, x, c, d)
  }

  ghost predicate Bridging(a: Workflow, t: Id, x: Node, c: Connection, d: Connection) {
    && (forall k :: k in a.connections ==> k.fromNode != x.id) && c.fromNode == t
    && d.fromNode == "a_" + x.id && d.fromPort == 0 && d.toNode == "b_" + c.toNode
  }

  /** The connections are those of the left workflow, those of the right one that do not leave `t`, and bridges. */
  lemma JoinedConnections(a: Workflow, b: Workflow, t: Id, id: Id, name: string, d: Connection)
    ensures d in Joined(a, b, t, id, name).connections <==>
      || (exists c :: c in a.connections && IsCopiedConn(c, "a_", d))
      || (exists c :: c in b.connections && c.fromNode != t && IsCopiedConn(c, "b_", d))
      || IsBridge(a, b, t, d)
  {
    hide Terminals, TargetsOf, ConnsNotFrom, Bridges;
    CopiedConns(a.connections, LEFT, d);
    CopiedConns(ConnsNotFrom(b.connections, t), RIGHT, d);
    BridgesAre(a, b, t, d);
  }

  lemma CopiedConns(conns: seq<Connection>, prefix: string, d: Connection)
    ensures d in PrefixedConns(conns, prefix) <==> exists c :: c in conns && IsCopiedConn(c, prefix, d)
  {
    var r := PrefixedConns(conns, prefix);
    if d in r {
      var i :| 0 <= i < |r| && r[i] == d;
      assert conns[i] in conns && IsCopiedConn(conns[i], prefix, d);
    }
    if c :| c in conns && IsCopiedConn(c, prefix, d) {
      var i :| 0 <= i < |conns| && conns[i] == c;
      assert r[i] == d;
    }
  }

  lemma BridgesAre(a: Workflow, b: Workflow, t: Id, d: Connection)
    ensures d in Bridges(Terminals(a, a.nodes), TargetsOf(b.connections, t)) <==> IsBridge(a, b, t, d)
  {
    hide Bridging;
    var terminals, entries := Terminals(a, a.nodes), TargetsOf(b.connections, t);
    if d in Bridges(terminals, entries) {
      var n, e :| n in terminals && e in entries && d == Connection(LEFT + n, 0, RIGHT + e);
      var x :| x in a.nodes && x.id == n;
      var c :| c in b.connections && c.fromNode == t && c.toNode == e;
      IsBridging(a, t, x, c, d);
    }
    if IsBridge(a, b, t, d) {
      var x, c :| x in a.nodes && c in b.connections && Bridging(a, t, x, c, d);
      IsBridging(a, t, x, c, d);
      assert x.id in terminals && c.toNode in entries;
    }
  }

  lemma IsBridging(a: Workflow, t: Id, x: Node, c: Connection, d: Connection)
    ensures Bridging(a, t, x, c, d) <==>
      IsTerminal(a, x.id) && c.fromNode == t && d == Connection(LEFT + x.id, 0, RIGHT + c.toNode)
  {}

  /** The first reason that applies: every left node has a connection out of it; the right workflow has no trigger;
      nothing leaves its trigger; the validator rejects the result. */
  lemma RefusalMeans(a: Workflow, b: Workflow, id: Id, name: string, validator: Workflow -> bool)
    ensures var r := Refusal(a, b, id, name, validator);
            if forall x :: x in a.nodes ==> exists c :: c in a.connections && c.fromNode == x.id then r == Some(NoTerminal)
            else if forall x :: x in b.nodes ==> !x.kind.WebhookTrigger? && !x.kind.ScheduleTrigger? then r == Some(NoTrigger)
            else
              var trigger := FindTrigger(b.nodes).value;
              if forall c :: c in b.connections ==> c.fromNode != trigger.id then r == Some(TriggerFeedsNothing)
              else r == if validator(Joined(a, b, trigger.id, id, name)) then None else Some(InvalidSplice)
  {
    var terminals := Terminals(a, a.nodes);
    if terminals != [] { assert terminals[0] in terminals; }
    if x :| x in a.nodes && forall c :: c in a.connections ==> c.fromNode != x.id { assert x.id in terminals; }
    var trigger := FindTrigger(b.nodes);
    if trigger.Some? {
      var entries := TargetsOf(b.connections, trigger.value.id);
      if entries != [] { assert entries[0] in entries; }
      if c :| c in b.connections && c.fromNode == trigger.value.id { assert c.toNode in entries; }
    }
  }

  // ---- The spliced graph ----

  predicate IsLeft(n: Id) { |n| >= 2 && n[..2] == LEFT }

  predicate IsRight(n: Id) { |n| >= 2 && n[..2] == RIGHT }

  function Strip(n: Id): Id
    requires |n| >= 2
  {
    n[2..]
  }

  lemma PrefixRoundTrip(n: Id)
    ensures IsLeft(LEFT + n) && Strip(LEFT + n) == n && !IsRight(LEFT + n)
    ensures IsRight(RIGHT + n) && Strip(RIGHT + n) == n && !IsLeft(RIGHT + n)
    ensures IsLeft(n) ==> n == LEFT + Strip(n)
    ensures IsRight(n) ==> n == RIGHT + Strip(n)
  {
    assert IsLeft(n) ==> n == n[..2] + n[2..];
    assert IsRight(n) ==> n == n[..2] + n[2..];
  }

  lemma PrefixedConnMembers(conns: seq<Connection>, prefix: string, c: Connection)
    requires |prefix| == 2
    ensures c in PrefixedConns(conns, prefix) <==>
      && |c.fromNode| >= 2 && c.fromNode[..2] == prefix && |c.toNode| >= 2 && c.toNode[..2] == prefix
      && Connection(Strip(c.fromNode), c.fromPort, Strip(c.toNode)) in conns
  {
    var r := PrefixedConns(conns, prefix);
    if c in r {
      var i :| 0 <= i < |r| && r[i] == c;
      assert c == PrefixedConn(conns[i], prefix);
    }
    if |c.fromNode| >= 2 && c.fromNode[..2] == prefix && |c.toNode| >= 2 && c.toNode[..2] == prefix
       && Connection(Strip(c.fromNode), c.fromPort, Strip(c.toNode)) in conns {
      var i :| 0 <= i < |conns| && conns[i] == Connection(Strip(c.fromNode), c.fromPort, Strip(c.toNode));
      assert c.fromNode == prefix + Strip(c.fromNode) && c.toNode == prefix + Strip(c.toNode);
      assert r[i] == c;
    }
  }

  /** A connection of the splice is a connection of one side, or a bridge. */
  lemma SplicedConnections(a: Workflow, b: Workflow, id: Id, name: string, c: Connection)
    requires Valid(b)
    ensures c in Spliced(a, b, id, name).connections <==>
      || (IsLeft(c.fromNode) && IsLeft(c.toNode)
          && Connection(Strip(c.fromNode), c.fromPort, Strip(c.toNode)) in a.connections)
      || (IsRight(c.fromNode) && IsRight(c.toNode) && Strip(c.fromNode) != TriggerId(b)
          && Connection(Strip(c.fromNode), c.fromPort, Strip(c.toNode)) in b.connections)
      || (IsLeft(c.fromNode) && IsRight(c.toNode) && c.fromPort == 0
          && Strip(c.fromNode) in Terminals(a, a.nodes) && Strip(c.toNode) in TargetsOf(b.connections, TriggerId(b)))
  {
    hide Valid, Terminals, TargetsOf, ConnsNotFrom, Bridges, PrefixedConns;
    var t := TriggerId(b);
    PrefixedConnMembers(a.connections, LEFT, c);
    PrefixedConnMembers(ConnsNotFrom(b.connections, t), RIGHT, c);
    PrefixRoundTrip(c.fromNode);
    PrefixRoundTrip(c.toNode);
    var terminals, entries := Terminals(a, a.nodes), TargetsOf(b.connections, t);
    if c in Bridges(terminals, entries) {
      var x, y :| x in terminals && y in entries && c == Connection(LEFT + x, 0, RIGHT + y);
      PrefixRoundTrip(x);
      PrefixRoundTrip(y);
    }
  }

  lemma PrefixedNodeMembers(nodes: seq<Node>, prefix: string, n: Id)
    requires |prefix| == 2
    ensures (exists x :: x in PrefixedNodes(nodes, prefix) && x.id == n) <==>
      |n| >= 2 && n[..2] == prefix && exists x :: x in nodes && x.id == Strip(n)
  {
    var r := PrefixedNodes(nodes, prefix);
    if x :| x in r && x.id == n {
      var i :| 0 <= i < |r| && r[i] == x;
      assert n == prefix + nodes[i].id;
      assert nodes[i] in nodes;
    }
    if |n| >= 2 && n[..2] == prefix && exists x :: x in nodes && x.id == Strip(n) {
      var x :| x in nodes && x.id == Strip(n);
      var i :| 0 <= i < |nodes| && nodes[i] == x;
      assert n == prefix + Strip(n);
      assert r[i] in r && r[i].id == n;
    }
  }

  lemma SplicedIds(a: Workflow, b: Workflow, id: Id, name: string, n: Id)
    requires Valid(b)
    ensures n in Ids(Spliced(a, b, id, name)) <==>
      || (IsLeft(n) && Strip(n) in Ids(a))
      || (IsRight(n) && Strip(n) in Ids(b) && Strip(n) != TriggerId(b))
  {
    hide Valid, Without, PrefixedNodes;
    var t := TriggerId(b);
    PrefixedNodeMembers(a.nodes, LEFT, n);
    PrefixedNodeMembers(Without(b.nodes, t), RIGHT, n);
  }

  lemma {:induction false} WithoutUnique(nodes: seq<Node>, id: Id)
    requires forall i, j :: 0 <= i < j < |nodes| ==> nodes[i].id != nodes[j].id
    ensures forall i, j :: 0 <= i < j < |Without(nodes, id)| ==> Without(nodes, id)[i].id != Without(nodes, id)[j].id
  {
    if nodes != [] {
      var k := |nodes| - 1;
      WithoutUnique(nodes[..k], id);
      forall x | x in Without(nodes[..k], id) ensures x.id != nodes[k].id {
        assert x in nodes[..k];
      }
    }
  }

  lemma SplicedUniqueIds(a: Workflow, b: Workflow, id: Id, name: string)
    requires Valid(a) && Valid(b)
    ensures UniqueIds(Spliced(a, b, id, name))
  {
    hide Acyclic, PortsInRange, NoDangling, OneTrigger, TriggersHaveNoProducer, Without;
    var t := TriggerId(b);
    WithoutUnique(b.nodes, t);
    var left, right := PrefixedNodes(a.nodes, LEFT), PrefixedNodes(Without(b.nodes, t), RIGHT);
    var nodes := left + right;
    forall i, j | 0 <= i < j < |nodes| ensures nodes[i].id != nodes[j].id {
      if i < |left| && j < |left| {
        PrefixRoundTrip(a.nodes[i].id);
        PrefixRoundTrip(a.nodes[j].id);
      } else if i < |left| {
        PrefixRoundTrip(a.nodes[i].id);
        PrefixRoundTrip(Without(b.nodes, t)[j - |left|].id);
      } else {
        PrefixRoundTrip(Without(b.nodes, t)[i - |left|].id);
        PrefixRoundTrip(Without(b.nodes, t)[j - |left|].id);
      }
    }
  }

  lemma SplicedNodeOf(a: Workflow, b: Workflow, id: Id, name: string)
    requires Valid(a) && Valid(b)
    ensures forall n :: n in Ids(a) ==>
      LEFT + n in Ids(Spliced(a, b, id, name))
      && NodeOf(Spliced(a, b, id, name), LEFT + n) == PrefixedNode(NodeOf(a, n), LEFT)
    ensures forall n :: n in Ids(b) && n != TriggerId(b) ==>
      RIGHT + n in Ids(Spliced(a, b, id, name))
      && NodeOf(Spliced(a, b, id, name), RIGHT + n) == PrefixedNode(NodeOf(b, n), RIGHT)
  {
    hide Valid, Without, PrefixedNodes, UniqueIds;
    var w := Spliced(a, b, id, name);
    SplicedUniqueIds(a, b, id, name);
    forall n | n in Ids(a)
      ensures LEFT + n in Ids(w) && NodeOf(w, LEFT + n) == PrefixedNode(NodeOf(a, n), LEFT)
    {
      var node := NodeOf(a, n);
      PrefixedNodeIn(a.nodes, LEFT, node);
      NodeOfSelf(w, PrefixedNode(node, LEFT));
    }
    forall n | n in Ids(b) && n != TriggerId(b)
      ensures RIGHT + n in Ids(w) && NodeOf(w, RIGHT + n) == PrefixedNode(NodeOf(b, n), RIGHT)
    {
      var node := NodeOf(b, n);
      PrefixedNodeIn(Without(b.nodes, TriggerId(b)), RIGHT, node);
      NodeOfSelf(w, PrefixedNode(node, RIGHT));
    }
  }

  lemma PrefixedNodeIn(nodes: seq<Node>, prefix: string, node: Node)
    requires node in nodes
    ensures PrefixedNode(node, prefix) in PrefixedNodes(nodes, prefix)
  {
    var i :| 0 <= i < |nodes| && nodes[i] == node;
    assert PrefixedNodes(nodes, prefix)[i] == PrefixedNode(node, prefix);
  }

  lemma Bounded(m: map<Id, nat>) returns (top: nat)
    ensures forall n :: n in m ==> m[n] < top
  {
    if m == map[] {
      top := 0;
    } else {
      var n :| n in m;
      var rest := map k | k in m && k != n :: m[k];
      assert rest.Keys == m.Keys - {n};
      assert |rest| < |m| by { assert |m.Keys - {n}| == |m.Keys| - 1; }
      top := Bounded(rest);
      top := if m[n] < top then top else m[n] + 1;
      forall k | k in m ensures m[k] < top { assert k == n || k in rest; }
    }
  }

  lemma SplicedAcyclic(a: Workflow, b: Workflow, id: Id, name: string)
    requires Valid(a) && Valid(b)
    ensures Acyclic(Spliced(a, b, id, name))
  {
    hide Without, PrefixedNodes, PrefixedConns, Bridges, ConnsNotFrom, Terminals, TargetsOf,
         UniqueIds, OneTrigger, PortsInRange, TriggersHaveNoProducer, Spliced;
    var w := Spliced(a, b, id, name);
    var ra, rb := RankOf(a), RankOf(b);
    var top := Bounded(ra);
    var rank := map n | n in Ids(w) ::
      if IsLeft(n) && Strip(n) in ra then ra[Strip(n)]
      else if IsRight(n) && Strip(n) in rb then top + rb[Strip(n)] else 0;
    forall c | c in w.connections && c.fromNode in rank && c.toNode in rank
      ensures rank[c.fromNode] < rank[c.toNode]
    {
      SplicedConnections(a, b, id, name, c);
      SplicedIds(a, b, id, name, c.fromNode);
      SplicedIds(a, b, id, name, c.toNode);
      PrefixRoundTrip(c.fromNode);
      PrefixRoundTrip(c.toNode);
    }
    assert IsRank(w, rank);
  }

  lemma TriggerOnly(w: Workflow, m: Node)
    requires Valid(w) && m in w.nodes && m.kind.IsTrigger()
    ensures m.id == TriggerId(w)
  {
    TriggerIsUnique(w, m);
  }

  lemma RightHasNoTrigger(b: Workflow, n: Node)
    requires Valid(b) && n in PrefixedNodes(Without(b.nodes, TriggerId(b)), RIGHT)
    ensures !n.kind.IsTrigger()
  {
    hide Acyclic, PortsInRange, UniqueIds, NoDangling, TriggersHaveNoProducer;
    var right := PrefixedNodes(Without(b.nodes, TriggerId(b)), RIGHT);
    var i :| 0 <= i < |right| && right[i] == n;
    var m := Without(b.nodes, TriggerId(b))[i];
    assert m in b.nodes && m.id != TriggerId(b);
    if m.kind.IsTrigger() { TriggerOnly(b, m); }
  }

  lemma SplicedOneTrigger(a: Workflow, b: Workflow, id: Id, name: string)
    requires Valid(a) && Valid(b)
    ensures OneTrigger(Spliced(a, b, id, name))
  {
    hide Acyclic, PortsInRange, UniqueIds, NoDangling, TriggersHaveNoProducer, Without;
    var left, right := PrefixedNodes(a.nodes, LEFT), PrefixedNodes(Without(b.nodes, TriggerId(b)), RIGHT);
    var nodes := left + right;
    var t := FindTrigger(a.nodes).value;
    PrefixedNodeIn(a.nodes, LEFT, t);
    assert PrefixedNode(t, LEFT) in nodes && PrefixedNode(t, LEFT).kind.IsTrigger();
    forall i, j | 0 <= i < j < |nodes| ensures !(nodes[i].kind.IsTrigger() && nodes[j].kind.IsTrigger()) {
      if j >= |left| {
        assert nodes[j] in right;
        RightHasNoTrigger(b, nodes[j]);
      } else {
        assert nodes[i].kind == a.nodes[i].kind && nodes[j].kind == a.nodes[j].kind;
      }
    }
  }

  lemma ConnEnds(a: Workflow, b: Workflow, id: Id, name: string, c: Connection)
    requires Valid(a) && Valid(b) && c in Spliced(a, b, id, name).connections
    ensures c.fromNode in Ids(Spliced(a, b, id, name)) && c.toNode in Ids(Spliced(a, b, id, name))
    ensures var kind := NodeOf(Spliced(a, b, id, name), c.fromNode).kind;
            kind.PortCount().Some? ==> c.fromPort < kind.PortCount().value
    ensures !NodeOf(Spliced(a, b, id, name), c.toNode).kind.IsTrigger()
  {
    hide Acyclic, UniqueIds, OneTrigger, Spliced, NodeOf, Terminals, TargetsOf;
    var w := Spliced(a, b, id, name);
    SplicedConnections(a, b, id, name, c);
    SplicedIds(a, b, id, name, c.fromNode);
    SplicedIds(a, b, id, name, c.toNode);
    PrefixRoundTrip(c.fromNode);
    PrefixRoundTrip(c.toNode);
    SplicedNodeOf(a, b, id, name);
    var inner := Connection(Strip(c.fromNode), c.fromPort, Strip(c.toNode));
    if IsLeft(c.toNode) {
      NotTrigger(a, inner);
    } else if IsRight(c.fromNode) {
      NotTrigger(b, inner);
    } else {
      var e :| e in b.connections && e.fromNode == TriggerId(b) && e.toNode == Strip(c.toNode);
      NotTrigger(b, e);
    }
  }

  lemma NotTrigger(w: Workflow, c: Connection)
    requires Valid(w) && c in w.connections
    ensures c.toNode in Ids(w) && !NodeOf(w, c.toNode).kind.IsTrigger() && c.toNode != TriggerId(w)
  {
    hide Acyclic, PortsInRange;
    var t := FindTrigger(w.nodes).value;
    NodeOfSelf(w, t);
  }

  /** Splicing two valid workflows gives a valid workflow: unique ids, one trigger, nothing dangling,
      ports in range, no cycle, and nothing flowing into the trigger. */
  lemma SpliceIsValid(a: Workflow, b: Workflow, id: Id, name: string)
    requires Valid(a) && Valid(b)
    ensures Valid(Spliced(a, b, id, name))
    ensures TriggerId(Spliced(a, b, id, name)) == LEFT + TriggerId(a)
  {
    hide Acyclic, OneTrigger, UniqueIds, Ids, Spliced;
    var w := Spliced(a, b, id, name);
    SplicedUniqueIds(a, b, id, name);
    SplicedOneTrigger(a, b, id, name);
    SplicedAcyclic(a, b, id, name);
    SplicedNodeOf(a, b, id, name);
    assert w.schemaVersion == SCHEMA_VERSION by { SchemaOf(a, b, id, name); }
    forall c | c in w.connections
      ensures c.fromNode in Ids(w) && c.toNode in Ids(w)
      ensures var count := NodeOf(w, c.fromNode).kind.PortCount(); count.Some? ==> c.fromPort < count.value
    {
      ConnEnds(a, b, id, name, c);
    }
    forall c, n | c in w.connections && n in w.nodes && n.id == c.toNode ensures !n.kind.IsTrigger() {
      ConnEnds(a, b, id, name, c);
      NodeOfSelf(w, n);
    }
    SpliceTrigger(a, b, id, name);
  }

  lemma SchemaOf(a: Workflow, b: Workflow, id: Id, name: string)
    requires Valid(b)
    ensures Spliced(a, b, id, name).schemaVersion == SCHEMA_VERSION
  {}

  lemma SpliceTrigger(a: Workflow, b: Workflow, id: Id, name: string)
    requires Valid(a) && Valid(b) && Valid(Spliced(a, b, id, name))
    ensures TriggerId(Spliced(a, b, id, name)) == LEFT + TriggerId(a)
  {
    hide Acyclic, PortsInRange, UniqueIds, NoDangling, TriggersHaveNoProducer, Without;
    var t := FindTrigger(a.nodes).value;
    PrefixedNodeIn(a.nodes, LEFT, t);
    TriggerOnly(Spliced(a, b, id, name), PrefixedNode(t, LEFT));
  }
}
