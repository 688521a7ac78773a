/** Mutation operators of the search that insert and remove pass-through nodes. */
module Operators {
  import opened Wrappers
  import opened Filtering
  import opened Sorting
  import opened Cardinality
  import opened Workflows

  // ---- Fresh identifiers ----

  function Digit(d: nat): char
    requires d < 10
  {
    "0123456789"[d]
  }

  function Decimal(n: nat): (s: string)
    ensures s != "" && (|s| >= 2 <==> n >= 10)
  {
    if n < 10 then [Digit(n)] else Decimal(n / 10) + [Digit(n % 10)]
  }

  lemma {:induction false} DecimalInjective(m: nat, n: nat)
    requires Decimal(m) == Decimal(n)
    ensures m == n
    decreases m
  {
    var s := Decimal(m);
    assert s[|s| - 1] == Digit(m % 10) && s[|s| - 1] == Digit(n % 10);
    if m >= 10 && n >= 10 {
      assert s[..|s| - 1] == Decimal(m / 10) && s[..|s| - 1] == Decimal(n / 10);
      DecimalInjective(m / 10, n / 10);
    }
  }

  ghost function NumberRead(s: string): int {
    if s == "" then 0 else 10 * NumberRead(s[..|s| - 1]) + (s[|s| - 1] as int - '0' as int)
  }

  /** Decimal notation: digits without a leading zero that read as the number. */
  lemma {:induction false} DecimalMeans(n: nat)
    ensures NumberRead(Decimal(n)) == n
    ensures forall i :: 0 <= i < |Decimal(n)| ==> '0' <= Decimal(n)[i] <= '9'
    ensures n > 0 ==> Decimal(n)[0] != '0'
  {
    var s := Decimal(n);
    DigitMeans(n % 10);
    assert NumberRead(s[..|s| - 1]) == n / 10 by {
      if n >= 10 { DecimalMeans(n / 10); assert s[..|s| - 1] == Decimal(n / 10); }
    }
    if n >= 10 { DecimalMeans(n / 10); assert s[0] == Decimal(n / 10)[0]; }
  }

  lemma DigitMeans(d: nat)
    requires d < 10
    ensures '0' <= Digit(d) <= '9' && Digit(d) as int - '0' as int == d
  {}

  function Candidate(base: string, i: nat): string { base + "_" + Decimal(i) }

  lemma CandidateInjective(base: string, i: nat, j: nat)
    requires Candidate(base, i) == Candidate(base, j)
    ensures i == j
  {
    assert Candidate(base, i)[|base| + 1..] == Decimal(i);
    assert Candidate(base, j)[|base| + 1..] == Decimal(j);
    DecimalInjective(i, j);
  }

  ghost function Tried(base: string, i: nat): set<string>
    requires i >= 1
  {
    set k | 1 <= k < i :: Candidate(base, k)
  }

  lemma TriedGrows(base: string, i: nat)
    requires i >= 1
    ensures Candidate(base, i) !in Tried(base, i)
    ensures Tried(base, i + 1) == Tried(base, i) + {Candidate(base, i)}
  {
    hide Candidate;
    if k :| 1 <= k < i && Candidate(base, i) == Candidate(base, k) { CandidateInjective(base, i, k); }
  }

  /** The base with a number behind it; the numbers below are taken. */
  ghost predicate FirstFree(w: Workflow, base: string, id: Id, k: nat) {
    k >= 1 && id == base + "_" + Decimal(k) && forall j :: 1 <= j < k ==> base + "_" + Decimal(j) in Ids(w)
  }

  lemma TriedTaken(w: Workflow, base: string, k: nat)
    requires k >= 1 && Tried(base, k) <= Ids(w)
    ensures FirstFree(w, base, Candidate(base, k), k)
  {
    forall j | 1 <= j < k ensures base + "_" + Decimal(j) in Ids(w) { assert Candidate(base, j) in Tried(base, k); }
  }

  /** An identifier no node has yet. The counter stops because only finitely many are taken. */
  method UniqueId(w: Workflow, base: string) returns (id: Id)
    ensures id !in Ids(w)
    ensures if base !in Ids(w) then id == base else exists k: nat :: FirstFree(w, base, id, k)
  {
    hide Candidate, Ids, Tried, FirstFree;
    if base !in Ids(w) { return base; }
    var i := 1;
    assert Tried(base, 1) == {} by { NothingTried(base); }
    while Candidate(base, i) in Ids(w)
      invariant i >= 1 && Tried(base, i) <= Ids(w) && |Tried(base, i)| == i - 1
      decreases |Ids(w)| - i
    {
      TriedGrows(base, i);
      SubsetSize(Tried(base, i + 1), Ids(w));
      i := i + 1;
    }
    id := Candidate(base, i);
    TriedTaken(w, base, i);
  }

  lemma NothingTried(base: string)
    ensures Tried(base, 1) == {}
  {}

  // ---- The two operators ----

  function EmptyTransform(id: Id): Node { Node(id, Transform, JObj(map[]), None, None) }

  /** Connection number `i` goes through the new node `id`. */
  function Inserted(w: Workflow, i: nat, id: Id): Workflow
    requires i < |w.connections|
  {
    var c := w.connections[i];
    w.(nodes := w.nodes + [EmptyTransform(id)],
       connections := w.connections[i := Connection(c.fromNode, c.fromPort, id)] + [Connection(id, 0, c.toNode)])
  }

  /** What going through the new node means, position by position. */
  ghost predicate LeadsThrough(w: Workflow, i: nat, id: Id, v: Workflow)
    requires i < |w.connections|
  {
    var c, n := w.connections[i], |w.connections|;
    && v.schemaVersion == w.schemaVersion && v.id == w.id && v.name == w.name
    && v.nodes == w.nodes + [Node(id, Transform, JObj(map[]), None, None)]
    && |v.connections| == n + 1
    && (forall k :: 0 <= k < n && k != i ==> v.connections[k] == w.connections[k])
    && v.connections[i] == Connection(c.fromNode, c.fromPort, id)
    && v.connections[n] == Connection(id, 0, c.toNode)
  }

  lemma InsertedMeans(w: Workflow, i: nat, id: Id)
    requires i < |w.connections|
    ensures LeadsThrough(w, i, id, Inserted(w, i, id))
  {}

  ghost predicate NamedAfter(w: Workflow, c: Connection, id: Id) {
    var base := "ins_" + c.fromNode + "_" + c.toNode;
    id !in Ids(w) && if base !in Ids(w) then id == base else exists k: nat :: FirstFree(w, base, id, k)
  }

  function BaseId(c: Connection): string { "ins_" + c.fromNode + "_" + c.toNode }

  /** One candidate per connection. */
  method InsertPassthrough(w: Workflow) returns (out: seq<Workflow>, ids: seq<Id>)
    ensures |out| == |ids| == |w.connections|
    ensures forall i :: 0 <= i < |out| ==> ids[i] !in Ids(w) && out[i] == Inserted(w, i, ids[i])
    ensures forall i :: 0 <= i < |out| ==> NamedAfter(w, w.connections[i], ids[i]) && LeadsThrough(w, i, ids[i], out[i])
  {
    hide FirstFree, LeadsThrough, Ids, Inserted;
    out, ids := [], [];
    var i := 0;
    while i < |w.connections|
      invariant 0 <= i == |out| == |ids| <= |w.connections|
      invariant forall k :: 0 <= k < i ==> ids[k] !in Ids(w) && out[k] == Inserted(w, k, ids[k])
      invariant forall k :: 0 <= k < i ==> NamedAfter(w, w.connections[k], ids[k]) && LeadsThrough(w, k, ids[k], out[k])
    {
      var id := UniqueId(w, BaseId(w.connections[i]));
      InsertedMeans(w, i, id);
      out, ids := out + [Inserted(w, i, id)], ids + [id];
      i := i + 1;
    }
  }

  /** An empty or absent `set`, and nothing else that could matter. */
  predicate IsEmptyPassthrough(node: Node) {
    if node.params.JObj? && "set" in node.params.fields then
      node.params.fields["set"].JObj? && node.params.fields["set"].fields == map[]
    else if node.params.JObj? then node.params.fields == map[]
    else true
  }

  function Entering(id: Id): Connection -> bool { (c: Connection) => c.toNode == id }

  function Leaving(id: Id): Connection -> bool { (c: Connection) => c.fromNode == id }

  function Passing(id: Id): Connection -> bool { (c: Connection) => c.fromNode != id && c.toNode != id }

  function Into(conns: seq<Connection>, id: Id): seq<Connection> { Keep(Entering(id), conns) }

  function OutOf(conns: seq<Connection>, id: Id): seq<Connection> { Keep(Leaving(id), conns) }

  function Untouched(conns: seq<Connection>, id: Id): seq<Connection> { Keep(Passing(id), conns) }

  function BypassOne(p: Connection, succs: seq<Connection>): (r: seq<Connection>)
    ensures |r| == |succs|
    ensures forall i :: 0 <= i < |r| ==> r[i] == Connection(p.fromNode, p.fromPort, succs[i].toNode)
  {
    seq(|succs|, i requires 0 <= i < |succs| => Connection(p.fromNode, p.fromPort, succs[i].toNode))
  }

  /** Each predecessor's port to each successor's target. */
  function Bypasses(preds: seq<Connection>, succs: seq<Connection>): (r: seq<Connection>)
    ensures forall c :: c in r <==> exists p, s :: p in preds && s in succs && c == Connection(p.fromNode, p.fromPort, s.toNode)
  {
    if preds == [] then []
    else
      var k := |preds| - 1;
      var last := BypassOne(preds[k], succs);
      assert preds == preds[..k] + [preds[k]];
      assert forall c :: c in last <==> exists s :: s in succs && c == Connection(preds[k].fromNode, preds[k].fromPort, s.toNode);
      Bypasses(preds[..k], succs) + last
  }

  function Removed(w: Workflow, id: Id): Workflow {
    w.(nodes := Without(w.nodes, id),
       connections := Untouched(w.connections, id) + Bypasses(Into(w.connections, id), OutOf(w.connections, id)))
  }

  predicate Removable(w: Workflow, frozen: set<Id>, node: Node) {
    && node.kind.Transform? && node.id !in frozen && IsEmptyPassthrough(node)
    && Into(w.connections, node.id) != [] && OutOf(w.connections, node.id) != []
  }

  function Candidates(w: Workflow, frozen: set<Id>, nodes: seq<Node>): seq<Workflow> {
    if nodes == [] then []
    else
      var k := |nodes| - 1;
      Candidates(w, frozen, nodes[..k]) + if Removable(w, frozen, nodes[k]) then [Removed(w, nodes[k].id)] else []
  }

  // ---- What removing means, position by position ----

  /** No fields at all, or an empty `set`; params that are no object count as empty. */
  ghost predicate SetsNothing(params: Json) {
    !params.JObj? || params == JObj(map[]) || ("set" in params.fields && params.fields["set"] == JObj(map[]))
  }

  ghost predicate IsRemovable(w: Workflow, frozen: set<Id>, k: nat) {
    && k < |w.nodes|
    && w.nodes[k].kind == Transform && w.nodes[k].id !in frozen && SetsNothing(w.nodes[k].params)
    && (exists i :: 0 <= i < |w.connections| && w.connections[i].toNode == w.nodes[k].id)
    && exists i :: 0 <= i < |w.connections| && w.connections[i].fromNode == w.nodes[k].id
  }

  /** The connections into a node, by position. */
  ghost predicate EnterAt(conns: seq<Connection>, id: Id, at: seq<nat>) {
    Rising(at) && forall k: nat :: k in at <==> k < |conns| && conns[k].toNode == id
  }

  ghost predicate LeaveAt(conns: seq<Connection>, id: Id, at: seq<nat>) {
    Rising(at) && forall k: nat :: k in at <==> k < |conns| && conns[k].fromNode == id
  }

  ghost predicate PassByAt(conns: seq<Connection>, id: Id, at: seq<nat>) {
    Rising(at) && forall k: nat :: k in at <==> k < |conns| && conns[k].fromNode != id && conns[k].toNode != id
  }

  ghost predicate OthersAt(nodes: seq<Node>, id: Id, at: seq<nat>) {
    Rising(at) && forall k: nat :: k in at <==> k < |nodes| && nodes[k].id != id
  }

  ghost predicate Selects<T>(s: seq<T>, at: seq<nat>, r: seq<T>) {
    |r| == |at| && forall i :: 0 <= i < |at| ==> at[i] < |s| && r[i] == s[at[i]]
  }

  /** Connection by connection into the node, each joined to those out of it in turn. */
  ghost predicate JoinsAll(preds: seq<Connection>, succs: seq<Connection>, r: seq<Connection>) {
    && |r| == |preds| * |succs|
    && forall i, j :: 0 <= i < |preds| && 0 <= j < |succs| ==> JoinedAt(preds[i], succs[j], r, i * |succs| + j)
  }

  ghost predicate JoinedAt(p: Connection, s: Connection, r: seq<Connection>, k: int) {
    0 <= k < |r| && r[k] == Connection(p.fromNode, p.fromPort, s.toNode)
  }

  /** The other nodes, the connections that pass the node by, and one for each way through it, all in order. */
  ghost predicate LeavesOut(w: Workflow, id: Id, v: Workflow) {
    && v.schemaVersion == w.schemaVersion && v.id == w.id && v.name == w.name
    && AreOthers(w.nodes, id, v.nodes)
    && exists passing: seq<Connection>, preds: seq<Connection>, succs: seq<Connection>, joined: seq<Connection> ::
         && v.connections == passing + joined && JoinsAll(preds, succs, joined)
         && ArePassing(w.connections, id, passing) && AreEntering(w.connections, id, preds)
         && AreLeaving(w.connections, id, succs)
  }

  ghost predicate AreOthers(nodes: seq<Node>, id: Id, r: seq<Node>) {
    exists at: seq<nat> :: OthersAt(nodes, id, at) && Selects(nodes, at, r)
  }

  ghost predicate ArePassing(conns: seq<Connection>, id: Id, r: seq<Connection>) {
    exists at: seq<nat> :: PassByAt(conns, id, at) && Selects(conns, at, r)
  }

  ghost predicate AreEntering(conns: seq<Connection>, id: Id, r: seq<Connection>) {
    exists at: seq<nat> :: EnterAt(conns, id, at) && Selects(conns, at, r)
  }

  ghost predicate AreLeaving(conns: seq<Connection>, id: Id, r: seq<Connection>) {
    exists at: seq<nat> :: LeaveAt(conns, id, at) && Selects(conns, at, r)
  }

  lemma {:induction false} BypassesJoin(preds: seq<Connection>, succs: seq<Connection>)
    ensures JoinsAll(preds, succs, Bypasses(preds, succs))
  {
    hide JoinsAll;
    if preds == [] {
      JoinsNone(succs);
    } else {
      var k := |preds| - 1;
      BypassesJoin(preds[..k], succs);
      JoinsMore(preds, succs, Bypasses(preds[..k], succs), BypassOne(preds[k], succs));
    }
  }

  lemma JoinsNone(succs: seq<Connection>)
    ensures JoinsAll([], succs, [])
  {}

  lemma JoinsMore(preds: seq<Connection>, succs: seq<Connection>, shorter: seq<Connection>, last: seq<Connection>)
    requires preds != [] && JoinsAll(preds[..|preds| - 1], succs, shorter) && |last| == |succs|
    requires forall j :: 0 <= j < |succs| ==> JoinedAt(preds[|preds| - 1], succs[j], last, j)
    ensures JoinsAll(preds, succs, shorter + last)
  {
    var k, n := |preds| - 1, |succs|;
    hide JoinedAt;
    assert |shorter + last| == k * n + n == |preds| * n;
    forall i, j | 0 <= i < |preds| && 0 <= j < n ensures JoinedAt(preds[i], succs[j], shorter + last, i * n + j) {
      if i < k {
        assert JoinedAt(preds[..k][i], succs[j], shorter, i * n + j);
        JoinedBefore(preds[i], succs[j], shorter, last, i * n + j);
      } else {
        JoinedBehind(preds[i], succs[j], shorter, last, j);
      }
    }
  }

  lemma JoinedBefore(p: Connection, s: Connection, a: seq<Connection>, b: seq<Connection>, k: int)
    requires JoinedAt(p, s, a, k)
    ensures JoinedAt(p, s, a + b, k)
  {}

  lemma JoinedBehind(p: Connection, s: Connection, a: seq<Connection>, b: seq<Connection>, k: int)
    requires JoinedAt(p, s, b, k)
    ensures JoinedAt(p, s, a + b, |a| + k)
  {}

  lemma PassingMeans(conns: seq<Connection>, id: Id)
    ensures ArePassing(conns, id, Untouched(conns, id))
  {
    assert conns[..|conns|] == conns;
    var at := KeptAt(Passing(id), conns, |conns|);
    assert PassByAt(conns, id, at) && Selects(conns, at, Untouched(conns, id));
  }

  lemma EnteringMeans(conns: seq<Connection>, id: Id)
    ensures AreEntering(conns, id, Into(conns, id))
  {
    assert conns[..|conns|] == conns;
    var at := KeptAt(Entering(id), conns, |conns|);
    assert EnterAt(conns, id, at) && Selects(conns, at, Into(conns, id));
  }

  lemma LeavingMeans(conns: seq<Connection>, id: Id)
    ensures AreLeaving(conns, id, OutOf(conns, id))
  {
    assert conns[..|conns|] == conns;
    var at := KeptAt(Leaving(id), conns, |conns|);
    assert LeaveAt(conns, id, at) && Selects(conns, at, OutOf(conns, id));
  }

  lemma OthersMean(nodes: seq<Node>, id: Id)
    ensures AreOthers(nodes, id, Without(nodes, id))
  {
    assert nodes[..|nodes|] == nodes;
    var at := KeptAt(OtherThan(id), nodes, |nodes|);
    assert OthersAt(nodes, id, at) && Selects(nodes, at, Without(nodes, id));
  }

  lemma RemovedMeans(w: Workflow, id: Id)
    ensures LeavesOut(w, id, Removed(w, id))
  {
    hide JoinsAll, ArePassing, AreEntering, AreLeaving, AreOthers, Bypasses, Untouched, Into, OutOf, Without;
    OthersMean(w.nodes, id);
    PassingMeans(w.connections, id);
    EnteringMeans(w.connections, id);
    LeavingMeans(w.connections, id);
    BypassesJoin(Into(w.connections, id), OutOf(w.connections, id));
  }

  lemma RemovableMeans(w: Workflow, frozen: set<Id>, k: nat)
    requires k < |w.nodes|
    ensures Removable(w, frozen, w.nodes[k]) <==> IsRemovable(w, frozen, k)
  {
    var id := w.nodes[k].id;
    NonemptyHasMember(Into(w.connections, id));
    NonemptyHasMember(OutOf(w.connections, id));
    forall i | 0 <= i < |w.connections|
      ensures w.connections[i].toNode == id ==> w.connections[i] in Into(w.connections, id)
      ensures w.connections[i].fromNode == id ==> w.connections[i] in OutOf(w.connections, id)
    {}
  }

  ghost function RemovableIn(w: Workflow, frozen: set<Id>): nat -> bool { (k: nat) => IsRemovable(w, frozen, k) }

  /** One candidate for each node that qualifies, in order of declaration. */
  ghost predicate Proposes(w: Workflow, frozen: set<Id>, out: seq<Workflow>, at: seq<nat>) {
    && |at| == |out| && Rising(at) && (forall k: nat :: k in at <==> IsRemovable(w, frozen, k))
    && forall i :: 0 <= i < |at| ==> at[i] < |w.nodes| && LeavesOut(w, w.nodes[at[i]].id, out[i])
  }

  lemma {:induction false} CandidatesAt(w: Workflow, frozen: set<Id>, m: nat) returns (at: seq<nat>)
    requires m <= |w.nodes|
    ensures Picks(at, m, RemovableIn(w, frozen)) && |at| == |Candidates(w, frozen, w.nodes[..m])|
    ensures forall i :: 0 <= i < |at| ==>
      at[i] < m && Candidates(w, frozen, w.nodes[..m])[i] == Removed(w, w.nodes[at[i]].id)
  {
    hide Picks, IsRemovable, Removable, Removed;
    if m == 0 {
      at := [];
      NothingPicked(RemovableIn(w, frozen));
    } else {
      var before := CandidatesAt(w, frozen, m - 1);
      PicksNext(before, m - 1, RemovableIn(w, frozen));
      RemovableMeans(w, frozen, m - 1);
      at := if IsRemovable(w, frozen, m - 1) then before + [m - 1] else before;
      assert w.nodes[..m][..m - 1] == w.nodes[..m - 1];
    }
  }

  lemma CandidatesMean(w: Workflow, frozen: set<Id>) returns (at: seq<nat>)
    ensures Proposes(w, frozen, Candidates(w, frozen, w.nodes), at)
  {
    hide IsRemovable, Removed, LeavesOut, Candidates;
    at := CandidatesAt(w, frozen, |w.nodes|);
    assert w.nodes[..|w.nodes|] == w.nodes;
    forall k: nat ensures k in at <==> IsRemovable(w, frozen, k) { RemovableInside(w, frozen, k); }
    forall i | 0 <= i < |at| ensures LeavesOut(w, w.nodes[at[i]].id, Candidates(w, frozen, w.nodes)[i]) {
      RemovedMeans(w, w.nodes[at[i]].id);
    }
  }

  lemma RemovableInside(w: Workflow, frozen: set<Id>, k: nat)
    ensures IsRemovable(w, frozen, k) ==> k < |w.nodes|
  {}

  /** One candidate per removable node, in declaration order. */
  method RemovePassthrough(w: Workflow, frozen: set<Id>) returns (out: seq<Workflow>)
    ensures out == Candidates(w, frozen, w.nodes)
    ensures exists at: seq<nat> :: Proposes(w, frozen, out, at)
  {
    hide Proposes;
    out := [];
    var i := 0;
    while i < |w.nodes|
      invariant 0 <= i <= |w.nodes| && out == Candidates(w, frozen, w.nodes[..i])
    {
      var node := w.nodes[i];
      assert w.nodes[..i + 1][..i] == w.nodes[..i];
      if node.kind.Transform? && node.id !in frozen && IsEmptyPassthrough(node) {
        var preds, succs := Into(w.connections, node.id), OutOf(w.connections, node.id);
        if preds != [] && succs != [] {
          var nodes := Without(w.nodes, node.id);
          var connections := Untouched(w.connections, node.id);
          var bypasses := Reconnect(preds, succs);
          out := out + [w.(nodes := nodes, connections := connections + bypasses)];
        }
      }
      i := i + 1;
    }
    assert w.nodes[..i] == w.nodes;
    ghost var at := CandidatesMean(w, frozen);
  }

  method Reconnect(preds: seq<Connection>, succs: seq<Connection>) returns (r: seq<Connection>)
    ensures r == Bypasses(preds, succs)
  {
    r := [];
    var i := 0;
    while i < |preds|
      invariant 0 <= i <= |preds| && r == Bypasses(preds[..i], succs)
    {
      assert preds[..i + 1][..i] == preds[..i];
      ghost var before := r;
      var j := 0;
      while j < |succs|
        invariant 0 <= j <= |succs| && r == before + BypassOne(preds[i], succs)[..j]
      {
        r := r + [Connection(preds[i].fromNode, preds[i].fromPort, succs[j].toNode)];
        j := j + 1;
      }
      i := i + 1;
    }
    assert preds[..i] == preds;
  }
}
