/** The text form by which the search recognises workflows it has already seen. */
module CanonicalForms {
  import opened Sorting
  import opened Strings
  import opened Workflows
  import opened Bags
  import opened Operators

  function ConnectionText(c: Connection): string {
    c.fromNode + ":" + Decimal(c.fromPort) + "->" + c.toNode
  }

  function JoinedText(parts: seq<string>): string {
    if parts == [] then "" else if |parts| == 1 then parts[0] else parts[0] + "|" + JoinedText(parts[1..])
  }

  function Texts<T>(show: T -> string, s: seq<T>): seq<string> {
    Sort(FlatMap((x: T) => [show(x)], s), StrLe)
  }

  /** `show` writes one node as JSON. */
  function Canonical(show: Node -> string, w: Workflow): string {
    "N[" + JoinedText(Texts(show, w.nodes)) + "]C[" + JoinedText(Texts(ConnectionText, w.connections)) + "]"
  }

  lemma SortedFirst<T(!new)>(a: seq<T>, b: seq<T>, le: (T, T) -> bool)
    requires TotalOrder(le) && Sorted(a, le) && Sorted(b, le) && a != [] && b != []
    requires forall x :: x in a <==> x in b
    ensures a[0] == b[0]
  {
    assert a[0] in b && b[0] in a;
    assert le(a[0], a[0]) && le(b[0], b[0]);
    assert le(a[0], b[0]) && le(b[0], a[0]);
  }

  lemma SortedTail<T(!new)>(a: seq<T>, le: (T, T) -> bool)
    requires Sorted(a, le) && a != []
    ensures Sorted(a[1..], le) && a == [a[0]] + a[1..]
    ensures multiset(a[1..]) == multiset(a) - multiset{a[0]}
  {
    assert a == [a[0]] + a[1..];
    forall i, j | 0 <= i < j < |a[1..]| ensures le(a[1..][i], a[1..][j]) { assert le(a[i + 1], a[j + 1]); }
  }

  lemma {:induction false} SortedSame<T(!new)>(a: seq<T>, b: seq<T>, le: (T, T) -> bool)
    requires TotalOrder(le) && Sorted(a, le) && Sorted(b, le) && multiset(a) == multiset(b)
    ensures a == b
  {
    SameMultisetSameElements(a, b);
    if a != [] {
      SortedFirst(a, b, le);
      SortedTail(a, le);
      SortedTail(b, le);
      SortedSame(a[1..], b[1..], le);
    }
  }

  lemma TextsOrderFree<T>(show: T -> string, a: seq<T>, b: seq<T>)
    requires multiset(a) == multiset(b)
    ensures Texts(show, a) == Texts(show, b)
  {
    hide StrLe;
    var g := (x: T) => [show(x)];
    FlatMapPermutes(g, a, b);
    StrLeIsTotalOrder();
    SortSorted(FlatMap(g, a), StrLe);
    SortSorted(FlatMap(g, b), StrLe);
    SortedSame(Texts(show, a), Texts(show, b), StrLe);
  }

  /** Declaring the same nodes and connections in another order gives the same form. */
  lemma CanonicalOrderFree(show: Node -> string, v: Workflow, w: Workflow)
    requires multiset(v.nodes) == multiset(w.nodes) && multiset(v.connections) == multiset(w.connections)
    ensures Canonical(show, v) == Canonical(show, w)
  {
    hide Texts;
    TextsOrderFree(show, v.nodes, w.nodes);
    TextsOrderFree(ConnectionText, v.connections, w.connections);
  }

  // ---- Which workflows the form tells apart ----

  /** What the serializer writes: one object per node, which ends where its brace is closed, so that no node's text
      begins another's. */
  ghost predicate IsNotation(show: Node -> string) {
    && (forall n :: show(n) != "" && show(n)[0] == '{')
    && forall m, n {:trigger show(m), show(n)} :: Begins(show(m), show(n)) ==> m == n
  }

  /** No identifier in a connection holds a separator of the form. */
  ghost predicate PlainlyNamed(w: Workflow) {
    forall c :: c in w.connections ==> '|' !in c.fromNode && ':' !in c.fromNode && '|' !in c.toNode
  }

  /** A separator, or the end. */
  ghost predicate StopsAt(s: string, sep: char) { s == "" || s[0] == sep }

  lemma SplitAtSeparator(sep: char, p: string, s: string, q: string, t: string)
    requires sep !in p && sep !in q && StopsAt(s, sep) && StopsAt(t, sep)
    requires p + s == q + t
    ensures p == q && s == t
  {
    var whole := p + s;
    assert whole[..|p|] == p && whole[..|q|] == q && whole[|p|..] == s && whole[|q|..] == t;
    assert forall i :: 0 <= i < |p| ==> whole[i] == p[i] && p[i] in p;
    assert forall i :: 0 <= i < |q| ==> whole[i] == q[i] && q[i] in q;
    assert |p| < |whole| ==> whole[|p|] == sep;
    assert |q| < |whole| ==> whole[|q|] == sep;
  }

  lemma {:induction false} DecimalIsPlain(n: nat, sep: char)
    requires sep < '0' || sep > '9'
    ensures sep !in Decimal(n)
  {
    DecimalMeans(n);
  }

  lemma ConnectionTextTellsApart(c: Connection, d: Connection)
    requires ':' !in c.fromNode && ':' !in d.fromNode && ConnectionText(c) == ConnectionText(d)
    ensures c == d
  {
    hide Decimal;
    var a, b := Decimal(c.fromPort) + ("->" + c.toNode), Decimal(d.fromPort) + ("->" + d.toNode);
    assert ConnectionText(c) == c.fromNode + (":" + a) && ConnectionText(d) == d.fromNode + (":" + b);
    SplitAtSeparator(':', c.fromNode, ":" + a, d.fromNode, ":" + b);
    assert (":" + a)[1..] == a && (":" + b)[1..] == b;
    DecimalIsPlain(c.fromPort, '-');
    DecimalIsPlain(d.fromPort, '-');
    SplitAtSeparator('-', Decimal(c.fromPort), "->" + c.toNode, Decimal(d.fromPort), "->" + d.toNode);
    DecimalInjective(c.fromPort, d.fromPort);
    assert ("->" + c.toNode)[2..] == c.toNode && ("->" + d.toNode)[2..] == d.toNode;
  }

  lemma ConnectionTextIsPlain(c: Connection)
    requires '|' !in c.fromNode && '|' !in c.toNode
    ensures '|' !in ConnectionText(c) && ConnectionText(c) != ""
  {
    hide Decimal;
    DecimalIsPlain(c.fromPort, '|');
  }

  ghost predicate PlainParts(parts: seq<string>) { forall p :: p in parts ==> p != "" && '|' !in p }

  /** What is left of the joined texts behind the first of them. */
  ghost function Behind(parts: seq<string>): string { if |parts| <= 1 then "" else "|" + JoinedText(parts[1..]) }

  lemma TailIsPlain(parts: seq<string>)
    requires parts != [] && PlainParts(parts)
    ensures PlainParts(parts[1..])
  {
    forall p | p in parts[1..] ensures p in parts {}
  }

  lemma JoinsToNothing(parts: seq<string>)
    requires PlainParts(parts)
    ensures JoinedText(parts) == "" <==> parts == []
  {
    if parts != [] { assert parts[0] in parts && JoinedText(parts) == parts[0] + Behind(parts); }
  }

  lemma {:induction false} JoinedPlainly(a: seq<string>, b: seq<string>)
    requires PlainParts(a) && PlainParts(b) && JoinedText(a) == JoinedText(b)
    ensures a == b
  {
    hide JoinedText, Behind, PlainParts;
    JoinsToNothing(a);
    JoinsToNothing(b);
    if a != [] && b != [] {
      PlainFirst(a);
      PlainFirst(b);
      SplitAtSeparator('|', a[0], Behind(a), b[0], Behind(b));
      if |a| > 1 && |b| > 1 { JoinedPlainly(a[1..], b[1..]); }
      assert a == [a[0]] + a[1..] && b == [b[0]] + b[1..];
    }
  }

  lemma PlainFirst(parts: seq<string>)
    requires PlainParts(parts) && parts != []
    ensures JoinedText(parts) == parts[0] + Behind(parts) && '|' !in parts[0] && StopsAt(Behind(parts), '|')
    ensures if |parts| > 1 then Behind(parts) != "" && Behind(parts)[1..] == JoinedText(parts[1..]) else Behind(parts) == ""
    ensures PlainParts(parts[1..])
  {
    assert parts[0] in parts;
    TailIsPlain(parts);
  }

  ghost predicate NodeTexts(show: Node -> string, parts: seq<string>) {
    forall p :: p in parts ==> exists n :: p == show(n)
  }

  /** Two lists of node texts, with anything behind them, are read back one by one. */
  lemma {:induction false} JoinedObjects(show: Node -> string, a: seq<string>, x: string, b: seq<string>, y: string)
    requires IsNotation(show) && NodeTexts(show, a) && NodeTexts(show, b)
    requires JoinedText(a) + ("]" + x) == JoinedText(b) + ("]" + y)
    ensures a == b && x == y
  {
    hide IsNotation, NodeTexts, JoinedText, Behind;
    if a == [] || b == [] {
      NothingJoined(show, a, x, b, y);
    } else {
      SameFirst(show, a, x, b, y);
      if |a| > 1 {
        TailTexts(show, a);
        TailTexts(show, b);
        JoinedObjects(show, a[1..], x, b[1..], y);
      }
      assert a == [a[0]] + a[1..] && b == [b[0]] + b[1..];
    }
  }

  /** The first texts agree, and what is behind them. */
  lemma SameFirst(show: Node -> string, a: seq<string>, x: string, b: seq<string>, y: string)
    requires IsNotation(show) && NodeTexts(show, a) && NodeTexts(show, b) && a != [] && b != []
    requires JoinedText(a) + ("]" + x) == JoinedText(b) + ("]" + y)
    ensures a[0] == b[0] && (|a| > 1 <==> |b| > 1)
    ensures |a| == 1 ==> x == y
    ensures |a| > 1 ==> JoinedText(a[1..]) + ("]" + x) == JoinedText(b[1..]) + ("]" + y)
  {
    hide IsNotation, NodeTexts, JoinedText, Behind;
    SplitsFirst(a, "]" + x);
    SplitsFirst(b, "]" + y);
    IsNodeText(show, a);
    IsNodeText(show, b);
    FirstObject(show, a[0], Behind(a) + ("]" + x), b[0], Behind(b) + ("]" + y));
    BehindFirst(a, x);
    BehindFirst(b, y);
  }

  lemma SplitsFirst(parts: seq<string>, s: string)
    requires parts != []
    ensures JoinedText(parts) + s == parts[0] + (Behind(parts) + s)
  {
    hide JoinedText, Behind;
    JoinsToFirst(parts);
    Reassociate(parts[0], Behind(parts), s);
  }

  lemma JoinsToFirst(parts: seq<string>)
    requires parts != []
    ensures JoinedText(parts) == parts[0] + Behind(parts)
  {}

  lemma Reassociate(a: string, b: string, c: string)
    ensures a + b + c == a + (b + c)
  {}

  lemma BehindFirst(parts: seq<string>, x: string)
    requires parts != []
    ensures var s := Behind(parts) + ("]" + x);
            && s != "" && (s[0] == '|' <==> |parts| > 1)
            && s[1..] == if |parts| > 1 then JoinedText(parts[1..]) + ("]" + x) else x
  {}

  lemma IsNodeText(show: Node -> string, parts: seq<string>)
    requires parts != [] && NodeTexts(show, parts)
    ensures exists n :: parts[0] == show(n)
  {
    assert parts[0] in parts;
  }

  lemma TailTexts(show: Node -> string, parts: seq<string>)
    requires parts != [] && NodeTexts(show, parts)
    ensures NodeTexts(show, parts[1..])
  {
    forall p | p in parts[1..] ensures p in parts {}
  }

  lemma NothingJoined(show: Node -> string, a: seq<string>, x: string, b: seq<string>, y: string)
    requires IsNotation(show) && NodeTexts(show, a) && NodeTexts(show, b) && (a == [] || b == [])
    requires JoinedText(a) + ("]" + x) == JoinedText(b) + ("]" + y)
    ensures a == b == [] && x == y
  {
    forall parts: seq<string>, z: string | parts != [] && NodeTexts(show, parts) && JoinedText(parts) != ""
      ensures (JoinedText(parts) + ("]" + z))[0] == JoinedText(parts)[0]
    {}
    if a != [] { StartsAsObject(show, a); }
    if b != [] { StartsAsObject(show, b); }
    assert ("]" + x)[1..] == x && ("]" + y)[1..] == y;
    assert a == [] && b == [] ==> JoinedText(a) + ("]" + x) == "]" + x && JoinedText(b) + ("]" + y) == "]" + y;
  }

  lemma StartsAsObject(show: Node -> string, parts: seq<string>)
    requires IsNotation(show) && NodeTexts(show, parts) && parts != []
    ensures JoinedText(parts) != "" && JoinedText(parts)[0] == '{'
  {
    IsNodeText(show, parts);
    assert JoinedText(parts) == parts[0] + Behind(parts);
  }

  lemma FirstObject(show: Node -> string, p: string, u: string, q: string, v: string)
    requires IsNotation(show) && (exists n :: p == show(n)) && (exists n :: q == show(n))
    requires p + u == q + v
    ensures p == q && u == v
  {
    var m :| p == show(m);
    var n :| q == show(n);
    var whole := p + u;
    assert whole[..|p|] == p && whole[..|q|] == q && whole[|p|..] == u && whole[|q|..] == v;
    if |p| <= |q| { assert q[..|p|] == whole[..|p|]; assert Begins(p, q); } else { assert p[..|q|] == whole[..|q|]; assert Begins(q, p); }
  }

  ghost predicate TellsApart<T(!new)>(show: T -> string, a: seq<T>, b: seq<T>) {
    forall x, y {:trigger show(x), show(y)} :: x in a + b && y in a + b && show(x) == show(y) ==> x == y
  }

  lemma {:induction false} TextCount<T(!new)>(show: T -> string, s: seq<T>, x: T)
    requires forall y :: y in s && show(y) == show(x) ==> y == x
    ensures multiset(FlatMap((y: T) => [show(y)], s))[show(x)] == multiset(s)[x]
  {
    if s != [] {
      var k := |s| - 1;
      TextCount(show, s[..k], x);
      assert s == s[..k] + [s[k]] && s[k] in s;
    }
  }

  lemma SameTexts<T(!new)>(show: T -> string, a: seq<T>, b: seq<T>)
    requires Texts(show, a) == Texts(show, b) && TellsApart(show, a, b)
    ensures multiset(a) == multiset(b)
  {
    var g := (y: T) => [show(y)];
    assert multiset(FlatMap(g, a)) == multiset(FlatMap(g, b));
    forall x ensures multiset(a)[x] == multiset(b)[x] {
      if x in a + b {
        TextCount(show, a, x);
        TextCount(show, b, x);
      }
    }
  }

  lemma TextsAreTexts<T(!new)>(show: T -> string, s: seq<T>)
    ensures forall p :: p in Texts(show, s) ==> exists x :: x in s && p == show(x)
  {
    var g := (y: T) => [show(y)];
    SameMultisetSameElements(Texts(show, s), FlatMap(g, s));
    forall p | p in Texts(show, s) ensures exists x :: x in s && p == show(x) {
      FlatMapMember(g, s, p);
    }
  }

  /** The form always tells the nodes, and the texts of the connections. */
  lemma FormSplits(show: Node -> string, v: Workflow, w: Workflow)
    requires IsNotation(show) && Canonical(show, v) == Canonical(show, w)
    ensures multiset(v.nodes) == multiset(w.nodes)
    ensures JoinedText(Texts(ConnectionText, v.connections)) == JoinedText(Texts(ConnectionText, w.connections))
  {
    hide Texts, JoinedText, IsNotation;
    var a, b := Texts(show, v.nodes), Texts(show, w.nodes);
    var c, d := JoinedText(Texts(ConnectionText, v.connections)), JoinedText(Texts(ConnectionText, w.connections));
    var x, y := "C[" + c + "]", "C[" + d + "]";
    var p, q := Canonical(show, v), Canonical(show, w);
    assert p == "N[" + (JoinedText(a) + ("]" + x)) && q == "N[" + (JoinedText(b) + ("]" + y));
    assert p[2..] == JoinedText(a) + ("]" + x) && q[2..] == JoinedText(b) + ("]" + y);
    TextsAreTexts(show, v.nodes);
    TextsAreTexts(show, w.nodes);
    JoinedObjects(show, a, x, b, y);
    assert x[2..|x| - 1] == c && y[2..|y| - 1] == d;
    NotationTellsApart(show, v.nodes, w.nodes);
    SameTexts(show, v.nodes, w.nodes);
  }

  lemma NotationTellsApart(show: Node -> string, a: seq<Node>, b: seq<Node>)
    requires IsNotation(show)
    ensures TellsApart(show, a, b)
  {
    forall x, y | show(x) == show(y) ensures x == y { assert Begins(show(x), show(y)); }
  }

  /** Where no connection names a separator the form is that of one workflow only, up to the order of declaration. */
  lemma FormTellsApart(show: Node -> string, v: Workflow, w: Workflow)
    requires IsNotation(show) && PlainlyNamed(v) && PlainlyNamed(w)
    ensures Canonical(show, v) == Canonical(show, w) <==>
            multiset(v.nodes) == multiset(w.nodes) && multiset(v.connections) == multiset(w.connections)
  {
    hide Texts, JoinedText, IsNotation, Canonical, ConnectionText;
    if Canonical(show, v) == Canonical(show, w) {
      FormSplits(show, v, w);
      PlainTexts(v);
      PlainTexts(w);
      JoinedPlainly(Texts(ConnectionText, v.connections), Texts(ConnectionText, w.connections));
      forall c, d | c in v.connections + w.connections && d in v.connections + w.connections
                    && ConnectionText(c) == ConnectionText(d)
        ensures c == d
      {
        ConnectionTextTellsApart(c, d);
      }
      SameTexts(ConnectionText, v.connections, w.connections);
    } else if multiset(v.nodes) == multiset(w.nodes) && multiset(v.connections) == multiset(w.connections) {
      CanonicalOrderFree(show, v, w);
    }
  }

  lemma PlainTexts(w: Workflow)
    requires PlainlyNamed(w)
    ensures PlainParts(Texts(ConnectionText, w.connections))
  {
    hide Texts, ConnectionText;
    TextsAreTexts(ConnectionText, w.connections);
    forall p | p in Texts(ConnectionText, w.connections) ensures p != "" && '|' !in p {
      var c :| c in w.connections && p == ConnectionText(c);
      ConnectionTextIsPlain(c);
    }
  }

  /** Two nodes and two connections, written out. */
  lemma FormOfTwo(show: Node -> string, w: Workflow, m: Node, n: Node, c: Connection, d: Connection)
    requires w.nodes == [m, n] && w.connections == [c, d]
    requires StrLe(show(m), show(n)) && StrLe(ConnectionText(c), ConnectionText(d))
    ensures Canonical(show, w) ==
            "N[" + show(m) + "|" + show(n) + "]C[" + c.fromNode + ":" + Decimal(c.fromPort) + "->" + c.toNode
            + "|" + d.fromNode + ":" + Decimal(d.fromPort) + "->" + d.toNode + "]"
  {
    hide StrLe, Texts, ConnectionText, JoinedText;
    OrderedTexts(show, m, n);
    OrderedTexts(ConnectionText, c, d);
    JoinedTwo(show(m), show(n));
    JoinedTwo(ConnectionText(c), ConnectionText(d));
    WrittenOut(c);
    WrittenOut(d);
  }

  lemma JoinedTwo(a: string, b: string)
    ensures JoinedText([a, b]) == a + "|" + b
  {
    assert [a, b][1..] == [b];
  }

  lemma WrittenOut(c: Connection)
    ensures ConnectionText(c) == c.fromNode + ":" + Decimal(c.fromPort) + "->" + c.toNode
  {}

  lemma OneText<T>(show: T -> string, x: T)
    ensures Texts(show, [x]) == [show(x)]
  {
    hide StrLe;
    var g := (y: T) => [show(y)];
    FlatMapNothing(g);
    FlatMapLast(g, [], x);
    assert [] + [x] == [x] && [show(x)][1..] == [];
  }

  lemma OrderedTexts<T>(show: T -> string, x: T, y: T)
    requires StrLe(show(x), show(y))
    ensures Texts(show, [x, y]) == [show(x), show(y)]
  {
    hide StrLe;
    var g := (z: T) => [show(z)];
    FlatMapNothing(g);
    FlatMapLast(g, [], x);
    FlatMapLast(g, [x], y);
    assert [] + [x] == [x] && [x] + [y] == [x, y];
    assert FlatMap(g, [x, y]) == [show(x), show(y)];
    SortTwo(show(x), show(y));
  }

  lemma SortTwo(a: string, b: string)
    requires StrLe(a, b)
    ensures Sort([a, b], StrLe) == [a, b]
  {
    hide StrLe;
    assert [a, b][1..] == [b] && [b][1..] == [];
    assert Sort([b], StrLe) == [b];
  }
}
