/** The latency-critical path of a run: a dynamic program over a topological order. */
module CriticalPaths {
  import opened Wrappers
  import opened Sorting
  import opened Workflows

  const U64_MAX: nat := 0xFFFF_FFFF_FFFF_FFFF

  /** Latencies add up without wrapping. */
  function Sat(n: nat): nat { if n > U64_MAX then U64_MAX else n }

  /** Latency so far and number of nodes. */
  type Score = (nat, nat)

  predicate Higher(a: Score, b: Score) { a.0 > b.0 || (a.0 == b.0 && a.1 > b.1) }

  type Weights = Id -> nat

  /** Connections whose two ends are declared; others never become edges of the graph. */
  predicate IsEdge(w: Workflow, a: Id, b: Id) {
    a in Ids(w) && b in Ids(w) && (a, b) in Edges(w)
  }

  ghost predicate IsPath(w: Workflow, p: seq<Id>) {
    p != [] && p[0] in Ids(w) && forall i :: 0 <= i < |p| - 1 ==> IsEdge(w, p[i], p[i + 1])
  }

  function Weight(weight: Weights, p: seq<Id>): nat {
    if p == [] then 0 else Weight(weight, p[..|p| - 1]) + weight(p[|p| - 1])
  }

  /** The latencies add up. */
  lemma {:induction false} WeightMeans(weight: Weights, n: Id, p: seq<Id>, q: seq<Id>)
    ensures Weight(weight, []) == 0 && Weight(weight, [n]) == weight(n)
    ensures Weight(weight, p + q) == Weight(weight, p) + Weight(weight, q)
  {
    assert [n][..0] == [];
    if q == [] {
      assert p + q == p;
    } else {
      WeightMeans(weight, n, p, q[..|q| - 1]);
      assert (p + q)[..|p + q| - 1] == p + q[..|q| - 1];
    }
  }

  ghost predicate IsRoot(w: Workflow, n: Id) { forall m :: !IsEdge(w, m, n) }

  ghost predicate IsSink(w: Workflow, n: Id) { forall m :: !IsEdge(w, n, m) }

  /** What a topological sort returns. */
  ghost predicate Topological(w: Workflow, order: seq<Id>) {
    && NoDup(order)
    && (forall n :: n in order <==> n in Ids(w))
    && forall i, j :: 0 <= i < |order| && 0 <= j < |order| && IsEdge(w, order[i], order[j]) ==> i < j
  }

  /** The incoming neighbours of every node, in whatever order the graph library lists them. */
  ghost predicate ListsSources(w: Workflow, sources: map<Id, seq<Id>>) {
    && sources.Keys == Ids(w)
    && forall n, m :: n in sources ==> (m in sources[n] <==> IsEdge(w, m, n))
  }

  // ---- What the table holds ----

  ghost predicate EntryOk(w: Workflow, weight: Weights, best: map<Id, Score>, pred: map<Id, Option<Id>>, n: Id)
    requires n in best && n in pred
  {
    match pred[n]
    case None => IsRoot(w, n) && best[n] == (Sat(weight(n)), 1)
    case Some(p) =>
      && IsEdge(w, p, n) && p in best
      && best[n] == (Sat(best[p].0 + weight(n)), best[p].1 + 1)
      && forall m :: IsEdge(w, m, n) ==> m in best && !Higher(best[m], best[p])
  }

  ghost predicate Solved(w: Workflow, weight: Weights, best: map<Id, Score>, pred: map<Id, Option<Id>>) {
    && best.Keys == Ids(w) && pred.Keys == Ids(w)
    && forall n :: n in Ids(w) ==> EntryOk(w, weight, best, pred, n)
  }

  /** Everything listed before `x` is lower. */
  ghost predicate Earliest(best: map<Id, Score>, listed: seq<Id>, x: Id) {
    exists i :: 0 <= i < |listed| && listed[i] == x && forall j :: 0 <= j < i ==> IsBelow(best, listed[j], x)
  }

  ghost predicate IsBelow(best: map<Id, Score>, m: Id, x: Id) { m in best && x in best && Higher(best[x], best[m]) }

  lemma HigherThanAll(best: map<Id, Score>, listed: seq<Id>, i: nat, score: Score)
    requires i < |listed| && forall m :: m in listed ==> m in best
    requires forall k :: 0 <= k < i ==> !Higher(best[listed[k]], score)
    requires i == 0 || Higher(best[listed[i]], score)
    ensures Earliest(best, listed, listed[i])
  {
    forall j | 0 <= j < i ensures IsBelow(best, listed[j], listed[i]) { assert !Higher(best[listed[j]], score); }
  }

  /** The incoming neighbour with the highest score; the first one listed among equals. */
  method Choose(best: map<Id, Score>, sources: seq<Id>) returns (chosen: Option<Id>, score: Score)
    requires forall m :: m in sources ==> m in best
    ensures sources == [] ==> chosen == None && score == (0, 0)
    ensures sources != [] ==> chosen.Some? && chosen.value in sources && score == best[chosen.value]
    ensures forall m :: m in sources ==> !Higher(best[m], score)
    ensures chosen.Some? ==> Earliest(best, sources, chosen.value)
  {
    chosen, score := None, (0, 0);
    var i := 0;
    while i < |sources|
      invariant 0 <= i <= |sources|
      invariant i == 0 ==> chosen == None && score == (0, 0)
      invariant i > 0 ==> chosen.Some? && chosen.value in sources && score == best[chosen.value]
      invariant forall k :: 0 <= k < i ==> !Higher(best[sources[k]], score)
      invariant chosen.Some? ==> Earliest(best, sources, chosen.value)
    {
      var candidate := best[sources[i]];
      if chosen.None? || Higher(candidate, score) {
        HigherThanAll(best, sources, i, score);
        chosen, score := Some(sources[i]), candidate;
      }
      i := i + 1;
    }
  }

  ghost predicate SolvedUpTo(w: Workflow, weight: Weights, order: seq<Id>, i: nat,
                             best: map<Id, Score>, pred: map<Id, Option<Id>>)
  {
    && i <= |order|
    && (forall n :: n in best <==> n in order[..i])
    && best.Keys == pred.Keys
    && forall n :: n in best ==> EntryOk(w, weight, best, pred, n)
  }

  lemma SourcesAreBefore(w: Workflow, order: seq<Id>, i: nat, m: Id)
    requires Topological(w, order) && i < |order| && IsEdge(w, m, order[i])
    ensures m in order[..i]
  {
    assert m in order;
    var j :| 0 <= j < |order| && order[j] == m;
    assert order[..i][j] == m;
  }

  /** Entries stay right when another node's entry is written. */
  lemma EntryKept(w: Workflow, weight: Weights, best: map<Id, Score>, pred: map<Id, Option<Id>>, m: Id,
                  n: Id, score: Score, chosen: Option<Id>)
    requires m in best && m in pred && n !in best && EntryOk(w, weight, best, pred, m)
    ensures EntryOk(w, weight, best[n := score], pred[n := chosen], m)
  {
    hide IsEdge, Sat, Higher;
  }

  /** What the choice among the incoming neighbours of `n` comes to. */
  ghost predicate Chosen(w: Workflow, best: map<Id, Score>, n: Id, chosen: Option<Id>, score: Score) {
    if chosen.None? then IsRoot(w, n) && score == (0, 0)
    else IsEdge(w, chosen.value, n) && chosen.value in best && score == best[chosen.value]
         && forall m :: IsEdge(w, m, n) ==> m in best && !Higher(best[m], score)
  }

  lemma EntryMade(w: Workflow, weight: Weights, best: map<Id, Score>, pred: map<Id, Option<Id>>, n: Id,
                  chosen: Option<Id>, score: Score)
    requires n !in best && Chosen(w, best, n, chosen, score)
    ensures EntryOk(w, weight, best[n := (Sat(score.0 + weight(n)), score.1 + 1)], pred[n := chosen], n)
  {
    hide IsEdge, Sat, Higher;
  }

  lemma SolvedNext(w: Workflow, weight: Weights, order: seq<Id>, i: nat, best: map<Id, Score>,
                   pred: map<Id, Option<Id>>, chosen: Option<Id>, score: Score)
    requires NoDup(order) && i < |order| && SolvedUpTo(w, weight, order, i, best, pred)
    requires Chosen(w, best, order[i], chosen, score)
    ensures var n := order[i];
            SolvedUpTo(w, weight, order, i + 1, best[n := (Sat(score.0 + weight(n)), score.1 + 1)], pred[n := chosen])
  {
    hide EntryOk, Sat, Chosen;
    var n := order[i];
    var entry := (Sat(score.0 + weight(n)), score.1 + 1);
    assert order[..i + 1] == order[..i] + [n];
    assert n !in order[..i];
    EntryMade(w, weight, best, pred, n, chosen, score);
    forall m | m in best ensures EntryOk(w, weight, best[n := entry], pred[n := chosen], m) {
      EntryKept(w, weight, best, pred, m, n, entry, chosen);
    }
  }

  lemma SourcesSolved(w: Workflow, weight: Weights, order: seq<Id>, i: nat, best: map<Id, Score>,
                      pred: map<Id, Option<Id>>, sources: map<Id, seq<Id>>)
    requires Topological(w, order) && ListsSources(w, sources) && i < |order|
    requires SolvedUpTo(w, weight, order, i, best, pred)
    ensures order[i] in sources && forall m :: m in sources[order[i]] ==> m in best
  {
    hide EntryOk, IsEdge;
    assert order[i] in order;
    forall m | m in sources[order[i]] ensures m in best { SourcesAreBefore(w, order, i, m); }
  }

  lemma ChoiceMeans(w: Workflow, sources: map<Id, seq<Id>>, best: map<Id, Score>, n: Id, chosen: Option<Id>, score: Score)
    requires ListsSources(w, sources) && n in sources && forall m :: m in sources[n] ==> m in best
    requires sources[n] == [] ==> chosen == None && score == (0, 0)
    requires sources[n] != [] ==> chosen.Some? && chosen.value in sources[n] && score == best[chosen.value]
    requires forall m :: m in sources[n] ==> !Higher(best[m], score)
    ensures Chosen(w, best, n, chosen, score)
  {
    hide IsEdge, Higher;
    if sources[n] == [] {
      forall m ensures !IsEdge(w, m, n) { assert m !in sources[n]; }
    }
  }

  method FillTable(w: Workflow, order: seq<Id>, sources: map<Id, seq<Id>>, weight: Weights)
    returns (best: map<Id, Score>, pred: map<Id, Option<Id>>)
    requires Topological(w, order) && ListsSources(w, sources)
    ensures Solved(w, weight, best, pred)
    ensures EarliestChosen(best, pred, sources)
  {
    hide IsEdge, Sat, Higher, EntryOk, SolvedUpTo, Chosen, ListsSources, EarliestChosen;
    best, pred := map[], map[];
    var i := 0;
    SolvedStart(w, weight, order);
    NothingChosen(sources);
    while i < |order|
      invariant 0 <= i <= |order| && SolvedUpTo(w, weight, order, i, best, pred)
      invariant EarliestChosen(best, pred, sources)
    {
      var n := order[i];
      SourcesSolved(w, weight, order, i, best, pred, sources);
      var chosen, score := Choose(best, sources[n]);
      ChoiceMeans(w, sources, best, n, chosen, score);
      SolvedNext(w, weight, order, i, best, pred, chosen, score);
      EntryIsNew(w, weight, order, i, best, pred);
      EarliestKept(best, pred, sources, n, (Sat(score.0 + weight(n)), score.1 + 1), chosen);
      best, pred := best[n := (Sat(score.0 + weight(n)), score.1 + 1)], pred[n := chosen];
      i := i + 1;
    }
    SolvedEnd(w, weight, order, best, pred);
  }

  ghost predicate EarliestChosen(best: map<Id, Score>, pred: map<Id, Option<Id>>, sources: map<Id, seq<Id>>) {
    forall n :: n in pred && pred[n].Some? ==> n in sources && Earliest(best, sources[n], pred[n].value)
  }

  lemma NothingChosen(sources: map<Id, seq<Id>>)
    ensures EarliestChosen(map[], map[], sources)
  {}

  lemma EntryIsNew(w: Workflow, weight: Weights, order: seq<Id>, i: nat, best: map<Id, Score>, pred: map<Id, Option<Id>>)
    requires NoDup(order) && i < |order| && SolvedUpTo(w, weight, order, i, best, pred)
    ensures order[i] !in best
  {
    hide EntryOk;
  }

  lemma EarliestKept(best: map<Id, Score>, pred: map<Id, Option<Id>>, sources: map<Id, seq<Id>>, n: Id, score: Score,
                     chosen: Option<Id>)
    requires EarliestChosen(best, pred, sources) && n !in best && n in sources
    requires chosen.Some? ==> Earliest(best, sources[n], chosen.value)
    ensures EarliestChosen(best[n := score], pred[n := chosen], sources)
  {
    hide Earliest;
    var after := pred[n := chosen];
    forall m | m in after && after[m].Some? ensures m in sources && Earliest(best[n := score], sources[m], after[m].value) {
      StillEarliest(best, sources[m], after[m].value, n, score);
    }
  }

  lemma StillEarliest(best: map<Id, Score>, listed: seq<Id>, x: Id, n: Id, score: Score)
    requires Earliest(best, listed, x) && n !in best
    ensures Earliest(best[n := score], listed, x)
  {
    hide IsBelow, Higher;
    var i :| 0 <= i < |listed| && listed[i] == x && forall j :: 0 <= j < i ==> IsBelow(best, listed[j], x);
    forall j | 0 <= j < i ensures IsBelow(best[n := score], listed[j], x) { StillBelow(best, listed[j], x, n, score); }
  }

  lemma StillBelow(best: map<Id, Score>, m: Id, x: Id, n: Id, score: Score)
    requires IsBelow(best, m, x) && n !in best
    ensures IsBelow(best[n := score], m, x)
  {}

  lemma SolvedStart(w: Workflow, weight: Weights, order: seq<Id>)
    ensures SolvedUpTo(w, weight, order, 0, map[], map[])
  {}

  lemma SolvedEnd(w: Workflow, weight: Weights, order: seq<Id>, best: map<Id, Score>, pred: map<Id, Option<Id>>)
    requires Topological(w, order) && SolvedUpTo(w, weight, order, |order|, best, pred)
    ensures Solved(w, weight, best, pred)
  {
    hide IsEdge, EntryOk;
    assert order[..|order|] == order;
  }

  // ---- What the table means ----

  lemma Extended(w: Workflow, p: seq<Id>, n: Id)
    requires IsPath(w, p) && IsEdge(w, p[|p| - 1], n)
    ensures IsPath(w, p + [n])
  {
    hide IsEdge;
    var q := p + [n];
    forall i | 0 <= i < |q| - 1 ensures IsEdge(w, q[i], q[i + 1]) {}
  }

  lemma PathFront(w: Workflow, p: seq<Id>)
    requires IsPath(w, p) && |p| > 1
    ensures IsPath(w, p[..|p| - 1]) && IsEdge(w, p[|p| - 2], p[|p| - 1])
  {
    hide IsEdge;
    var k := |p| - 2;
    assert IsEdge(w, p[k], p[k + 1]);
  }

  lemma PathEndsInside(w: Workflow, p: seq<Id>)
    requires IsPath(w, p)
    ensures p[|p| - 1] in Ids(w)
  {
    if |p| > 1 { PathFront(w, p); }
  }

  /** No path into a node has a higher latency than its entry; none has a higher score, if no sum saturates. */
  lemma {:induction false} EntryBoundsPaths(w: Workflow, weight: Weights, best: map<Id, Score>,
                                            pred: map<Id, Option<Id>>, p: seq<Id>)
    requires Solved(w, weight, best, pred) && IsPath(w, p)
    ensures p[|p| - 1] in Ids(w)
    ensures Sat(Weight(weight, p)) <= best[p[|p| - 1]].0
    ensures Fits(w, weight) ==> !Higher((Weight(weight, p), |p|), best[p[|p| - 1]])
  {
    hide IsEdge, Fits, IsPath;
    PathEndsInside(w, p);
    NonemptyPath(w, p);
    var n := p[|p| - 1];
    assert EntryOk(w, weight, best, pred, n);
    if |p| == 1 {
      assert p[..0] == [];
      if Fits(w, weight) { FitsPath(w, weight, p); }
      if pred[n].Some? { EntryPositive(w, weight, best, pred, pred[n].value); }
    } else {
      PathFront(w, p);
      EntryBoundsPaths(w, weight, best, pred, p[..|p| - 1]);
      if Fits(w, weight) {
        EntryFits(w, weight, best, pred, n);
        FitsPath(w, weight, p);
      }
    }
  }

  lemma NonemptyPath(w: Workflow, p: seq<Id>)
    requires IsPath(w, p)
    ensures p != []
  {}

  lemma EntryPositive(w: Workflow, weight: Weights, best: map<Id, Score>, pred: map<Id, Option<Id>>, n: Id)
    requires Solved(w, weight, best, pred) && n in best
    ensures best[n].1 >= 1
  {
    hide IsEdge;
    assert EntryOk(w, weight, best, pred, n);
  }

  /** No path's latency exceeds the range of the counter. */
  ghost predicate Fits(w: Workflow, weight: Weights) {
    forall p :: IsPath(w, p) ==> Weight(weight, p) <= 18446744073709551615
  }

  lemma FitsPath(w: Workflow, weight: Weights, p: seq<Id>)
    requires Fits(w, weight) && IsPath(w, p)
    ensures Weight(weight, p) <= U64_MAX
  {}

  /** The chain of predecessors, in order. */
  ghost function Chain(w: Workflow, weight: Weights, best: map<Id, Score>, pred: map<Id, Option<Id>>, n: Id): (p: seq<Id>)
    requires Solved(w, weight, best, pred) && n in Ids(w)
    ensures p != [] && p[|p| - 1] == n
    decreases best[n].1
  {
    assert EntryOk(w, weight, best, pred, n);
    if pred[n].None? then [n] else Chain(w, weight, best, pred, pred[n].value) + [n]
  }

  /** It is a path from a root, and its score is the entry. */
  lemma {:induction false} ChainIsPath(w: Workflow, weight: Weights, best: map<Id, Score>, pred: map<Id, Option<Id>>, n: Id)
    requires Solved(w, weight, best, pred) && n in Ids(w)
    ensures var p := Chain(w, weight, best, pred, n);
            IsPath(w, p) && IsRoot(w, p[0]) && |p| == best[n].1 && best[n].0 == Sat(Weight(weight, p))
    decreases best[n].1
  {
    hide IsEdge, IsPath;
    assert EntryOk(w, weight, best, pred, n);
    var p := Chain(w, weight, best, pred, n);
    if pred[n].None? {
      Alone(w, n);
      assert p[..0] == [];
    } else {
      var m := pred[n].value;
      EdgeEnds(w, m, n);
      ChainIsPath(w, weight, best, pred, m);
      var q := Chain(w, weight, best, pred, m);
      Extended(w, q, n);
      assert p[..|p| - 1] == q;
    }
  }

  lemma EdgeEnds(w: Workflow, a: Id, b: Id)
    requires IsEdge(w, a, b)
    ensures a in Ids(w) && b in Ids(w)
  {}

  lemma Alone(w: Workflow, n: Id)
    requires n in Ids(w)
    ensures IsPath(w, [n])
  {}

  lemma EntryFits(w: Workflow, weight: Weights, best: map<Id, Score>, pred: map<Id, Option<Id>>, n: Id)
    requires Solved(w, weight, best, pred) && n in Ids(w) && Fits(w, weight)
    ensures best[n].0 == Weight(weight, Chain(w, weight, best, pred, n))
    ensures pred[n].Some? ==> best[n].0 == best[pred[n].value].0 + weight(n)
  {
    hide IsEdge, Fits, IsPath, IsRoot;
    ChainIsPath(w, weight, best, pred, n);
    FitsPath(w, weight, Chain(w, weight, best, pred, n));
    assert EntryOk(w, weight, best, pred, n);
    if pred[n].Some? {
      var m := pred[n].value;
      EdgeEnds(w, m, n);
      ChainIsPath(w, weight, best, pred, m);
      FitsPath(w, weight, Chain(w, weight, best, pred, m));
      var p := Chain(w, weight, best, pred, n);
      assert p[..|p| - 1] == Chain(w, weight, best, pred, m);
    }
  }

  /** Where an edge leaves, some entry is higher: the successor's, or the one the successor preferred. */
  lemma SuccessorIsHigher(w: Workflow, weight: Weights, best: map<Id, Score>, pred: map<Id, Option<Id>>, n: Id, m: Id)
    requires Solved(w, weight, best, pred) && IsEdge(w, n, m) && best[n].0 <= U64_MAX
    ensures exists k :: k in Ids(w) && Higher(best[k], best[n])
  {
    hide IsEdge;
    EdgeEnds(w, n, m);
    assert EntryOk(w, weight, best, pred, m);
    var p := pred[m].value;
    EdgeEnds(w, p, m);
    assert !Higher(best[n], best[p]);
    assert Higher(best[p], best[n]) || Higher(best[m], best[n]);
  }

  lemma EntryInRange(w: Workflow, weight: Weights, best: map<Id, Score>, pred: map<Id, Option<Id>>, n: Id)
    requires Solved(w, weight, best, pred) && n in Ids(w)
    ensures best[n].0 <= U64_MAX
  {
    hide IsEdge;
    assert EntryOk(w, weight, best, pred, n);
  }

  // ---- The path ----

  /** Less latency, or as much on no more nodes. */
  ghost predicate NotAbove(weight: Weights, q: seq<Id>, p: seq<Id>) {
    Weight(weight, q) < Weight(weight, p) || (Weight(weight, q) == Weight(weight, p) && |q| <= |p|)
  }

  /** Less latency, or as much on fewer nodes. */
  ghost predicate Less(weight: Weights, q: seq<Id>, p: seq<Id>) {
    Weight(weight, q) < Weight(weight, p) || (Weight(weight, q) == Weight(weight, p) && |q| < |p|)
  }

  /** A path from a root to a sink that no other path exceeds. */
  ghost predicate Critical(w: Workflow, weight: Weights, path: seq<Id>) {
    && IsPath(w, path) && IsRoot(w, path[0]) && IsSink(w, path[|path| - 1])
    && (forall q :: IsPath(w, q) ==>
          Weight(weight, q) <= Weight(weight, path) || Weight(weight, path) >= 18446744073709551615)
    && (Fits(w, weight) ==> forall q :: IsPath(w, q) ==> NotAbove(weight, q, path))
  }

  lemma HighestIsCritical(w: Workflow, weight: Weights, best: map<Id, Score>, pred: map<Id, Option<Id>>, n: Id)
    requires Solved(w, weight, best, pred) && n in Ids(w)
    requires forall m :: m in Ids(w) ==> !Higher(best[m], best[n])
    ensures Critical(w, weight, Chain(w, weight, best, pred, n))
  {
    hide IsEdge, Fits, IsPath, Solved, IsRoot;
    var path := Chain(w, weight, best, pred, n);
    ChainIsPath(w, weight, best, pred, n);
    TableKeys(w, weight, best, pred);
    EntryInRange(w, weight, best, pred, n);
    forall m ensures !IsEdge(w, n, m) {
      if IsEdge(w, n, m) { SuccessorIsHigher(w, weight, best, pred, n, m); }
    }
    forall q | IsPath(w, q)
      ensures Weight(weight, q) <= Weight(weight, path) || Weight(weight, path) >= 18446744073709551615
      ensures Fits(w, weight) ==> NotAbove(weight, q, path)
    {
      EntryBoundsPaths(w, weight, best, pred, q);
      if Fits(w, weight) { EntryFits(w, weight, best, pred, n); }
    }
  }

  lemma TableKeys(w: Workflow, weight: Weights, best: map<Id, Score>, pred: map<Id, Option<Id>>)
    requires Solved(w, weight, best, pred)
    ensures best.Keys == Ids(w) && pred.Keys == Ids(w)
  {}

  method FindEnd(order: seq<Id>, best: map<Id, Score>) returns (end: Option<Id>)
    requires forall n :: n in order ==> n in best
    ensures order == [] ==> end == None
    ensures order != [] ==> end.Some? && end.value in order && forall n :: n in order ==> !Higher(best[n], best[end.value])
    ensures end.Some? ==> Earliest(best, order, end.value)
  {
    end := None;
    var i := 0;
    while i < |order|
      invariant 0 <= i <= |order|
      invariant i == 0 ==> end == None
      invariant i > 0 ==> end.Some? && end.value in order
      invariant i > 0 ==> forall k :: 0 <= k < i ==> !Higher(best[order[k]], best[end.value])
      invariant end.Some? ==> Earliest(best, order, end.value)
    {
      if end.None? || Higher(best[order[i]], best[end.value]) {
        HigherThanAll(best, order, i, if end.None? then (0, 0) else best[end.value]);
        end := Some(order[i]);
      }
      i := i + 1;
    }
  }

  function Reversed<T>(s: seq<T>): (r: seq<T>)
    ensures |r| == |s| && forall i :: 0 <= i < |r| ==> r[i] == s[|s| - 1 - i]
  {
    seq(|s|, i requires 0 <= i < |s| => s[|s| - 1 - i])
  }

  method WalkBack(w: Workflow, weight: Weights, best: map<Id, Score>, pred: map<Id, Option<Id>>, end: Id)
    returns (path: seq<Id>)
    requires Solved(w, weight, best, pred) && end in Ids(w)
    ensures path == Chain(w, weight, best, pred, end)
  {
    hide Solved, EntryOk;
    var rev := [];
    var cursor := Some(end);
    ghost var whole := Chain(w, weight, best, pred, end);
    TableKeys(w, weight, best, pred);
    while cursor.Some?
      invariant cursor.Some? ==> cursor.value in Ids(w) && whole == Chain(w, weight, best, pred, cursor.value) + Reversed(rev)
      invariant cursor.None? ==> whole == Reversed(rev)
      decreases if cursor.Some? then best[cursor.value].1 + 1 else 0
    {
      var n := cursor.value;
      ChainUnfold(w, weight, best, pred, n);
      assert Reversed(rev + [n]) == [n] + Reversed(rev);
      rev := rev + [n];
      cursor := pred[n];
    }
    path := Reversed(rev);
  }

  lemma ChainUnfold(w: Workflow, weight: Weights, best: map<Id, Score>, pred: map<Id, Option<Id>>, n: Id)
    requires Solved(w, weight, best, pred) && n in Ids(w)
    ensures n in pred && n in best
    ensures pred[n].None? ==> Chain(w, weight, best, pred, n) == [n]
    ensures pred[n].Some? ==> pred[n].value in Ids(w) && best[pred[n].value].1 < best[n].1
                              && Chain(w, weight, best, pred, n) == Chain(w, weight, best, pred, pred[n].value) + [n]
  {
    assert EntryOk(w, weight, best, pred, n);
  }

  /** `order` is what the topological sort answered: None for a cyclic graph. */
  method LongestLatencyPath(w: Workflow, order: Option<seq<Id>>, sources: map<Id, seq<Id>>, weight: Weights)
    returns (path: seq<Id>)
    requires order.Some? ==> Topological(w, order.value) && ListsSources(w, sources)
    ensures order.None? || w.nodes == [] ==> path == []
    ensures order.Some? && w.nodes != [] ==> Critical(w, weight, path)
    ensures order.Some? && w.nodes != [] && Fits(w, weight) ==> TiesGoFirst(w, weight, order.value, sources, path)
  {
    hide IsEdge, EntryOk, Critical, Solved, TiesGoFirst, Fits, EarliestChosen, Earliest;
    if order.None? { return []; }
    var best, pred := FillTable(w, order.value, sources, weight);
    TableKeys(w, weight, best, pred);
    var end := FindEnd(order.value, best);
    if w.nodes != [] { assert w.nodes[0].id in Ids(w) && w.nodes[0].id in order.value; }
    if end.None? {
      NonemptyHasMember(order.value);
      return [];
    }
    path := WalkBack(w, weight, best, pred, end.value);
    HighestIsCritical(w, weight, best, pred, end.value);
    if Fits(w, weight) { EarliestWins(w, weight, best, pred, order.value, sources, end.value); }
  }

  // ---- Ties ----

  /** Every path to what is listed before the end of `p` is less than `p`. */
  ghost predicate BeatsEarlier(w: Workflow, weight: Weights, listed: seq<Id>, p: seq<Id>) {
    p != [] && exists i :: 0 <= i < |listed| && listed[i] == p[|p| - 1]
                           && forall j :: 0 <= j < i ==> BeatsPathsTo(w, weight, listed[j], p)
  }

  ghost predicate BeatsPathsTo(w: Workflow, weight: Weights, m: Id, p: seq<Id>) {
    forall q :: IsPath(w, q) && q[|q| - 1] == m ==> Less(weight, q, p)
  }

  /** Among equals the path ends at the node that the sort puts first, and comes from the neighbour listed first. */
  ghost predicate TiesGoFirst(w: Workflow, weight: Weights, order: seq<Id>, sources: map<Id, seq<Id>>, path: seq<Id>) {
    && BeatsEarlier(w, weight, order, path)
    && forall k: nat :: k < |path| - 1 ==> ComesByFirst(w, weight, sources, path, k)
  }

  ghost predicate ComesByFirst(w: Workflow, weight: Weights, sources: map<Id, seq<Id>>, path: seq<Id>, k: nat)
    requires k < |path| - 1
  {
    path[k + 1] in sources && BeatsEarlier(w, weight, sources[path[k + 1]], path[..k + 1])
  }

  lemma EarliestBeats(w: Workflow, weight: Weights, best: map<Id, Score>, pred: map<Id, Option<Id>>, listed: seq<Id>, n: Id)
    requires Solved(w, weight, best, pred) && n in Ids(w) && Fits(w, weight) && Earliest(best, listed, n)
    ensures BeatsEarlier(w, weight, listed, Chain(w, weight, best, pred, n))
  {
    hide IsEdge, Fits, IsPath, Solved, IsRoot;
    var p := Chain(w, weight, best, pred, n);
    ChainIsPath(w, weight, best, pred, n);
    EntryFits(w, weight, best, pred, n);
    var i :| 0 <= i < |listed| && listed[i] == n && forall j :: 0 <= j < i ==> IsBelow(best, listed[j], n);
    forall j | 0 <= j < i ensures BeatsPathsTo(w, weight, listed[j], p) {
      assert IsBelow(best, listed[j], n);
      forall q | IsPath(w, q) && q != [] && q[|q| - 1] == listed[j] ensures Less(weight, q, p) {
        EntryBoundsPaths(w, weight, best, pred, q);
      }
      forall q | IsPath(w, q) ensures q != [] { NonemptyPath(w, q); }
    }
  }

  lemma {:induction false} TiesAlong(w: Workflow, weight: Weights, best: map<Id, Score>, pred: map<Id, Option<Id>>,
                                     sources: map<Id, seq<Id>>, n: Id)
    requires Solved(w, weight, best, pred) && n in Ids(w) && Fits(w, weight) && EarliestChosen(best, pred, sources)
    ensures var path := Chain(w, weight, best, pred, n);
            forall k: nat :: k < |path| - 1 ==> ComesByFirst(w, weight, sources, path, k)
    decreases |Chain(w, weight, best, pred, n)|
  {
    hide Fits, Solved, BeatsEarlier, EntryOk, Earliest;
    ChainUnfold(w, weight, best, pred, n);
    if pred[n].Some? {
      var m := pred[n].value;
      var path, front := Chain(w, weight, best, pred, n), Chain(w, weight, best, pred, m);
      assert path == front + [n];
      TiesAlong(w, weight, best, pred, sources, m);
      EarliestBeats(w, weight, best, pred, sources[n], m);
      forall k: nat | k < |path| - 1 ensures ComesByFirst(w, weight, sources, path, k) {
        if k < |front| - 1 {
          assert ComesByFirst(w, weight, sources, front, k);
          assert path[..k + 1] == front[..k + 1] && path[k + 1] == front[k + 1];
        } else {
          assert path[..k + 1] == front;
        }
      }
    }
  }

  lemma EarliestWins(w: Workflow, weight: Weights, best: map<Id, Score>, pred: map<Id, Option<Id>>, order: seq<Id>,
                     sources: map<Id, seq<Id>>, end: Id)
    requires Solved(w, weight, best, pred) && end in Ids(w) && Fits(w, weight)
    requires EarliestChosen(best, pred, sources) && Earliest(best, order, end)
    ensures TiesGoFirst(w, weight, order, sources, Chain(w, weight, best, pred, end))
  {
    hide Fits, Solved, BeatsEarlier, Earliest, EarliestChosen;
    EarliestBeats(w, weight, best, pred, order, end);
    TiesAlong(w, weight, best, pred, sources, end);
  }

  // ---- Saturation ----

  /** What a caller sees in the answer: its latency is below the counter's maximum exactly if that of every path
      is, and then no sum has saturated and the answer is the greatest by latency and node count. */
  lemma UnsaturatedIsExact(w: Workflow, weight: Weights, path: seq<Id>)
    requires Critical(w, weight, path)
    ensures Weight(weight, path) < 18446744073709551615 <==>
            forall q :: IsPath(w, q) ==> Weight(weight, q) < 18446744073709551615
    ensures Weight(weight, path) < 18446744073709551615 ==> forall q :: IsPath(w, q) ==> NotAbove(weight, q, path)
  {
    hide IsPath, Weight, IsRoot, IsSink;
    if Weight(weight, path) < U64_MAX {
      forall q | IsPath(w, q) ensures Weight(weight, q) < U64_MAX {
        assert Weight(weight, q) <= Weight(weight, path);
      }
      assert Fits(w, weight);
    }
  }

  lemma {:induction false} TotalBoundsPaths(w: Workflow, weight: Weights, order: seq<Id>, k: nat, p: seq<Id>)
    requires Topological(w, order) && k <= |order| && IsPath(w, p) && p[|p| - 1] in order[..k]
    ensures Weight(weight, p) <= Weight(weight, order[..k])
  {
    hide IsEdge, IsPath, Topological;
    NonemptyPath(w, p);
    var n := order[k - 1];
    assert order[..k] == order[..k - 1] + [n];
    if p[|p| - 1] in order[..k - 1] {
      TotalBoundsPaths(w, weight, order, k - 1, p);
    } else if |p| > 1 {
      PathFront(w, p);
      SourcesAreBefore(w, order, k - 1, p[|p| - 2]);
      TotalBoundsPaths(w, weight, order, k - 1, p[..|p| - 1]);
    } else {
      assert p[..0] == [];
    }
  }

  /** What a caller can check beforehand: no sum saturates if all latencies together fit the counter. */
  lemma SmallTotalFits(w: Workflow, weight: Weights, order: seq<Id>)
    requires Topological(w, order) && Weight(weight, order) <= 18446744073709551615
    ensures Fits(w, weight)
  {
    hide IsEdge, IsPath, Weight;
    assert order[..|order|] == order;
    forall p | IsPath(w, p) ensures Weight(weight, p) <= U64_MAX {
      NonemptyPath(w, p);
      PathEndsInside(w, p);
      TotalBoundsPaths(w, weight, order, |order|, p);
    }
  }

  function Plain(id: Id): Node { Node(id, Transform, JObj(map[]), None, None) }

  const Saturating: Workflow :=
    Workflow(SCHEMA_VERSION, "s", "s",
             [Node("t", WebhookTrigger, JObj(map[]), None, None), Plain("a"), Plain("b"), Plain("c"), Plain("z")],
             [Connection("t", 0, "a"), Connection("t", 0, "b"),
              Connection("a", 0, "z"), Connection("b", 0, "c"), Connection("c", 0, "z")])

  const SaturatingEnds: set<(Id, Id)> := {("t", "a"), ("t", "b"), ("a", "z"), ("b", "c"), ("c", "z")}

  function SaturatingWeight(n: Id): nat {
    if n == "a" then U64_MAX else if n == "b" then U64_MAX - 1 else if n == "z" then 1 else 0
  }

  /** The condition `Fits` is needed: once a sum saturates, the table prefers `a`, whose own latency is higher,
      over `c`, and returns three nodes where four would have reached the same saturated latency. */
  lemma SaturationLosesTheCount(best: map<Id, Score>, pred: map<Id, Option<Id>>)
    requires Solved(Saturating, SaturatingWeight, best, pred)
    ensures Valid(Saturating)
    ensures "z" in best && "z" in Ids(Saturating) && forall n :: n in best ==> !Higher(best[n], best["z"])
    ensures Chain(Saturating, SaturatingWeight, best, pred, "z") == ["t", "a", "z"]
    ensures IsPath(Saturating, ["t", "b", "c", "z"])
    ensures Sat(Weight(SaturatingWeight, ["t", "b", "c", "z"])) == Sat(Weight(SaturatingWeight, ["t", "a", "z"]))
  {
    hide IsEdge, Saturating, EntryOk, Solved, Weight, Valid;
    SaturatingIsValid();
    LongerPath();
    SaturatingEntries(best, pred);
    ChainUnfold(Saturating, SaturatingWeight, best, pred, "z");
    ChainUnfold(Saturating, SaturatingWeight, best, pred, "a");
    ChainUnfold(Saturating, SaturatingWeight, best, pred, "t");
    LongerWeighsTheSame();
  }

  lemma SaturatingIsValid()
    ensures Valid(Saturating)
  {
    hide IsEdge, NodeOf, Saturating, Acyclic, Ids;
    SaturatingEdges();
    SaturatingParts();
    var w := Saturating;
    SaturatingIsAcyclic();
    forall c | c in w.connections ensures c.fromNode in Ids(w) && c.toNode in Ids(w) && c.fromPort == 0 {
      assert (c.fromNode, c.toNode) in SaturatingEnds;
    }
    forall c | c in w.connections && c.fromNode in Ids(w) ensures NodeOf(w, c.fromNode).kind.PortCount() == Some(1) {
      assert NodeOf(w, c.fromNode) in w.nodes;
    }
  }

  lemma SaturatingParts()
    ensures UniqueIds(Saturating) && OneTrigger(Saturating) && Saturating.schemaVersion == SCHEMA_VERSION
    ensures forall x :: x in Saturating.nodes ==> x.kind.WebhookTrigger? || x.kind.Transform?
    ensures forall x :: x in Saturating.nodes && x.kind.WebhookTrigger? ==> x.id == "t"
    ensures forall c :: c in Saturating.connections ==> c.fromPort == 0 && (c.fromNode, c.toNode) in SaturatingEnds
  {
    SaturatingUnique();
    hide UniqueIds;
    var w := Saturating;
    assert w.nodes[0].kind.IsTrigger() && w.nodes[0] in w.nodes;
  }

  lemma SaturatingUnique()
    ensures UniqueIds(Saturating)
  {
    var ids := ["t", "a", "b", "c", "z"];
    var codes := ['t', 'a', 'b', 'c', 'z'];
    assert forall i :: 0 <= i < 5 ==> Saturating.nodes[i].id == ids[i] && ids[i][0] == codes[i];
  }

  lemma SaturatingIsAcyclic()
    ensures Acyclic(Saturating)
  {
    hide Saturating, IsEdge;
    SaturatingEdges();
    SaturatingParts();
    var rank: map<Id, nat> := map["t" := 0, "a" := 1, "b" := 1, "c" := 2, "z" := 3];
    forall c | c in Saturating.connections && c.fromNode in rank && c.toNode in rank ensures rank[c.fromNode] < rank[c.toNode] {
      assert (c.fromNode, c.toNode) in SaturatingEnds;
    }
    assert IsRank(Saturating, rank);
  }

  lemma LongerPath()
    ensures Ids(Saturating) == {"t", "a", "b", "c", "z"} && IsPath(Saturating, ["t", "b", "c", "z"])
  {
    hide IsEdge, Saturating;
    SaturatingEdges();
  }

  lemma LongerWeighsTheSame()
    ensures Sat(Weight(SaturatingWeight, ["t", "b", "c", "z"])) == Sat(Weight(SaturatingWeight, ["t", "a", "z"]))
  {
    assert ["t", "b", "c", "z"][..3] == ["t", "b", "c"] && ["t", "b", "c"][..2] == ["t", "b"];
    assert ["t", "b"][..1] == ["t"] && ["t"][..0] == [];
    assert ["t", "a", "z"][..2] == ["t", "a"] && ["t", "a"][..1] == ["t"];
  }

  lemma SaturatingEdges()
    ensures Ids(Saturating) == {"t", "a", "b", "c", "z"}
    ensures forall m, n :: IsEdge(Saturating, m, n) <==> (m, n) in SaturatingEnds
  {
    var ns, cs := Saturating.nodes, Saturating.connections;
    FiveIds(Saturating, ns[0], ns[1], ns[2], ns[3], ns[4]);
    FiveEdges(Saturating, cs[0], cs[1], cs[2], cs[3], cs[4]);
  }

  lemma FiveIds(w: Workflow, a: Node, b: Node, c: Node, d: Node, e: Node)
    requires w.nodes == [a, b, c, d, e]
    ensures Ids(w) == {a.id, b.id, c.id, d.id, e.id}
  {
    assert w.nodes[0] == a && w.nodes[1] == b && w.nodes[2] == c && w.nodes[3] == d && w.nodes[4] == e;
  }

  lemma FiveEdges(w: Workflow, a: Connection, b: Connection, c: Connection, d: Connection, e: Connection)
    requires w.connections == [a, b, c, d, e]
    ensures Edges(w) == {(a.fromNode, a.toNode), (b.fromNode, b.toNode), (c.fromNode, c.toNode),
                         (d.fromNode, d.toNode), (e.fromNode, e.toNode)}
  {
    var cs := w.connections;
    assert cs[0] == a && cs[1] == b && cs[2] == c && cs[3] == d && cs[4] == e;
  }

  /** The entry of a node with one incoming neighbour. */
  lemma OnlySource(w: Workflow, weight: Weights, best: map<Id, Score>, pred: map<Id, Option<Id>>, p: Id, n: Id)
    requires Solved(w, weight, best, pred) && n in Ids(w) && forall m :: IsEdge(w, m, n) <==> m == p
    ensures n in best && n in pred && p in best
    ensures pred[n] == Some(p) && best[n] == (Sat(best[p].0 + weight(n)), best[p].1 + 1)
  {
    hide IsEdge, Sat;
    assert EntryOk(w, weight, best, pred, n);
    assert IsEdge(w, p, n);
  }

  lemma NoSource(w: Workflow, weight: Weights, best: map<Id, Score>, pred: map<Id, Option<Id>>, n: Id)
    requires Solved(w, weight, best, pred) && n in Ids(w) && IsRoot(w, n)
    ensures n in best && n in pred && pred[n] == None && best[n] == (Sat(weight(n)), 1)
  {
    hide IsEdge, Sat;
    assert EntryOk(w, weight, best, pred, n);
  }

  lemma SaturatingEntries(best: map<Id, Score>, pred: map<Id, Option<Id>>)
    requires Solved(Saturating, SaturatingWeight, best, pred)
    ensures best.Keys == {"t", "a", "b", "c", "z"} == pred.Keys
    ensures best["t"] == (0, 1) && best["a"] == (U64_MAX, 2) && best["b"] == (U64_MAX - 1, 2)
    ensures best["c"] == (U64_MAX - 1, 3) && best["z"] == (U64_MAX, 3)
    ensures pred["z"] == Some("a") && pred["a"] == Some("t") && pred["t"] == None
  {
    hide IsEdge, Saturating, Solved, EntryOk;
    SaturatingEdges();
    TableKeys(Saturating, SaturatingWeight, best, pred);
    NoSource(Saturating, SaturatingWeight, best, pred, "t");
    OnlySource(Saturating, SaturatingWeight, best, pred, "t", "a");
    OnlySource(Saturating, SaturatingWeight, best, pred, "t", "b");
    OnlySource(Saturating, SaturatingWeight, best, pred, "b", "c");
    BetterSource(Saturating, SaturatingWeight, best, pred, "a", "c", "z");
  }

  /** The entry of a node with two incoming neighbours, one of them higher. */
  lemma BetterSource(w: Workflow, weight: Weights, best: map<Id, Score>, pred: map<Id, Option<Id>>, p: Id, q: Id, n: Id)
    requires Solved(w, weight, best, pred) && n in Ids(w) && forall m :: IsEdge(w, m, n) <==> m == p || m == q
    requires p in best && q in best && Higher(best[p], best[q])
    ensures n in best && n in pred && pred[n] == Some(p) && best[n] == (Sat(best[p].0 + weight(n)), best[p].1 + 1)
  {
    hide IsEdge, Sat;
    assert EntryOk(w, weight, best, pred, n);
    assert IsEdge(w, p, n);
  }
}
