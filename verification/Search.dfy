/** The beam search over workflows: select by fitness, certify on the holdout. */
module BeamSearch {
  import opened Wrappers
  import opened Sorting
  import opened Strings
  import opened Workflows
  import opened Bags

  type Operator = Workflow -> seq<Workflow>

  /** What the search is given: how a workflow scores on the two plans (None when it cannot be verified), what
      the validator says, the canonical form, and the nodes the two plans observe. */
  datatype Problem = Problem(
    fitness: Workflow -> Option<real>,
    holdout: Workflow -> Option<real>,
    valid: Workflow -> bool,
    canon: Workflow -> string,
    observed: set<Id>,
    operators: seq<Operator>,
    disjoint: bool)

  datatype Config = Config(generations: nat, beamWidth: nat, maxCandidates: nat)

  datatype Scored = Scored(workflow: Workflow, score: real, nodeCount: nat, canonical: string)

  datatype Outcome = Outcome(
    initialFitness: real, initialHoldout: real, bestFitness: real, bestHoldout: real, overfitGap: real,
    best: Workflow, candidatesEvaluated: nat, generationsRun: nat)

  datatype SearchError = CorrelatedEvidence | VerifyFailed

  // ---- Ranking ----

  /** At least as good: higher score, then fewer nodes, then the smaller canonical form. */
  predicate Ranks(a: Scored, b: Scored) {
    if a.score != b.score then a.score > b.score
    else if a.nodeCount != b.nodeCount then a.nodeCount < b.nodeCount
    else StrLe(a.canonical, b.canonical)
  }

  /** Strictly better in the same order. */
  predicate Better(a: Scored, b: Scored) {
    if a.score != b.score then a.score > b.score
    else if a.nodeCount != b.nodeCount then a.nodeCount < b.nodeCount
    else StrLe(a.canonical, b.canonical) && a.canonical != b.canonical
  }

  lemma RanksIsTotal()
    ensures TotalPreorder(Ranks)
    ensures forall a, b :: Better(a, b) <==> !Ranks(b, a)
  {
    hide StrLe;
    StrLeIsTotalOrder();
    forall a, b ensures Ranks(a, b) || Ranks(b, a) {}
    forall a, b, c | Ranks(a, b) && Ranks(b, c) ensures Ranks(a, c) {}
  }

  predicate ByCanon(canon: Workflow -> string, a: Workflow, b: Workflow) { StrLe(canon(a), canon(b)) }

  function CanonOrder(canon: Workflow -> string): (Workflow, Workflow) -> bool {
    (a: Workflow, b: Workflow) => ByCanon(canon, a, b)
  }

  // ---- Candidates ----

  /** The validator accepts it and both observed nodes are still there. */
  predicate Admissible(p: Problem, w: Workflow) {
    p.valid(w) && p.observed <= Ids(w)
  }

  function Applying(w: Workflow): Operator -> seq<Workflow> { (op: Operator) => op(w) }

  function Children(operators: seq<Operator>): Workflow -> seq<Workflow> {
    (w: Workflow) => FlatMap(Applying(w), operators)
  }

  function Canons(p: Problem, ws: seq<Workflow>): set<string> { set w | w in ws :: p.canon(w) }

  predicate Wanted(p: Problem, seen: set<string>, raw: seq<Workflow>, w: Workflow) {
    Admissible(p, w) && p.canon(w) !in seen && p.canon(w) !in Canons(p, raw)
  }

  function Offer(p: Problem, seen: set<string>, raw: seq<Workflow>, offered: seq<Workflow>): seq<Workflow> {
    if offered == [] then raw
    else
      var k := |offered| - 1;
      var before := Offer(p, seen, raw, offered[..k]);
      if Wanted(p, seen, before, offered[k]) then before + [offered[k]] else before
  }

  function Generated(p: Problem, seen: set<string>, beam: seq<Workflow>): seq<Workflow> {
    Offer(p, seen, [], FlatMap(Children(p.operators), beam))
  }

  lemma {:induction false} OfferConcat(p: Problem, seen: set<string>, raw: seq<Workflow>, a: seq<Workflow>, b: seq<Workflow>)
    ensures Offer(p, seen, raw, a + b) == Offer(p, seen, Offer(p, seen, raw, a), b)
  {
    hide Wanted;
    if b == [] {
      assert a + b == a;
    } else {
      OfferConcat(p, seen, raw, a, b[..|b| - 1]);
      assert (a + b)[..|a + b| - 1] == a + b[..|b| - 1];
    }
  }

  /** Candidates are new, admissible, and no two of them look the same; and none is passed over. */
  lemma {:induction false} OfferMeans(p: Problem, seen: set<string>, offered: seq<Workflow>)
    ensures var raw := Offer(p, seen, [], offered);
            && (forall w :: w in raw ==> w in offered && Admissible(p, w) && p.canon(w) !in seen)
            && (forall i, j :: 0 <= i < j < |raw| ==> p.canon(raw[i]) != p.canon(raw[j]))
            && (forall w :: w in offered && Admissible(p, w) && p.canon(w) !in seen ==> p.canon(w) in Canons(p, raw))
  {
    hide Admissible;
    if offered != [] {
      var k := |offered| - 1;
      OfferMeans(p, seen, offered[..k]);
      var before := Offer(p, seen, [], offered[..k]);
      assert offered == offered[..k] + [offered[k]];
      forall i | 0 <= i < |before| ensures p.canon(before[i]) in Canons(p, before) {}
      CanonsGrow(p, before, offered[k]);
    }
  }

  lemma CanonsGrow(p: Problem, raw: seq<Workflow>, w: Workflow)
    ensures Canons(p, raw + [w]) == Canons(p, raw) + {p.canon(w)}
  {
    assert forall x :: x in raw + [w] <==> x in raw || x == w;
  }

  method OfferEach(p: Problem, seen: set<string>, raw: seq<Workflow>, rawSeen: set<string>, offered: seq<Workflow>)
    returns (raw': seq<Workflow>, rawSeen': set<string>)
    requires rawSeen == Canons(p, raw)
    ensures raw' == Offer(p, seen, raw, offered) && rawSeen' == Canons(p, raw')
  {
    raw', rawSeen' := raw, rawSeen;
    var i := 0;
    while i < |offered|
      invariant 0 <= i <= |offered|
      invariant raw' == Offer(p, seen, raw, offered[..i]) && rawSeen' == Canons(p, raw')
    {
      assert offered[..i + 1][..i] == offered[..i];
      var c := offered[i];
      if p.valid(c) && p.observed <= Ids(c) {
        var canon := p.canon(c);
        if canon !in seen && canon !in rawSeen' {
          CanonsGrow(p, raw', c);
          raw', rawSeen' := raw' + [c], rawSeen' + {canon};
        }
      }
      i := i + 1;
    }
    assert offered[..i] == offered;
  }

  /** All operators on one parent. */
  method OfferChildren(p: Problem, seen: set<string>, raw: seq<Workflow>, rawSeen: set<string>, parent: Workflow)
    returns (raw': seq<Workflow>, rawSeen': set<string>)
    requires rawSeen == Canons(p, raw)
    ensures raw' == Offer(p, seen, raw, Children(p.operators)(parent)) && rawSeen' == Canons(p, raw')
  {
    hide Offer, Canons;
    raw', rawSeen' := raw, rawSeen;
    OfferNothing(p, seen, raw, parent);
    var j := 0;
    assert p.operators[..0] == [];
    while j < |p.operators|
      invariant 0 <= j <= |p.operators| && rawSeen' == Canons(p, raw')
      invariant raw' == Offer(p, seen, raw, FlatMap(Applying(parent), p.operators[..j]))
    {
      var offered := p.operators[j](parent);
      assert p.operators[..j + 1][..j] == p.operators[..j];
      OfferConcat(p, seen, raw, FlatMap(Applying(parent), p.operators[..j]), offered);
      raw', rawSeen' := OfferEach(p, seen, raw', rawSeen', offered);
      j := j + 1;
    }
    assert p.operators[..j] == p.operators;
  }

  lemma OfferNothing(p: Problem, seen: set<string>, raw: seq<Workflow>, parent: Workflow)
    ensures Offer(p, seen, raw, FlatMap(Applying(parent), [])) == raw
  {}

  method Generate(p: Problem, seen: set<string>, beam: seq<Workflow>) returns (raw: seq<Workflow>)
    ensures raw == Generated(p, seen, beam)
  {
    hide Offer, Canons;
    var rawSeen: set<string> := {};
    raw := [];
    NoCanons(p, seen);
    var i := 0;
    assert beam[..0] == [];
    while i < |beam|
      invariant 0 <= i <= |beam| && rawSeen == Canons(p, raw)
      invariant raw == Offer(p, seen, [], FlatMap(Children(p.operators), beam[..i]))
    {
      assert beam[..i + 1][..i] == beam[..i];
      OfferConcat(p, seen, [], FlatMap(Children(p.operators), beam[..i]), Children(p.operators)(beam[i]));
      raw, rawSeen := OfferChildren(p, seen, raw, rawSeen, beam[i]);
      i := i + 1;
    }
    assert beam[..i] == beam;
  }

  lemma NoCanons(p: Problem, seen: set<string>)
    ensures Canons(p, []) == {} && Offer(p, seen, [], []) == [] && FlatMap(Children(p.operators), []) == []
  {}

  // ---- Everything scored so far ----

  predicate IsEntry(p: Problem, s: Scored) {
    p.fitness(s.workflow) == Some(s.score) && s.nodeCount == |s.workflow.nodes| && s.canonical == p.canon(s.workflow)
  }

  ghost predicate IsChild(p: Problem, parent: Workflow, w: Workflow) {
    w in Children(p.operators)(parent)
  }

  /** `log` holds every workflow scored: the seed, then admissible descendants, no two with the same form. */
  ghost predicate History(p: Problem, seed: Workflow, log: seq<Scored>, seen: set<string>) {
    && log != [] && log[0].workflow == seed
    && (forall s :: s in log ==> IsEntry(p, s))
    && (forall i, j :: 0 <= i < j < |log| ==> log[i].canonical != log[j].canonical)
    && (forall c :: c in seen <==> exists s :: s in log && s.canonical == c)
    && (forall i :: 0 < i < |log| ==> Admissible(p, log[i].workflow))
    && (forall i :: 0 < i < |log| ==> exists j :: 0 <= j < i && IsChild(p, log[j].workflow, log[i].workflow))
  }

  ghost predicate IsBest(log: seq<Scored>, best: Scored) {
    best in log && forall s :: s in log ==> Ranks(best, s)
  }

  lemma {:induction false} DistinctCount(log: seq<Scored>, seen: set<string>)
    requires forall i, j :: 0 <= i < j < |log| ==> log[i].canonical != log[j].canonical
    requires forall c :: c in seen <==> exists s :: s in log && s.canonical == c
    ensures |seen| == |log|
  {
    if log == [] {
      assert forall c :: c !in seen;
    } else {
      var k := |log| - 1;
      var front, last := log[..k], log[k].canonical;
      assert log == front + [log[k]];
      assert log[k] in log;
      forall c ensures c in seen - {last} <==> exists s :: s in front && s.canonical == c {
        if s :| s in front && s.canonical == c { assert s in log; }
      }
      DistinctCount(front, seen - {last});
    }
  }

  lemma HistoryGrows(p: Problem, seed: Workflow, log: seq<Scored>, seen: set<string>, s: Scored)
    requires History(p, seed, log, seen) && IsEntry(p, s) && s.canonical !in seen && Admissible(p, s.workflow)
    requires exists j :: 0 <= j < |log| && IsChild(p, log[j].workflow, s.workflow)
    ensures History(p, seed, log + [s], seen + {s.canonical})
  {
    hide IsEntry, IsChild, Admissible;
    var grown := log + [s];
    forall i | 0 <= i < |log| ensures log[i].canonical != s.canonical { assert log[i] in log; }
    forall c ensures c in seen + {s.canonical} <==> exists x :: x in grown && x.canonical == c {
      if c == s.canonical { assert s in grown; }
      if x :| x in log && x.canonical == c { assert x in grown; }
    }
    forall i | 0 < i < |grown|
      ensures Admissible(p, grown[i].workflow)
      ensures exists j :: 0 <= j < i && IsChild(p, grown[j].workflow, grown[i].workflow)
    {
      if i < |log| {
        var j :| 0 <= j < i && IsChild(p, log[j].workflow, log[i].workflow);
        assert IsChild(p, grown[j].workflow, grown[i].workflow);
      } else {
        var j :| 0 <= j < |log| && IsChild(p, log[j].workflow, s.workflow);
        assert IsChild(p, grown[j].workflow, grown[i].workflow);
      }
    }
  }

  lemma HistoryStarts(p: Problem, seed: Workflow, s: Scored)
    requires IsEntry(p, s) && s.workflow == seed
    ensures History(p, seed, [s], {s.canonical}) && IsBest([s], s)
  {
    hide IsEntry;
    StrLeTotal(s.canonical, s.canonical);
    assert s in [s];
  }

  /** How a workflow is entered once it is scored; the score means something if it can be verified. */
  function EntryOf(p: Problem, w: Workflow): Scored {
    Scored(w, if p.fitness(w).Some? then p.fitness(w).value else 0.0, |w.nodes|, p.canon(w))
  }

  function Entries(p: Problem, ws: seq<Workflow>): (r: seq<Scored>)
    ensures |r| == |ws| && forall i :: 0 <= i < |r| ==> r[i] == EntryOf(p, ws[i])
  {
    seq(|ws|, i requires 0 <= i < |ws| => EntryOf(p, ws[i]))
  }

  ghost predicate AllVerify(p: Problem, ws: seq<Workflow>) {
    forall w :: w in ws ==> p.fitness(w).Some?
  }

  method Score(p: Problem, w: Workflow) returns (r: Option<Scored>)
    ensures r == if p.fitness(w).Some? then Some(EntryOf(p, w)) else None
  {
    var report := p.fitness(w);
    if report.None? { return None; }
    r := Some(Scored(w, report.value, |w.nodes|, p.canon(w)));
  }

  /** The candidates of a generation come from the workflows scored before, and none was seen. */
  ghost predicate Batch(p: Problem, log: seq<Scored>, seen: set<string>, raw: seq<Workflow>) {
    && (forall w :: w in raw ==> Admissible(p, w) && p.canon(w) !in seen)
    && (forall i, j :: 0 <= i < j < |raw| ==> p.canon(raw[i]) != p.canon(raw[j]))
    && (forall w :: w in raw ==> exists j :: 0 <= j < |log| && IsChild(p, log[j].workflow, w))
  }

  lemma BatchTail(p: Problem, log: seq<Scored>, seen: set<string>, raw: seq<Workflow>, s: Scored)
    requires raw != [] && Batch(p, log, seen, raw) && IsEntry(p, s) && s.workflow == raw[0]
    ensures s.canonical !in seen && Admissible(p, s.workflow)
    ensures exists j :: 0 <= j < |log| && IsChild(p, log[j].workflow, s.workflow)
    ensures Batch(p, log + [s], seen + {s.canonical}, raw[1..])
  {
    hide Admissible, IsChild;
    assert raw[0] in raw;
    forall w | w in raw[1..] ensures w in raw && p.canon(w) != s.canonical {
      var k :| 0 <= k < |raw[1..]| && raw[1..][k] == w;
      assert p.canon(raw[0]) != p.canon(raw[k + 1]);
    }
    forall w | w in raw[1..] ensures exists j :: 0 <= j < |log + [s]| && IsChild(p, (log + [s])[j].workflow, w) {
      var j :| 0 <= j < |log| && IsChild(p, log[j].workflow, w);
      assert IsChild(p, (log + [s])[j].workflow, w);
    }
  }

  /** Scoring a batch extends the history by exactly its entries. */
  lemma {:induction false} HistoryOfBatch(p: Problem, seed: Workflow, log: seq<Scored>, seen: set<string>, raw: seq<Workflow>)
    requires History(p, seed, log, seen) && Batch(p, log, seen, raw) && AllVerify(p, raw)
    ensures History(p, seed, log + Entries(p, raw), seen + Canons(p, raw))
    decreases |raw|
  {
    hide History, Batch, IsEntry, Admissible, IsChild;
    if raw == [] {
      assert log + Entries(p, raw) == log && seen + Canons(p, raw) == seen;
    } else {
      var s := EntryOf(p, raw[0]);
      EntryIsEntry(p, raw[0]);
      BatchTail(p, log, seen, raw, s);
      HistoryGrows(p, seed, log, seen, s);
      HistoryOfBatch(p, seed, log + [s], seen + {s.canonical}, raw[1..]);
      assert log + Entries(p, raw) == log + [s] + Entries(p, raw[1..]);
      CanonsGrowFront(p, raw);
      assert seen + Canons(p, raw) == seen + {s.canonical} + Canons(p, raw[1..]);
    }
  }

  lemma EntryIsEntry(p: Problem, w: Workflow)
    requires p.fitness(w).Some?
    ensures IsEntry(p, EntryOf(p, w))
  {}

  lemma CanonsGrowFront(p: Problem, raw: seq<Workflow>)
    requires raw != []
    ensures Canons(p, raw) == {p.canon(raw[0])} + Canons(p, raw[1..])
  {
    assert raw == [raw[0]] + raw[1..];
    assert forall x :: x in raw <==> x == raw[0] || x in raw[1..];
  }

  lemma NothingScored(p: Problem)
    ensures Canons(p, []) == {} && Entries(p, []) == []
  {}

  lemma EntriesLast(p: Problem, ws: seq<Workflow>, w: Workflow)
    ensures Entries(p, ws + [w]) == Entries(p, ws) + [EntryOf(p, w)]
  {}

  /** Scores one generation; stops at the first candidate that cannot be verified. */
  method ScoreAll(p: Problem, raw: seq<Workflow>, seen: set<string>, count: nat)
    returns (scored: Option<seq<Scored>>, seen': set<string>, count': nat)
    ensures scored.Some? <==> AllVerify(p, raw)
    ensures scored.Some? ==>
      scored.value == Entries(p, raw) && seen' == seen + Canons(p, raw) && count' == count + |raw|
  {
    hide Canons, Entries;
    var out: seq<Scored> := [];
    seen', count' := seen, count;
    NothingScored(p);
    var i := 0;
    while i < |raw|
      invariant 0 <= i <= |raw| && AllVerify(p, raw[..i])
      invariant out == Entries(p, raw[..i]) && seen' == seen + Canons(p, raw[..i]) && count' == count + i
    {
      var s := Score(p, raw[i]);
      if s.None? {
        assert raw[i] in raw;
        return None, seen', count';
      }
      assert raw[..i + 1] == raw[..i] + [raw[i]];
      CanonsGrow(p, raw[..i], raw[i]);
      EntriesLast(p, raw[..i], raw[i]);
      seen', count', out := seen' + {s.value.canonical}, count' + 1, out + [s.value];
      i := i + 1;
    }
    assert raw[..i] == raw;
    scored := Some(out);
  }

  // ---- One generation ----

  lemma GeneratedIsBatch(p: Problem, log: seq<Scored>, seen: set<string>, beam: seq<Workflow>, raw: seq<Workflow>)
    requires raw == Generated(p, seen, beam)
    requires forall w :: w in beam ==> exists s :: s in log && s.workflow == w
    ensures Batch(p, log, seen, raw)
  {
    hide Admissible, Offer, Children;
    var offered := FlatMap(Children(p.operators), beam);
    OfferMeans(p, seen, offered);
    forall w | w in raw ensures exists j :: 0 <= j < |log| && IsChild(p, log[j].workflow, w) {
      FlatMapMember(Children(p.operators), beam, w);
      var parent :| parent in beam && w in Children(p.operators)(parent);
      var s :| s in log && s.workflow == parent;
      var j :| 0 <= j < |log| && log[j] == s;
      assert IsChild(p, log[j].workflow, w);
    }
  }

  /** Putting a batch in order and cutting it off leaves a batch. */
  lemma SortedBatch(p: Problem, log: seq<Scored>, seen: set<string>, raw: seq<Workflow>, k: nat)
    requires Batch(p, log, seen, raw) && k <= |raw|
    ensures |Sort(raw, CanonOrder(p.canon))| == |raw|
    ensures Batch(p, log, seen, Sort(raw, CanonOrder(p.canon))[..k])
  {
    hide Sort, Admissible, IsChild, CanonOrder;
    var sorted := Sort(raw, CanonOrder(p.canon));
    SameMultisetSameElements(sorted, raw);
    DistinctAfterSort(p, raw, sorted);
    forall w | w in sorted[..k] ensures w in raw { assert w in sorted; }
  }

  lemma DistinctAfterSort(p: Problem, raw: seq<Workflow>, sorted: seq<Workflow>)
    requires multiset(sorted) == multiset(raw)
    requires forall i, j :: 0 <= i < j < |raw| ==> p.canon(raw[i]) != p.canon(raw[j])
    ensures forall i, j :: 0 <= i < j < |sorted| ==> p.canon(sorted[i]) != p.canon(sorted[j])
  {
    SameMultisetSameElements(sorted, raw);
    NoDupIsMultiplicity(raw);
    NoDupIsMultiplicity(sorted);
    forall i, j | 0 <= i < j < |sorted| ensures p.canon(sorted[i]) != p.canon(sorted[j]) {
      assert sorted[i] in raw && sorted[j] in raw;
      var a :| 0 <= a < |raw| && raw[a] == sorted[i];
      var b :| 0 <= b < |raw| && raw[b] == sorted[j];
      assert sorted[i] != sorted[j];
    }
  }

  /** The new best is the better of the old best and the first of the ranking. */
  lemma BestGrows(log: seq<Scored>, best: Scored, scored: seq<Scored>)
    requires IsBest(log, best) && scored != []
    ensures Sort(scored, Ranks) != []
    ensures IsBest(log + scored, if Better(Sort(scored, Ranks)[0], best) then Sort(scored, Ranks)[0] else best)
  {
    hide Sort, Ranks, Better;
    var ranked := Sort(scored, Ranks);
    RanksIsTotal();
    SortSorted(scored, Ranks);
    SameMultisetSameElements(ranked, scored);
    var top := ranked[0];
    assert top in scored;
    forall s | s in scored ensures Ranks(top, s) {
      var k :| 0 <= k < |ranked| && ranked[k] == s;
      assert Ranks(s, s);
    }
  }

  lemma BeamComesFromLog(log: seq<Scored>, scored: seq<Scored>, width: nat)
    ensures forall w :: w in Survivors(Sort(scored, Ranks), width) ==> exists s :: s in log + scored && s.workflow == w
  {
    hide Sort;
    var ranked := Sort(scored, Ranks);
    SameMultisetSameElements(ranked, scored);
    var beam := Survivors(ranked, width);
    forall w | w in beam ensures exists s :: s in log + scored && s.workflow == w {
      var k :| 0 <= k < |beam| && ranked[k].workflow == w;
      assert ranked[k] in ranked;
    }
  }

  /** The workflows of the first `width` of the ranking. */
  function Survivors(ranked: seq<Scored>, width: nat): (r: seq<Workflow>)
    ensures |r| == if width < |ranked| then width else |ranked|
    ensures forall i :: 0 <= i < |r| ==> r[i] == ranked[i].workflow
  {
    seq(if width < |ranked| then width else |ranked|, i requires 0 <= i < |ranked| => ranked[i].workflow)
  }

  // ---- The search, generation by generation ----

  /** Where the search stands: everything scored, in order; the forms seen; the best entry; the beam. */
  datatype Progress = Progress(log: seq<Scored>, seen: set<string>, best: Scored, beam: seq<Workflow>)

  function Kept(c: Config, n: nat): nat {
    if c.maxCandidates > 0 && c.maxCandidates < n then c.maxCandidates else n
  }

  function Width(c: Config): nat { if c.beamWidth > 1 then c.beamWidth else 1 }

  /** What the next generation scores: the new candidates in canonical order, up to the cap. */
  function NextBatch(p: Problem, c: Config, s: Progress): seq<Workflow> {
    var sorted := Sort(Generated(p, s.seen, s.beam), CanonOrder(p.canon));
    sorted[..Kept(c, |sorted|)]
  }

  function Next(p: Problem, c: Config, s: Progress): Progress {
    var batch := NextBatch(p, c, s);
    var ranked := Sort(Entries(p, batch), Ranks);
    if batch == [] then s
    else
      SameMultisetSameElements(ranked, Entries(p, batch));
      Progress(s.log + Entries(p, batch), s.seen + Canons(p, batch),
               if Better(ranked[0], s.best) then ranked[0] else s.best, Survivors(ranked, Width(c)))
  }

  ghost function After(p: Problem, c: Config, seed: Workflow, k: nat): Progress {
    if k == 0 then var s := EntryOf(p, seed); Progress([s], {s.canonical}, s, [seed])
    else Next(p, c, After(p, c, seed, k - 1))
  }

  /** The search does not go on after `k` generations: they are used up, the last one found nothing new, or the
      best score is perfect. */
  ghost predicate Stops(p: Problem, c: Config, seed: Workflow, k: nat) {
    || k == c.generations
    || (k > 0 && (NextBatch(p, c, After(p, c, seed, k - 1)) == [] || After(p, c, seed, k).best.score >= 1.0))
  }

  /** The search gets as far as `k` generations: none before is its last, and all they score can be verified. */
  ghost predicate GetsTo(p: Problem, c: Config, seed: Workflow, k: nat) {
    forall j :: 0 <= j < k ==> !Stops(p, c, seed, j) && AllVerify(p, NextBatch(p, c, After(p, c, seed, j)))
  }

  /** Every search ends in one way only. */
  lemma EndIsUnique(p: Problem, c: Config, seed: Workflow, j: nat, k: nat)
    requires GetsTo(p, c, seed, j) && GetsTo(p, c, seed, k)
    requires Stops(p, c, seed, j) || !AllVerify(p, NextBatch(p, c, After(p, c, seed, j)))
    requires Stops(p, c, seed, k) || !AllVerify(p, NextBatch(p, c, After(p, c, seed, k)))
    ensures j == k <= c.generations
  {
    hide Stops, NextBatch, After;
    LastStops(p, c, seed);
  }

  lemma LastStops(p: Problem, c: Config, seed: Workflow)
    ensures Stops(p, c, seed, c.generations)
  {}

  // ---- What is true of every generation ----

  lemma BatchNow(p: Problem, c: Config, s: Progress)
    requires forall w :: w in s.beam ==> exists e :: e in s.log && e.workflow == w
    ensures Batch(p, s.log, s.seen, NextBatch(p, c, s))
  {
    hide Generated, Batch, Sort, CanonOrder;
    var raw := Generated(p, s.seen, s.beam);
    GeneratedIsBatch(p, s.log, s.seen, s.beam, raw);
    SortedBatch(p, s.log, s.seen, raw, Kept(c, |raw|));
  }

  /** Everything scored so far is a history and the best of it is kept; the beam comes from it. */
  ghost predicate Sound(p: Problem, c: Config, seed: Workflow, s: Progress, k: nat) {
    && History(p, seed, s.log, s.seen) && IsBest(s.log, s.best)
    && (forall w :: w in s.beam ==> exists e :: e in s.log && e.workflow == w)
    && (c.maxCandidates > 0 ==> |s.log| <= 1 + k * c.maxCandidates)
  }

  lemma SoundNext(p: Problem, c: Config, seed: Workflow, s: Progress, k: nat)
    requires Sound(p, c, seed, s, k) && AllVerify(p, NextBatch(p, c, s))
    ensures Sound(p, c, seed, Next(p, c, s), k + 1)
  {
    hide History, IsBest, Batch, Sort, Ranks, Better, NextBatch;
    var batch := NextBatch(p, c, s);
    CapHolds(p, c, s, k);
    if batch != [] {
      var scored := Entries(p, batch);
      BatchNow(p, c, s);
      HistoryOfBatch(p, seed, s.log, s.seen, batch);
      BestGrows(s.log, s.best, scored);
      BeamComesFromLog(s.log, scored, Width(c));
    }
  }

  lemma CapHolds(p: Problem, c: Config, s: Progress, k: nat)
    requires c.maxCandidates > 0 ==> |s.log| <= 1 + k * c.maxCandidates
    ensures c.maxCandidates > 0 ==> |Next(p, c, s).log| <= 1 + (k + 1) * c.maxCandidates
  {
    hide Sort, Generated, CanonOrder;
    assert (k + 1) * c.maxCandidates == k * c.maxCandidates + c.maxCandidates;
  }

  lemma {:induction false} AfterIsSound(p: Problem, c: Config, seed: Workflow, k: nat)
    requires p.fitness(seed).Some? && GetsTo(p, c, seed, k)
    ensures Sound(p, c, seed, After(p, c, seed, k), k)
  {
    hide History, IsBest, NextBatch, Next, Stops, IsEntry;
    if k == 0 {
      EntryIsEntry(p, seed);
      HistoryStarts(p, seed, EntryOf(p, seed));
      var s := After(p, c, seed, 0);
      assert s.log[0] in s.log;
    } else {
      AfterIsSound(p, c, seed, k - 1);
      SoundNext(p, c, seed, After(p, c, seed, k - 1), k - 1);
    }
  }

  /** Which candidates the cap lets through: no form it drops comes before one it keeps. Without a cap it drops
      none, and every admissible child of the beam has been seen one generation later. */
  lemma BatchIsFirst(p: Problem, c: Config, s: Progress)
    ensures var raw, batch := Generated(p, s.seen, s.beam), NextBatch(p, c, s);
            && |batch| == (if c.maxCandidates == 0 || |raw| <= c.maxCandidates then |raw| else c.maxCandidates)
            && (batch == [] <==> raw == [])
            && (forall w :: w in batch ==> w in raw)
            && (forall w, x :: w in batch && x in raw && x !in batch ==> StrLe(p.canon(w), p.canon(x)))
    ensures c.maxCandidates == 0 ==>
      forall w, x :: w in s.beam && IsChild(p, w, x) && Admissible(p, x) ==> p.canon(x) in s.seen + Canons(p, NextBatch(p, c, s))
  {
    hide Generated, Sort, StrLe, Admissible, Children;
    var raw := Generated(p, s.seen, s.beam);
    var order := CanonOrder(p.canon);
    var sorted := Sort(raw, order);
    SameMultisetSameElements(sorted, raw);
    CanonOrderIsTotal(p.canon);
    SortSorted(raw, order);
    var batch := NextBatch(p, c, s);
    forall w, x | w in batch && x in raw && x !in batch ensures StrLe(p.canon(w), p.canon(x)) {
      var i :| 0 <= i < |batch| && batch[i] == w;
      var j :| 0 <= j < |sorted| && sorted[j] == x;
      assert forall m :: 0 <= m < |batch| ==> batch[m] == sorted[m] && batch[m] in batch;
      assert order(sorted[i], sorted[j]);
    }
    if c.maxCandidates == 0 {
      assert batch == sorted;
      forall w, x | w in s.beam && IsChild(p, w, x) && Admissible(p, x) ensures p.canon(x) in s.seen + Canons(p, batch) {
        ChildIsOffered(p, s.seen, s.beam, w, x);
      }
    }
  }

  lemma CanonOrderIsTotal(canon: Workflow -> string)
    ensures TotalPreorder(CanonOrder(canon))
  {
    hide StrLe;
    StrLeIsTotalOrder();
  }

  lemma ChildIsOffered(p: Problem, seen: set<string>, beam: seq<Workflow>, w: Workflow, x: Workflow)
    requires w in beam && IsChild(p, w, x) && Admissible(p, x)
    ensures p.canon(x) in seen || exists y :: y in Generated(p, seen, beam) && p.canon(y) == p.canon(x)
  {
    hide Offer, Admissible, Children;
    FlatMapMember(Children(p.operators), beam, x);
    OfferMeans(p, seen, FlatMap(Children(p.operators), beam));
  }

  /** The next beam is the best of what was just scored: whatever it leaves out ranks behind all it keeps. */
  lemma BeamIsBest(p: Problem, c: Config, s: Progress, kept: Workflow, other: Workflow)
    requires NextBatch(p, c, s) != [] && kept in Next(p, c, s).beam
    requires other in NextBatch(p, c, s) && other !in Next(p, c, s).beam
    ensures |Next(p, c, s).beam| == if c.beamWidth >= 1 then c.beamWidth else 1
    ensures kept in NextBatch(p, c, s) && Ranks(EntryOf(p, kept), EntryOf(p, other))
    ensures var a, b := EntryOf(p, kept), EntryOf(p, other);
            if a.score != b.score then a.score > b.score
            else if |kept.nodes| != |other.nodes| then |kept.nodes| < |other.nodes|
            else StrLe(p.canon(kept), p.canon(other))
  {
    hide Sort, Ranks, NextBatch, Better;
    var batch := NextBatch(p, c, s);
    var scored := Entries(p, batch);
    var ranked := Sort(scored, Ranks);
    RanksIsTotal();
    SortSorted(scored, Ranks);
    SameMultisetSameElements(ranked, scored);
    var beam := Next(p, c, s).beam;
    assert ranked != [] && beam == Survivors(ranked, Width(c));
    var i :| 0 <= i < |beam| && beam[i] == kept;
    EntryOfMember(p, batch, ranked[i]);
    var m :| 0 <= m < |batch| && batch[m] == other;
    assert scored[m] == EntryOf(p, other) && scored[m] in ranked;
    var j :| 0 <= j < |ranked| && ranked[j] == scored[m];
    assert forall m :: 0 <= m < |beam| ==> beam[m] == ranked[m].workflow && beam[m] in beam;
    RanksMeans(EntryOf(p, kept), EntryOf(p, other));
  }

  /** Higher score first, then fewer nodes, then the form that comes first. */
  lemma RanksMeans(a: Scored, b: Scored)
    ensures Ranks(a, b) <==>
      || a.score > b.score
      || (a.score == b.score && a.nodeCount < b.nodeCount)
      || (a.score == b.score && a.nodeCount == b.nodeCount && StrLe(a.canonical, b.canonical))
  {
    hide StrLe;
  }

  lemma EntryOfMember(p: Problem, batch: seq<Workflow>, e: Scored)
    requires e in Entries(p, batch)
    ensures e.workflow in batch && e == EntryOf(p, e.workflow)
  {}

  // ---- Running it ----

  /** One round of the loop. It goes on unless the batch is empty. */
  method Generation(p: Problem, c: Config, ghost s: Progress, seen: set<string>, best: Scored, beam: seq<Workflow>, count: nat)
    returns (r: Result<bool, SearchError>, seen': set<string>, best': Scored, beam': seq<Workflow>, count': nat)
    requires seen == s.seen && best == s.best && beam == s.beam && count == |s.log|
    ensures r.Err? <==> !AllVerify(p, NextBatch(p, c, s))
    ensures r.Err? ==> r.error == VerifyFailed
    ensures r.Ok? ==> (r.value <==> NextBatch(p, c, s) != [])
    ensures r.Ok? ==> var t := Next(p, c, s);
                      seen' == t.seen && best' == t.best && beam' == t.beam && count' == |t.log|
  {
    hide Generated, Sort, Ranks, Better, CanonOrder;
    seen', best', beam', count' := seen, best, beam, count;
    var raw := Generate(p, seen, beam);
    var sorted := Sort(raw, CanonOrder(p.canon));
    var keep := if c.maxCandidates > 0 && c.maxCandidates < |sorted| then c.maxCandidates else |sorted|;
    var batch := sorted[..keep];
    assert batch == NextBatch(p, c, s);
    if batch == [] {
      return Ok(false), seen', best', beam', count';
    }
    var scored;
    scored, seen', count' := ScoreAll(p, batch, seen, count);
    if scored.None? {
      return Err(VerifyFailed), seen', best', beam', count';
    }
    var ranked := Sort(scored.value, Ranks);
    SameMultisetSameElements(ranked, scored.value);
    if Better(ranked[0], best) { best' := ranked[0]; }
    beam' := Survivors(ranked, Width(c));
    r := Ok(true);
  }

  /** What an outcome says: the search got to its last generation, and this is what it then held. */
  ghost predicate Reports(p: Problem, c: Config, seed: Workflow, out: Outcome) {
    var s := After(p, c, seed, out.generationsRun);
    && GetsTo(p, c, seed, out.generationsRun) && Stops(p, c, seed, out.generationsRun)
    && out.best == s.best.workflow && out.bestFitness == s.best.score && out.candidatesEvaluated == |s.log|
    && p.fitness(seed) == Some(out.initialFitness) && p.holdout(seed) == Some(out.initialHoldout)
    && p.holdout(out.best) == Some(out.bestHoldout)
    && out.overfitGap == out.bestFitness - out.bestHoldout
  }

  /** Why a search that started gives no outcome: a candidate of a generation it got to, or the winner on the
      holdout, cannot be verified. */
  ghost predicate Unverifiable(p: Problem, c: Config, seed: Workflow, k: nat) {
    && GetsTo(p, c, seed, k)
    && if Stops(p, c, seed, k) then p.holdout(After(p, c, seed, k).best.workflow).None?
       else !AllVerify(p, NextBatch(p, c, After(p, c, seed, k)))
  }

  /** Runs until no candidate is new, the fitness is perfect, or the generations are used up. */
  method Evolve(p: Problem, c: Config, seed: Workflow) returns (r: Result<Outcome, SearchError>)
    ensures !p.disjoint ==> r == Err(CorrelatedEvidence)
    ensures p.disjoint && (p.fitness(seed).None? || p.holdout(seed).None?) ==> r == Err(VerifyFailed)
    ensures p.disjoint && p.fitness(seed).Some? && p.holdout(seed).Some? ==>
      if r.Ok? then Reports(p, c, seed, r.value)
      else r.error == VerifyFailed && exists k :: Unverifiable(p, c, seed, k)
    ensures p.disjoint && (forall w :: p.fitness(w).Some? && p.holdout(w).Some?) ==> r.Ok?
  {
    hide Next, NextBatch, AllVerify, After, GetsTo, Stops;
    if !p.disjoint { return Err(CorrelatedEvidence); }
    var start := Score(p, seed);
    if start.None? { return Err(VerifyFailed); }
    var initialHoldout := p.holdout(seed);
    if initialHoldout.None? { return Err(VerifyFailed); }
    var best, beam, seen, count, generations := start.value, [seed], {start.value.canonical}, 1, 0;
    ghost var s := After(p, c, seed, 0);
    AfterStarts(p, c, seed);
    GetsToStart(p, c, seed);
    var more := Ok(true);
    while generations < c.generations
      invariant generations <= c.generations && GetsTo(p, c, seed, generations)
      invariant s == After(p, c, seed, generations) && (generations < c.generations ==> !Stops(p, c, seed, generations))
      invariant seen == s.seen && best == s.best && beam == s.beam && count == |s.log|
    {
      more, seen, best, beam, count := Generation(p, c, s, seen, best, beam, count);
      if more.Err? {
        assert Unverifiable(p, c, seed, generations);
        SomethingFails(p, c, seed, generations);
        return Err(VerifyFailed);
      }
      AfterNext(p, c, seed, generations);
      GetsToNext(p, c, seed, generations);
      s := Next(p, c, s);
      generations := generations + 1;
      if !more.value || best.score >= 1.0 { break; }
    }
    LastStops(p, c, seed);
    var certificate := p.holdout(best.workflow);
    if certificate.None? {
      assert Unverifiable(p, c, seed, generations);
      SomethingFails(p, c, seed, generations);
      return Err(VerifyFailed);
    }
    r := Ok(Outcome(start.value.score, initialHoldout.value, best.score, certificate.value,
                    best.score - certificate.value, best.workflow, count, generations));
  }

  lemma SomethingFails(p: Problem, c: Config, seed: Workflow, k: nat)
    requires Unverifiable(p, c, seed, k)
    ensures exists w :: p.fitness(w).None? || p.holdout(w).None?
  {
    hide NextBatch, After, GetsTo, Stops;
  }

  lemma AfterStarts(p: Problem, c: Config, seed: Workflow)
    ensures After(p, c, seed, 0) == Progress([EntryOf(p, seed)], {p.canon(seed)}, EntryOf(p, seed), [seed])
  {}

  lemma GetsToStart(p: Problem, c: Config, seed: Workflow)
    ensures GetsTo(p, c, seed, 0) && (0 < c.generations ==> !Stops(p, c, seed, 0))
  {}

  lemma GetsToNext(p: Problem, c: Config, seed: Workflow, k: nat)
    ensures GetsTo(p, c, seed, k) && !Stops(p, c, seed, k) && AllVerify(p, NextBatch(p, c, After(p, c, seed, k))) ==>
      GetsTo(p, c, seed, k + 1)
    ensures Stops(p, c, seed, k + 1) <==>
      || k + 1 == c.generations || NextBatch(p, c, After(p, c, seed, k)) == []
      || After(p, c, seed, k + 1).best.score >= 1.0
  {
    hide NextBatch, After, AllVerify;
  }

  lemma AfterNext(p: Problem, c: Config, seed: Workflow, k: nat)
    ensures After(p, c, seed, k + 1) == Next(p, c, After(p, c, seed, k))
  {}

  /** An outcome and a failure exclude each other, and there is one outcome at most. */
  lemma OutcomeIsExact(p: Problem, c: Config, seed: Workflow, out: Outcome)
    requires Reports(p, c, seed, out)
    ensures forall k: nat :: !Unverifiable(p, c, seed, k)
    ensures forall other :: Reports(p, c, seed, other) ==> other == out
  {
    hide Stops, NextBatch, After, AllVerify, GetsTo;
    forall k: nat ensures !Unverifiable(p, c, seed, k) {
      if Unverifiable(p, c, seed, k) { EndIsUnique(p, c, seed, k, out.generationsRun); }
    }
    forall other | Reports(p, c, seed, other) ensures other == out {
      EndIsUnique(p, c, seed, other.generationsRun, out.generationsRun);
    }
  }

  /** What an outcome is worth: its winner beats everything that was scored, no form was scored twice, every
      workflow but the seed was validated and descends from it, and fitness has not dropped. */
  lemma OutcomeIsBest(p: Problem, c: Config, seed: Workflow, out: Outcome)
    requires Reports(p, c, seed, out)
    ensures var s := After(p, c, seed, out.generationsRun);
            && History(p, seed, s.log, s.seen) && |s.seen| == out.candidatesEvaluated && IsBest(s.log, s.best)
    ensures forall e :: e in After(p, c, seed, out.generationsRun).log ==>
      || out.bestFitness > e.score
      || (out.bestFitness == e.score && |out.best.nodes| < |e.workflow.nodes|)
      || (out.bestFitness == e.score && |out.best.nodes| == |e.workflow.nodes| && StrLe(p.canon(out.best), p.canon(e.workflow)))
    ensures out.bestFitness >= out.initialFitness && out.generationsRun <= c.generations
    ensures c.maxCandidates > 0 ==> out.candidatesEvaluated <= 1 + out.generationsRun * c.maxCandidates
  {
    hide Stops, NextBatch, After, AllVerify, GetsTo, StrLe, Ranks, IsChild, Admissible;
    var k := out.generationsRun;
    var s := After(p, c, seed, k);
    AfterIsSound(p, c, seed, k);
    EndIsUnique(p, c, seed, k, k);
    DistinctCount(s.log, s.seen);
    assert s.log[0] in s.log;
    assert Ranks(s.best, s.log[0]);
    RanksMeans(s.best, s.log[0]);
    forall e | e in s.log
      ensures
        || out.bestFitness > e.score
        || (out.bestFitness == e.score && |out.best.nodes| < |e.workflow.nodes|)
        || (out.bestFitness == e.score && |out.best.nodes| == |e.workflow.nodes| && StrLe(p.canon(out.best), p.canon(e.workflow)))
    {
      RanksMeans(s.best, e);
    }
  }

  /** When the search ends: early only with a perfect score or when the last beam offered nothing new; and it went on
      from every generation before, whose best was not perfect and whose beam offered something. */
  lemma OutcomeIsTimely(p: Problem, c: Config, seed: Workflow, out: Outcome)
    requires Reports(p, c, seed, out)
    ensures out.generationsRun < c.generations ==>
      || out.bestFitness >= 1.0
      || (out.generationsRun > 0 &&
          var s := After(p, c, seed, out.generationsRun - 1); Generated(p, s.seen, s.beam) == [])
    ensures forall k :: 0 < k < out.generationsRun ==>
      var s := After(p, c, seed, k - 1);
      After(p, c, seed, k).best.score < 1.0 && Generated(p, s.seen, s.beam) != []
    ensures out.overfitGap == out.bestFitness - out.bestHoldout
  {
    hide NextBatch, After, AllVerify, Generated;
    if out.generationsRun > 0 { BatchIsFirst(p, c, After(p, c, seed, out.generationsRun - 1)); }
    forall k | 0 < k < out.generationsRun
      ensures var s := After(p, c, seed, k - 1);
              After(p, c, seed, k).best.score < 1.0 && Generated(p, s.seen, s.beam) != []
    {
      assert !Stops(p, c, seed, k);
      BatchIsFirst(p, c, After(p, c, seed, k - 1));
    }
  }

  /** What makes a candidate: some operator offers it for its parent; the validator accepts it, and every node the
      plans observe is still in it. */
  lemma CandidateMeans(p: Problem, parent: Workflow, w: Workflow)
    ensures IsChild(p, parent, w) <==> exists op :: op in p.operators && w in op(parent)
    ensures Admissible(p, w) <==> p.valid(w) && forall n :: n in p.observed ==> exists x :: x in w.nodes && x.id == n
  {
    FlatMapMember(Applying(parent), p.operators, w);
    if op :| op in p.operators && w in op(parent) { assert w in Applying(parent)(op); }
    forall n ensures n in Ids(w) <==> exists x :: x in w.nodes && x.id == n {}
  }

  /** The winner is the only workflow scored that nothing beats, and it is the seed or was validated. */
  lemma WinnerIsUnique(p: Problem, seed: Workflow, log: seq<Scored>, seen: set<string>, best: Scored, other: Scored)
    requires History(p, seed, log, seen) && IsBest(log, best) && other in log && other != best
    ensures Better(best, other) && !Better(other, best)
    ensures best.workflow == seed || Admissible(p, best.workflow)
  {
    hide IsEntry, Admissible, IsChild, StrLe;
    StrLeIsTotalOrder();
    var i :| 0 <= i < |log| && log[i] == best;
    var j :| 0 <= j < |log| && log[j] == other;
    assert best.canonical != other.canonical;
  }
}
