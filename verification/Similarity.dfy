/** How close two task signatures are, over exact reals. */
module Similarity {
  import opened Sorting
  import opened Strings
  import opened Filtering
  import opened Cardinality

  /** A sorted map from kind names to counts: `keys` is the order in which it is walked. */
  datatype Histogram = Histogram(keys: seq<string>, count: map<string, nat>)

  datatype Signature = Signature(tokens: set<string>, kinds: Histogram)

  ghost predicate WellFormed(h: Histogram) {
    NoDup(h.keys) && Sorted(h.keys, StrLe) && forall k :: k in h.keys <==> k in h.count
  }

  /** The square root, as far as the code relies on it. */
  ghost predicate IsSquareRoot(root: real -> real) {
    forall x :: x >= 0.0 ==> root(x) >= 0.0 && root(x) * root(x) == x
  }

  function Value(h: Histogram, k: string): nat { if k in h.count then h.count[k] else 0 }

  // ---- Sums over keys ----

  function Dot(keys: seq<string>, a: Histogram, b: Histogram): nat {
    if keys == [] then 0
    else
      var k := keys[|keys| - 1];
      Dot(keys[..|keys| - 1], a, b) + Value(a, k) * Value(b, k)
  }

  function Squares(keys: seq<string>, h: Histogram): nat { Dot(keys, h, h) }

  lemma {:induction false} DotSymmetric(keys: seq<string>, a: Histogram, b: Histogram)
    ensures Dot(keys, a, b) == Dot(keys, b, a)
  {
    if keys != [] { DotSymmetric(keys[..|keys| - 1], a, b); }
  }

  function In(b: Histogram): string -> bool { (k: string) => k in b.count }

  /** The keys both hold, in the order of `a`. */
  function Shared(a: Histogram, b: Histogram): seq<string> { Keep(In(b), a.keys) }

  lemma DotAppend(keys: seq<string>, k: string, a: Histogram, b: Histogram)
    ensures Dot(keys + [k], a, b) == Dot(keys, a, b) + Value(a, k) * Value(b, k)
  {
    assert (keys + [k])[..|keys + [k]| - 1] == keys;
  }

  lemma DotNone(a: Histogram, b: Histogram)
    ensures Dot([], a, b) == 0 && Keep(In(b), []) == []
  {}

  lemma {:induction false} DotOverShared(keys: seq<string>, a: Histogram, b: Histogram)
    ensures Dot(keys, a, b) == Dot(Keep(In(b), keys), a, b)
  {
    hide Dot, Keep;
    if keys == [] {
      DotNone(a, b);
    } else {
      var front, k := keys[..|keys| - 1], keys[|keys| - 1];
      assert keys == front + [k];
      DotOverShared(front, a, b);
      DotAppend(front, k, a, b);
      DotAppend(Keep(In(b), front), k, a, b);
      KeepLast(In(b), front, k);
      Times(Value(a, k), Value(b, k));
    }
  }

  lemma Times(x: nat, y: nat)
    ensures y == 0 ==> x * y == 0
  {}

  lemma {:induction false} FewerSquares(keys: seq<string>, h: Histogram, b: Histogram)
    ensures Squares(Keep(In(b), keys), h) <= Squares(keys, h)
  {
    hide Dot, Keep;
    if keys == [] {
      DotNone(h, b);
      DotNone(h, h);
    } else {
      var front, k := keys[..|keys| - 1], keys[|keys| - 1];
      assert keys == front + [k];
      FewerSquares(front, h, b);
      DotAppend(front, k, h, h);
      DotAppend(Keep(In(b), front), k, h, h);
      KeepLast(In(b), front, k);
      SquareNonNegative(Value(h, k));
    }
  }

  /** Filtering keeps keys sorted and distinct. */
  lemma {:induction false} KeepSorted(p: string -> bool, keys: seq<string>)
    requires NoDup(keys) && Sorted(keys, StrLe)
    ensures NoDup(Keep(p, keys)) && Sorted(Keep(p, keys), StrLe)
  {
    hide StrLe;
    if keys != [] {
      var front, k := keys[..|keys| - 1], keys[|keys| - 1];
      KeepSorted(p, front);
      var kept := Keep(p, front);
      forall x | x in kept ensures x != k && StrLe(x, k) { assert x in front; }
    }
  }

  lemma SameShared(a: Histogram, b: Histogram)
    requires WellFormed(a) && WellFormed(b)
    ensures Shared(a, b) == Shared(b, a)
  {
    hide StrLe;
    StrLeIsTotalOrder();
    KeepSorted(In(b), a.keys);
    KeepSorted(In(a), b.keys);
    SortedUnique(Shared(a, b), Shared(b, a), StrLe);
  }

  // ---- Cauchy-Schwarz ----

  lemma Product(x: int, y: int)
    requires x >= 0 && y >= 0
    ensures x * y >= 0
  {}

  lemma SquareNonNegative(x: int)
    ensures x * x >= 0
  {
    if x < 0 { Product(-x, -x); assert x * x == (-x) * (-x); } else { Product(x, x); }
  }

  lemma LargerSquare(x: int, y: int)
    requires x > y >= 0
    ensures x * x > y * y
  {
    Positive(x - y, x + y);
    assert x * x == y * y + (x - y) * (x + y);
  }

  lemma SmallerRoot(x: int, y: int)
    requires x >= 0 && y >= 0 && x * x <= y * y
    ensures x <= y
  {
    if x > y { LargerSquare(x, y); }
  }

  lemma Positive(x: int, y: int)
    requires x >= 1 && y >= 1
    ensures x * y >= 1
  {
    assert x * y == (x - 1) * y + y;
    Product(x - 1, y);
  }

  lemma Scaled(x: int, y: int, c: int)
    requires x <= y && c >= 0
    ensures x * c <= y * c
  {
    Product(y - x, c);
    assert (y - x) * c == y * c - x * c;
  }

  /** Twice a product of roots is at most the sum: (p + q)^2 - 4pq = (p - q)^2. */
  lemma TwiceProduct(s: int, p: int, q: int)
    requires s >= 0 && p >= 0 && q >= 0 && s * s <= p * q
    ensures 2 * s <= p + q
  {
    SquareNonNegative(p - q);
    assert (p - q) * (p - q) == p * p - 2 * (p * q) + q * q;
    assert (p + q) * (p + q) == p * p + 2 * (p * q) + q * q;
    assert (2 * s) * (2 * s) == 4 * (s * s);
    SmallerRoot(2 * s, p + q);
  }

  lemma CrossTerm(s: int, sa: int, sb: int, x: int, y: int)
    requires s >= 0 && sa >= 0 && sb >= 0 && x >= 0 && y >= 0 && s * s <= sa * sb
    ensures 2 * (s * (x * y)) <= sa * (y * y) + sb * (x * x)
  {
    var m, p, q := s * (x * y), sa * (y * y), sb * (x * x);
    Product(x, y);
    Product(s, x * y);
    SquareNonNegative(x);
    SquareNonNegative(y);
    Product(sa, y * y);
    Product(sb, x * x);
    SquareNonNegative(x * y);
    Scaled(s * s, sa * sb, (x * y) * (x * y));
    SquareOfProduct(s, x * y);
    Regroup(sa, sb, x, y);
    TwiceProduct(m, p, q);
  }

  lemma SquareOfProduct(s: int, t: int)
    ensures (s * t) * (s * t) == (s * s) * (t * t)
  {}

  lemma Regroup(sa: int, sb: int, x: int, y: int)
    ensures (sa * sb) * ((x * y) * (x * y)) == (sa * (y * y)) * (sb * (x * x))
  {
    SquareOfProduct(x, y);
    var u, v := x * x, y * y;
    assert (sa * sb) * (u * v) == (sa * v) * (sb * u) by { FourFactors(sa, sb, u, v); }
  }

  lemma FourFactors(a: int, b: int, u: int, v: int)
    ensures (a * b) * (u * v) == (a * v) * (b * u)
  {
    assert (a * b) * (u * v) == a * (b * (u * v));
    assert b * (u * v) == v * (b * u) by { assert b * (u * v) == (b * u) * v; }
    assert a * (v * (b * u)) == (a * v) * (b * u);
  }

  lemma {:induction false} CauchySchwarz(keys: seq<string>, a: Histogram, b: Histogram)
    ensures Dot(keys, a, b) * Dot(keys, a, b) <= Squares(keys, a) * Squares(keys, b)
  {
    if keys != [] {
      var front, k := keys[..|keys| - 1], keys[|keys| - 1];
      CauchySchwarz(front, a, b);
      var s, sa, sb, x, y := Dot(front, a, b), Squares(front, a), Squares(front, b), Value(a, k), Value(b, k);
      OneMoreTerm(s, sa, sb, x, y);
    }
  }

  lemma OneMoreTerm(s: int, sa: int, sb: int, x: int, y: int)
    requires s >= 0 && sa >= 0 && sb >= 0 && x >= 0 && y >= 0 && s * s <= sa * sb
    ensures (s + x * y) * (s + x * y) <= (sa + x * x) * (sb + y * y)
  {
    CrossTerm(s, sa, sb, x, y);
    SquareOfProduct(x, y);
    assert (s + x * y) * (s + x * y) == s * s + 2 * (s * (x * y)) + (x * y) * (x * y);
    var u, v := x * x, y * y;
    assert (sa + u) * (sb + v) == sa * sb + sa * v + u * sb + u * v;
    assert u * sb == sb * u;
  }

  // ---- Cosine ----

  function Quotient(dot: real, na: real, nb: real): real {
    if na * nb == 0.0 then 0.0 else dot / (na * nb)
  }

  function Cosine(root: real -> real, a: Histogram, b: Histogram): real {
    Quotient(Dot(a.keys, a, b) as real, root(Squares(a.keys, a) as real), root(Squares(b.keys, b) as real))
  }

  lemma KeyIsCounted(h: Histogram, k: string)
    requires WellFormed(h) && k in h.keys
    ensures k in h.count
  {
    hide StrLe;
  }

  method DotProduct(a: Histogram, b: Histogram) returns (dot: real)
    requires WellFormed(a)
    ensures dot == Dot(a.keys, a, b) as real
  {
    hide Dot, WellFormed;
    dot := 0.0;
    var i := 0;
    assert a.keys[..0] == [];
    DotNone(a, b);
    while i < |a.keys|
      invariant 0 <= i <= |a.keys| && dot == Dot(a.keys[..i], a, b) as real
    {
      var k := a.keys[i];
      KeyIsCounted(a, k);
      assert a.keys[..i + 1] == a.keys[..i] + [k];
      DotAppend(a.keys[..i], k, a, b);
      Casts(Value(a, k), Value(b, k));
      if k in b.count { dot := dot + a.count[k] as real * b.count[k] as real; }
      i := i + 1;
    }
    assert a.keys[..i] == a.keys;
  }

  method HistogramCosine(root: real -> real, a: Histogram, b: Histogram) returns (r: real)
    requires WellFormed(a) && WellFormed(b)
    ensures r == Cosine(root, a, b)
  {
    hide WellFormed, Dot;
    var dot := DotProduct(a, b);
    var na := Norm(root, a);
    var nb := Norm(root, b);
    r := Quotient(dot, na, nb);
  }

  method Norm(root: real -> real, h: Histogram) returns (r: real)
    requires WellFormed(h)
    ensures r == root(Squares(h.keys, h) as real)
  {
    hide Dot, WellFormed;
    var sum := 0.0;
    var i := 0;
    assert h.keys[..0] == [];
    DotNone(h, h);
    while i < |h.keys|
      invariant 0 <= i <= |h.keys| && sum == Squares(h.keys[..i], h) as real
    {
      var k := h.keys[i];
      KeyIsCounted(h, k);
      assert h.keys[..i + 1] == h.keys[..i] + [k];
      DotAppend(h.keys[..i], k, h, h);
      Casts(Value(h, k), Value(h, k));
      sum := sum + h.count[k] as real * h.count[k] as real;
      i := i + 1;
    }
    assert h.keys[..i] == h.keys;
    r := root(sum);
  }

  lemma DotBound(a: Histogram, b: Histogram)
    ensures Dot(a.keys, a, b) * Dot(a.keys, a, b) <= Squares(a.keys, a) * Squares(Shared(a, b), b)
  {
    var shared := Shared(a, b);
    DotOverShared(a.keys, a, b);
    CauchySchwarz(shared, a, b);
    FewerSquares(a.keys, a, b);
    Scaled(Squares(shared, a), Squares(a.keys, a), Squares(shared, b));
  }

  lemma RealProduct(x: real, y: real)
    requires x >= 0.0 && y >= 0.0
    ensures x * y >= 0.0
  {}

  lemma PositiveReal(x: real, y: real)
    requires x > 0.0 && y > 0.0
    ensures x * y > 0.0
  {}

  lemma LargerRealSquare(x: real, y: real)
    requires x > y >= 0.0
    ensures x * x > y * y
  {
    PositiveReal(x - y, x + y);
    assert x * x == y * y + (x - y) * (x + y);
  }

  lemma SmallerRealRoot(x: real, y: real)
    requires x >= 0.0 && y >= 0.0 && x * x <= y * y
    ensures x <= y
  {
    if x > y { LargerRealSquare(x, y); }
  }

  lemma RootsMultiply(root: real -> real, x: real, y: real)
    requires IsSquareRoot(root) && x >= 0.0 && y >= 0.0
    ensures root(x) * root(y) >= 0.0 && (root(x) * root(y)) * (root(x) * root(y)) == x * y
  {
    var r, s := root(x), root(y);
    RealProduct(r, s);
    assert (r * s) * (r * s) == (r * r) * (s * s);
  }

  lemma Casts(x: nat, y: nat)
    ensures (x * y) as real == x as real * y as real
  {}

  lemma DotAtMost(a: Histogram, b: Histogram)
    requires WellFormed(a) && WellFormed(b)
    ensures Dot(a.keys, a, b) * Dot(a.keys, a, b) <= Squares(a.keys, a) * Squares(b.keys, b)
  {
    hide Dot, StrLe, WellFormed, Shared;
    var sa, sb, shared := Squares(a.keys, a), Squares(b.keys, b), Squares(Shared(a, b), b);
    DotBound(a, b);
    SameShared(a, b);
    FewerSharedSquares(b, a);
    Scaled(shared, sb, sa);
    assert sa * shared == shared * sa && sa * sb == sb * sa;
  }

  lemma FewerSharedSquares(a: Histogram, b: Histogram)
    ensures Squares(Shared(a, b), a) <= Squares(a.keys, a)
  {
    hide Dot, Keep;
    FewerSquares(a.keys, a, b);
  }

  lemma QuotientBounded(root: real -> real, dot: nat, sa: nat, sb: nat)
    requires IsSquareRoot(root) && dot * dot <= sa * sb
    ensures 0.0 <= Quotient(dot as real, root(sa as real), root(sb as real)) <= 1.0
  {
    var denom := root(sa as real) * root(sb as real);
    RootsMultiply(root, sa as real, sb as real);
    Casts(sa, sb);
    Casts(dot, dot);
    SmallerRealRoot(dot as real, denom);
    if denom > 0.0 { FractionBounded(dot as real, denom); }
  }

  lemma CosineBounded(root: real -> real, a: Histogram, b: Histogram)
    requires IsSquareRoot(root) && WellFormed(a) && WellFormed(b)
    ensures 0.0 <= Cosine(root, a, b) <= 1.0
  {
    hide Squares, Dot, WellFormed, IsSquareRoot, Quotient;
    DotAtMost(a, b);
    QuotientBounded(root, Dot(a.keys, a, b), Squares(a.keys, a), Squares(b.keys, b));
  }

  lemma FractionBounded(x: real, y: real)
    requires 0.0 <= x <= y && y > 0.0
    ensures 0.0 <= x / y <= 1.0
  {}

  lemma CosineSymmetric(root: real -> real, a: Histogram, b: Histogram)
    requires WellFormed(a) && WellFormed(b)
    ensures Cosine(root, a, b) == Cosine(root, b, a)
  {
    hide Dot, Squares, StrLe, WellFormed;
    DotOverShared(a.keys, a, b);
    DotOverShared(b.keys, b, a);
    SameShared(a, b);
    DotSymmetric(Shared(a, b), a, b);
    var x, y := root(Squares(a.keys, a) as real), root(Squares(b.keys, b) as real);
    assert Quotient(Dot(a.keys, a, b) as real, x, y) == Quotient(Dot(b.keys, b, a) as real, y, x);
  }

  // ---- Jaccard ----

  function Jaccard(a: set<string>, b: set<string>): real {
    if a == {} && b == {} then 1.0
    else if |a + b| == 0 then 0.0
    else |a * b| as real / |a + b| as real
  }

  lemma JaccardBounded(a: set<string>, b: set<string>)
    ensures 0.0 <= Jaccard(a, b) <= 1.0
    ensures Jaccard(a, b) == Jaccard(b, a)
  {
    SubsetSize(a * b, a + b);
    assert a * b == b * a && a + b == b + a;
    if |a + b| > 0 { FractionBounded(|a * b| as real, |a + b| as real); }
  }

  lemma SubsetOfSameSize(a: set<string>, b: set<string>)
    requires a <= b && |a| == |b|
    ensures a == b
  {
    var rest := b - a;
    assert b == a + rest && |b| == |a| + |rest|;
  }

  /** Full overlap means the same tokens. */
  lemma JaccardIsOne(a: set<string>, b: set<string>)
    ensures Jaccard(a, b) == 1.0 <==> a == b
  {
    if a == b {
      assert a * b == a && a + b == a;
    } else {
      assert a + b != {};
      if |a * b| == |a + b| { SubsetOfSameSize(a * b, a + b); }
      SubsetSize(a * b, a + b);
      ProperFraction(|a * b|, |a + b|);
    }
  }

  lemma ProperFraction(x: nat, y: nat)
    requires y > 0
    ensures x as real / y as real == 1.0 <==> x == y
  {}

  // ---- Similarity ----

  function Similar(root: real -> real, s: Signature, t: Signature): real {
    var tokens := Jaccard(s.tokens, t.tokens);
    if s.kinds.keys == [] || t.kinds.keys == [] then tokens
    else 0.7 * tokens + 0.3 * Cosine(root, s.kinds, t.kinds)
  }

  /** Similarity is a number between 0 and 1 and does not depend on which signature comes first. */
  lemma SimilarityIsBounded(root: real -> real, s: Signature, t: Signature)
    requires IsSquareRoot(root) && WellFormed(s.kinds) && WellFormed(t.kinds)
    ensures 0.0 <= Similar(root, s, t) <= 1.0
    ensures Similar(root, s, t) == Similar(root, t, s)
  {
    hide Cosine, Jaccard, StrLe, IsSquareRoot;
    JaccardBounded(s.tokens, t.tokens);
    CosineBounded(root, s.kinds, t.kinds);
    CosineSymmetric(root, s.kinds, t.kinds);
  }

  lemma {:induction false} SquaresPositive(keys: seq<string>, h: Histogram)
    ensures Squares(keys, h) > 0 <==> exists k :: k in keys && Value(h, k) > 0
  {
    if keys != [] {
      var front, k := keys[..|keys| - 1], keys[|keys| - 1];
      assert keys == front + [k];
      SquaresPositive(front, h);
      if Value(h, k) > 0 { Positive(Value(h, k), Value(h, k)); }
    }
  }

  lemma QuotientOf(x: real, r: real)
    requires x >= 0.0 && r * r == x
    ensures Quotient(x, r, r) == if x == 0.0 then 0.0 else 1.0
  {
    var d := r * r;
    assert Quotient(x, r, r) == if d == 0.0 then 0.0 else x / d;
    if d != 0.0 { assert d / d == 1.0; }
  }

  lemma SquareOfRoot(root: real -> real, x: real)
    requires IsSquareRoot(root) && x >= 0.0
    ensures root(x) * root(x) == x
  {}

  /** A signature is fully similar to itself unless its histogram lists kinds but counts none of them. */
  lemma SelfSimilarity(root: real -> real, s: Signature)
    requires IsSquareRoot(root) && WellFormed(s.kinds)
    ensures Similar(root, s, s) == 1.0 <==>
            s.kinds.keys == [] || exists k :: k in s.kinds.keys && Value(s.kinds, k) > 0
  {
    hide Jaccard, WellFormed, Quotient, IsSquareRoot, Squares, Dot;
    JaccardIsOne(s.tokens, s.tokens);
    var sq := Squares(s.kinds.keys, s.kinds);
    SquaresPositive(s.kinds.keys, s.kinds);
    SquareOfRoot(root, sq as real);
    QuotientOf(sq as real, root(sq as real));
    SquaresAreDot(s.kinds);
    assert Similar(root, s, s) == if s.kinds.keys == [] then 1.0 else 0.7 + 0.3 * (if sq == 0 then 0.0 else 1.0);
  }

  lemma SquaresAreDot(h: Histogram)
    ensures Squares(h.keys, h) == Dot(h.keys, h, h)
  {}

  // ---- What it computes ----

  /** The sum of the products over some common kinds, in no particular order. */
  ghost function SumOver(kinds: set<string>, x: map<string, nat>, y: map<string, nat>): nat
    requires kinds <= x.Keys && kinds <= y.Keys
  {
    if kinds == {} then 0
    else
      var k :| k in kinds;
      x[k] * y[k] + SumOver(kinds - {k}, x, y)
  }

  /** Any kind may be taken first. */
  lemma {:induction false} TakenOut(kinds: set<string>, k: string, x: map<string, nat>, y: map<string, nat>)
    requires kinds <= x.Keys && kinds <= y.Keys && k in kinds
    ensures SumOver(kinds, x, y) == x[k] * y[k] + SumOver(kinds - {k}, x, y)
  {
    var first :| first in kinds && SumOver(kinds, x, y) == x[first] * y[first] + SumOver(kinds - {first}, x, y);
    if first != k {
      TakenOut(kinds - {first}, k, x, y);
      TakenOut(kinds - {k}, first, x, y);
      assert kinds - {first} - {k} == kinds - {k} - {first};
    }
  }

  ghost function Common(keys: seq<string>, b: Histogram): set<string> { set k | k in keys && k in b.count }

  lemma {:induction false} DotIsSum(keys: seq<string>, a: Histogram, b: Histogram)
    requires NoDup(keys) && forall k :: k in keys ==> k in a.count
    ensures Dot(keys, a, b) == SumOver(Common(keys, b), a.count, b.count)
  {
    hide Dot, SumOver;
    var kinds := Common(keys, b);
    if keys == [] {
      DotNone(a, b);
      NothingSummed(a.count, b.count);
      assert kinds == {};
    } else {
      var front, last := keys[..|keys| - 1], keys[|keys| - 1];
      assert keys == front + [last] && NoDup(front);
      DotIsSum(front, a, b);
      DotAppend(front, last, a, b);
      Times(Value(a, last), Value(b, last));
      var fewer := Common(front, b);
      if last in b.count {
        assert kinds - {last} == fewer;
        TakenOut(kinds, last, a.count, b.count);
      } else {
        assert kinds == fewer;
      }
    }
  }

  lemma NothingSummed(x: map<string, nat>, y: map<string, nat>)
    ensures SumOver({}, x, y) == 0
  {}

  lemma CountedKinds(h: Histogram, b: Histogram)
    requires WellFormed(h)
    ensures Common(h.keys, b) == h.count.Keys * b.count.Keys
    ensures NoDup(h.keys) && (forall k :: k in h.keys ==> k in h.count) && (h.keys == [] <==> h.count == map[])
  {
    hide StrLe;
    NonemptyHasMember(h.keys);
  }

  lemma CosineMeans(root: real -> real, a: Histogram, b: Histogram)
    requires WellFormed(a) && WellFormed(b)
    ensures var shared := SumOver(a.count.Keys * b.count.Keys, a.count, b.count);
            var norms := root(SumOver(a.count.Keys, a.count, a.count) as real) * root(SumOver(b.count.Keys, b.count, b.count) as real);
            Cosine(root, a, b) == if norms == 0.0 then 0.0 else shared as real / norms
  {
    hide WellFormed, SumOver, Dot, NoDup;
    CountedKinds(a, b);
    CountedKinds(a, a);
    CountedKinds(b, b);
    DotIsSum(a.keys, a, b);
    DotIsSum(a.keys, a, a);
    DotIsSum(b.keys, b, b);
    assert a.count.Keys * a.count.Keys == a.count.Keys && b.count.Keys * b.count.Keys == b.count.Keys;
    SquaresAreDot(a);
    SquaresAreDot(b);
  }

  /** Seven tenths are the share of common tokens among all tokens, three tenths the cosine of the histograms, which is
      zero if one counts nothing; where a histogram is empty the tokens decide alone. */
  lemma SimilarityMeans(root: real -> real, s: Signature, t: Signature)
    requires WellFormed(s.kinds) && WellFormed(t.kinds)
    ensures
      var a, b := s.kinds.count, t.kinds.count;
      var overlap := if s.tokens == {} == t.tokens then 1.0 else |s.tokens * t.tokens| as real / |s.tokens + t.tokens| as real;
      var norms := root(SumOver(a.Keys, a, a) as real) * root(SumOver(b.Keys, b, b) as real);
      Similar(root, s, t) ==
        if a == map[] || b == map[] then overlap
        else if norms == 0.0 then 0.7 * overlap
        else 0.7 * overlap + 0.3 * (SumOver(a.Keys * b.Keys, a, b) as real / norms)
  {
    hide WellFormed, SumOver, Cosine;
    OverlapIsDefined(s.tokens, t.tokens);
    CosineMeans(root, s.kinds, t.kinds);
    CountedKinds(s.kinds, s.kinds);
    CountedKinds(t.kinds, t.kinds);
  }

  lemma OverlapIsDefined(a: set<string>, b: set<string>)
    ensures a == {} == b || |a + b| > 0
  {
    if x :| x in a + b { assert a + b != {}; }
  }
}
