/** Optional values and computations that can fail. */
module Wrappers {
  datatype Option<+T> = None | Some(value: T)

  datatype Result<+T, +E> = Ok(value: T) | Err(error: E)
}

/** Sorting by a total order. The order fixes the outcome: two sorted lists without
    repetitions that hold the same elements are the same list. */
module Sorting {
  /** Any two can be compared; ties are allowed. */
  ghost predicate TotalPreorder<T(!new)>(le: (T, T) -> bool) {
    && (forall a, b :: le(a, b) || le(b, a))
    && (forall a, b, c :: le(a, b) && le(b, c) ==> le(a, c))
  }

  ghost predicate TotalOrder<T(!new)>(le: (T, T) -> bool) {
    TotalPreorder(le) && forall a, b :: le(a, b) && le(b, a) ==> a == b
  }

  ghost predicate Sorted<T>(s: seq<T>, le: (T, T) -> bool) {
    forall i, j :: 0 <= i < j < |s| ==> le(s[i], s[j])
  }

  ghost predicate NoDup<T>(s: seq<T>) {
    forall i, j :: 0 <= i < j < |s| ==> s[i] != s[j]
  }

  function Insert<T>(x: T, s: seq<T>, le: (T, T) -> bool): (r: seq<T>)
    ensures multiset(r) == multiset{x} + multiset(s)
  {
    if s == [] then [x]
    else if le(x, s[0]) then [x] + s
    else
      assert s == [s[0]] + s[1..];
      [s[0]] + Insert(x, s[1..], le)
  }

  /** The result of a stable library sort, up to elements the order identifies. */
  function Sort<T>(s: seq<T>, le: (T, T) -> bool): (r: seq<T>)
    ensures multiset(r) == multiset(s)
  {
    if s == [] then []
    else
      assert s == [s[0]] + s[1..];
      Insert(s[0], Sort(s[1..], le), le)
  }

  lemma NonemptyHasMember<T>(s: seq<T>)
    ensures s != [] ==> exists x :: x in s
  {
    if s != [] { assert s[0] in s; }
  }

  lemma SameMultisetSameElements<T>(a: seq<T>, b: seq<T>)
    requires multiset(a) == multiset(b)
    ensures |a| == |b|
    ensures forall x :: x in a <==> x in b
  {
    assert |multiset(a)| == |a| && |multiset(b)| == |b|;
    forall x ensures x in a <==> x in b {
      assert x in a <==> x in multiset(a);
      assert x in b <==> x in multiset(b);
    }
  }

  lemma {:induction false} InsertSorted<T(!new)>(x: T, s: seq<T>, le: (T, T) -> bool)
    requires TotalPreorder(le) && Sorted(s, le)
    ensures Sorted(Insert(x, s, le), le)
  {
    if s == [] || le(x, s[0]) {
    } else {
      InsertSorted(x, s[1..], le);
      var r := Insert(x, s[1..], le);
      forall y | y in r ensures le(s[0], y) {
        assert y in multiset(r);
        assert y == x || y in s[1..];
      }
    }
  }

  lemma {:induction false} SortSorted<T(!new)>(s: seq<T>, le: (T, T) -> bool)
    requires TotalPreorder(le)
    ensures Sorted(Sort(s, le), le)
  {
    if s != [] {
      SortSorted(s[1..], le);
      InsertSorted(s[0], Sort(s[1..], le), le);
    }
  }

  lemma NoDupIsMultiplicity<T>(s: seq<T>)
    ensures NoDup(s) <==> forall x :: multiset(s)[x] <= 1
  {
    if s != [] {
      NoDupIsMultiplicity(s[1..]);
      assert s == [s[0]] + s[1..];
      assert s[0] in s[1..] <==> s[0] in multiset(s[1..]);
      assert multiset(s) == multiset{s[0]} + multiset(s[1..]);
      if NoDup(s) {
        assert NoDup(s[1..]) by {
          forall i, j | 0 <= i < j < |s[1..]| ensures s[1..][i] != s[1..][j] {
            assert s[i + 1] != s[j + 1];
          }
        }
        assert s[0] !in s[1..];
      }
      if forall x :: multiset(s)[x] <= 1 {
        forall x ensures multiset(s[1..])[x] <= 1 {
          assert multiset(s)[x] <= 1;
        }
        assert multiset(s)[s[0]] <= 1;
        assert s[0] !in s[1..];
      }
    }
  }

  lemma NoDupSameMultiset<T>(a: seq<T>, b: seq<T>)
    requires NoDup(a) && NoDup(b) && forall x :: x in a <==> x in b
    ensures multiset(a) == multiset(b)
  {
    NoDupIsMultiplicity(a);
    NoDupIsMultiplicity(b);
    forall x ensures multiset(a)[x] == multiset(b)[x] {
      assert x in a <==> x in multiset(a);
      assert x in b <==> x in multiset(b);
    }
  }

  lemma SortNoDup<T>(s: seq<T>, le: (T, T) -> bool)
    requires NoDup(s)
    ensures NoDup(Sort(s, le))
  {
    NoDupIsMultiplicity(s);
    NoDupIsMultiplicity(Sort(s, le));
  }

  /** The order determines the list: this is what makes fan-in independent of declaration order. */
  lemma {:induction false} SortedUnique<T(!new)>(a: seq<T>, b: seq<T>, le: (T, T) -> bool)
    requires TotalOrder(le) && Sorted(a, le) && Sorted(b, le) && NoDup(a) && NoDup(b)
    requires forall x :: x in a <==> x in b
    ensures a == b
  {
    if a == [] {
      NonemptyHasMember(b);
    } else {
      assert a[0] in b;
      assert b[0] in a;
      assert le(a[0], b[0]) && le(b[0], a[0]);
      assert a[0] == b[0];
      forall x ensures x in a[1..] <==> x in b[1..] {
        assert x in a[1..] <==> x in a && x != a[0];
        assert x in b[1..] <==> x in b && x != b[0];
      }
      SortedUnique(a[1..], b[1..], le);
    }
  }
}

/** How many elements a set has. */
module Cardinality {
  lemma SubsetSize<T>(a: set<T>, b: set<T>)
    requires a <= b
    ensures |a| <= |b|
  {
    var rest := b - a;
    assert b == a + rest && a !! rest;
  }

  lemma SmallerSet<T>(a: set<T>, b: set<T>)
    requires a < b
    ensures |a| < |b|
  {
    var rest := b - a;
    assert b == a + rest && a !! rest;
    assert |b| == |a| + |rest|;
    assert rest != {};
  }
}

/** The byte-wise (code point) order on identifiers. */
module Strings {
  import opened Sorting

  predicate StrLe(a: string, b: string) {
    || a == ""
    || (b != "" && (a[0] < b[0] || (a[0] == b[0] && StrLe(a[1..], b[1..]))))
  }

  lemma StrLeTotal(a: string, b: string)
    ensures StrLe(a, b) || StrLe(b, a)
  {}

  lemma StrLeAntisymmetric(a: string, b: string)
    requires StrLe(a, b) && StrLe(b, a)
    ensures a == b
  {
    if a != "" {
      StrLeAntisymmetric(a[1..], b[1..]);
      assert a == [a[0]] + a[1..] && b == [b[0]] + b[1..];
    }
  }

  lemma StrLeTransitive(a: string, b: string, c: string)
    requires StrLe(a, b) && StrLe(b, c)
    ensures StrLe(a, c)
  {
    if a != "" && a[0] == b[0] == c[0] {
      StrLeTransitive(a[1..], b[1..], c[1..]);
    }
  }

  lemma StrLeIsTotalOrder()
    ensures TotalOrder(StrLe)
  {
    forall a, b ensures StrLe(a, b) || StrLe(b, a) { StrLeTotal(a, b); }
    forall a, b | StrLe(a, b) && StrLe(b, a) ensures a == b { StrLeAntisymmetric(a, b); }
    forall a, b, c | StrLe(a, b) && StrLe(b, c) ensures StrLe(a, c) { StrLeTransitive(a, b, c); }
  }

  ghost predicate Begins(a: string, b: string) { |a| <= |b| && b[..|a|] == a }

  /** The strings first differ at `k`, where `a` has the smaller character. */
  ghost predicate SmallerAt(a: string, b: string, k: nat) {
    k < |a| && k < |b| && a[..k] == b[..k] && a[k] < b[k]
  }

  lemma SameHead(c: char, a: string, b: string)
    ensures Begins([c] + a, [c] + b) <==> Begins(a, b)
    ensures forall k: nat :: SmallerAt(a, b, k) ==> SmallerAt([c] + a, [c] + b, k + 1)
    ensures forall k: nat :: SmallerAt([c] + a, [c] + b, k) ==> k > 0 && SmallerAt(a, b, k - 1)
  {
    var x, y := [c] + a, [c] + b;
    assert x[1..] == a && y[1..] == b;
    if |a| <= |b| { assert y[..|x|] == [c] + b[..|a|]; }
    if Begins(x, y) { assert b[..|a|] == y[..|x|][1..]; }
    forall k: nat | k <= |a| && k <= |b| ensures x[..k + 1] == y[..k + 1] <==> a[..k] == b[..k] {
      assert x[..k + 1] == [c] + a[..k] && y[..k + 1] == [c] + b[..k];
      assert a[..k] == x[..k + 1][1..] && b[..k] == y[..k + 1][1..];
    }
    forall k: nat | SmallerAt(x, y, k) ensures k > 0 && SmallerAt(a, b, k - 1) {}
  }

  lemma OtherHead(a: string, b: string)
    requires a != "" && b != "" && a[0] != b[0]
    ensures !Begins(a, b) && forall k: nat :: SmallerAt(a, b, k) <==> k == 0 && a[0] < b[0]
  {
    if |a| <= |b| { assert b[..|a|][0] == b[0]; }
    forall k: nat | 0 < k < |a| && k < |b| ensures a[..k] != b[..k] {
      assert a[..k][0] == a[0] && b[..k][0] == b[0];
    }
    assert a[..0] == b[..0];
  }

  /** A string comes before those it begins, and otherwise the first difference decides. */
  lemma {:induction false} StrLeMeans(a: string, b: string)
    ensures StrLe(a, b) <==> Begins(a, b) || exists k: nat :: SmallerAt(a, b, k)
  {
    hide SmallerAt, Begins;
    if a == "" || b == "" {
      EmptyMeans(a, b);
    } else if a[0] == b[0] {
      assert a == [a[0]] + a[1..] && b == [a[0]] + b[1..];
      SameHead(a[0], a[1..], b[1..]);
      StrLeMeans(a[1..], b[1..]);
      if k: nat :| SmallerAt(a[1..], b[1..], k) { assert SmallerAt(a, b, k + 1); }
    } else {
      OtherHead(a, b);
      assert a[0] < b[0] ==> SmallerAt(a, b, 0);
    }
  }

  lemma EmptyMeans(a: string, b: string)
    requires a == "" || b == ""
    ensures Begins(a, b) <==> a == ""
    ensures forall k: nat :: !SmallerAt(a, b, k)
  {}

  lemma StrLeSameHead(c: char, a: string, b: string)
    ensures StrLe([c] + a, [c] + b) == StrLe(a, b)
  {
    assert ([c] + a)[1..] == a && ([c] + b)[1..] == b;
  }

  /** Namespacing every identifier with one prefix keeps their order. */
  lemma {:induction false} StrLePrefix(p: string, a: string, b: string)
    ensures StrLe(p + a, p + b) == StrLe(a, b)
  {
    hide StrLe;
    if p == "" {
      assert p + a == a && p + b == b;
    } else {
      var c := p[|p| - 1];
      StrLePrefix(p[..|p| - 1], [c] + a, [c] + b);
      StrLeSameHead(c, a, b);
      assert p + a == p[..|p| - 1] + ([c] + a) && p + b == p[..|p| - 1] + ([c] + b);
    }
  }
}

/** Filtering lists. */
module Filtering {
  import opened Sorting

  /** What `retain` and `filter` leave. */
  function Keep<T(!new)>(p: T -> bool, s: seq<T>): (r: seq<T>)
    ensures forall x :: x in r <==> x in s && p(x)
  {
    if s == [] then []
    else
      var k := |s| - 1;
      assert s == s[..k] + [s[k]];
      Keep(p, s[..k]) + if p(s[k]) then [s[k]] else []
  }

  lemma KeepLast<T(!new)>(p: T -> bool, s: seq<T>, x: T)
    ensures Keep(p, s + [x]) == if p(x) then Keep(p, s) + [x] else Keep(p, s)
  {
    assert (s + [x])[..|s + [x]| - 1] == s;
  }

  lemma {:induction false} KeepAll<T(!new)>(p: T -> bool, s: seq<T>)
    requires forall x :: x in s ==> p(x)
    ensures Keep(p, s) == s
  {
    if s != [] {
      var k := |s| - 1;
      assert s[k] in s && s == s[..k] + [s[k]];
      KeepAll(p, s[..k]);
    }
  }

  lemma KeepNone<T(!new)>(p: T -> bool, s: seq<T>)
    requires forall x :: x in s ==> !p(x)
    ensures Keep(p, s) == []
  {
    NonemptyHasMember(Keep(p, s));
  }

  lemma {:induction false} KeepConcat<T(!new)>(p: T -> bool, a: seq<T>, b: seq<T>)
    ensures Keep(p, a + b) == Keep(p, a) + Keep(p, b)
  {
    hide Keep;
    if b == [] {
      assert a + b == a;
      KeepNone(p, b);
    } else {
      var front, x := b[..|b| - 1], b[|b| - 1];
      KeepConcat(p, a, front);
      KeepLast(p, front, x);
      KeepLast(p, a + front, x);
      assert b == front + [x] && a + b == a + front + [x];
    }
  }

  lemma KeepOne<T(!new)>(p: T -> bool, x: T)
    ensures Keep(p, [x]) == if p(x) then [x] else []
  {
    assert [x][..0] == [];
  }

  /** Of four stretches, one kept or dropped as a whole each. */
  lemma KeepAround<T(!new)>(p: T -> bool, before: seq<T>, x: T, after: seq<T>, y: T)
    ensures Keep(p, before + [x] + after + [y]) ==
            Keep(p, before) + (if p(x) then [x] else []) + Keep(p, after) + (if p(y) then [y] else [])
  {
    hide Keep;
    KeepConcat(p, before + [x] + after, [y]);
    KeepConcat(p, before + [x], after);
    KeepConcat(p, before, [x]);
    KeepOne(p, x);
    KeepOne(p, y);
  }

  ghost predicate Rising(at: seq<nat>) { forall i, j :: 0 <= i < j < |at| ==> at[i] < at[j] }

  /** Of the first `m` positions, the chosen ones in order. */
  ghost predicate Picks(at: seq<nat>, m: nat, chosen: nat -> bool) {
    Rising(at) && forall k: nat :: k in at <==> k < m && chosen(k)
  }

  lemma PicksNext(at: seq<nat>, m: nat, chosen: nat -> bool)
    requires Picks(at, m, chosen)
    ensures Picks(if chosen(m) then at + [m] else at, m + 1, chosen)
  {
    if chosen(m) {
      forall i | 0 <= i < |at| ensures at[i] < m { assert at[i] in at; }
      forall k: nat ensures k in at + [m] <==> k < m + 1 && chosen(k) { assert k in at + [m] <==> k in at || k == m; }
    }
  }

  lemma PicksBelow(at: seq<nat>, m: nat, chosen: nat -> bool, i: nat)
    requires Picks(at, m, chosen) && i < |at|
    ensures at[i] < m && chosen(at[i])
  {
    assert at[i] in at;
  }

  function Passes<T(!new)>(p: T -> bool, s: seq<T>): nat -> bool { (k: nat) => k < |s| && p(s[k]) }

  /** Which positions are kept: those of the elements that pass, in order. */
  lemma {:induction false} KeptAt<T(!new)>(p: T -> bool, s: seq<T>, m: nat) returns (at: seq<nat>)
    requires m <= |s|
    ensures Picks(at, m, Passes(p, s)) && |at| == |Keep(p, s[..m])|
    ensures forall i :: 0 <= i < |at| ==> at[i] < m && Keep(p, s[..m])[i] == s[at[i]]
  {
    hide Picks, Keep;
    if m == 0 {
      at := [];
      NothingPicked(Passes(p, s));
      KeepNone(p, s[..0]);
    } else {
      var before := KeptAt(p, s, m - 1);
      PicksNext(before, m - 1, Passes(p, s));
      at := if p(s[m - 1]) then before + [m - 1] else before;
      assert s[..m] == s[..m - 1] + [s[m - 1]];
      KeepLast(p, s[..m - 1], s[m - 1]);
    }
  }

  lemma NothingPicked(chosen: nat -> bool)
    ensures Picks([], 0, chosen)
  {}

  /** Filtering keeps the order. */
  lemma {:induction false} KeepsOrder<T(!new)>(p: T -> bool, s: seq<T>, a: nat, b: nat) returns (i: nat, j: nat)
    requires a < b < |Keep(p, s)|
    ensures i < j < |s| && s[i] == Keep(p, s)[a] && s[j] == Keep(p, s)[b]
  {
    var k := |s| - 1;
    var shorter := Keep(p, s[..k]);
    if b < |shorter| {
      i, j := KeepsOrder(p, s[..k], a, b);
    } else {
      assert shorter[a] in s[..k];
      i :| 0 <= i < k && s[i] == shorter[a];
      j := k;
    }
  }
}
