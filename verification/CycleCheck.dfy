/** The check that a stored workflow's sub-workflow references do not come back to it. */
module CycleCheck {
  import opened Wrappers
  import opened Sorting
  import opened Workflows

  const MAX_SUB_WORKFLOW_DEPTH: nat := 5
  const MAX_CHECK_DEPTH: nat := MAX_SUB_WORKFLOW_DEPTH * 4

  /** The workflows one refers to, as the store answers; None when the store fails. */
  type References = Id -> Option<seq<Id>>

  /** The workflow being saved is asked itself, every other one is looked up. */
  function WithNew(stored: References, id: Id, refs: seq<Id>): References {
    (n: Id) => if n == id then Some(refs) else stored(n)
  }

  function Of(refs: References, n: Id): seq<Id> {
    if refs(n).Some? then refs(n).value else []
  }

  /** Each member is referred to by the one before. */
  ghost predicate IsChain(refs: References, p: seq<Id>) {
    p != [] && forall i :: 0 <= i < |p| - 1 ==> p[i + 1] in Of(refs, p[i])
  }

  datatype Verdict = Clean | Cycle(path: seq<Id>) | TooDeep(path: seq<Id>) | StoreFailed(path: seq<Id>)

  // ---- What Clean should mean ----

  /** Every chain from `n` has at most `d` members, and the store answers for each of them. */
  ghost predicate Shallow(refs: References, n: Id, d: nat) {
    && (forall p :: IsChain(refs, p) && p[0] == n ==> |p| <= d)
    && (forall p :: IsChain(refs, p) && p[0] == n ==> refs(p[|p| - 1]).Some?)
  }

  /** The same, level by level: this is what the walk establishes. */
  ghost predicate Explored(refs: References, n: Id, d: int)
    decreases d
  {
    d >= 1 && refs(n).Some? && forall c :: c in Of(refs, n) ==> Explored(refs, c, d - 1)
  }

  lemma {:induction false} ExploredBoundsChains(refs: References, n: Id, d: nat, p: seq<Id>)
    requires Explored(refs, n, d) && IsChain(refs, p) && p[0] == n
    ensures |p| <= d && Explored(refs, p[|p| - 1], d - |p| + 1)
  {
    if |p| > 1 {
      var k := |p| - 2;
      ExploredBoundsChains(refs, n, d, p[..k + 1]);
      assert p[k + 1] in Of(refs, p[k]);
    }
  }

  lemma ChainStep(refs: References, n: Id, c: Id, p: seq<Id>)
    requires c in Of(refs, n) && IsChain(refs, p) && p[0] == c
    ensures IsChain(refs, [n] + p)
  {
    var q := [n] + p;
    forall i | 0 <= i < |q| - 1 ensures q[i + 1] in Of(refs, q[i]) {
      if i > 0 { assert q[i] == p[i - 1] && q[i + 1] == p[i]; }
    }
  }

  lemma ShallowChild(refs: References, n: Id, c: Id, d: nat)
    requires Shallow(refs, n, d) && c in Of(refs, n)
    ensures d >= 1 && Shallow(refs, c, d - 1)
  {
    hide Of;
    Alone(refs, n);
    forall p | p != [] && IsChain(refs, p) && p[0] == c ensures |p| <= d - 1 && refs(p[|p| - 1]).Some? {
      ChainStep(refs, n, c, p);
      assert ([n] + p)[0] == n && ([n] + p)[|[n] + p| - 1] == p[|p| - 1];
    }
  }

  lemma Alone(refs: References, n: Id)
    ensures IsChain(refs, [n])
  {}

  lemma {:induction false} ShallowIsExplored(refs: References, n: Id, d: nat)
    requires Shallow(refs, n, d)
    ensures Explored(refs, n, d)
    decreases d
  {
    hide IsChain;
    Alone(refs, n);
    assert [n][0] == n && [n][|[n]| - 1] == n && |[n]| == 1;
    hide Shallow;
    forall c | c in Of(refs, n) ensures Explored(refs, c, d - 1) {
      ShallowChild(refs, n, c, d);
      ShallowIsExplored(refs, c, d - 1);
    }
  }

  lemma ExploredIsShallow(refs: References, n: Id, d: nat)
    ensures Explored(refs, n, d) <==> Shallow(refs, n, d)
  {
    if Shallow(refs, n, d) { ShallowIsExplored(refs, n, d); }
    if Explored(refs, n, d) {
      forall p | IsChain(refs, p) && p[0] == n ensures |p| <= d && refs(p[|p| - 1]).Some? {
        ExploredBoundsChains(refs, n, d, p);
      }
    }
  }

  /** A chain that comes back to a member of its own. */
  ghost predicate Closes(refs: References, p: seq<Id>) {
    IsChain(refs, p) && exists j :: 0 <= j < |p| - 1 && p[j] == p[|p| - 1]
  }

  lemma {:induction false} NoLoopBelow(refs: References, p: seq<Id>, d: int)
    requires IsChain(refs, p) && |p| > 1 && p[0] == p[|p| - 1]
    ensures !Explored(refs, p[0], d)
    decreases d
  {
    if d >= 1 {
      NoLoopBelow(refs, p, d - |p| + 1);
      if Explored(refs, p[0], d) { ExploredBoundsChains(refs, p[0], d, p); }
    }
  }

  lemma ClosingIsNotShallow(refs: References, p: seq<Id>, d: nat)
    requires Closes(refs, p)
    ensures !Explored(refs, p[0], d)
  {
    var j :| 0 <= j < |p| - 1 && p[j] == p[|p| - 1];
    var front, loop := p[..j + 1], p[j..];
    assert IsChain(refs, front);
    forall i | 0 <= i < |loop| - 1 ensures loop[i + 1] in Of(refs, loop[i]) { assert p[j + i + 1] in Of(refs, p[j + i]); }
    if Explored(refs, p[0], d) {
      ExploredBoundsChains(refs, p[0], d, front);
      NoLoopBelow(refs, loop, d - |front| + 1);
    }
  }

  // ---- The walk ----

  type Frame = (Id, nat)

  /** The path, the set and the stack tell the same story. */
  ghost predicate InStep(stack: seq<Frame>, path: seq<Id>, onPath: set<Id>) {
    && |stack| == |path|
    && (forall k :: 0 <= k < |stack| ==> stack[k].0 == path[k])
    && (forall n :: n in onPath <==> n in path)
    && NoDup(path)
  }

  /** How many children of frame `k` are behind us for good: the last one taken is on the stack still. */
  function Behind(stack: seq<Frame>, k: nat): int
    requires k < |stack|
  {
    var taken: int := stack[k].1;
    if k < |stack| - 1 then taken - 1 else taken
  }

  ghost predicate FrameOk(refs: References, stack: seq<Frame>, k: nat)
    requires k < |stack|
  {
    var n := stack[k].0;
    && 0 <= Behind(stack, k) <= stack[k].1 <= |Of(refs, n)|
    && (stack[k].1 > 0 ==> refs(n).Some?)
    && (k < |stack| - 1 ==> Of(refs, n)[stack[k].1 - 1] == stack[k + 1].0)
    && (forall i :: 0 <= i < Behind(stack, k) ==> Explored(refs, Of(refs, n)[i], MAX_CHECK_DEPTH - k - 1))
  }

  ghost predicate WalkOk(refs: References, root: Id, stack: seq<Frame>) {
    && |stack| <= MAX_CHECK_DEPTH + 1
    && (stack != [] ==> stack[0].0 == root)
    && (stack == [] ==> Explored(refs, root, MAX_CHECK_DEPTH))
    && forall k :: 0 <= k < |stack| ==> FrameOk(refs, stack, k)
  }

  lemma StackIsChain(refs: References, root: Id, stack: seq<Frame>, path: seq<Id>, onPath: set<Id>)
    requires WalkOk(refs, root, stack) && InStep(stack, path, onPath) && stack != []
    ensures IsChain(refs, path) && path[0] == root
  {
    hide Explored;
    forall i | 0 <= i < |path| - 1 ensures path[i + 1] in Of(refs, path[i]) {
      assert FrameOk(refs, stack, i);
      assert Of(refs, stack[i].0)[stack[i].1 - 1] == stack[i + 1].0;
    }
  }

  lemma StackIsFirst(refs: References, root: Id, stack: seq<Frame>, path: seq<Id>, onPath: set<Id>)
    requires WalkOk(refs, root, stack) && InStep(stack, path, onPath) && stack != []
    ensures FirstFound(refs, root, path)
  {
    hide Explored, Shallow;
    StackIsChain(refs, root, stack, path, onPath);
    forall k: nat | k < |path| - 1 ensures ComesFirst(refs, path, k) {
      assert FrameOk(refs, stack, k);
      CleanBehind(refs, stack, k);
    }
  }

  lemma CleanBehind(refs: References, stack: seq<Frame>, k: nat)
    requires k < |stack| <= MAX_CHECK_DEPTH + 1 && FrameOk(refs, stack, k)
    requires k < |stack| - 1 || |stack| <= MAX_CHECK_DEPTH
    ensures forall j :: 0 <= j < Behind(stack, k) ==> CleanBelow(refs, Of(refs, stack[k].0)[j], 19 - k)
  {
    hide Explored, Shallow;
    forall j | 0 <= j < Behind(stack, k) ensures CleanBelow(refs, Of(refs, stack[k].0)[j], 19 - k) {
      ExploredIsShallow(refs, Of(refs, stack[k].0)[j], 19 - k);
    }
  }

  // ---- Termination: nodes are walked again, but the tree below the depth bound is finite ----

  ghost function Work(refs: References, n: Id, d: nat): nat
    decreases d, 1, 0
  {
    2 + if d == 0 then 0 else WorkFrom(refs, Of(refs, n), d - 1)
  }

  ghost function WorkFrom(refs: References, children: seq<Id>, d: nat): nat
    decreases d, 2, |children|
  {
    if children == [] then 0 else Work(refs, children[0], d) + WorkFrom(refs, children[1..], d)
  }

  ghost function FrameWork(refs: References, f: Frame, d: nat): nat {
    1 + if d == 0 || f.1 > |Of(refs, f.0)| then 0 else WorkFrom(refs, Of(refs, f.0)[f.1..], d - 1)
  }

  ghost function TotalWork(refs: References, stack: seq<Frame>): nat
    requires |stack| <= MAX_CHECK_DEPTH + 1
  {
    if stack == [] then 0
    else TotalWork(refs, stack[..|stack| - 1]) + FrameWork(refs, stack[|stack| - 1], MAX_CHECK_DEPTH - (|stack| - 1))
  }

  lemma DescendingIsWork(refs: References, stack: seq<Frame>)
    requires 0 < |stack| <= MAX_CHECK_DEPTH
    requires var f := stack[|stack| - 1]; f.1 < |Of(refs, f.0)|
    ensures TotalWork(refs, Descended(refs, stack)) < TotalWork(refs, stack)
  {
    var k := |stack| - 1;
    var f := stack[k];
    var children := Of(refs, f.0);
    var child := children[f.1];
    var advanced := stack[k := (f.0, f.1 + 1)];
    assert children[f.1..][1..] == children[f.1 + 1..];
    assert advanced[..k] == stack[..k];
    var deeper := Descended(refs, stack);
    assert deeper[..|deeper| - 1] == advanced;
    assert Of(refs, child)[0..] == Of(refs, child);
    var d := MAX_CHECK_DEPTH - k;
    assert FrameWork(refs, (child, 0), d - 1) == Work(refs, child, d - 1) - 1;
    assert FrameWork(refs, f, d) == FrameWork(refs, (f.0, f.1 + 1), d) + Work(refs, child, d - 1);
    assert TotalWork(refs, advanced) == TotalWork(refs, stack[..k]) + FrameWork(refs, (f.0, f.1 + 1), d);
  }

  // ---- The three moves ----

  ghost function Descended(refs: References, stack: seq<Frame>): seq<Frame>
    requires stack != [] && stack[|stack| - 1].1 < |Of(refs, stack[|stack| - 1].0)|
  {
    var k := |stack| - 1;
    stack[k := (stack[k].0, stack[k].1 + 1)] + [(Of(refs, stack[k].0)[stack[k].1], 0)]
  }

  lemma DescendKeeps(refs: References, root: Id, stack: seq<Frame>)
    requires WalkOk(refs, root, stack) && 0 < |stack| <= MAX_CHECK_DEPTH
    requires var f := stack[|stack| - 1]; refs(f.0).Some? && f.1 < |Of(refs, f.0)|
    ensures WalkOk(refs, root, Descended(refs, stack))
  {
    hide Explored;
    var t := Descended(refs, stack);
    forall k | 0 <= k < |t| ensures FrameOk(refs, t, k) {
      if k < |stack| { assert FrameOk(refs, stack, k); }
    }
  }

  lemma AscendKeeps(refs: References, root: Id, stack: seq<Frame>)
    requires WalkOk(refs, root, stack) && 0 < |stack| <= MAX_CHECK_DEPTH
    requires var f := stack[|stack| - 1]; refs(f.0).Some? && f.1 >= |Of(refs, f.0)|
    ensures WalkOk(refs, root, stack[..|stack| - 1])
  {
    var top := |stack| - 1;
    var n := stack[top].0;
    assert FrameOk(refs, stack, top);
    forall c | c in Of(refs, n) ensures Explored(refs, c, MAX_CHECK_DEPTH - top - 1) {
      var i :| 0 <= i < |Of(refs, n)| && Of(refs, n)[i] == c;
    }
    assert Explored(refs, n, MAX_CHECK_DEPTH - top);
    AscendFrames(refs, root, stack);
  }

  lemma AscendFrames(refs: References, root: Id, stack: seq<Frame>)
    requires WalkOk(refs, root, stack) && 0 < |stack| <= MAX_CHECK_DEPTH
    requires Explored(refs, stack[|stack| - 1].0, MAX_CHECK_DEPTH - |stack| + 1)
    ensures WalkOk(refs, root, stack[..|stack| - 1])
  {
    hide Explored;
    var top := |stack| - 1;
    var t := stack[..top];
    forall k | 0 <= k < |t| ensures FrameOk(refs, t, k) {
      assert FrameOk(refs, stack, k);
      if k == |t| - 1 {
        forall i | 0 <= i < Behind(t, k) ensures Explored(refs, Of(refs, t[k].0)[i], MAX_CHECK_DEPTH - k - 1) {
          if i == stack[k].1 - 1 { assert Of(refs, t[k].0)[i] == stack[top].0; }
        }
      }
    }
  }

  lemma PopInStep(stack: seq<Frame>, path: seq<Id>, onPath: set<Id>)
    requires InStep(stack, path, onPath) && stack != []
    ensures InStep(stack[..|stack| - 1], path[..|path| - 1], onPath - {stack[|stack| - 1].0})
  {
    var k := |path| - 1;
    assert path == path[..k] + [path[k]];
    assert path[k] !in path[..k];
  }

  lemma PushInStep(stack: seq<Frame>, path: seq<Id>, onPath: set<Id>, child: Id)
    requires InStep(stack, path, onPath) && stack != [] && child !in onPath
    ensures var k := |stack| - 1;
            InStep(stack[k := (stack[k].0, stack[k].1 + 1)] + [(child, 0)], path + [child], onPath + {child})
  {}

  ghost predicate CleanBelow(refs: References, n: Id, d: int) { d >= 0 && Shallow(refs, n, d) }

  /** The references before the one taken lead to nothing wrong. */
  ghost predicate ComesFirst(refs: References, path: seq<Id>, k: nat)
    requires k < |path| - 1
  {
    var children := Of(refs, path[k]);
    exists i :: 0 <= i < |children| && children[i] == path[k + 1]
                && forall j :: 0 <= j < i ==> CleanBelow(refs, children[j], 19 - k)
  }

  /** The path leads from the root to the first thing wrong, in the order in which references are listed. */
  ghost predicate FirstFound(refs: References, root: Id, path: seq<Id>) {
    IsChain(refs, path) && path[0] == root && forall k: nat :: k < |path| - 1 ==> ComesFirst(refs, path, k)
  }

  /** What each verdict shows. */
  ghost predicate Justified(refs: References, root: Id, verdict: Verdict) {
    match verdict
    case Clean => Shallow(refs, root, 20)
    case Cycle(path) => FirstFound(refs, root, path) && Closes(refs, path) && |path| <= 21 && NoDup(path[..|path| - 1])
    case TooDeep(path) => FirstFound(refs, root, path) && |path| == 21 && NoDup(path)
    case StoreFailed(path) =>
      FirstFound(refs, root, path) && |path| <= 20 && NoDup(path) && refs(path[|path| - 1]).None?
  }

  lemma RefusalsAreRight(refs: References, root: Id, verdict: Verdict)
    requires Justified(refs, root, verdict)
    ensures verdict.Clean? <==> Shallow(refs, root, 20)
  {
    ExploredIsShallow(refs, root, MAX_CHECK_DEPTH);
    if verdict.Cycle? { ClosingIsNotShallow(refs, verdict.path, MAX_CHECK_DEPTH); }
  }

  // ---- There is one verdict ----

  /** Where a refusal ends: nothing on the way there is clean below. */
  ghost predicate Refused(refs: References, path: seq<Id>) {
    && IsChain(refs, path) && |path| <= 21
    && (|path| == 21 || Closes(refs, path) || refs(path[|path| - 1]).None?)
  }

  lemma ChainParts(refs: References, p: seq<Id>, k: nat)
    requires IsChain(refs, p) && k < |p|
    ensures IsChain(refs, p[k..]) && IsChain(refs, p[..k + 1])
  {
    var s := p[k..];
    forall i | 0 <= i < |s| - 1 ensures s[i + 1] in Of(refs, s[i]) { assert p[k + i + 1] in Of(refs, p[k + i]); }
  }

  lemma ChainsJoin(refs: References, p: seq<Id>, q: seq<Id>)
    requires IsChain(refs, p) && IsChain(refs, q) && p[|p| - 1] == q[0]
    ensures IsChain(refs, p + q[1..])
  {
    var r := p + q[1..];
    forall i | 0 <= i < |r| - 1 ensures r[i + 1] in Of(refs, r[i]) {
      if i >= |p| - 1 { assert q[i - |p| + 2] in Of(refs, q[i - |p| + 1]) && r[i] == q[i - |p| + 1]; }
    }
  }

  lemma RefusedIsNotClean(refs: References, path: seq<Id>, k: nat)
    requires Refused(refs, path) && k < |path| && 0 < k
    ensures !CleanBelow(refs, path[k], 20 - k)
  {
    hide Explored, Closes, IsChain;
    if k <= 20 {
      ChainParts(refs, path, k);
      var s := path[k..];
      assert s[0] == path[k] && s[|s| - 1] == path[|path| - 1];
      if Closes(refs, path) { ClosesBelow(refs, path, k, 20 - k); }
    }
  }

  lemma ClosesBelow(refs: References, path: seq<Id>, k: nat, d: nat)
    requires Closes(refs, path) && k < |path|
    ensures !Shallow(refs, path[k], d)
  {
    hide Explored, IsChain, Shallow;
    ExploredIsShallow(refs, path[k], d);
    ChainParts(refs, path, k);
    var s := path[k..];
    var j :| 0 <= j < |path| - 1 && path[j] == path[|path| - 1];
    if j >= k {
      assert s[j - k] == s[|s| - 1];
      ClosingIsNotShallow(refs, s, d);
    } else {
      GoesRound(refs, path, j, k);
      NoLoopBelow(refs, s + path[j..k + 1][1..], d);
    }
  }

  lemma GoesRound(refs: References, path: seq<Id>, j: nat, k: nat)
    requires IsChain(refs, path) && j < k < |path| && path[j] == path[|path| - 1]
    ensures var loop := path[k..] + path[j..k + 1][1..];
            IsChain(refs, loop) && |loop| > 1 && loop[0] == path[k] == loop[|loop| - 1]
  {
    ChainParts(refs, path, k);
    ChainParts(refs, path[..k + 1], j);
    assert path[..k + 1][j..] == path[j..k + 1];
    ChainsJoin(refs, path[k..], path[j..k + 1]);
  }

  lemma RefusedPath(refs: References, root: Id, verdict: Verdict)
    requires Justified(refs, root, verdict) && !verdict.Clean?
    ensures Refused(refs, verdict.path) && FirstFound(refs, root, verdict.path)
  {
    hide FirstFound, Closes;
    FirstIsChain(refs, root, verdict.path);
  }

  lemma FirstIsChain(refs: References, root: Id, path: seq<Id>)
    requires FirstFound(refs, root, path)
    ensures IsChain(refs, path) && path[0] == root
  {}

  /** Two first refusals do not part. */
  lemma {:induction false} SameWay(refs: References, root: Id, p: seq<Id>, q: seq<Id>, k: nat)
    requires FirstFound(refs, root, p) && FirstFound(refs, root, q) && Refused(refs, p) && Refused(refs, q)
    requires k < |p| && k < |q|
    ensures p[..k + 1] == q[..k + 1]
  {
    hide Refused, CleanBelow, IsChain;
    if k == 0 {
      assert p[0] == root == q[0];
    } else {
      SameWay(refs, root, p, q, k - 1);
      assert p[k - 1] == p[..k][k - 1] == q[k - 1];
      assert ComesFirst(refs, p, k - 1) && ComesFirst(refs, q, k - 1);
      RefusedIsNotClean(refs, p, k);
      RefusedIsNotClean(refs, q, k);
      assert p[k] == q[k];
      assert p[..k + 1] == p[..k] + [p[k]] && q[..k + 1] == q[..k] + [q[k]];
    }
  }

  /** A refusal does not go on. */
  lemma NoLonger(refs: References, root: Id, v: Verdict, w: Verdict)
    requires Justified(refs, root, v) && Justified(refs, root, w) && !v.Clean? && !w.Clean?
    ensures |v.path| < |w.path| ==> v.path != w.path[..|v.path|]
  {
    hide FirstFound, Closes;
    FirstIsChain(refs, root, v.path);
    FirstIsChain(refs, root, w.path);
    if |v.path| < |w.path| && v.path == w.path[..|v.path|] { GoesOn(refs, v.path, w.path); }
  }

  lemma GoesOn(refs: References, p: seq<Id>, q: seq<Id>)
    requires IsChain(refs, q) && 0 < |p| < |q| && p == q[..|p|]
    ensures refs(p[|p| - 1]).Some?
    ensures Closes(refs, p) ==> !NoDup(q[..|q| - 1])
  {
    var k := |p| - 1;
    assert q[k + 1] in Of(refs, q[k]) && p[k] == q[k];
    if Closes(refs, p) {
      var j :| 0 <= j < k && p[j] == p[k];
      assert q[..|q| - 1][j] == q[..|q| - 1][k];
    }
  }

  lemma SamePath(refs: References, root: Id, v: Verdict, w: Verdict)
    requires Justified(refs, root, v) && Justified(refs, root, w) && !v.Clean? && !w.Clean?
    ensures v.path == w.path
  {
    hide Justified, Refused, FirstFound;
    var p, q := v.path, w.path;
    RefusedPath(refs, root, v);
    RefusedPath(refs, root, w);
    FirstIsChain(refs, root, p);
    FirstIsChain(refs, root, q);
    var k := if |p| <= |q| then |p| - 1 else |q| - 1;
    SameWay(refs, root, p, q, k);
    assert p[..|p|] == p && q[..|q|] == q;
    if |p| < |q| { NoLonger(refs, root, v, w); }
    if |q| < |p| { NoLonger(refs, root, w, v); }
  }

  /** The references and the store's answers leave one verdict, with one path. */
  lemma VerdictIsUnique(refs: References, root: Id, v: Verdict, w: Verdict)
    requires Justified(refs, root, v) && Justified(refs, root, w)
    ensures v == w
  {
    RefusalsAreRight(refs, root, v);
    RefusalsAreRight(refs, root, w);
    if !v.Clean? && !w.Clean? {
      SamePath(refs, root, v, w);
      SameKind(refs, root, v, w);
    }
  }

  lemma SameKind(refs: References, root: Id, v: Verdict, w: Verdict)
    requires Justified(refs, root, v) && Justified(refs, root, w) && !v.Clean? && !w.Clean? && v.path == w.path
    ensures v == w
  {
    hide FirstFound;
    var p := v.path;
    if Closes(refs, p) {
      var j :| 0 <= j < |p| - 1 && p[j] == p[|p| - 1];
      assert !NoDup(p);
    }
  }

  /** A clean verdict rules out every reference cycle that can be reached, however long. */
  lemma CleanMeansNoCycle(refs: References, root: Id, p: seq<Id>)
    requires Shallow(refs, root, 20) && IsChain(refs, p) && p[0] == root
    ensures NoDup(p)
  {
    ExploredIsShallow(refs, root, MAX_CHECK_DEPTH);
    forall i, j | 0 <= i < j < |p| ensures p[i] != p[j] {
      if p[i] == p[j] {
        var q := p[..j + 1];
        assert IsChain(refs, q);
        assert q[i] == q[|q| - 1];
        ClosingIsNotShallow(refs, q, MAX_CHECK_DEPTH);
      }
    }
  }

  /** The answers of the store so far, one lookup per workflow. */
  ghost predicate Cached(refs: References, visited: map<Id, seq<Id>>) {
    forall n :: n in visited ==> refs(n) == Some(visited[n])
  }

  lemma DepthReached(refs: References, root: Id, stack: seq<Frame>, path: seq<Id>, onPath: set<Id>)
    requires WalkOk(refs, root, stack) && InStep(stack, path, onPath) && |path| > MAX_CHECK_DEPTH
    ensures Justified(refs, root, TooDeep(path))
  {
    hide Explored, FirstFound;
    StackIsFirst(refs, root, stack, path, onPath);
  }

  lemma CycleFound(refs: References, root: Id, stack: seq<Frame>, path: seq<Id>, onPath: set<Id>)
    requires WalkOk(refs, root, stack) && InStep(stack, path, onPath) && 0 < |path| <= MAX_CHECK_DEPTH
    requires var f := stack[|stack| - 1]; f.1 < |Of(refs, f.0)| && Of(refs, f.0)[f.1] in onPath
    ensures var f := stack[|stack| - 1]; Justified(refs, root, Cycle(path + [Of(refs, f.0)[f.1]]))
  {
    hide Explored, FrameOk, ComesFirst, WalkOk;
    var f := stack[|path| - 1];
    var child := Of(refs, f.0)[f.1];
    var p := path + [child];
    StackIsFirst(refs, root, stack, path, onPath);
    ChainGrows(refs, path, child);
    var j :| 0 <= j < |path| && path[j] == child;
    assert p[j] == p[|p| - 1] && p[..|p| - 1] == path;
    forall k: nat | k < |p| - 1 ensures ComesFirst(refs, p, k) {
      if k < |path| - 1 { StillFirst(refs, path, child, k); } else { LastIsFirst(refs, root, stack, path, onPath); }
    }
  }

  lemma ChainGrows(refs: References, path: seq<Id>, child: Id)
    requires IsChain(refs, path) && child in Of(refs, path[|path| - 1])
    ensures IsChain(refs, path + [child])
  {}

  lemma StillFirst(refs: References, path: seq<Id>, child: Id, k: nat)
    requires k < |path| - 1 && ComesFirst(refs, path, k)
    ensures ComesFirst(refs, path + [child], k)
  {
    hide CleanBelow;
  }

  lemma LastIsFirst(refs: References, root: Id, stack: seq<Frame>, path: seq<Id>, onPath: set<Id>)
    requires WalkOk(refs, root, stack) && InStep(stack, path, onPath) && 0 < |path| <= MAX_CHECK_DEPTH
    requires var f := stack[|stack| - 1]; f.1 < |Of(refs, f.0)|
    ensures var f := stack[|stack| - 1]; ComesFirst(refs, path + [Of(refs, f.0)[f.1]], |path| - 1)
  {
    hide Explored, FrameOk, CleanBelow, WalkOk;
    TopIsBehind(refs, root, stack);
    CleanBehind(refs, stack, |path| - 1) by { WalkIsShort(refs, root, stack); }
  }

  lemma WalkIsShort(refs: References, root: Id, stack: seq<Frame>)
    requires WalkOk(refs, root, stack)
    ensures |stack| <= MAX_CHECK_DEPTH + 1
  {
    hide FrameOk, Explored;
  }

  lemma TopIsBehind(refs: References, root: Id, stack: seq<Frame>)
    requires WalkOk(refs, root, stack) && stack != []
    ensures FrameOk(refs, stack, |stack| - 1) && Behind(stack, |stack| - 1) == stack[|stack| - 1].1
  {
    hide FrameOk, Explored;
  }

  /** The workflow being saved answers with its new references, the store for all others. */
  ghost predicate AsksItself(refs: References, stored: References, newId: Id, newRefs: seq<Id>) {
    refs(newId) == Some(newRefs) && forall n :: n != newId ==> refs(n) == stored(n)
  }

  method CheckSubWorkflowCycle(stored: References, newId: Id, newRefs: seq<Id>) returns (verdict: Verdict)
    ensures Justified(WithNew(stored, newId, newRefs), newId, verdict)
    ensures exists refs: References :: AsksItself(refs, stored, newId, newRefs) && Justified(refs, newId, verdict)
  {
    hide WalkOk, InStep, Justified, TotalWork, Explored, IsChain, Cached;
    ghost var refs := WithNew(stored, newId, newRefs);
    assert AsksItself(refs, stored, newId, newRefs);
    var visited := map[newId := newRefs];
    var path := [newId];
    var onPath := {newId};
    var stack: seq<Frame> := [(newId, 0)];
    Begin(stored, newId, newRefs);
    while stack != []
      invariant |stack| <= MAX_CHECK_DEPTH + 1
      invariant WalkOk(refs, newId, stack) && InStep(stack, path, onPath)
      invariant Cached(refs, visited) && newId in visited
      decreases TotalWork(refs, stack)
    {
      Shape(refs, newId, stack, path, onPath);
      var top := |stack| - 1;
      var cur, idx := stack[top].0, stack[top].1;
      if |path| > MAX_CHECK_DEPTH {
        DepthReached(refs, newId, stack, path, onPath);
        return TooDeep(path);
      }
      if cur !in visited {
        var answer := stored(cur);
        Looked(stored, newId, newRefs, visited, cur);
        if answer.None? {
          LookupFailed(refs, newId, stack, path, onPath);
          return StoreFailed(path);
        }
        visited := visited[cur := answer.value];
      }
      CachedAt(refs, visited, cur);
      var children := visited[cur];
      if idx >= |children| {
        AscendKeeps(refs, newId, stack);
        PopInStep(stack, path, onPath);
        PoppedIsLess(refs, stack);
        stack, path, onPath := stack[..top], path[..top], onPath - {cur};
      } else {
        var child := children[idx];
        if child in onPath {
          CycleFound(refs, newId, stack, path, onPath);
          return Cycle(path + [child]);
        }
        DescendKeeps(refs, newId, stack);
        DescendingIsWork(refs, stack);
        PushInStep(stack, path, onPath, child);
        stack, path, onPath := stack[top := (cur, idx + 1)] + [(child, 0)], path + [child], onPath + {child};
      }
    }
    Ended(refs, newId);
    verdict := Clean;
  }

  lemma Begin(stored: References, newId: Id, newRefs: seq<Id>)
    ensures var refs := WithNew(stored, newId, newRefs);
            WalkOk(refs, newId, [(newId, 0)]) && InStep([(newId, 0)], [newId], {newId})
            && Cached(refs, map[newId := newRefs])
  {
    hide Explored;
  }

  lemma Shape(refs: References, root: Id, stack: seq<Frame>, path: seq<Id>, onPath: set<Id>)
    requires WalkOk(refs, root, stack) && InStep(stack, path, onPath) && stack != []
    ensures |path| == |stack| && path[|path| - 1] == stack[|stack| - 1].0
    ensures stack[|stack| - 1].1 <= |Of(refs, stack[|stack| - 1].0)|
  {
    hide Explored;
    assert FrameOk(refs, stack, |stack| - 1);
  }

  lemma Looked(stored: References, newId: Id, newRefs: seq<Id>, visited: map<Id, seq<Id>>, cur: Id)
    requires var refs := WithNew(stored, newId, newRefs); Cached(refs, visited) && newId in visited && cur !in visited
    ensures var refs := WithNew(stored, newId, newRefs);
            refs(cur) == stored(cur) && (stored(cur).Some? ==> Cached(refs, visited[cur := stored(cur).value]))
  {}

  lemma CachedAt(refs: References, visited: map<Id, seq<Id>>, n: Id)
    requires Cached(refs, visited) && n in visited
    ensures refs(n) == Some(visited[n]) && Of(refs, n) == visited[n]
  {}

  lemma LookupFailed(refs: References, root: Id, stack: seq<Frame>, path: seq<Id>, onPath: set<Id>)
    requires WalkOk(refs, root, stack) && InStep(stack, path, onPath) && 0 < |path| <= MAX_CHECK_DEPTH
    requires refs(stack[|stack| - 1].0).None?
    ensures Justified(refs, root, StoreFailed(path))
  {
    hide Explored, FirstFound;
    StackIsFirst(refs, root, stack, path, onPath);
  }

  lemma PoppedIsLess(refs: References, stack: seq<Frame>)
    requires 0 < |stack| <= MAX_CHECK_DEPTH + 1
    ensures TotalWork(refs, stack[..|stack| - 1]) < TotalWork(refs, stack)
  {}

  lemma Ended(refs: References, root: Id)
    requires WalkOk(refs, root, [])
    ensures Justified(refs, root, Clean)
  {
    ExploredIsShallow(refs, root, MAX_CHECK_DEPTH);
  }
}
