/** Which trees the parser builds, and that printing one never costs depth or tokens. */
module ExpressionImage {
  import opened Wrappers
  import opened Workflows
  import opened Expressions
  import opened ExpressionPrinter

  /** What is known of a tree read off `used` tokens where an operand of level `l` was expected. */
  ghost predicate Sound(e: Expr, l: nat, used: int, depth: nat) {
    Image(e) && depth + Need(e, l) <= MAX_PARSE_DEPTH && |Show(e, l)| <= used
  }

  /** A result is sound for the tokens it took. */
  ghost predicate SoundResult(p: Parsed, l: nat, total: nat, depth: nat) {
    p.Got? ==> Sound(p.e, l, total - |p.rest|, depth)
  }

  lemma Looser(e: Expr, l: nat, used: int, depth: nat)
    requires Sound(e, l + 1, used, depth)
    ensures Sound(e, l, used, depth)
  {}

  lemma AtLevel(e: Expr)
    ensures Show(e, LevelOfExpr(e)) == Bare(e) && Need(e, LevelOfExpr(e)) == NeedBare(e)
    ensures Show(e, OR) == Bare(e) && Need(e, OR) == NeedBare(e)
    ensures |Show(e, ATOM)| <= |Bare(e)| + 2 && Need(e, ATOM) <= NeedBare(e) + 1
  {}

  lemma OpHasLevel(l: nat, t: Token)
    requires OpAt(l, t).Some?
    ensures LevelOf(OpAt(l, t).value) == l
  {}

  lemma BinaryIsSound(op: BinOp, a: Expr, b: Expr, ua: int, ub: int, depth: nat)
    requires Sound(a, LeftLevel(LevelOf(op)), ua, depth) && Sound(b, LevelOf(op) + 1, ub, depth)
    ensures Sound(Binary(op, a, b), LevelOf(op), ua + 1 + ub, depth)
  {
    hide Show, Need, Bare, NeedBare;
    var e := Binary(op, a, b);
    BareBinary(e);
    AtLevel(e);
  }

  lemma UnaryIsSound(un: UnOp, x: Expr, used: int, depth: nat)
    requires Sound(x, if un.Not? then NOT else UNARY, used, depth + 1)
    ensures Sound(Unary(un, x), if un.Not? then NOT else UNARY, used + 1, depth)
  {
    hide Show, Need;
    var e := Unary(un, x);
    AtLevel(e);
  }

  lemma {:induction false} WholeSound(toks: seq<Token>, depth: nat)
    requires depth <= MAX_PARSE_DEPTH
    ensures SoundResult(ParseOr(toks, depth), OR, |toks|, depth + 1)
    decreases |toks|, 12
  {
    hide Parse, Sound;
    if depth + 1 <= MAX_PARSE_DEPTH { ParseSound(OR, toks, depth + 1); }
  }

  lemma {:induction false} ParseSound(l: nat, toks: seq<Token>, depth: nat)
    requires l <= ATOM && depth <= MAX_PARSE_DEPTH
    ensures SoundResult(Parse(l, toks, depth), l, |toks|, depth)
    decreases |toks|, 11 - l
  {
    hide Sound, ParseAtom, ParsePrefixed, Tail;
    if IsChain(l) {
      ParseSound(l + 1, toks, depth);
      var first := Parse(l + 1, toks, depth);
      if first.Got? {
        Looser(first.e, l, |toks| - |first.rest|, depth);
        TailSound(l, first.e, first.rest, |toks|, depth);
      }
    } else if l == CMP {
      ComparisonSound(toks, depth);
    } else if l == ATOM {
      AtomSound(toks, depth);
    } else if StartsWith(toks, Bang) && l == NOT {
      PrefixSound(NOT, Some(Not), toks, depth);
    } else if StartsWith(toks, Minus) && l == UNARY {
      PrefixSound(UNARY, Some(Neg), toks, depth);
    } else if StartsWith(toks, Plus) && l == UNARY {
      PrefixSound(UNARY, None, toks, depth);
    } else {
      ParseSound(l + 1, toks, depth);
      var p := Parse(l + 1, toks, depth);
      if p.Got? { Looser(p.e, l, |toks| - |p.rest|, depth); }
    }
  }

  lemma {:induction false} ComparisonSound(toks: seq<Token>, depth: nat)
    requires depth <= MAX_PARSE_DEPTH
    ensures SoundResult(Parse(CMP, toks, depth), CMP, |toks|, depth)
    decreases |toks|, 8, 0
  {
    hide Sound, Parse;
    ParseUnfoldCmp(toks, depth);
    ParseSound(ADD, toks, depth);
    var first := Parse(ADD, toks, depth);
    if first.Got? {
      if NextOp(CMP, first.rest).Some? {
        ParseSound(ADD, first.rest[1..], depth);
        var second := Parse(ADD, first.rest[1..], depth);
        OpHasLevel(CMP, first.rest[0]);
        if second.Got? {
          BinaryIsSound(NextOp(CMP, first.rest).value, first.e, second.e,
                        |toks| - |first.rest|, |first.rest| - 1 - |second.rest|, depth);
        }
      } else {
        Looser(first.e, CMP, |toks| - |first.rest|, depth);
      }
    }
  }

  lemma {:induction false} PrefixSound(l: nat, un: Option<UnOp>, toks: seq<Token>, depth: nat)
    requires toks != [] && depth <= MAX_PARSE_DEPTH
    requires (l == NOT && un == Some(Not)) || (l == UNARY && (un == Some(Neg) || un == None))
    ensures SoundResult(ParsePrefixed(l, un, toks, depth), l, |toks|, depth)
    decreases |toks|, 0
  {
    hide Parse, Sound;
    if depth + 1 <= MAX_PARSE_DEPTH {
      ParseSound(l, toks[1..], depth + 1);
      var inner := Parse(l, toks[1..], depth + 1);
      if inner.Got? {
        if un.Some? { UnaryIsSound(un.value, inner.e, |toks| - 1 - |inner.rest|, depth); }
        else { Shallower(inner.e, l, |toks| - 1 - |inner.rest|, depth); }
      }
    }
  }

  lemma Shallower(e: Expr, l: nat, used: int, depth: nat)
    requires Sound(e, l, used, depth + 1)
    ensures Sound(e, l, used + 1, depth)
  {
    hide Show, Need, Image;
  }

  lemma {:induction false} TailSound(l: nat, lhs: Expr, toks: seq<Token>, total: nat, depth: nat)
    requires IsChain(l) && depth <= MAX_PARSE_DEPTH && |toks| <= total && Sound(lhs, l, total - |toks|, depth)
    ensures SoundResult(Tail(l, lhs, toks, depth), l, total, depth)
    decreases |toks|, 0
  {
    hide Parse, Sound;
    if NextOp(l, toks).Some? {
      ParseSound(l + 1, toks[1..], depth);
      var next := Parse(l + 1, toks[1..], depth);
      if next.Got? {
        OpHasLevel(l, toks[0]);
        var op := NextOp(l, toks).value;
        BinaryIsSound(op, lhs, next.e, total - |toks|, |toks| - 1 - |next.rest|, depth);
        TailSound(l, Binary(op, lhs, next.e), next.rest, total, depth);
      }
    }
  }

  lemma {:induction false} AtomSound(toks: seq<Token>, depth: nat)
    requires depth <= MAX_PARSE_DEPTH
    ensures SoundResult(Parse(ATOM, toks, depth), ATOM, |toks|, depth)
    decreases |toks|, 3
  {
    hide ParseOr, ParseArgs, ParsePath, Sound;
    if toks != [] {
      match toks[0]
      case LParen =>
        WholeSound(toks[1..], depth);
        var inner := ParseOr(toks[1..], depth);
        if inner.Got? { ParenthesesSound(inner.e, |toks| - 1 - |inner.rest|, depth); }
      case Dollar =>
        PathSound([], toks[1..], |toks|, depth);
      case Ident(name) =>
        if |toks| > 1 && toks[1] == LParen {
          EmptyCallSound(name, depth);
          ArgsSound(name, [], toks[2..], |toks|, depth);
        }
      case _ => LiteralsSound(toks, depth);
    }
  }

  lemma ParenthesesSound(e: Expr, used: int, depth: nat)
    requires Sound(e, OR, used, depth + 1)
    ensures Sound(e, ATOM, used + 2, depth)
  {
    hide Show, Need, Bare, NeedBare, Image;
    AtLevel(e);
  }

  lemma EmptyCallSound(name: string, depth: nat)
    requires depth <= MAX_PARSE_DEPTH
    ensures Sound(Call(name, []), ATOM, 3, depth)
  {}

  lemma LiteralsSound(toks: seq<Token>, depth: nat)
    requires toks != [] && depth <= MAX_PARSE_DEPTH && !toks[0].LParen? && !toks[0].Dollar? && !toks[0].Ident?
    ensures SoundResult(ParseAtom(toks, depth), ATOM, |toks|, depth)
  {}

  lemma {:induction false} StepsAppend(steps: seq<PathStep>, step: PathStep)
    ensures StepsTokens(steps + [step]) == StepsTokens(steps) + StepTokens(step)
  {
    if steps == [] {
      assert steps + [step] == [step];
    } else {
      StepsAppend(steps[1..], step);
      assert (steps + [step])[1..] == steps[1..] + [step];
    }
  }

  ghost predicate StepsSound(steps: seq<PathStep>, used: int) {
    (forall s :: s in steps ==> StepOk(s)) && 1 + |StepsTokens(steps)| <= used
  }

  lemma {:induction false} PathSound(steps: seq<PathStep>, toks: seq<Token>, total: nat, depth: nat)
    requires depth <= MAX_PARSE_DEPTH && |toks| < total && StepsSound(steps, total - |toks|)
    ensures SoundResult(ParsePath(steps, toks), ATOM, total, depth)
    decreases |toks|
  {
    hide StepsTokens, IsIndex, StepOk;
    if StartsWith(toks, Dot) {
      if |toks| > 1 && toks[1].Ident? { OneStepOn(steps, Field(toks[1].name), toks, 2, total, depth); }
    } else if StartsWith(toks, LBracket) && |toks| > 1 && StartsWith(toks[2..], RBracket) {
      if toks[1].Number? && IsIndex(toks[1].n) {
        IndexOk(toks[1].n);
        OneStepOn(steps, Index(IndexOf(toks[1].n)), toks, 3, total, depth);
      } else if toks[1].Str? {
        OneStepOn(steps, Key(toks[1].s), toks, 3, total, depth);
      }
    } else {
      PathNodeSound(steps, total - |toks|, depth);
    }
  }

  lemma IndexOk(n: real)
    requires IsIndex(n)
    ensures StepOk(Index(IndexOf(n)))
  {}

  lemma PathNodeSound(steps: seq<PathStep>, used: int, depth: nat)
    requires StepsSound(steps, used) && depth <= MAX_PARSE_DEPTH
    ensures Sound(Path(steps), ATOM, used, depth)
  {
    hide StepsTokens, StepOk;
    var e := Path(steps);
    assert Image(e);
    assert Bare(e) == [Dollar] + StepsTokens(steps) && NeedBare(e) == 0;
    assert Show(e, ATOM) == Bare(e) && Need(e, ATOM) == 0;
  }

  lemma {:induction false} OneStepOn(steps: seq<PathStep>, step: PathStep, toks: seq<Token>, k: nat, total: nat, depth: nat)
    requires depth <= MAX_PARSE_DEPTH && |toks| < total && StepsSound(steps, total - |toks|)
    requires 2 <= k <= |toks| && |StepTokens(step)| == k && (step.Index? ==> StepOk(step))
    ensures SoundResult(ParsePath(steps + [step], toks[k..]), ATOM, total, depth)
    decreases |toks|, 0
  {
    hide StepTokens, StepsTokens;
    StepsAppend(steps, step);
    PathSound(steps + [step], toks[k..], total, depth);
  }

  lemma {:induction false} ArgsAppend(args: seq<Expr>, e: Expr)
    requires args != []
    ensures |ArgsTokens(args + [e])| == |ArgsTokens(args)| + |Show(e, OR)| + 1
    ensures NeedArgs(args + [e]) == Max(NeedArgs(args), 1 + NeedBare(e))
    decreases |args|
  {
    hide Show, NeedBare;
    if |args| == 1 {
      assert (args + [e])[1..] == [e];
    } else {
      ArgsAppend(args[1..], e);
      assert (args + [e])[1..] == args[1..] + [e];
    }
  }

  /** The arguments so far, each with the separator or closer behind it. */
  ghost predicate ArgsAreSound(args: seq<Expr>, used: int, depth: nat) {
    && (forall a :: a in args ==> Image(a))
    && (if args == [] then used >= 2
        else depth + NeedArgs(args) <= MAX_PARSE_DEPTH && 2 + |ArgsTokens(args)| <= used)
  }

  lemma OneArgOn(args: seq<Expr>, e: Expr, used: int, more: int, depth: nat)
    requires ArgsAreSound(args, used, depth) && Sound(e, OR, more, depth + 1)
    ensures ArgsAreSound(args + [e], used + more + 1, depth)
  {
    hide Show, Image, Bare, NeedBare;
    AtLevel(e);
    if args == [] { assert args + [e] == [e]; } else { ArgsAppend(args, e); }
  }

  lemma CallNodeSound(name: string, args: seq<Expr>, used: int, depth: nat)
    requires ArgsAreSound(args, used, depth) && args != []
    ensures Sound(Call(name, args), ATOM, used, depth)
  {
    hide ArgsTokens, NeedArgs;
    var e := Call(name, args);
    assert Image(e);
    assert Bare(e) == [Ident(name), LParen] + ArgsTokens(args) && NeedBare(e) == NeedArgs(args);
    assert Show(e, ATOM) == Bare(e) && Need(e, ATOM) == NeedBare(e);
  }

  lemma {:induction false} ArgsSound(name: string, args: seq<Expr>, toks: seq<Token>, total: nat, depth: nat)
    requires depth <= MAX_PARSE_DEPTH && |toks| <= total && ArgsAreSound(args, total - |toks|, depth)
    ensures SoundResult(ParseArgs(name, args, toks, depth), ATOM, total, depth)
    decreases |toks|, 13
  {
    hide ParseOr, Sound, ArgsAreSound;
    WholeSound(toks, depth);
    var arg := ParseOr(toks, depth);
    if arg.Got? && (StartsWith(arg.rest, Comma) || StartsWith(arg.rest, RParen)) {
      OneArgOn(args, arg.e, total - |toks|, |toks| - |arg.rest|, depth);
      if StartsWith(arg.rest, Comma) {
        ArgsSound(name, args + [arg.e], arg.rest[1..], total, depth);
      } else {
        CallNodeSound(name, args + [arg.e], total - |arg.rest| + 1, depth);
      }
    }
  }

  // ---- Size ----

  function Nodes(e: Expr): nat {
    match e
    case Lit(_) => 1
    case Path(steps) => 1 + |steps|
    case Call(_, args) => 1 + NodesOf(args)
    case Unary(_, x) => 1 + Nodes(x)
    case Binary(_, a, b) => 1 + Nodes(a) + Nodes(b)
  }

  function NodesOf(args: seq<Expr>): nat { if args == [] then 0 else Nodes(args[0]) + NodesOf(args[1..]) }

  lemma {:induction false} StepsTakeTokens(steps: seq<PathStep>)
    ensures |StepsTokens(steps)| >= |steps|
  {
    if steps != [] { StepsTakeTokens(steps[1..]); }
  }

  lemma {:induction false} NodesTakeTokens(e: Expr, l: nat)
    ensures Nodes(e) <= |Show(e, l)|
    decreases e, 1
  {
    match e
    case Lit(_) =>
    case Path(steps) => StepsTakeTokens(steps);
    case Call(_, args) => if args != [] { ArgsTakeTokens(args); }
    case Unary(un, x) => NodesTakeTokens(x, if un.Not? then NOT else UNARY);
    case Binary(op, a, b) =>
      NodesTakeTokens(a, LeftLevel(LevelOf(op)));
      NodesTakeTokens(b, LevelOf(op) + 1);
      BareBinary(e);
  }

  lemma {:induction false} ArgsTakeTokens(args: seq<Expr>)
    requires args != []
    ensures NodesOf(args) <= |ArgsTokens(args)|
    decreases args, 0
  {
    NodesTakeTokens(args[0], OR);
    if |args| > 1 { ArgsTakeTokens(args[1..]); }
  }

  // ---- The two theorems ----

  /** Whatever parses: its tree has no more nodes than tokens, prints in no more tokens than it took, and
      the print parses to the same tree. */
  lemma PrintingIsStable(toks: seq<Token>, e: Expr)
    requires ParseTop(toks) == Ok(e)
    ensures Image(e) && DepthOf(e) <= 64
    ensures Nodes(e) <= |Print(e)| <= |toks|
    ensures ParseTop(Print(e)) == Ok(e)
  {
    hide ParseOr, Show, Bare, NeedBare, Need, Image;
    WholeSound(toks, 0);
    AtLevel(e);
    NodesTakeTokens(e, OR);
    ParserInvertsPrinter(e);
  }

  /** The parser builds exactly the trees of the right shape that nest within the bound. */
  lemma ImageIsExact(e: Expr)
    ensures (exists toks :: ParseTop(toks) == Ok(e)) <==> Image(e) && DepthOf(e) <= 64
  {
    hide Image, DepthOf, ParseTop, Print;
    if toks :| ParseTop(toks) == Ok(e) { PrintingIsStable(toks, e); }
    if Image(e) && DepthOf(e) <= MAX_PARSE_DEPTH {
      ParserInvertsPrinter(e);
      assert ParseTop(Print(e)) == Ok(e);
    }
  }
}
