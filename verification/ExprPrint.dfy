/** Minimal-parenthesis printing, and that parsing undoes it. */
module ExpressionPrinter {
  import opened Wrappers
  import opened Workflows
  import opened Expressions

  // ---- Printing ----

  function LevelOf(op: BinOp): (l: nat)
    ensures l == CMP || IsChain(l)
  {
    match op
    case Or => OR
    case And => AND
    case Eq => CMP case Ne => CMP case Less => CMP case Greater => CMP case Le => CMP case Ge => CMP
    case Add => ADD case Sub => ADD
    case Mul => MUL case Div => MUL case Mod => MUL
  }

  function TokenOf(op: BinOp): (t: Token)
    ensures OpAt(LevelOf(op), t) == Some(op)
  {
    match op
    case Or => OrOr case And => AndAnd
    case Eq => EqEq case Ne => NotEq case Less => Lt case Greater => Gt case Le => LtEq case Ge => GtEq
    case Add => Plus case Sub => Minus case Mul => Star case Div => Slash case Mod => Percent
  }

  /** The tightest level at which `e` can stand without parentheses. */
  function LevelOfExpr(e: Expr): (l: nat)
    ensures l <= ATOM
  {
    match e
    case Binary(op, _, _) => LevelOf(op)
    case Unary(Not, _) => NOT
    case Unary(Neg, _) => UNARY
    case _ => ATOM
  }

  /** The level of a left operand: its own for the operators that associate to the left. */
  function LeftLevel(l: nat): nat { if IsChain(l) then l else l + 1 }

  function LiteralToken(v: Json): Token {
    match v
    case JNum(n) => Number(n)
    case JStr(s) => Str(s)
    case JBool(b) => if b then True else False
    case _ => Null
  }

  function StepTokens(step: PathStep): seq<Token> {
    match step
    case Field(name) => [Dot, Ident(name)]
    case Index(i) => [LBracket, Number(i as real), RBracket]
    case Key(key) => [LBracket, Str(key), RBracket]
  }

  function StepsTokens(steps: seq<PathStep>): seq<Token> {
    if steps == [] then [] else StepTokens(steps[0]) + StepsTokens(steps[1..])
  }

  function Bare(e: Expr): (r: seq<Token>)
    decreases e, 0
  {
    match e
    case Lit(v) => [LiteralToken(v)]
    case Path(steps) => [Dollar] + StepsTokens(steps)
    case Call(name, args) => [Ident(name), LParen] + (if args == [] then [RParen] else ArgsTokens(args))
    case Unary(Not, x) => [Bang] + Show(x, NOT)
    case Unary(Neg, x) => [Minus] + Show(x, UNARY)
    case Binary(op, a, b) =>
      var l := LevelOf(op);
      Show(a, LeftLevel(l)) + [TokenOf(op)] + Show(b, l + 1)
  }

  /** `e` where an operand of level `l` is expected. */
  function Show(e: Expr, l: nat): seq<Token>
    decreases e, 1
  {
    if LevelOfExpr(e) >= l then Bare(e) else [LParen] + Bare(e) + [RParen]
  }

  /** The arguments up to and including the closing parenthesis. */
  function ArgsTokens(args: seq<Expr>): seq<Token>
    requires args != []
    decreases args
  {
    if |args| == 1 then Show(args[0], OR) + [RParen]
    else Show(args[0], OR) + [Comma] + ArgsTokens(args[1..])
  }

  function Print(e: Expr): seq<Token> { Show(e, OR) }

  // ---- Trees the parser can build ----

  predicate LiteralOk(v: Json) { v.JNum? || v.JStr? || v.JBool? || v.JNull? }

  predicate StepOk(step: PathStep) { step.Index? ==> step.i <= USIZE_MAX }

  predicate Image(e: Expr) {
    match e
    case Lit(v) => LiteralOk(v)
    case Path(steps) => forall s :: s in steps ==> StepOk(s)
    case Call(_, args) => forall a :: a in args ==> Image(a)
    case Unary(_, x) => Image(x)
    case Binary(_, a, b) => Image(a) && Image(b)
  }

  // ---- How deep the parser has to go ----

  function Max(a: nat, b: nat): nat { if a > b then a else b }

  function NeedBare(e: Expr): nat
    decreases e, 0
  {
    match e
    case Lit(_) => 0
    case Path(_) => 0
    case Call(_, args) => if args == [] then 0 else NeedArgs(args)
    case Unary(Not, x) => 1 + Need(x, NOT)
    case Unary(Neg, x) => 1 + Need(x, UNARY)
    case Binary(op, a, b) => Max(Need(a, LeftLevel(LevelOf(op))), Need(b, LevelOf(op) + 1))
  }

  function Need(e: Expr, l: nat): nat
    decreases e, 1
  {
    if LevelOfExpr(e) >= l then NeedBare(e) else 1 + NeedBare(e)
  }

  function NeedArgs(args: seq<Expr>): nat
    requires args != []
    decreases args
  {
    if |args| == 1 then 1 + NeedBare(args[0]) else Max(1 + NeedBare(args[0]), NeedArgs(args[1..]))
  }

  /** The nesting the whole expression takes. */
  function DepthOf(e: Expr): nat { 1 + NeedBare(e) }

  // ---- Where an operand of level `l` ends ----

  /** The list goes on with nothing that would still belong to an operand of level `l`. */
  predicate Stops(l: nat, rest: seq<Token>) {
    && !StartsWith(rest, Dot) && !StartsWith(rest, LBracket)
    && forall k :: l <= k <= ATOM ==> NextOp(k, rest).None?
  }

  lemma StopsTighter(l: nat, k: nat, rest: seq<Token>)
    requires Stops(l, rest) && l <= k
    ensures Stops(k, rest)
  {}

  lemma ClosersStop(rest: seq<Token>)
    requires rest == [] || rest[0] == RParen || rest[0] == Comma
    ensures Stops(OR, rest)
  {}

  lemma OperatorStops(op: BinOp, rest: seq<Token>)
    ensures Stops(LevelOf(op) + 1, [TokenOf(op)] + rest)
    ensures NextOp(LevelOf(op), [TokenOf(op)] + rest) == Some(op)
  {}

  /** What parsing a printed operand comes to. */
  function Verdict(e: Expr, rest: seq<Token>, depth: nat, need: nat): Parsed {
    if depth + need <= MAX_PARSE_DEPTH then Got(e, rest) else Fail(TooDeep)
  }

  // ---- First tokens ----

  /** No printed operand of a level above the prefix operators starts with one. */
  lemma {:induction false} FirstToken(e: Expr, l: nat)
    ensures Show(e, l) != []
    ensures l > NOT ==> Show(e, l)[0] != Bang
    ensures l > UNARY ==> Show(e, l)[0] != Minus
    ensures Show(e, l)[0] != Plus
    ensures Show(e, l)[0] != RParen
    decreases e
  {
    if LevelOfExpr(e) >= l && e.Binary? {
      FirstToken(e.left, LeftLevel(LevelOf(e.op)));
    }
  }

  // ---- The atoms ----

  lemma {:induction false} StepsRoundTrip(steps: seq<PathStep>, before: seq<PathStep>, rest: seq<Token>)
    requires forall s :: s in steps ==> StepOk(s)
    requires !StartsWith(rest, Dot) && !StartsWith(rest, LBracket)
    ensures ParsePath(before, StepsTokens(steps) + rest) == Got(Path(before + steps), rest)
    decreases |steps|
  {
    hide StepTokens, StepOk, ParsePath;
    if steps == [] {
      assert StepsTokens(steps) + rest == rest;
      PathEnds(before, rest);
      assert before + steps == before;
    } else {
      var step, more := steps[0], StepsTokens(steps[1..]) + rest;
      assert StepsTokens(steps) + rest == StepTokens(step) + more;
      StepRoundTrip(step, before, more);
      StepsRoundTrip(steps[1..], before + [step], rest);
      assert before + [step] + steps[1..] == before + steps;
    }
  }

  lemma PathEnds(before: seq<PathStep>, rest: seq<Token>)
    requires !StartsWith(rest, Dot) && !StartsWith(rest, LBracket)
    ensures ParsePath(before, rest) == Got(Path(before), rest)
  {}

  lemma StepRoundTrip(step: PathStep, before: seq<PathStep>, more: seq<Token>)
    requires StepOk(step)
    ensures ParsePath(before, StepTokens(step) + more) == ParsePath(before + [step], more)
  {
    var toks := StepTokens(step) + more;
    assert toks[|StepTokens(step)|..] == more;
    match step
    case Field(name) =>
      assert toks[0] == Dot && toks[1] == Ident(name) && toks[2..] == more;
    case Index(i) =>
      assert toks[0] == LBracket && toks[1] == Number(i as real) && toks[2..][0] == RBracket && toks[3..] == more;
    case Key(key) =>
      assert toks[0] == LBracket && toks[1] == Str(key) && toks[2..][0] == RBracket && toks[3..] == more;
  }

  // ---- The round trip, level by level ----

  /** Unfolding steps of the grammar on a list already split at the operator. */
  lemma SameShow(e: Expr, l: nat)
    requires LevelOfExpr(e) != l
    ensures Show(e, l) == Show(e, l + 1) && Need(e, l) == Need(e, l + 1)
  {}

  lemma StopsHere(l: nat, rest: seq<Token>)
    requires Stops(l, rest) && l <= ATOM
    ensures NextOp(l, rest).None?
  {}

  lemma TailStops(l: nat, e: Expr, rest: seq<Token>, depth: nat)
    requires l < ATOM && NextOp(l, rest).None?
    ensures Tail(l, e, rest, depth) == Got(e, rest)
  {}

  lemma TailGoesOn(l: nat, lhs: Expr, op: BinOp, more: seq<Token>, depth: nat)
    requires l == LevelOf(op)
    ensures var toks, next := [TokenOf(op)] + more, Parse(l + 1, more, depth);
            Tail(l, lhs, toks, depth) == if next.Fail? then next else Tail(l, Binary(op, lhs, next.e), next.rest, depth)
  {
    OperatorStops(op, more);
    assert ([TokenOf(op)] + more)[1..] == more;
  }

  /** A level that finds nothing of its own hands over to the next. */
  lemma PassesDown(e: Expr, l: nat, rest: seq<Token>, depth: nat)
    requires l == NOT || l == CMP || l == UNARY
    requires Stops(l, rest) && Parse(l + 1, Show(e, l + 1) + rest, depth) == Verdict(e, rest, depth, Need(e, l + 1))
    ensures Parse(l, Show(e, l + 1) + rest, depth) == Verdict(e, rest, depth, Need(e, l + 1))
  {
    hide Show, Need;
    FirstToken(e, l + 1);
    StopsHere(l, rest);
    assert (Show(e, l + 1) + rest)[0] == Show(e, l + 1)[0];
  }

  lemma {:induction false} OperandRoundTrip(e: Expr, l: nat, rest: seq<Token>, depth: nat)
    requires depth <= MAX_PARSE_DEPTH && Image(e) && l <= ATOM && Stops(l, rest)
    ensures Parse(l, Show(e, l) + rest, depth) == Verdict(e, rest, depth, Need(e, l))
    decreases e, if l <= LevelOfExpr(e) then LevelOfExpr(e) - l else 20 - l, 1
  {
    hide Stops, Show, Need, Parse, Image, Tail, Verdict;
    if IsChain(l) {
      StopsTighter(l, l + 1, rest);
      ChainRoundTrip(e, l, rest, depth);
      StopsHere(l, rest);
      TailStops(l, e, rest, depth);
      VerdictMeans(e, rest, depth, Need(e, l));
    } else if LevelOfExpr(e) != l {
      if l < ATOM {
        StopsTighter(l, l + 1, rest);
        OperandRoundTrip(e, l + 1, rest, depth);
        SameShow(e, l);
        PassesDown(e, l, rest, depth);
      } else {
        ParenthesesRoundTrip(e, rest, depth);
      }
    } else if l == CMP {
      ComparisonRoundTrip(e, rest, depth);
    } else if l == ATOM {
      AtomRoundTrip(e, rest, depth);
    } else {
      PrefixRoundTrip(e, rest, depth);
    }
  }

  lemma VerdictMeans(e: Expr, rest: seq<Token>, depth: nat, need: nat)
    ensures Verdict(e, rest, depth, need) == if depth + need <= MAX_PARSE_DEPTH then Got(e, rest) else Fail(TooDeep)
  {}

  lemma BinaryParts(e: Expr, rest: seq<Token>)
    requires e.Binary?
    ensures var l := LevelOf(e.op);
            && LevelOfExpr(e) == l
            && Show(e, l) + rest == Show(e.left, LeftLevel(l)) + ([TokenOf(e.op)] + (Show(e.right, l + 1) + rest))
            && Need(e, l) == Max(Need(e.left, LeftLevel(l)), Need(e.right, l + 1))
  {
    hide Bare, NeedBare, Show, Need;
    var l := LevelOf(e.op);
    var a, t, b := Show(e.left, LeftLevel(l)), [TokenOf(e.op)], Show(e.right, l + 1);
    BareBinary(e);
    ShowHere(e);
    assert (a + t + b) + rest == a + (t + (b + rest));
  }

  lemma BareBinary(e: Expr)
    requires e.Binary?
    ensures var l := LevelOf(e.op);
            && Bare(e) == Show(e.left, LeftLevel(l)) + [TokenOf(e.op)] + Show(e.right, l + 1)
            && NeedBare(e) == Max(Need(e.left, LeftLevel(l)), Need(e.right, l + 1))
  {
    hide Show, Need, LeftLevel, TokenOf, LevelOf;
  }

  lemma ShowHere(e: Expr)
    ensures Show(e, LevelOfExpr(e)) == Bare(e) && Need(e, LevelOfExpr(e)) == NeedBare(e)
  {
    hide Bare, NeedBare, LevelOfExpr;
  }

  lemma ImageParts(e: Expr)
    requires Image(e)
    ensures e.Binary? ==> Image(e.left) && Image(e.right)
    ensures e.Unary? ==> Image(e.operand)
    ensures e.Lit? ==> LiteralOk(e.value)
    ensures e.Path? ==> forall s :: s in e.steps ==> StepOk(s)
    ensures e.Call? ==> forall a :: a in e.args ==> Image(a)
  {}

  /** At a level that associates to the left, the operand so far may still grow: parsing goes on behind it. */
  lemma {:induction false} ChainRoundTrip(e: Expr, l: nat, rest: seq<Token>, depth: nat)
    requires depth <= MAX_PARSE_DEPTH && Image(e) && IsChain(l) && Stops(l + 1, rest)
    ensures Parse(l, Show(e, l) + rest, depth) ==
            if depth + Need(e, l) <= MAX_PARSE_DEPTH then Tail(l, e, rest, depth) else Fail(TooDeep)
    decreases e, if l <= LevelOfExpr(e) then LevelOfExpr(e) - l else 20 - l, 0
  {
    hide Stops, Show, Need, Parse, Image, Tail;
    if LevelOfExpr(e) != l {
      OperandRoundTrip(e, l + 1, rest, depth);
      SameShow(e, l);
      ChainStart(l, Show(e, l) + rest, depth);
    } else {
      ImageParts(e);
      BinaryParts(e, rest);
      var more := Show(e.right, l + 1) + rest;
      OperatorStops(e.op, more);
      ChainRoundTrip(e.left, l, [TokenOf(e.op)] + more, depth);
      TailGoesOn(l, e.left, e.op, more, depth);
      OperandRoundTrip(e.right, l + 1, rest, depth);
    }
  }

  lemma {:induction false} ComparisonRoundTrip(e: Expr, rest: seq<Token>, depth: nat)
    requires depth <= MAX_PARSE_DEPTH && Image(e) && LevelOfExpr(e) == CMP && Stops(CMP, rest)
    ensures Parse(CMP, Show(e, CMP) + rest, depth) == Verdict(e, rest, depth, Need(e, CMP))
    decreases e, 0, 0
  {
    hide Stops, Show, Need, Parse, Image, Tail;
    ImageParts(e);
    BinaryParts(e, rest);
    StopsTighter(CMP, ADD, rest);
    var more := Show(e.right, ADD) + rest;
    var toks := Show(e.left, ADD) + ([TokenOf(e.op)] + more);
    OperatorStops(e.op, more);
    OperandRoundTrip(e.left, ADD, [TokenOf(e.op)] + more, depth);
    OperandRoundTrip(e.right, ADD, rest, depth);
    ParseUnfoldCmp(toks, depth);
    assert ([TokenOf(e.op)] + more)[1..] == more;
  }

  lemma {:induction false} PrefixRoundTrip(e: Expr, rest: seq<Token>, depth: nat)
    requires depth <= MAX_PARSE_DEPTH && Image(e) && e.Unary? && Stops(LevelOfExpr(e), rest)
    ensures Parse(LevelOfExpr(e), Show(e, LevelOfExpr(e)) + rest, depth) ==
            Verdict(e, rest, depth, Need(e, LevelOfExpr(e)))
    decreases e, 0, 0
  {
    hide Stops, Image, Tail;
    ImageParts(e);
    var l := LevelOfExpr(e);
    var sign := if e.un.Not? then Bang else Minus;
    var more := Show(e.operand, l) + rest;
    assert Show(e, l) + rest == [sign] + more;
    assert ([sign] + more)[1..] == more;
    if depth + 1 <= MAX_PARSE_DEPTH { OperandRoundTrip(e.operand, l, rest, depth + 1); }
  }

  /** A whole expression, where one may stand: behind it comes a comma, a closing parenthesis or nothing. */
  lemma {:induction false} WholeRoundTrip(e: Expr, rest: seq<Token>, depth: nat)
    requires depth <= MAX_PARSE_DEPTH && Image(e) && Stops(OR, rest)
    ensures ParseOr(Show(e, OR) + rest, depth) == Verdict(e, rest, depth, 1 + NeedBare(e))
    decreases e, LevelOfExpr(e), 2
  {
    hide Stops, Image, Show, NeedBare, Parse;
    if depth + 1 <= MAX_PARSE_DEPTH { OperandRoundTrip(e, OR, rest, depth + 1); }
  }

  lemma {:induction false} ParenthesesRoundTrip(e: Expr, rest: seq<Token>, depth: nat)
    requires depth <= MAX_PARSE_DEPTH && Image(e) && LevelOfExpr(e) < ATOM
    ensures Parse(ATOM, Show(e, ATOM) + rest, depth) == Verdict(e, rest, depth, Need(e, ATOM))
    decreases e, 13, 0
  {
    hide Stops, Image, Bare, NeedBare, ParseOr;
    var more := [RParen] + rest;
    ClosersStop(more);
    WholeRoundTrip(e, more, depth);
    var toks := Show(e, ATOM) + rest;
    assert toks == [LParen] + (Show(e, OR) + more);
    assert toks[1..] == Show(e, OR) + more;
    assert more[1..] == rest;
    AtomUnfoldParen(toks, depth);
  }

  lemma AtomUnfoldParen(toks: seq<Token>, depth: nat)
    requires StartsWith(toks, LParen)
    ensures var inner := ParseOr(toks[1..], depth);
            Parse(ATOM, toks, depth) ==
            if inner.Fail? then inner
            else if StartsWith(inner.rest, RParen) then Got(inner.e, inner.rest[1..]) else Fail(ExpectedRParen)
  {}

  lemma {:induction false} AtomRoundTrip(e: Expr, rest: seq<Token>, depth: nat)
    requires depth <= MAX_PARSE_DEPTH && Image(e) && LevelOfExpr(e) == ATOM && Stops(ATOM, rest)
    ensures Parse(ATOM, Show(e, ATOM) + rest, depth) == Verdict(e, rest, depth, Need(e, ATOM))
    decreases e, 0, 0
  {
    hide Image;
    ImageParts(e);
    match e
    case Lit(v) => LiteralRoundTrip(v, rest, depth);
    case Path(steps) => PathRoundTrip(steps, rest, depth);
    case Call(name, args) => CallRoundTrip(name, args, rest, depth);
  }

  lemma LiteralRoundTrip(v: Json, rest: seq<Token>, depth: nat)
    requires LiteralOk(v)
    ensures Parse(ATOM, Bare(Lit(v)) + rest, depth) == Got(Lit(v), rest) && NeedBare(Lit(v)) == 0
  {
    var toks := [LiteralToken(v)] + rest;
    assert toks[0] == LiteralToken(v) && toks[1..] == rest;
    assert Parse(ATOM, toks, depth) == ParseAtom(toks, depth);
  }

  lemma PathRoundTrip(steps: seq<PathStep>, rest: seq<Token>, depth: nat)
    requires (forall s :: s in steps ==> StepOk(s)) && !StartsWith(rest, Dot) && !StartsWith(rest, LBracket)
    ensures Parse(ATOM, Bare(Path(steps)) + rest, depth) == Got(Path(steps), rest) && NeedBare(Path(steps)) == 0
  {
    hide ParsePath, StepsTokens;
    var toks := [Dollar] + StepsTokens(steps) + rest;
    assert toks == [Dollar] + (StepsTokens(steps) + rest);
    assert toks[0] == Dollar && toks[1..] == StepsTokens(steps) + rest;
    StepsRoundTrip(steps, [], rest);
    assert [] + steps == steps;
    assert Parse(ATOM, toks, depth) == ParseAtom(toks, depth);
  }

  lemma {:induction false} CallRoundTrip(name: string, args: seq<Expr>, rest: seq<Token>, depth: nat)
    requires depth <= MAX_PARSE_DEPTH && forall a :: a in args ==> Image(a)
    ensures var e := Call(name, args);
            Parse(ATOM, Bare(e) + rest, depth) == Verdict(e, rest, depth, NeedBare(e))
    decreases args, 1, 0
  {
    hide Image, Parse, ParseOr, ParseArgs, ArgsTokens, NeedArgs;
    var e := Call(name, args);
    var tail := if args == [] then [RParen] else ArgsTokens(args);
    var toks := Bare(e) + rest;
    assert Bare(e) == [Ident(name), LParen] + tail;
    assert NeedBare(e) == if args == [] then 0 else NeedArgs(args);
    if args != [] {
      ArgsRoundTrip(name, [], args, rest, depth);
      ArgsStart(args);
      assert [] + args == args;
    }
    assert toks == [Ident(name), LParen] + (tail + rest);
    assert toks[2..] == tail + rest && toks[2] == tail[0] && toks[3..] == (tail + rest)[1..];
    AtomUnfoldCall(toks, depth);
    assert args == [] ==> toks[3..] == rest;
  }

  lemma AtomUnfoldCall(toks: seq<Token>, depth: nat)
    requires |toks| > 2 && toks[0].Ident? && toks[1] == LParen
    ensures Parse(ATOM, toks, depth) ==
            if toks[2] == RParen then Got(Call(toks[0].name, []), toks[3..]) else ParseArgs(toks[0].name, [], toks[2..], depth)
  {}

  lemma ArgsStart(args: seq<Expr>)
    requires args != []
    ensures ArgsTokens(args) != [] && ArgsTokens(args)[0] != RParen
  {
    FirstToken(args[0], OR);
  }

  lemma {:induction false} ArgsRoundTrip(name: string, before: seq<Expr>, args: seq<Expr>, rest: seq<Token>, depth: nat)
    requires depth <= MAX_PARSE_DEPTH && args != [] && forall a :: a in args ==> Image(a)
    ensures ParseArgs(name, before, ArgsTokens(args) + rest, depth) ==
            Verdict(Call(name, before + args), rest, depth, NeedArgs(args))
    decreases args, 0, 0
  {
    hide Image, ParseOr, Show, ParseArgs;
    var sep := if |args| == 1 then [RParen] + rest else [Comma] + (ArgsTokens(args[1..]) + rest);
    assert ArgsTokens(args) + rest == Show(args[0], OR) + sep;
    ClosersStop(sep);
    WholeRoundTrip(args[0], sep, depth);
    ArgsUnfold(name, before, Show(args[0], OR) + sep, depth);
    if |args| == 1 {
      assert sep[1..] == rest && args == [args[0]];
    } else {
      assert sep[1..] == ArgsTokens(args[1..]) + rest;
      ArgsRoundTrip(name, before + [args[0]], args[1..], rest, depth);
      assert before + [args[0]] + args[1..] == before + args;
    }
  }

  /** Parsing undoes printing exactly when the tree nests within the bound; otherwise the parser says so. */
  lemma ParserInvertsPrinter(e: Expr)
    requires Image(e)
    ensures ParseTop(Print(e)) == if DepthOf(e) <= 64 then Ok(e) else Err(TooDeep)
  {
    hide ParseOr, Show, NeedBare;
    ClosersStop([]);
    WholeRoundTrip(e, [], 0);
    assert Show(e, OR) + [] == Show(e, OR);
  }
}
