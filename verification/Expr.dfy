/** The expression language: tokens, trees, and what the recursive-descent parser computes. */
module Expressions {
  import opened Wrappers
  import opened Workflows

  const MAX_PARSE_DEPTH: nat := 64
  const MAX_TOKENS: nat := 4096
  const USIZE_MAX: nat := 0xFFFF_FFFF_FFFF_FFFF

  datatype Token =
    | Number(n: real) | Str(s: string) | True | False | Null | Ident(name: string)
    | Plus | Minus | Star | Slash | Percent
    | EqEq | NotEq | Lt | Gt | LtEq | GtEq | AndAnd | OrOr | Bang
    | LParen | RParen | LBracket | RBracket | Comma | Dot | Dollar

  datatype UnOp = Neg | Not

  datatype BinOp = Add | Sub | Mul | Div | Mod | Eq | Ne | Less | Greater | Le | Ge | And | Or

  datatype PathStep = Field(name: string) | Index(i: nat) | Key(key: string)

  datatype Expr =
    | Lit(value: Json)
    | Path(steps: seq<PathStep>)
    | Call(name: string, args: seq<Expr>)
    | Unary(un: UnOp, operand: Expr)
    | Binary(op: BinOp, left: Expr, right: Expr)

  datatype ParseError =
    | TooDeep | Trailing | BareIdentifier | ExpectedRParen | ExpectedIdentifier | BadIndex
    | ExpectedNumberOrString | ExpectedRBracket | UnexpectedToken

  datatype Parsed = Got(e: Expr, rest: seq<Token>) | Fail(error: ParseError)

  // ---- Precedence levels, loosest first ----

  const OR := 0
  const AND := 1
  const NOT := 2
  const CMP := 3
  const ADD := 4
  const MUL := 5
  const UNARY := 6
  const ATOM := 7

  predicate IsChain(l: nat) { l == OR || l == AND || l == ADD || l == MUL }

  function OpAt(l: nat, t: Token): Option<BinOp> {
    if l == OR then (if t.OrOr? then Some(Or) else None)
    else if l == AND then (if t.AndAnd? then Some(And) else None)
    else if l == CMP then
      (match t
       case EqEq => Some(Eq) case NotEq => Some(Ne) case Lt => Some(Less) case Gt => Some(Greater)
       case LtEq => Some(Le) case GtEq => Some(Ge) case _ => None)
    else if l == ADD then (match t case Plus => Some(Add) case Minus => Some(Sub) case _ => None)
    else if l == MUL then (match t case Star => Some(Mul) case Slash => Some(Div) case Percent => Some(Mod) case _ => None)
    else None
  }

  /** The operator of level `l` that the list begins with. */
  function NextOp(l: nat, toks: seq<Token>): Option<BinOp> {
    if toks == [] then None else OpAt(l, toks[0])
  }

  predicate StartsWith(toks: seq<Token>, t: Token) { toks != [] && toks[0] == t }

  // ---- The grammar as a function on the remaining tokens ----

  function ParseOr(toks: seq<Token>, depth: nat): (r: Parsed)
    ensures r.Got? ==> |r.rest| < |toks|
    decreases |toks|, 12
  {
    if depth + 1 > MAX_PARSE_DEPTH then Fail(TooDeep) else Parse(OR, toks, depth + 1)
  }

  function Parse(l: nat, toks: seq<Token>, depth: nat): (r: Parsed)
    requires l <= ATOM
    ensures r.Got? ==> |r.rest| < |toks|
    decreases |toks|, 11 - l
  {
    if IsChain(l) then
      var first := Parse(l + 1, toks, depth);
      if first.Fail? then first else Tail(l, first.e, first.rest, depth)
    else if l == NOT then
      if StartsWith(toks, Bang) then ParsePrefixed(NOT, Some(Not), toks, depth) else Parse(CMP, toks, depth)
    else if l == CMP then
      var first := Parse(ADD, toks, depth);
      if first.Fail? || NextOp(CMP, first.rest).None? then first
      else
        var second := Parse(ADD, first.rest[1..], depth);
        if second.Fail? then second else Got(Binary(NextOp(CMP, first.rest).value, first.e, second.e), second.rest)
    else if l == UNARY then
      if StartsWith(toks, Minus) then ParsePrefixed(UNARY, Some(Neg), toks, depth)
      else if StartsWith(toks, Plus) then ParsePrefixed(UNARY, None, toks, depth)
      else Parse(ATOM, toks, depth)
    else ParseAtom(toks, depth)
  }

  /** A prefix operator counts as one level of nesting; a unary plus leaves no trace. */
  function ParsePrefixed(l: nat, un: Option<UnOp>, toks: seq<Token>, depth: nat): (r: Parsed)
    requires l <= ATOM && toks != []
    ensures r.Got? ==> |r.rest| < |toks|
    decreases |toks|, 0
  {
    if depth + 1 > MAX_PARSE_DEPTH then Fail(TooDeep)
    else
      var inner := Parse(l, toks[1..], depth + 1);
      if inner.Fail? || un.None? then inner else Got(Unary(un.value, inner.e), inner.rest)
  }

  /** Left association: operands of level `l` pile up on `lhs`. */
  function Tail(l: nat, lhs: Expr, toks: seq<Token>, depth: nat): (r: Parsed)
    requires l < ATOM
    ensures r.Got? ==> |r.rest| <= |toks|
    decreases |toks|, 0
  {
    if NextOp(l, toks).None? then Got(lhs, toks)
    else
      var next := Parse(l + 1, toks[1..], depth);
      if next.Fail? then next else Tail(l, Binary(NextOp(l, toks).value, lhs, next.e), next.rest, depth)
  }

  function ParseAtom(toks: seq<Token>, depth: nat): (r: Parsed)
    ensures r.Got? ==> |r.rest| < |toks|
    decreases |toks|, 0
  {
    if toks == [] then Fail(UnexpectedToken)
    else
      match toks[0]
      case Number(n) => Got(Lit(JNum(n)), toks[1..])
      case Str(s) => Got(Lit(JStr(s)), toks[1..])
      case True => Got(Lit(JBool(true)), toks[1..])
      case False => Got(Lit(JBool(false)), toks[1..])
      case Null => Got(Lit(JNull), toks[1..])
      case Dollar => ParsePath([], toks[1..])
      case Ident(name) =>
        if !StartsWith(toks[1..], LParen) then Fail(BareIdentifier)
        else if StartsWith(toks[2..], RParen) then Got(Call(name, []), toks[3..])
        else ParseArgs(name, [], toks[2..], depth)
      case LParen =>
        var inner := ParseOr(toks[1..], depth);
        if inner.Fail? then inner
        else if StartsWith(inner.rest, RParen) then Got(inner.e, inner.rest[1..]) else Fail(ExpectedRParen)
      case _ => Fail(UnexpectedToken)
  }

  function ParseArgs(name: string, args: seq<Expr>, toks: seq<Token>, depth: nat): (r: Parsed)
    ensures r.Got? ==> |r.rest| < |toks|
    decreases |toks|, 13
  {
    var arg := ParseOr(toks, depth);
    if arg.Fail? then arg
    else if StartsWith(arg.rest, Comma) then ParseArgs(name, args + [arg.e], arg.rest[1..], depth)
    else if StartsWith(arg.rest, RParen) then Got(Call(name, args + [arg.e]), arg.rest[1..])
    else Fail(ExpectedRParen)
  }

  /** Only whole, non-negative numbers. The bound is the largest index as a float, which is rounded up by one. */
  predicate IsIndex(n: real) { n >= 0.0 && n.Floor as real == n && n.Floor <= USIZE_MAX + 1 }

  /** The conversion to an index stops at the largest. */
  function IndexOf(n: real): nat
    requires IsIndex(n)
  {
    if n.Floor > USIZE_MAX then USIZE_MAX else n.Floor
  }

  function ParsePath(steps: seq<PathStep>, toks: seq<Token>): (r: Parsed)
    ensures r.Got? ==> |r.rest| <= |toks|
    decreases |toks|
  {
    if StartsWith(toks, Dot) then
      if |toks| > 1 && toks[1].Ident? then ParsePath(steps + [Field(toks[1].name)], toks[2..]) else Fail(ExpectedIdentifier)
    else if StartsWith(toks, LBracket) then
      if |toks| > 1 && toks[1].Number? then
        if !IsIndex(toks[1].n) then Fail(BadIndex)
        else if !StartsWith(toks[2..], RBracket) then Fail(ExpectedRBracket)
        else ParsePath(steps + [Index(IndexOf(toks[1].n))], toks[3..])
      else if |toks| > 1 && toks[1].Str? then
        if !StartsWith(toks[2..], RBracket) then Fail(ExpectedRBracket)
        else ParsePath(steps + [Key(toks[1].s)], toks[3..])
      else Fail(ExpectedNumberOrString)
    else Got(Path(steps), toks)
  }

  function ParseTop(toks: seq<Token>): Result<Expr, ParseError> {
    match ParseOr(toks, 0)
    case Got(e, rest) => if rest == [] then Ok(e) else Err(Trailing)
    case Fail(error) => Err(error)
  }

  // ---- One step at a time ----

  lemma TailUnfold(l: nat, lhs: Expr, toks: seq<Token>, depth: nat)
    requires l < ATOM
    ensures NextOp(l, toks).None? ==> Tail(l, lhs, toks, depth) == Got(lhs, toks)
    ensures NextOp(l, toks).Some? ==>
      var next := Parse(l + 1, toks[1..], depth);
      Tail(l, lhs, toks, depth) ==
      if next.Fail? then next else Tail(l, Binary(NextOp(l, toks).value, lhs, next.e), next.rest, depth)
  {}

  lemma ChainStart(l: nat, toks: seq<Token>, depth: nat)
    requires IsChain(l)
    ensures var first := Parse(l + 1, toks, depth);
            Parse(l, toks, depth) == if first.Fail? then first else Tail(l, first.e, first.rest, depth)
  {}

  lemma ParseUnfoldNot(toks: seq<Token>, depth: nat)
    requires StartsWith(toks, Bang)
    ensures Parse(NOT, toks, depth) == ParsePrefixed(NOT, Some(Not), toks, depth)
  {}

  lemma ParseUnfoldCmp(toks: seq<Token>, depth: nat)
    ensures var first := Parse(ADD, toks, depth);
            Parse(CMP, toks, depth) ==
            if first.Fail? || NextOp(CMP, first.rest).None? then first
            else
              var second := Parse(ADD, first.rest[1..], depth);
              if second.Fail? then second else Got(Binary(NextOp(CMP, first.rest).value, first.e, second.e), second.rest)
  {}

  lemma ParseUnfoldUnary(toks: seq<Token>, depth: nat)
    ensures StartsWith(toks, Minus) ==> Parse(UNARY, toks, depth) == ParsePrefixed(UNARY, Some(Neg), toks, depth)
    ensures StartsWith(toks, Plus) ==> Parse(UNARY, toks, depth) == ParsePrefixed(UNARY, None, toks, depth)
    ensures !StartsWith(toks, Minus) && !StartsWith(toks, Plus) ==> Parse(UNARY, toks, depth) == ParseAtom(toks, depth)
  {}

  lemma ArgsUnfold(name: string, args: seq<Expr>, toks: seq<Token>, depth: nat)
    ensures var arg := ParseOr(toks, depth);
            ParseArgs(name, args, toks, depth) ==
            if arg.Fail? then arg
            else if StartsWith(arg.rest, Comma) then ParseArgs(name, args + [arg.e], arg.rest[1..], depth)
            else if StartsWith(arg.rest, RParen) then Got(Call(name, args + [arg.e]), arg.rest[1..])
            else Fail(ExpectedRParen)
  {}

  lemma PathUnfold(steps: seq<PathStep>, toks: seq<Token>)
    ensures ParsePath(steps, toks) ==
      if StartsWith(toks, Dot) then
        if |toks| > 1 && toks[1].Ident? then ParsePath(steps + [Field(toks[1].name)], toks[2..]) else Fail(ExpectedIdentifier)
      else if StartsWith(toks, LBracket) then
        if |toks| > 1 && toks[1].Number? then
          if !IsIndex(toks[1].n) then Fail(BadIndex)
          else if !StartsWith(toks[2..], RBracket) then Fail(ExpectedRBracket)
          else ParsePath(steps + [Index(IndexOf(toks[1].n))], toks[3..])
        else if |toks| > 1 && toks[1].Str? then
          if !StartsWith(toks[2..], RBracket) then Fail(ExpectedRBracket)
          else ParsePath(steps + [Key(toks[1].s)], toks[3..])
        else Fail(ExpectedNumberOrString)
      else Got(Path(steps), toks)
  {}
}

/** The parser as the source writes it: a position and a depth counter that every method moves. */
module ExpressionParser {
  import opened Wrappers
  import opened Workflows
  import opened Expressions

  /** What a method returns, where it leaves the position, and that the depth is what it was. */
  ghost predicate Follows(spec: Parsed, r: Result<Expr, ParseError>, rest: seq<Token>, before: nat, after: nat) {
    match spec
    case Got(e, rest') => r == Ok(e) && rest == rest' && after == before
    case Fail(error) => r == Err(error)
  }

  class Parser {
    const tokens: seq<Token>
    var pos: nat
    var depth: nat

    constructor (tokens: seq<Token>)
      ensures this.tokens == tokens && pos == 0 && depth == 0
    {
      this.tokens := tokens;
      pos, depth := 0, 0;
    }

    predicate Valid()
      reads this
    {
      pos <= |tokens|
    }

    function Rest(): seq<Token>
      requires Valid()
      reads this
    {
      tokens[pos..]
    }

    /** One level deeper, unless that is too deep. */
    method Descend() returns (ok: bool)
      modifies this`depth
      ensures depth == old(depth) + 1 && (ok <==> depth <= 64)
    {
      depth := depth + 1;
      ok := depth <= MAX_PARSE_DEPTH;
    }

    method Ascend()
      modifies this`depth
      ensures depth == if old(depth) > 0 then old(depth) - 1 else 0
    {
      depth := if depth > 0 then depth - 1 else 0;
    }

    function Peek(): (t: Option<Token>)
      requires Valid()
      reads this
      ensures t == if Rest() == [] then None else Some(Rest()[0])
    {
      if pos < |tokens| then Some(tokens[pos]) else None
    }

    method Consume() returns (t: Option<Token>)
      requires Valid()
      modifies this`pos
      ensures Valid() && t == old(Peek())
      ensures Rest() == if old(Rest()) == [] then [] else old(Rest())[1..]
      ensures t.Some? ==> pos == old(pos) + 1
    {
      t := Peek();
      if t.Some? { pos := pos + 1; }
    }

    method Top() returns (r: Result<Expr, ParseError>)
      requires Valid() && pos == 0 && depth == 0
      modifies this`pos, this`depth
      ensures r == ParseTop(tokens)
      ensures r.Ok? ==> depth == 0
    {
      hide Expressions.ParseOr;
      assert Rest() == tokens;
      r := this.OrExpr();
      if r.Ok? && pos < |tokens| { r := Err(Trailing); }
    }

    method OrExpr() returns (r: Result<Expr, ParseError>)
      requires Valid()
      modifies this`pos, this`depth
      ensures Valid() && Follows(ParseOr(old(Rest()), old(depth)), r, Rest(), old(depth), depth)
      decreases |tokens| - pos, 12
    {
      hide Tail;
      var ok := Descend();
      if !ok { return Err(TooDeep); }
      ghost var whole := Parse(OR, old(Rest()), depth);
      r := AndExpr();
      if r.Err? { return; }
      var lhs := r.value;
      while Peek() == Some(OrOr)
        invariant Valid() && pos > old(pos) && depth == old(depth) + 1
        invariant whole == Tail(OR, lhs, Rest(), depth)
        decreases |tokens| - pos
      {
        TailUnfold(OR, lhs, Rest(), depth);
        var _ := Consume();
        r := AndExpr();
        if r.Err? { return; }
        lhs := Binary(Or, lhs, r.value);
      }
      TailUnfold(OR, lhs, Rest(), depth);
      Ascend();
      r := Ok(lhs);
    }

    method AndExpr() returns (r: Result<Expr, ParseError>)
      requires Valid()
      modifies this`pos, this`depth
      ensures Valid() && Follows(Parse(AND, old(Rest()), old(depth)), r, Rest(), old(depth), depth)
      ensures r.Ok? ==> pos > old(pos)
      decreases |tokens| - pos, 10
    {
      hide Tail;
      ghost var whole := Parse(AND, Rest(), depth);
      r := NotExpr();
      if r.Err? { return; }
      var lhs := r.value;
      while Peek() == Some(AndAnd)
        invariant Valid() && pos > old(pos) && depth == old(depth)
        invariant whole == Tail(AND, lhs, Rest(), depth)
        decreases |tokens| - pos
      {
        TailUnfold(AND, lhs, Rest(), depth);
        var _ := Consume();
        r := NotExpr();
        if r.Err? { return; }
        lhs := Binary(And, lhs, r.value);
      }
      TailUnfold(AND, lhs, Rest(), depth);
      r := Ok(lhs);
    }

    method NotExpr() returns (r: Result<Expr, ParseError>)
      requires Valid()
      modifies this`pos, this`depth
      ensures Valid() && Follows(Parse(NOT, old(Rest()), old(depth)), r, Rest(), old(depth), depth)
      ensures r.Ok? ==> pos > old(pos)
      decreases |tokens| - pos, 9
    {
      if Peek() == Some(Bang) {
        ParseUnfoldNot(Rest(), depth);
        var ok := Descend();
        if !ok { return Err(TooDeep); }
        var _ := Consume();
        r := NotExpr();
        if r.Err? { return; }
        Ascend();
        return Ok(Unary(Not, r.value));
      }
      r := CmpExpr();
    }

    static function Comparison(t: Option<Token>): Option<BinOp> {
      match t
      case Some(EqEq) => Some(Eq)
      case Some(NotEq) => Some(Ne)
      case Some(Lt) => Some(Less)
      case Some(Gt) => Some(Greater)
      case Some(LtEq) => Some(Le)
      case Some(GtEq) => Some(Ge)
      case _ => None
    }

    method CmpExpr() returns (r: Result<Expr, ParseError>)
      requires Valid()
      modifies this`pos, this`depth
      ensures Valid() && Follows(Parse(CMP, old(Rest()), old(depth)), r, Rest(), old(depth), depth)
      ensures r.Ok? ==> pos > old(pos)
      decreases |tokens| - pos, 8
    {
      hide Parse, NextOp;
      ParseUnfoldCmp(Rest(), depth);
      r := AddExpr();
      if r.Err? { return; }
      OperatorHere(CMP, Rest());
      var lhs, op := r.value, Comparison(Peek());
      if op.Some? {
        var _ := Consume();
        r := AddExpr();
        if r.Err? { return; }
        return Ok(Binary(op.value, lhs, r.value));
      }
    }

    static function Additive(t: Option<Token>): Option<BinOp> {
      match t
      case Some(Plus) => Some(Add)
      case Some(Minus) => Some(Sub)
      case _ => None
    }

    method AddExpr() returns (r: Result<Expr, ParseError>)
      requires Valid()
      modifies this`pos, this`depth
      ensures Valid() && Follows(Parse(ADD, old(Rest()), old(depth)), r, Rest(), old(depth), depth)
      ensures r.Ok? ==> pos > old(pos)
      decreases |tokens| - pos, 7
    {
      hide Tail, Parse, NextOp;
      ghost var whole := Parse(ADD, Rest(), depth);
      ChainStart(ADD, Rest(), depth);
      r := MulExpr();
      if r.Err? { return; }
      var lhs := r.value;
      while Additive(Peek()).Some?
        invariant Valid() && pos > old(pos) && depth == old(depth)
        invariant whole == Tail(ADD, lhs, Rest(), depth)
        decreases |tokens| - pos
      {
        OperatorHere(ADD, Rest());
        TailUnfold(ADD, lhs, Rest(), depth);
        var op := Additive(Peek()).value;
        var _ := Consume();
        r := MulExpr();
        if r.Err? { return; }
        lhs := Binary(op, lhs, r.value);
      }
      OperatorHere(ADD, Rest());
      TailUnfold(ADD, lhs, Rest(), depth);
      r := Ok(lhs);
    }

    static function Multiplicative(t: Option<Token>): Option<BinOp> {
      match t
      case Some(Star) => Some(Mul)
      case Some(Slash) => Some(Div)
      case Some(Percent) => Some(Mod)
      case _ => None
    }

    method MulExpr() returns (r: Result<Expr, ParseError>)
      requires Valid()
      modifies this`pos, this`depth
      ensures Valid() && Follows(Parse(MUL, old(Rest()), old(depth)), r, Rest(), old(depth), depth)
      ensures r.Ok? ==> pos > old(pos)
      decreases |tokens| - pos, 6
    {
      hide Tail, Parse, NextOp;
      ghost var whole := Parse(MUL, Rest(), depth);
      ChainStart(MUL, Rest(), depth);
      r := UnaryExpr();
      if r.Err? { return; }
      var lhs := r.value;
      while Multiplicative(Peek()).Some?
        invariant Valid() && pos > old(pos) && depth == old(depth)
        invariant whole == Tail(MUL, lhs, Rest(), depth)
        decreases |tokens| - pos
      {
        OperatorHere(MUL, Rest());
        TailUnfold(MUL, lhs, Rest(), depth);
        var op := Multiplicative(Peek()).value;
        var _ := Consume();
        r := UnaryExpr();
        if r.Err? { return; }
        lhs := Binary(op, lhs, r.value);
      }
      OperatorHere(MUL, Rest());
      TailUnfold(MUL, lhs, Rest(), depth);
      r := Ok(lhs);
    }

    method UnaryExpr() returns (r: Result<Expr, ParseError>)
      requires Valid()
      modifies this`pos, this`depth
      ensures Valid() && Follows(Parse(UNARY, old(Rest()), old(depth)), r, Rest(), old(depth), depth)
      ensures r.Ok? ==> pos > old(pos)
      decreases |tokens| - pos, 5
    {
      ParseUnfoldUnary(Rest(), depth);
      var sign := Peek();
      if sign == Some(Minus) || sign == Some(Plus) {
        var ok := Descend();
        if !ok { return Err(TooDeep); }
        var _ := Consume();
        r := UnaryExpr();
        if r.Err? { return; }
        Ascend();
        if sign == Some(Minus) { r := Ok(Unary(Neg, r.value)); }
        return;
      }
      r := AtomExpr();
    }

    method AtomExpr() returns (r: Result<Expr, ParseError>)
      requires Valid()
      modifies this`pos, this`depth
      ensures Valid() && Follows(ParseAtom(old(Rest()), old(depth)), r, Rest(), old(depth), depth)
      ensures r.Ok? ==> pos > old(pos)
      decreases |tokens| - pos, 4
    {
      hide ParseOr, ParseArgs, ParsePath;
      var t := Consume();
      if t.None? { return Err(UnexpectedToken); }
      match t.value {
        case Number(n) => r := Ok(Lit(JNum(n)));
        case Str(s) => r := Ok(Lit(JStr(s)));
        case True => r := Ok(Lit(JBool(true)));
        case False => r := Ok(Lit(JBool(false)));
        case Null => r := Ok(Lit(JNull));
        case Dollar => r := PathExpr();
        case Ident(name) =>
          if Peek() != Some(LParen) { return Err(BareIdentifier); }
          var _ := Consume();
          if Peek() == Some(RParen) {
            var _ := Consume();
            return Ok(Call(name, []));
          }
          r := ArgList(name);
        case LParen =>
          r := OrExpr();
          if r.Err? { return; }
          var close := Consume();
          if close != Some(RParen) { return Err(ExpectedRParen); }
        case _ => r := Err(UnexpectedToken);
      }
    }

    method ArgList(name: string) returns (r: Result<Expr, ParseError>)
      requires Valid()
      modifies this`pos, this`depth
      ensures Valid() && Follows(ParseArgs(name, [], old(Rest()), old(depth)), r, Rest(), old(depth), depth)
      ensures r.Ok? ==> pos > old(pos)
      decreases |tokens| - pos, 13
    {
      hide ParseArgs, ParseOr;
      var args := [];
      var more := true;
      ghost var whole := ParseArgs(name, [], Rest(), depth);
      while more
        invariant Valid() && pos >= old(pos) && depth == old(depth)
        invariant more ==> whole == ParseArgs(name, args, Rest(), depth)
        invariant !more ==> pos > old(pos) && ArgsEnd(whole, name, args, Rest())
        decreases |tokens| - pos, more
      {
        ArgsUnfold(name, args, Rest(), depth);
        r := OrExpr();
        if r.Err? { return; }
        args := args + [r.value];
        if Peek() == Some(Comma) {
          var _ := Consume();
        } else {
          more := false;
        }
      }
      var close := Consume();
      if close != Some(RParen) { return Err(ExpectedRParen); }
      r := Ok(Call(name, args));
    }

    method PathExpr() returns (r: Result<Expr, ParseError>)
      requires Valid()
      modifies this`pos
      ensures Valid() && pos >= old(pos) && Follows(ParsePath([], old(Rest())), r, Rest(), depth, depth)
    {
      hide ParsePath;
      var steps := [];
      ghost var whole := ParsePath([], Rest());
      while Peek() == Some(Dot) || Peek() == Some(LBracket)
        invariant Valid() && pos >= old(pos)
        invariant whole == ParsePath(steps, Rest())
        decreases |tokens| - pos
      {
        PathUnfold(steps, Rest());
        if Peek() == Some(Dot) {
          var _ := Consume();
          var t := Consume();
          if t.None? || !t.value.Ident? { return Err(ExpectedIdentifier); }
          steps := steps + [Field(t.value.name)];
        } else {
          var _ := Consume();
          var t := Consume();
          var step := Subscript(t);
          if step.Err? { return Err(step.error); }
          var close := Consume();
          if close != Some(RBracket) { return Err(ExpectedRBracket); }
          steps := steps + [step.value];
        }
      }
      PathUnfold(steps, Rest());
      r := Ok(Path(steps));
    }

    static function Subscript(t: Option<Token>): Result<PathStep, ParseError> {
      match t
      case Some(Number(n)) => if IsIndex(n) then Ok(Index(IndexOf(n))) else Err(BadIndex)
      case Some(Str(s)) => Ok(Key(s))
      case _ => Err(ExpectedNumberOrString)
    }
  }

  /** The match on the next token picks the operator of the level. */
  lemma OperatorHere(l: nat, toks: seq<Token>)
    ensures var t := if toks == [] then None else Some(toks[0]);
            && (l == ADD ==> NextOp(l, toks) == Parser.Additive(t))
            && (l == MUL ==> NextOp(l, toks) == Parser.Multiplicative(t))
            && (l == CMP ==> NextOp(l, toks) == Parser.Comparison(t))
  {}

  ghost predicate ArgsEnd(whole: Parsed, name: string, args: seq<Expr>, rest: seq<Token>) {
    whole == if StartsWith(rest, RParen) then Got(Call(name, args), rest[1..]) else Fail(ExpectedRParen)
  }
}
