/** Which operator binds tighter, and how deep an expression may nest, on concrete token lists. */
module Precedence {
  import opened Wrappers
  import opened Workflows
  import opened Expressions
  import opened ExpressionPrinter

  /** Every infix operator and how tightly it binds. */
  const INFIX: map<Token, (BinOp, nat)> := map[
    OrOr := (Or, 1), AndAnd := (And, 2),
    EqEq := (Eq, 3), NotEq := (Ne, 3), Lt := (Less, 3), Gt := (Greater, 3), LtEq := (Le, 3), GtEq := (Ge, 3),
    Plus := (Add, 4), Minus := (Sub, 4),
    Star := (Mul, 5), Slash := (Div, 5), Percent := (Mod, 5)]

  function Num(n: real): Expr { Lit(JNum(n)) }

  lemma Table(t: Token)
    requires t in INFIX
    ensures var (op, rank) := INFIX[t];
            && TokenOf(op) == t
            && LevelOf(op) == (if rank <= 2 then rank - 1 else rank) && (LevelOf(op) == CMP <==> rank == 3)
  {}

  lemma OnlyInfix(t: Token, l: nat)
    ensures t !in INFIX ==> OpAt(l, t).None?
  {}

  // ---- What prints without parentheses ----

  predicate IsPrint(e: Expr, toks: seq<Token>) { Image(e) && Bare(e) == toks && NeedBare(e) <= 1 }

  lemma PrintNumber(n: real)
    ensures IsPrint(Num(n), [Number(n)]) && NeedBare(Num(n)) == 0
  {}

  lemma PrintPrefix(un: UnOp, e: Expr, toks: seq<Token>)
    requires IsPrint(e, toks) && NeedBare(e) == 0 && LevelOfExpr(e) >= LevelOfExpr(Unary(un, e))
    ensures IsPrint(Unary(un, e), [if un.Not? then Bang else Minus] + toks)
  {}

  lemma PrintInfix(op: BinOp, e: Expr, left: seq<Token>, d: Expr, right: seq<Token>)
    requires IsPrint(e, left) && IsPrint(d, right)
    requires LevelOfExpr(e) >= LeftLevel(LevelOf(op)) && LevelOfExpr(d) > LevelOf(op)
    ensures IsPrint(Binary(op, e, d), left + [TokenOf(op)] + right)
    ensures NeedBare(Binary(op, e, d)) == Max(NeedBare(e), NeedBare(d))
  {
    hide Bare, NeedBare, Image;
    InfixUnfold(op, e, d);
  }

  lemma InfixUnfold(op: BinOp, e: Expr, d: Expr)
    requires LevelOfExpr(e) >= LeftLevel(LevelOf(op)) && LevelOfExpr(d) > LevelOf(op)
    ensures Bare(Binary(op, e, d)) == Bare(e) + [TokenOf(op)] + Bare(d)
    ensures NeedBare(Binary(op, e, d)) == Max(NeedBare(e), NeedBare(d))
    ensures Image(Binary(op, e, d)) <==> Image(e) && Image(d)
  {}

  lemma PrintsTo(e: Expr, toks: seq<Token>)
    requires IsPrint(e, toks)
    ensures ParseTop(toks) == Ok(e) && Print(e) == toks
  {
    hide Image, Bare, NeedBare, ParseTop;
    ParserInvertsPrinter(e);
  }

  lemma PrintTwo(a: real, op: BinOp, b: real)
    ensures IsPrint(Binary(op, Num(a), Num(b)), [Number(a), TokenOf(op), Number(b)])
    ensures NeedBare(Binary(op, Num(a), Num(b))) == 0
  {
    hide IsPrint, NeedBare;
    PrintNumber(a);
    PrintNumber(b);
    PrintInfix(op, Num(a), [Number(a)], Num(b), [Number(b)]);
    assert [Number(a)] + [TokenOf(op)] + [Number(b)] == [Number(a), TokenOf(op), Number(b)];
  }

  // ---- Two operators ----

  /** The tighter one takes the operand between them; of two as tight the left one does, but comparisons do not chain. */
  lemma TwoOperators(a: real, s: Token, b: real, t: Token, c: real)
    requires s in INFIX && t in INFIX
    ensures var (f, p) := INFIX[s];
            var (g, q) := INFIX[t];
            ParseTop([Number(a), s, Number(b), t, Number(c)]) ==
            if q > p then Ok(Binary(f, Num(a), Binary(g, Num(b), Num(c))))
            else if p == 3 && q == 3 then Err(Trailing)
            else Ok(Binary(g, Binary(f, Num(a), Num(b)), Num(c)))
  {
    hide INFIX, ParseTop, IsPrint, NeedBare;
    var (f, p) := INFIX[s];
    var (g, q) := INFIX[t];
    var toks := [Number(a), s, Number(b), t, Number(c)];
    Table(s);
    Table(t);
    PrintNumber(a);
    PrintNumber(c);
    PrintTwo(a, f, b);
    PrintTwo(b, g, c);
    if q > p {
      PrintInfix(f, Num(a), [Number(a)], Binary(g, Num(b), Num(c)), [Number(b), t, Number(c)]);
      PrintsTo(Binary(f, Num(a), Binary(g, Num(b), Num(c))), [Number(a)] + [s] + [Number(b), t, Number(c)]);
      assert [Number(a)] + [s] + [Number(b), t, Number(c)] == toks;
    } else if p == 3 && q == 3 {
      ComparisonsDoNotChain(a, f, b, g, c);
    } else {
      PrintInfix(g, Binary(f, Num(a), Num(b)), [Number(a), s, Number(b)], Num(c), [Number(c)]);
      PrintsTo(Binary(g, Binary(f, Num(a), Num(b)), Num(c)), [Number(a), s, Number(b)] + [t] + [Number(c)]);
      assert [Number(a), s, Number(b)] + [t] + [Number(c)] == toks;
    }
  }

  lemma NumberParses(a: real, l: nat, rest: seq<Token>, depth: nat)
    requires l <= ATOM && Stops(l, rest) && depth <= 64
    ensures Parse(l, [Number(a)] + rest, depth) == Got(Num(a), rest)
  {
    hide Parse, Stops;
    OperandRoundTrip(Num(a), l, rest, depth);
    assert Show(Num(a), l) == [Number(a)];
  }

  lemma ComparisonsDoNotChain(a: real, f: BinOp, b: real, g: BinOp, c: real)
    requires LevelOf(f) == LevelOf(g) == CMP
    ensures ParseTop([Number(a), TokenOf(f), Number(b), TokenOf(g), Number(c)]) == Err(Trailing)
  {
    hide Parse;
    var last := [TokenOf(g), Number(c)];
    var more := [TokenOf(f), Number(b)] + last;
    var toks := [Number(a)] + more;
    OperatorStops(f, [Number(b)] + last);
    OperatorStops(g, [Number(c)]);
    assert more == [TokenOf(f)] + ([Number(b)] + last) && last == [TokenOf(g)] + [Number(c)];
    NumberParses(a, ADD, more, 1);
    NumberParses(b, ADD, last, 1);
    ParseUnfoldCmp(toks, 1);
    assert more[1..] == [Number(b)] + last;
    LevelClimbs(CMP, OR, toks, Binary(f, Num(a), Num(b)), last, 1) by { OthersStop(g, [Number(c)]); }
    assert toks == [Number(a), TokenOf(f), Number(b), TokenOf(g), Number(c)];
  }

  /** A comparison ends what is looser. */
  lemma OthersStop(op: BinOp, rest: seq<Token>)
    requires LevelOf(op) == CMP
    ensures forall k: nat :: k < CMP ==> NextOp(k, [TokenOf(op)] + rest).None?
  {}

  predicate IsPrefix(t: Token) { t == Bang || t == Minus || t == Plus }

  /** What a tight level reads up to a token that is none of the looser operators, they read too. */
  lemma {:induction false} LevelClimbs(k: nat, l: nat, toks: seq<Token>, e: Expr, rest: seq<Token>, depth: nat)
    requires l <= k <= ATOM && toks != [] && toks[0] != Bang && (k == ATOM ==> !IsPrefix(toks[0]))
    requires Parse(k, toks, depth) == Got(e, rest)
    requires forall j :: l <= j < k ==> NextOp(j, rest).None?
    ensures Parse(l, toks, depth) == Got(e, rest)
    decreases k - l
  {
    if l < k {
      LevelClimbs(k, l + 1, toks, e, rest, depth);
      assert NextOp(l, rest).None?;
    }
  }

  // ---- Parentheses ----

  lemma Parenthesized(e: Expr, inside: seq<Token>, rest: seq<Token>)
    requires Image(e) && NeedBare(e) <= 62 && inside == Print(e)
    ensures Parse(ATOM, [LParen] + inside + [RParen] + rest, 1) == Got(e, rest)
  {
    hide ParseOr, Image, NeedBare, Print;
    var toks := [LParen] + inside + [RParen] + rest;
    var more := inside + ([RParen] + rest);
    assert toks == [LParen] + more;
    ClosersStop([RParen] + rest);
    WholeRoundTrip(e, [RParen] + rest, 1);
    assert inside == Show(e, OR) by { PrintIsShow(e); }
    assert toks[0] == LParen && toks[1..] == more;
    AtomUnfoldParen(toks, 1);
    assert ([RParen] + rest)[1..] == rest;
  }

  lemma PrintIsShow(e: Expr)
    ensures Print(e) == Show(e, OR)
  {}

  /** An operator between two operands that are closed in themselves. */
  lemma Joined(x: seq<Token>, e: Expr, op: BinOp, y: seq<Token>, d: Expr)
    requires x != [] && !IsPrefix(x[0]) && y != [] && !IsPrefix(y[0])
    requires Parse(ATOM, x + ([TokenOf(op)] + y), 1) == Got(e, [TokenOf(op)] + y)
    requires Parse(ATOM, y, 1) == Got(d, [])
    ensures ParseTop(x + ([TokenOf(op)] + y)) == Ok(Binary(op, e, d))
  {
    hide Parse, NextOp, Stops;
    var l, toks, more := LevelOf(op), x + ([TokenOf(op)] + y), [TokenOf(op)] + y;
    OperatorStops(op, y);
    assert more[1..] == y && toks[0] == x[0];
    NothingStops();
    StopsAll(l + 1, more);
    LevelClimbs(ATOM, l + 1, toks, e, more, 1);
    LevelClimbs(ATOM, l + 1, y, d, [], 1);
    JoinedHere(toks, e, op, more, d);
    LevelClimbs(l, OR, toks, Binary(op, e, d), [], 1);
  }

  lemma JoinedHere(toks: seq<Token>, e: Expr, op: BinOp, more: seq<Token>, d: Expr)
    requires var l := LevelOf(op);
             more != [] && Parse(l + 1, toks, 1) == Got(e, more) && Parse(l + 1, more[1..], 1) == Got(d, [])
             && NextOp(l, more) == Some(op) && NextOp(l, []).None?
    ensures Parse(LevelOf(op), toks, 1) == Got(Binary(op, e, d), [])
  {
    hide Parse, NextOp, Tail;
    var l := LevelOf(op);
    if l == CMP {
      ParseUnfoldCmp(toks, 1);
    } else {
      ChainStart(l, toks, 1);
      TailUnfold(l, e, more, 1);
      TailUnfold(l, Binary(op, e, d), [], 1);
    }
  }

  lemma NothingStops()
    ensures forall j: nat :: NextOp(j, []).None?
  {}

  lemma StopsAll(l: nat, rest: seq<Token>)
    requires Stops(l, rest)
    ensures forall j: nat :: l <= j < ATOM ==> NextOp(j, rest).None?
  {}

  lemma ParenthesesBind(a: real, s: Token, b: real, t: Token, c: real)
    requires s in INFIX && t in INFIX
    ensures var f, g := INFIX[s].0, INFIX[t].0;
            && ParseTop([LParen, Number(a), s, Number(b), RParen, t, Number(c)])
               == Ok(Binary(g, Binary(f, Num(a), Num(b)), Num(c)))
            && ParseTop([Number(a), s, LParen, Number(b), t, Number(c), RParen])
               == Ok(Binary(f, Num(a), Binary(g, Num(b), Num(c))))
  {
    hide INFIX, ParseTop;
    Table(s);
    Table(t);
    LeftEnclosed(a, INFIX[s].0, b, INFIX[t].0, c);
    RightEnclosed(a, INFIX[s].0, b, INFIX[t].0, c);
  }

  lemma LeftEnclosed(a: real, f: BinOp, b: real, g: BinOp, c: real)
    ensures ParseTop([LParen, Number(a), TokenOf(f), Number(b), RParen, TokenOf(g), Number(c)])
            == Ok(Binary(g, Binary(f, Num(a), Num(b)), Num(c)))
  {
    hide ParseTop, Parse, NeedBare, TokenOf, Print;
    var e, inside, more := Binary(f, Num(a), Num(b)), [Number(a), TokenOf(f), Number(b)], [TokenOf(g)] + [Number(c)];
    PrintTwo(a, f, b);
    PrintsTo(e, inside);
    Parenthesized(e, inside, more);
    Ends(c);
    Joined([LParen] + inside + [RParen], e, g, [Number(c)], Num(c));
    assert [LParen] + inside + [RParen] + more == [LParen, Number(a), TokenOf(f), Number(b), RParen, TokenOf(g), Number(c)];
  }

  lemma RightEnclosed(a: real, f: BinOp, b: real, g: BinOp, c: real)
    ensures ParseTop([Number(a), TokenOf(f), LParen, Number(b), TokenOf(g), Number(c), RParen])
            == Ok(Binary(f, Num(a), Binary(g, Num(b), Num(c))))
  {
    hide ParseTop, Parse, NeedBare, TokenOf, Print;
    var e, inside := Binary(g, Num(b), Num(c)), [Number(b), TokenOf(g), Number(c)];
    var y := [LParen] + inside + [RParen];
    PrintTwo(b, g, c);
    PrintsTo(e, inside);
    Parenthesized(e, inside, []);
    assert y + [] == y;
    NumberAhead(a, [TokenOf(f)] + y);
    Joined([Number(a)], Num(a), f, y, e);
    assert [Number(a)] + ([TokenOf(f)] + y) == [Number(a), TokenOf(f), LParen, Number(b), TokenOf(g), Number(c), RParen];
  }

  /** Nothing else joins two operands. */
  lemma NothingElseJoins(a: real, t: Token, b: real)
    requires t !in INFIX
    ensures ParseTop([Number(a), t, Number(b)]) == Err(Trailing)
  {
    hide Parse, INFIX, OpAt;
    var more := [t, Number(b)];
    NumberAhead(a, more);
    forall j: nat | j < ATOM ensures NextOp(j, more).None? { OnlyInfix(t, j); }
    LevelClimbs(ATOM, OR, [Number(a)] + more, Num(a), more, 1);
    assert [Number(a)] + more == [Number(a), t, Number(b)];
  }

  lemma NumberAhead(a: real, rest: seq<Token>)
    ensures Parse(ATOM, [Number(a)] + rest, 1) == Got(Num(a), rest)
  {
    assert ([Number(a)] + rest)[1..] == rest;
  }

  lemma Ends(c: real)
    ensures Parse(ATOM, [Number(c)], 1) == Got(Num(c), [])
  {
    NumberAhead(c, []);
    assert [Number(c)] + [] == [Number(c)];
  }

  // ---- Prefix operators ----

  /** Minus binds tighter than every infix operator; not is between the comparisons and `&&`. */
  lemma PrefixesBind(a: real, t: Token, b: real)
    requires t in INFIX
    ensures var (op, rank) := INFIX[t];
            && ParseTop([Minus, Number(a), t, Number(b)]) == Ok(Binary(op, Unary(Neg, Num(a)), Num(b)))
            && ParseTop([Number(a), t, Minus, Number(b)]) == Ok(Binary(op, Num(a), Unary(Neg, Num(b))))
            && ParseTop([Bang, Number(a), t, Number(b)]) ==
               (if rank >= 3 then Ok(Unary(Not, Binary(op, Num(a), Num(b)))) else Ok(Binary(op, Unary(Not, Num(a)), Num(b))))
            && ParseTop([Number(a), t, Bang, Number(b)]) ==
               (if rank >= 3 then Err(UnexpectedToken) else Ok(Binary(op, Num(a), Unary(Not, Num(b)))))
  {
    hide INFIX, ParseTop, IsPrint, NeedBare;
    Table(t);
    var (op, rank) := INFIX[t];
    PrefixFirst(Neg, a, op, b);
    PrefixSecond(Neg, a, op, b);
    if rank >= 3 {
      PrintTwo(a, op, b);
      PrintPrefix(Not, Binary(op, Num(a), Num(b)), [Number(a), t, Number(b)]);
      PrintsTo(Unary(Not, Binary(op, Num(a), Num(b))), [Bang] + [Number(a), t, Number(b)]);
      assert [Bang] + [Number(a), t, Number(b)] == [Bang, Number(a), t, Number(b)];
      NotIsNoOperand(a, op, b);
    } else {
      PrefixFirst(Not, a, op, b);
      PrefixSecond(Not, a, op, b);
    }
  }

  lemma PrefixFirst(un: UnOp, a: real, op: BinOp, b: real)
    requires LevelOf(op) < LevelOfExpr(Unary(un, Num(a)))
    ensures ParseTop([if un.Not? then Bang else Minus, Number(a), TokenOf(op), Number(b)])
            == Ok(Binary(op, Unary(un, Num(a)), Num(b)))
  {
    hide ParseTop, IsPrint, NeedBare;
    var mark := if un.Not? then Bang else Minus;
    PrintNumber(a);
    PrintNumber(b);
    PrintPrefix(un, Num(a), [Number(a)]);
    PrintInfix(op, Unary(un, Num(a)), [mark] + [Number(a)], Num(b), [Number(b)]);
    PrintsTo(Binary(op, Unary(un, Num(a)), Num(b)), [mark] + [Number(a)] + [TokenOf(op)] + [Number(b)]);
    assert [mark] + [Number(a)] + [TokenOf(op)] + [Number(b)] == [mark, Number(a), TokenOf(op), Number(b)];
  }

  lemma PrefixSecond(un: UnOp, a: real, op: BinOp, b: real)
    requires LevelOf(op) < LevelOfExpr(Unary(un, Num(b)))
    ensures ParseTop([Number(a), TokenOf(op), if un.Not? then Bang else Minus, Number(b)])
            == Ok(Binary(op, Num(a), Unary(un, Num(b))))
  {
    hide ParseTop, IsPrint, NeedBare;
    var mark := if un.Not? then Bang else Minus;
    PrintNumber(a);
    PrintNumber(b);
    PrintPrefix(un, Num(b), [Number(b)]);
    PrintInfix(op, Num(a), [Number(a)], Unary(un, Num(b)), [mark] + [Number(b)]);
    PrintsTo(Binary(op, Num(a), Unary(un, Num(b))), [Number(a)] + [TokenOf(op)] + ([mark] + [Number(b)]));
    assert [Number(a)] + [TokenOf(op)] + ([mark] + [Number(b)]) == [Number(a), TokenOf(op), mark, Number(b)];
  }

  lemma {:induction false} BangFails(l: nat, rest: seq<Token>, depth: nat)
    requires NOT < l <= ATOM
    ensures Parse(l, [Bang] + rest, depth) == Fail(UnexpectedToken)
    decreases ATOM - l
  {
    if l < ATOM { BangFails(l + 1, rest, depth); }
  }

  lemma NotIsNoOperand(a: real, op: BinOp, b: real)
    requires LevelOf(op) >= CMP
    ensures ParseTop([Number(a), TokenOf(op), Bang, Number(b)]) == Err(UnexpectedToken)
  {
    hide Parse, NextOp;
    var l, y := LevelOf(op), [Bang] + [Number(b)];
    var more := [TokenOf(op)] + y;
    var toks := [Number(a)] + more;
    OperatorStops(op, y);
    NumberParses(a, l + 1, more, 1);
    BangFails(l + 1, [Number(b)], 1);
    assert more[1..] == y;
    if l == CMP { ParseUnfoldCmp(toks, 1); } else { ChainStart(l, toks, 1); TailUnfold(l, Num(a), more, 1); }
    FailureClimbs(l, OR, toks, UnexpectedToken, 1);
    assert toks == [Number(a), TokenOf(op), Bang, Number(b)];
  }

  lemma {:induction false} FailureClimbs(k: nat, l: nat, toks: seq<Token>, error: ParseError, depth: nat)
    requires l <= k <= ATOM && toks != [] && toks[0] != Bang && (k == ATOM ==> !IsPrefix(toks[0]))
    requires Parse(k, toks, depth) == Fail(error)
    ensures Parse(l, toks, depth) == Fail(error)
    decreases k - l
  {
    if l < k { FailureClimbs(k, l + 1, toks, error, depth); }
  }

  // ---- How deep ----

  function Repeated(t: Token, k: nat): (r: seq<Token>)
    ensures |r| == k && forall i :: 0 <= i < k ==> r[i] == t
  {
    if k == 0 then [] else [t] + Repeated(t, k - 1)
  }

  function Prefixed(un: UnOp, k: nat, e: Expr): Expr { if k == 0 then e else Unary(un, Prefixed(un, k - 1, e)) }

  lemma {:induction false} PrefixedPrints(un: UnOp, k: nat, n: real)
    ensures var e := Prefixed(un, k, Num(n));
            Image(e) && Bare(e) == Repeated(if un.Not? then Bang else Minus, k) + [Number(n)] && NeedBare(e) == k
            && LevelOfExpr(e) >= LevelOfExpr(Unary(un, Num(n)))
  {
    if k > 0 { PrefixedPrints(un, k - 1, n); }
  }

  /** Signs, one behind the other: 63 of them at most; minus and not leave a node each, plus leaves nothing. */
  lemma PrefixesNest(k: nat, n: real)
    ensures ParseTop(Repeated(Minus, k) + [Number(n)]) == if k <= 63 then Ok(Prefixed(Neg, k, Num(n))) else Err(TooDeep)
    ensures ParseTop(Repeated(Bang, k) + [Number(n)]) == if k <= 63 then Ok(Prefixed(Not, k, Num(n))) else Err(TooDeep)
    ensures ParseTop(Repeated(Plus, k) + [Number(n)]) == if k <= 63 then Ok(Num(n)) else Err(TooDeep)
  {
    hide ParseTop, Image, Bare, NeedBare;
    PrefixedPrints(Neg, k, n);
    PrefixedPrints(Not, k, n);
    ParserInvertsPrinter(Prefixed(Neg, k, Num(n)));
    ParserInvertsPrinter(Prefixed(Not, k, Num(n)));
    PlusesParse(k, n);
  }

  lemma {:induction false} PlusesRead(k: nat, n: real, depth: nat)
    requires depth <= 64
    ensures Parse(UNARY, Repeated(Plus, k) + [Number(n)], depth) == if depth + k <= 64 then Got(Num(n), []) else Fail(TooDeep)
    decreases k
  {
    hide Parse;
    var toks := Repeated(Plus, k) + [Number(n)];
    ParseUnfoldUnary(toks, depth);
    if k == 0 {
      assert toks == [Number(n)] && toks[1..] == [];
    } else {
      assert toks == [Plus] + (Repeated(Plus, k - 1) + [Number(n)]);
      if depth < 64 { PlusesRead(k - 1, n, depth + 1); }
    }
  }

  lemma PlusesParse(k: nat, n: real)
    ensures ParseTop(Repeated(Plus, k) + [Number(n)]) == if k <= 63 then Ok(Num(n)) else Err(TooDeep)
  {
    hide Parse, NextOp;
    var toks := Repeated(Plus, k) + [Number(n)];
    PlusesRead(k, n, 1);
    NothingStops();
    if k <= 63 { LevelClimbs(UNARY, OR, toks, Num(n), [], 1); } else { FailureClimbs(UNARY, OR, toks, TooDeep, 1); }
  }

  function Enclosed(k: nat, n: real): seq<Token> { Repeated(LParen, k) + [Number(n)] + Repeated(RParen, k) }

  lemma {:induction false} ParenthesesRead(k: nat, n: real, rest: seq<Token>, depth: nat)
    requires depth < 64 && (rest == [] || rest[0] == RParen)
    ensures ParseOr(Enclosed(k, n) + rest, depth) == if depth + 1 + k <= 64 then Got(Num(n), rest) else Fail(TooDeep)
    decreases k
  {
    hide Parse, NextOp, Stops, ParseOr;
    var toks := Enclosed(k, n) + rest;
    ClosersStop(rest);
    StopsAll(OR, rest);
    OrUnfold(toks, depth);
    if k == 0 {
      NumberParses(n, OR, rest, depth + 1);
      assert toks == [Number(n)] + rest;
    } else {
      var more := [RParen] + rest;
      TakesOff(k, n, rest);
      AtomUnfoldParen(toks, depth + 1);
      if depth < 63 {
        ParenthesesRead(k - 1, n, more, depth + 1);
        assert more[1..] == rest;
      } else {
        TooDeepHere(toks[1..], depth + 1);
      }
      if depth + 1 + k <= 64 {
        LevelClimbs(ATOM, OR, toks, Num(n), rest, depth + 1);
      } else {
        FailureClimbs(ATOM, OR, toks, TooDeep, depth + 1);
      }
    }
  }

  lemma OrUnfold(toks: seq<Token>, depth: nat)
    requires depth < 64
    ensures ParseOr(toks, depth) == Parse(OR, toks, depth + 1)
  {}

  lemma TooDeepHere(toks: seq<Token>, depth: nat)
    requires depth >= 64
    ensures ParseOr(toks, depth) == Fail(TooDeep)
  {}

  lemma TakesOff(k: nat, n: real, rest: seq<Token>)
    requires k > 0
    ensures Enclosed(k, n) + rest == [LParen] + (Enclosed(k - 1, n) + ([RParen] + rest))
  {
    RepeatedLast(RParen, k);
  }

  lemma {:induction false} RepeatedLast(t: Token, k: nat)
    requires k > 0
    ensures Repeated(t, k) == Repeated(t, k - 1) + [t]
  {
    if k > 1 { RepeatedLast(t, k - 1); }
  }

  function Calls(f: string, k: nat, e: Expr): Expr { if k == 0 then e else Call(f, [Calls(f, k - 1, e)]) }

  function CallTokens(f: string, k: nat, n: real): seq<Token> {
    if k == 0 then [Number(n)] else [Ident(f), LParen] + CallTokens(f, k - 1, n) + [RParen]
  }

  lemma {:induction false} CallsPrint(f: string, k: nat, n: real)
    ensures var e := Calls(f, k, Num(n));
            Image(e) && Bare(e) == CallTokens(f, k, n) && NeedBare(e) == k && LevelOfExpr(e) == ATOM
  {
    if k > 0 {
      CallsPrint(f, k - 1, n);
      var args := [Calls(f, k - 1, Num(n))];
      assert Show(args[0], OR) == Bare(args[0]);
      assert Bare(Call(f, args)) == [Ident(f), LParen] + ArgsTokens(args);
    }
  }

  /** Parentheses and calls nest to 63 levels. */
  lemma ParenthesesNest(f: string, k: nat, n: real)
    ensures ParseTop(Repeated(LParen, k) + [Number(n)] + Repeated(RParen, k)) == if k <= 63 then Ok(Num(n)) else Err(TooDeep)
    ensures ParseTop(CallTokens(f, k, n)) == if k <= 63 then Ok(Calls(f, k, Num(n))) else Err(TooDeep)
  {
    hide ParseOr, Image, Bare, NeedBare;
    ParenthesesRead(k, n, [], 0);
    assert Enclosed(k, n) + [] == Enclosed(k, n);
    CallsPrint(f, k, n);
    ParserInvertsPrinter(Calls(f, k, Num(n)));
  }

  // ---- What stands alone ----

  lemma AtomsParse(n: real, s: string, f: string, a: real, b: real)
    ensures ParseTop([Number(n)]) == Ok(Lit(JNum(n))) && ParseTop([Str(s)]) == Ok(Lit(JStr(s)))
    ensures ParseTop([True]) == Ok(Lit(JBool(true))) && ParseTop([False]) == Ok(Lit(JBool(false)))
    ensures ParseTop([Null]) == Ok(Lit(JNull)) && ParseTop([Dollar]) == Ok(Path([]))
    ensures ParseTop([Ident(f), LParen, RParen]) == Ok(Call(f, []))
    ensures ParseTop([Ident(f), LParen, Number(a), Comma, Number(b), RParen]) == Ok(Call(f, [Num(a), Num(b)]))
  {
    hide ParseTop;
    Prints(Lit(JNum(n)), [Number(n)]);
    Prints(Lit(JStr(s)), [Str(s)]);
    Prints(Lit(JBool(true)), [True]);
    Prints(Lit(JBool(false)), [False]);
    Prints(Lit(JNull), [Null]);
    Prints(Path([]), [Dollar]);
    Prints(Call(f, []), [Ident(f), LParen, RParen]);
    TwoArguments(f, a, b);
  }

  lemma Prints(e: Expr, toks: seq<Token>)
    requires Image(e) && Bare(e) == toks && NeedBare(e) <= 1
    ensures ParseTop(toks) == Ok(e)
  {
    hide ParseTop, Bare, NeedBare, Image;
    ParserInvertsPrinter(e);
  }

  lemma ShowsNumber(n: real)
    ensures Show(Num(n), OR) == [Number(n)] && NeedBare(Num(n)) == 0
  {}

  lemma TwoArguments(f: string, a: real, b: real)
    ensures ParseTop([Ident(f), LParen, Number(a), Comma, Number(b), RParen]) == Ok(Call(f, [Num(a), Num(b)]))
  {
    hide ParseTop;
    var args := [Num(a), Num(b)];
    assert args[1..] == [Num(b)];
    ShowsNumber(a);
    ShowsNumber(b);
    assert ArgsTokens([Num(b)]) == Show([Num(b)][0], OR) + [RParen];
    assert ArgsTokens(args) == [Number(a)] + [Comma] + ArgsTokens([Num(b)]);
    assert NeedArgs([Num(b)]) == 1 && NeedArgs(args) == 1;
    Prints(Call(f, args), [Ident(f), LParen, Number(a), Comma, Number(b), RParen]);
  }

  // ---- Paths ----

  /** A field, an element and a key; an index past the largest is cut off at it if it is the next number. */
  lemma PathsParse(x: string, i: nat, k: string)
    ensures ParseTop([Dollar, Dot, Ident(x), LBracket, Number(i as real), RBracket, LBracket, Str(k), RBracket]) ==
      if i <= 18446744073709551615 then Ok(Path([Field(x), Index(i), Key(k)]))
      else if i == 18446744073709551616 then Ok(Path([Field(x), Index(18446744073709551615), Key(k)])) else Err(BadIndex)
  {
    hide ParsePath;
    var last := [LBracket, Str(k), RBracket];
    var more := [LBracket, Number(i as real), RBracket] + last;
    var toks := [Dot, Ident(x)] + more;
    PathUnfold([], toks);
    assert toks[2..] == more && [] + [Field(x)] == [Field(x)];
    PathUnfold([Field(x)], more);
    assert more[2..][0] == RBracket && more[3..] == last;
    assert (i as real).Floor == i;
    if i <= 18446744073709551616 {
      var steps := [Field(x)] + [Index(IndexOf(i as real))];
      PathUnfold(steps, last);
      assert last[2..][0] == RBracket && last[3..] == [];
      PathUnfold(steps + [Key(k)], []);
      assert steps + [Key(k)] == [Field(x), Index(IndexOf(i as real)), Key(k)];
    }
    var all := [Dollar] + toks;
    PathAtTop(toks);
    assert all == [Dollar, Dot, Ident(x), LBracket, Number(i as real), RBracket, LBracket, Str(k), RBracket];
  }

  lemma PathAtTop(toks: seq<Token>)
    ensures var r := ParsePath([], toks);
            && (r.Fail? ==> ParseTop([Dollar] + toks) == Err(r.error))
            && (r.Got? && r.rest == [] ==> ParseTop([Dollar] + toks) == Ok(r.e))
  {
    hide Parse, NextOp, ParsePath;
    var r := ParsePath([], toks);
    if r.Got? ==> r.rest == [] { DollarReads(toks); AtTop(Dollar, toks, r); }
  }

  lemma DollarReads(toks: seq<Token>)
    ensures ParseAtom([Dollar] + toks, 1) == ParsePath([], toks)
  {
    assert ([Dollar] + toks)[1..] == toks;
  }

  lemma AtTop(t: Token, toks: seq<Token>, r: Parsed)
    requires !IsPrefix(t) && ParseAtom([t] + toks, 1) == r && (r.Got? ==> r.rest == [])
    ensures ParseTop([t] + toks) == if r.Got? then Ok(r.e) else Err(r.error)
  {
    hide Parse, NextOp;
    var all := [t] + toks;
    assert Parse(ATOM, all, 1) == r by { AtomUnfold(all); }
    NothingStops();
    if r.Got? { LevelClimbs(ATOM, OR, all, r.e, [], 1); } else { FailureClimbs(ATOM, OR, all, r.error, 1); }
  }

  lemma AtomUnfold(toks: seq<Token>)
    ensures Parse(ATOM, toks, 1) == ParseAtom(toks, 1)
  {}

  /** What is refused, and how. */
  lemma Refusals(n: real, f: string, i: real)
    ensures ParseTop([]) == Err(UnexpectedToken) && ParseTop([RParen]) == Err(UnexpectedToken)
    ensures ParseTop([Ident(f)]) == Err(BareIdentifier)
    ensures ParseTop([Number(n), Number(n)]) == Err(Trailing)
    ensures ParseTop([LParen, Number(n)]) == Err(ExpectedRParen)
    ensures ParseTop([Ident(f), LParen, Number(n)]) == Err(ExpectedRParen)
    ensures ParseTop([Dollar, Dot]) == Err(ExpectedIdentifier) && ParseTop([Dollar, LBracket]) == Err(ExpectedNumberOrString)
    ensures i < 0.0 || i != i.Floor as real ==> ParseTop([Dollar, LBracket, Number(i), RBracket]) == Err(BadIndex)
    ensures i >= 0.0 && i == i.Floor as real && i.Floor <= 18446744073709551616 ==>
            ParseTop([Dollar, LBracket, Number(i)]) == Err(ExpectedRBracket)
  {
    hide Parse, ParseOr, ParseArgs, ParsePath, ParseTop;
    NothingParses();
    AtTop(RParen, [], Fail(UnexpectedToken));
    AtTop(Ident(f), [], Fail(BareIdentifier));
    assert [RParen] + [] == [RParen] && [Ident(f)] + [] == [Ident(f)];
    TwoNumbers(n);
    NotClosed(n, f);
    BrokenPaths(i);
  }

  lemma BrokenPaths(i: real)
    ensures ParseTop([Dollar, Dot]) == Err(ExpectedIdentifier) && ParseTop([Dollar, LBracket]) == Err(ExpectedNumberOrString)
    ensures i < 0.0 || i != i.Floor as real ==> ParseTop([Dollar, LBracket, Number(i), RBracket]) == Err(BadIndex)
    ensures i >= 0.0 && i == i.Floor as real && i.Floor <= 18446744073709551616 ==>
            ParseTop([Dollar, LBracket, Number(i)]) == Err(ExpectedRBracket)
  {
    hide ParsePath, ParseTop;
    PathUnfold([], [Dot]);
    PathUnfold([], [LBracket]);
    PathUnfold([], [LBracket, Number(i), RBracket]);
    PathUnfold([], [LBracket, Number(i)]);
    PathAtTop([Dot]);
    PathAtTop([LBracket]);
    PathAtTop([LBracket, Number(i), RBracket]);
    PathAtTop([LBracket, Number(i)]);
    assert [Dollar] + [Dot] == [Dollar, Dot] && [Dollar] + [LBracket] == [Dollar, LBracket];
    assert [Dollar] + [LBracket, Number(i)] == [Dollar, LBracket, Number(i)];
    assert [Dollar] + [LBracket, Number(i), RBracket] == [Dollar, LBracket, Number(i), RBracket];
  }

  lemma {:induction false} FailsEverywhere(l: nat)
    requires l <= ATOM
    ensures Parse(l, [], 1) == Fail(UnexpectedToken)
    decreases ATOM - l
  {
    if l < ATOM { FailsEverywhere(l + 1); }
  }

  lemma NothingParses()
    ensures ParseTop([]) == Err(UnexpectedToken)
  {
    hide Parse;
    FailsEverywhere(OR);
  }

  lemma TwoNumbers(n: real)
    ensures ParseTop([Number(n), Number(n)]) == Err(Trailing)
  {
    hide Parse;
    NumberParses(n, OR, [Number(n)], 1);
    assert [Number(n)] + [Number(n)] == [Number(n), Number(n)];
  }

  lemma NotClosed(n: real, f: string)
    ensures ParseTop([LParen, Number(n)]) == Err(ExpectedRParen)
    ensures ParseTop([Ident(f), LParen, Number(n)]) == Err(ExpectedRParen)
  {
    hide Parse, ParseTop, ParseArgs, ParseOr;
    NumberParses(n, OR, [], 2);
    OrUnfold([Number(n)], 1);
    assert [Number(n)] + [] == [Number(n)];
    var open, call := [LParen] + [Number(n)], [Ident(f)] + [LParen, Number(n)];
    assert open[1..] == [Number(n)] && call[1..] == [LParen, Number(n)] && call[2..] == [Number(n)];
    ArgsUnfold(f, [], [Number(n)], 1);
    AtTop(LParen, [Number(n)], Fail(ExpectedRParen));
    AtTop(Ident(f), [LParen, Number(n)], Fail(ExpectedRParen));
    assert open == [LParen, Number(n)] && call == [Ident(f), LParen, Number(n)];
  }
}
