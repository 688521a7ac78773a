/** The lexer. A character stands for one byte of the source. */
module ExpressionLexer {
  import opened Wrappers
  import opened Expressions
  import opened ExpressionPrinter

  const MAX_STRING_LITERAL_BYTES: nat := 65536

  datatype LexError =
    | InvalidUtf8 | StringTooLong | UnterminatedEscape | UnterminatedString
    | BadNumber | UnexpectedCharacter(c: char) | TooManyTokens

  datatype Lexed = End | Tok(t: Token, rest: string) | Bad(error: LexError)

  /** What the lexer calls: UTF-8 validation, and the value of a number lexeme, None unless it is finite. */
  datatype Library = Library(utf8: string -> bool, number: string -> Option<real>)

  // ---- Character classes ----

  predicate IsSpace(c: char) { c == ' ' || c == '\t' || c == '\n' || c == '\r' || c == 12 as char }

  predicate IsDigit(c: char) { '0' <= c <= '9' }

  predicate IsLetter(c: char) { 'a' <= c <= 'z' || 'A' <= c <= 'Z' || c == '_' }

  predicate IsWordChar(c: char) { IsLetter(c) || IsDigit(c) }

  predicate IsExponent(c: char) { c == 'e' || c == 'E' }

  /** Whether `c` continues the number read so far; a sign does so only behind an exponent mark. */
  predicate ContinuesNumber(sofar: string, c: char) {
    || IsDigit(c) || c == '.' || IsExponent(c)
    || ((c == '-' || c == '+') && sofar != "" && IsExponent(sofar[|sofar| - 1]))
  }

  // ---- One token ----

  function SkipSpace(s: string): (r: string)
    ensures |r| <= |s|
    ensures r != "" ==> !IsSpace(r[0])
  {
    if s != "" && IsSpace(s[0]) then SkipSpace(s[1..]) else s
  }

  function TwoCharacters(s: string): Option<Token> {
    if |s| < 2 then None
    else if s[..2] == "==" then Some(EqEq) else if s[..2] == "!=" then Some(NotEq)
    else if s[..2] == "<=" then Some(LtEq) else if s[..2] == ">=" then Some(GtEq)
    else if s[..2] == "&&" then Some(AndAnd) else if s[..2] == "||" then Some(OrOr)
    else None
  }

  function OneCharacter(c: char): Option<Token> {
    if c == '+' then Some(Plus) else if c == '-' then Some(Minus) else if c == '*' then Some(Star)
    else if c == '/' then Some(Slash) else if c == '%' then Some(Percent) else if c == '<' then Some(Lt)
    else if c == '>' then Some(Gt) else if c == '!' then Some(Bang) else if c == '(' then Some(LParen)
    else if c == ')' then Some(RParen) else if c == '[' then Some(LBracket) else if c == ']' then Some(RBracket)
    else if c == ',' then Some(Comma) else if c == '.' then Some(Dot) else if c == '$' then Some(Dollar)
    else None
  }

  function Unescape(c: char): char { if c == 'n' then '\n' else if c == 't' then '\t' else c }

  /** The inside of a string literal, up to the closing quote. The cap is tested before each byte is taken. */
  function StringBody(lib: Library, s: string, quote: char, buf: string): (r: Lexed)
    ensures r.Tok? ==> |r.rest| < |s|
    ensures !r.End?
    decreases |s|
  {
    if s == "" then Bad(UnterminatedString)
    else if s[0] == quote then (if lib.utf8(buf) then Tok(Str(buf), s[1..]) else Bad(InvalidUtf8))
    else if |buf| >= MAX_STRING_LITERAL_BYTES then Bad(StringTooLong)
    else if s[0] == '\\' then
      if |s| == 1 then Bad(UnterminatedEscape) else StringBody(lib, s[2..], quote, buf + [Unescape(s[1])])
    else StringBody(lib, s[1..], quote, buf + [s[0]])
  }

  function NumberEnd(s: string, sofar: string): (r: string)
    ensures |sofar| <= |r| <= |sofar| + |s|
    decreases |s|
  {
    if s != "" && ContinuesNumber(sofar, s[0]) then NumberEnd(s[1..], sofar + [s[0]]) else sofar
  }

  function WordEnd(s: string, sofar: string): (r: string)
    ensures |sofar| <= |r| <= |sofar| + |s|
    decreases |s|
  {
    if s != "" && IsWordChar(s[0]) then WordEnd(s[1..], sofar + [s[0]]) else sofar
  }

  function WordToken(word: string): Token {
    if word == "true" then True else if word == "false" then False else if word == "null" then Null else Ident(word)
  }

  function TokenAt(lib: Library, s: string): (r: Lexed)
    requires s != ""
    ensures r.Tok? ==> |r.rest| < |s|
    ensures !r.End?
  {
    if TwoCharacters(s).Some? then Tok(TwoCharacters(s).value, s[2..])
    else if OneCharacter(s[0]).Some? then Tok(OneCharacter(s[0]).value, s[1..])
    else if s[0] == '"' || s[0] == '\'' then StringBody(lib, s[1..], s[0], "")
    else if IsDigit(s[0]) then
      var lexeme := NumberEnd(s[1..], [s[0]]);
      if lib.number(lexeme).Some? then Tok(Number(lib.number(lexeme).value), s[|lexeme|..]) else Bad(BadNumber)
    else if IsLetter(s[0]) then
      var word := WordEnd(s[1..], [s[0]]);
      Tok(WordToken(word), s[|word|..])
    else Bad(UnexpectedCharacter(s[0]))
  }

  function NextToken(lib: Library, s: string): (r: Lexed)
    ensures r.Tok? ==> |r.rest| < |s|
  {
    var t := SkipSpace(s);
    if t == "" then End else TokenAt(lib, t)
  }

  /** All tokens; the one that would exceed the cap is lexed before it is refused. */
  function Tokenize(lib: Library, s: string, count: nat): Result<seq<Token>, LexError>
    decreases |s|
  {
    match NextToken(lib, s)
    case End => Ok([])
    case Bad(error) => Err(error)
    case Tok(t, rest) =>
      if count >= MAX_TOKENS then Err(TooManyTokens)
      else
        var more := Tokenize(lib, rest, count + 1);
        if more.Ok? then Ok([t] + more.value) else more
  }

  // ---- The lexer as the source writes it ----

  class Lexer {
    const lib: Library
    const src: string
    var pos: nat

    constructor (lib: Library, src: string)
      ensures this.lib == lib && this.src == src && pos == 0
    {
      this.lib, this.src := lib, src;
      pos := 0;
    }

    predicate Valid()
      reads this
    {
      pos <= |src|
    }

    function Rest(): string
      requires Valid()
      reads this
    {
      src[pos..]
    }

    function Peek(): (c: Option<char>)
      requires Valid()
      reads this
      ensures c == if Rest() == "" then None else Some(Rest()[0])
    {
      if pos < |src| then Some(src[pos]) else None
    }

    method Advance() returns (c: Option<char>)
      requires Valid()
      modifies this
      ensures Valid() && c == old(Peek())
      ensures Rest() == if old(Rest()) == "" then "" else old(Rest())[1..]
      ensures c.Some? ==> pos == old(pos) + 1
    {
      c := Peek();
      if c.Some? { pos := pos + 1; }
    }

    method SkipWhitespace()
      requires Valid()
      modifies this
      ensures Valid() && Rest() == SkipSpace(old(Rest()))
    {
      while Peek().Some? && IsSpace(Peek().value)
        invariant Valid() && SkipSpace(Rest()) == SkipSpace(old(Rest()))
        decreases |src| - pos
      {
        pos := pos + 1;
      }
    }

    method Next() returns (r: Lexed)
      requires Valid()
      modifies this
      ensures Valid()
      ensures match NextToken(lib, old(Rest()))
              case Tok(t, rest) => r == Tok(t, Rest()) && Rest() == rest
              case other => r == other
    {
      hide StringBody, NumberEnd, WordEnd, SkipSpace, TwoCharacters, OneCharacter, WordToken;
      SkipWhitespace();
      if Peek().None? { return End; }
      var c := Peek().value;
      var two := TwoCharacters(Rest());
      if two.Some? {
        TwoFit(Rest());
        pos := pos + 2;
        return Tok(two.value, Rest());
      }
      if OneCharacter(c).Some? {
        var _ := Advance();
        return Tok(OneCharacter(c).value, Rest());
      }
      if c == '"' || c == '\'' {
        r := Quoted();
      } else if IsDigit(c) {
        r := Numeral();
      } else if IsLetter(c) {
        r := Word();
      } else {
        r := Bad(UnexpectedCharacter(c));
      }
    }

    method Quoted() returns (r: Lexed)
      requires Valid() && Rest() != ""
      modifies this
      ensures Valid()
      ensures match StringBody(lib, old(Rest())[1..], old(Rest())[0], "")
              case Tok(t, rest) => r == Tok(t, Rest()) && Rest() == rest
              case other => r == other
    {
      hide StringBody;
      ghost var inside, q := Rest()[1..], Rest()[0];
      var first := Advance();
      var quote, buf := first.value, "";
      while Peek().Some?
        invariant Valid() && quote == q
        invariant StringBody(lib, Rest(), quote, buf) == StringBody(lib, inside, q, "")
        decreases |src| - pos
      {
        StringBodyUnfold(lib, Rest(), quote, buf);
        if Peek().value == quote {
          var _ := Advance();
          return if lib.utf8(buf) then Tok(Str(buf), Rest()) else Bad(InvalidUtf8);
        }
        if |buf| >= MAX_STRING_LITERAL_BYTES { return Bad(StringTooLong); }
        if Peek().value == '\\' {
          var _ := Advance();
          var escaped := Advance();
          if escaped.None? { return Bad(UnterminatedEscape); }
          buf := buf + [Unescape(escaped.value)];
        } else {
          var taken := Advance();
          buf := buf + [taken.value];
        }
      }
      StringBodyUnfold(lib, Rest(), quote, buf);
      r := Bad(UnterminatedString);
    }

    method Numeral() returns (r: Lexed)
      requires Valid() && Rest() != "" && IsDigit(Rest()[0])
      modifies this
      ensures Valid()
      ensures var lexeme := NumberEnd(old(Rest())[1..], [old(Rest())[0]]);
              && (lib.number(lexeme).None? ==> r == Bad(BadNumber))
              && (lib.number(lexeme).Some? ==> r == Tok(Number(lib.number(lexeme).value), Rest()))
              && (lib.number(lexeme).Some? ==> Rest() == old(Rest())[|lexeme|..])
    {
      ghost var start := Rest();
      ghost var whole := NumberEnd(start[1..], [start[0]]);
      var s := "";
      NumberStarts(start);
      while Peek().Some? && ContinuesNumber(s, Peek().value)
        invariant Valid() && |s| <= |start| && Rest() == start[|s|..]
        invariant whole == NumberEnd(Rest(), s)
        decreases |src| - pos
      {
        var c := Advance();
        s := s + [c.value];
      }
      var value := lib.number(s);
      r := if value.Some? then Tok(Number(value.value), Rest()) else Bad(BadNumber);
    }

    method Word() returns (r: Lexed)
      requires Valid() && Rest() != "" && IsLetter(Rest()[0])
      modifies this
      ensures Valid()
      ensures var word := WordEnd(old(Rest())[1..], [old(Rest())[0]]);
              r == Tok(WordToken(word), Rest()) && Rest() == old(Rest())[|word|..]
    {
      ghost var start := Rest();
      ghost var whole := WordEnd(start[1..], [start[0]]);
      var s := "";
      WordStarts(start);
      while Peek().Some? && IsWordChar(Peek().value)
        invariant Valid() && |s| <= |start| && Rest() == start[|s|..]
        invariant whole == WordEnd(Rest(), s)
        decreases |src| - pos
      {
        var c := Advance();
        s := s + [c.value];
      }
      r := Tok(WordToken(s), Rest());
    }
  }

  lemma TwoFit(s: string)
    requires TwoCharacters(s).Some?
    ensures |s| >= 2
  {}

  lemma NumberStarts(s: string)
    requires s != "" && IsDigit(s[0])
    ensures NumberEnd(s, "") == NumberEnd(s[1..], [s[0]])
  {
    assert "" + [s[0]] == [s[0]];
  }

  lemma WordStarts(s: string)
    requires s != "" && IsLetter(s[0])
    ensures WordEnd(s, "") == WordEnd(s[1..], [s[0]])
  {
    assert "" + [s[0]] == [s[0]];
  }

  lemma StringBodyUnfold(lib: Library, s: string, quote: char, buf: string)
    ensures StringBody(lib, s, quote, buf) ==
      if s == "" then Bad(UnterminatedString)
      else if s[0] == quote then (if lib.utf8(buf) then Tok(Str(buf), s[1..]) else Bad(InvalidUtf8))
      else if |buf| >= MAX_STRING_LITERAL_BYTES then Bad(StringTooLong)
      else if s[0] == '\\' then
        if |s| == 1 then Bad(UnterminatedEscape) else StringBody(lib, s[2..], quote, buf + [Unescape(s[1])])
      else StringBody(lib, s[1..], quote, buf + [s[0]])
  {}

  /** The token list the parser starts from. */
  method LexAll(lib: Library, src: string) returns (r: Result<seq<Token>, LexError>)
    ensures r == Tokenize(lib, src, 0)
  {
    hide NextToken;
    var lexer := new Lexer(lib, src);
    var tokens: seq<Token> := [];
    assert lexer.Rest() == src;
    NothingPrepended(Tokenize(lib, src, 0));
    while true
      invariant lexer.Valid() && lexer.lib == lib && fresh(lexer)
      invariant Tokenize(lib, src, 0) == Prepended(tokens, Tokenize(lib, lexer.Rest(), |tokens|))
      decreases |lexer.Rest()|
    {
      TokenizeUnfold(lib, lexer.Rest(), |tokens|);
      ghost var rest := lexer.Rest();
      var next := lexer.Next();
      match next
      case End => assert tokens + [] == tokens; return Ok(tokens);
      case Bad(error) => return Err(error);
      case Tok(t, _) =>
        if |tokens| >= MAX_TOKENS { return Err(TooManyTokens); }
        PrependOne(tokens, t, Tokenize(lib, lexer.Rest(), |tokens| + 1));
        tokens := tokens + [t];
    }
  }

  function Prepended(before: seq<Token>, r: Result<seq<Token>, LexError>): Result<seq<Token>, LexError> {
    if r.Ok? then Ok(before + r.value) else r
  }

  lemma NothingPrepended(r: Result<seq<Token>, LexError>)
    ensures Prepended([], r) == r
  {
    if r.Ok? { assert [] + r.value == r.value; }
  }

  lemma PrependOne(before: seq<Token>, t: Token, r: Result<seq<Token>, LexError>)
    ensures Prepended(before, if r.Ok? then Ok([t] + r.value) else r) == Prepended(before + [t], r)
  {
    if r.Ok? { assert before + ([t] + r.value) == before + [t] + r.value; }
  }

  lemma TokenizeUnfold(lib: Library, s: string, count: nat)
    ensures var next := NextToken(lib, s);
            && (next.End? ==> Tokenize(lib, s, count) == Ok([]))
            && (next.Bad? ==> Tokenize(lib, s, count) == Err(next.error))
            && (next.Tok? ==> |next.rest| < |s|)
            && (next.Tok? && count >= MAX_TOKENS ==> Tokenize(lib, s, count) == Err(TooManyTokens))
            && (next.Tok? && count < MAX_TOKENS ==>
                  var more := Tokenize(lib, next.rest, count + 1);
                  Tokenize(lib, s, count) == if more.Ok? then Ok([next.t] + more.value) else more)
  {}

  // ---- Writing tokens down ----

  function Escaped(s: string): string {
    if s == "" then ""
    else (if s[0] == '"' || s[0] == '\\' then ['\\', s[0]] else [s[0]]) + Escaped(s[1..])
  }

  /** `numeral` writes a number. */
  function Spell(numeral: real -> string, t: Token): string {
    match t
    case Number(n) => numeral(n)
    case Str(s) => "\"" + Escaped(s) + "\""
    case True => "true" case False => "false" case Null => "null"
    case Ident(name) => name
    case Plus => "+" case Minus => "-" case Star => "*" case Slash => "/" case Percent => "%"
    case EqEq => "==" case NotEq => "!=" case Lt => "<" case Gt => ">" case LtEq => "<=" case GtEq => ">="
    case AndAnd => "&&" case OrOr => "||" case Bang => "!"
    case LParen => "(" case RParen => ")" case LBracket => "[" case RBracket => "]"
    case Comma => "," case Dot => "." case Dollar => "$"
  }

  predicate IsIdentifier(s: string) {
    && s != "" && IsLetter(s[0]) && (forall i :: 0 <= i < |s| ==> IsWordChar(s[i]))
    && s != "true" && s != "false" && s != "null"
  }

  /** The lexer reads all of it as one number. */
  predicate IsNumeral(s: string) {
    s != "" && IsDigit(s[0]) && forall i :: 0 < i < |s| ==> ContinuesNumber(s[..i], s[i])
  }

  predicate Spellable(lib: Library, numeral: real -> string, t: Token) {
    match t
    case Number(n) => IsNumeral(numeral(n)) && lib.number(numeral(n)) == Some(n)
    case Str(s) => |s| <= MAX_STRING_LITERAL_BYTES && lib.utf8(s)
    case Ident(name) => IsIdentifier(name)
    case _ => true
  }

  function ShowTokens(numeral: real -> string, ts: seq<Token>): string {
    if ts == [] then "" else Spell(numeral, ts[0]) + " " + ShowTokens(numeral, ts[1..])
  }

  // ---- Reading them back ----

  /** An escaped string of up to the cap reads back; a longer one is refused. */
  lemma {:induction false} StringRoundTrip(lib: Library, s: string, buf: string, rest: string)
    requires |buf| <= MAX_STRING_LITERAL_BYTES && lib.utf8(buf + s)
    ensures StringBody(lib, Escaped(s) + "\"" + rest, '"', buf) ==
            if |buf| + |s| <= 65536 then Tok(Str(buf + s), rest) else Bad(StringTooLong)
    decreases |s|
  {
    hide StringBody, Escaped;
    var src := Escaped(s) + "\"" + rest;
    StringBodyUnfold(lib, src, '"', buf);
    EscapedUnfold(s);
    if s == "" {
      assert src[0] == '"' && src[1..] == rest && buf + s == buf;
    } else {
      var c := s[0];
      var more := Escaped(s[1..]) + "\"" + rest;
      assert buf + s == buf + [c] + s[1..];
      if c == '"' || c == '\\' {
        assert src == ['\\', c] + more;
        assert src[2..] == more;
      } else {
        assert src == [c] + more;
        assert src[1..] == more;
      }
      if |buf| < MAX_STRING_LITERAL_BYTES { StringRoundTrip(lib, s[1..], buf + [c], rest); }
    }
  }

  lemma EscapedUnfold(s: string)
    ensures s == "" ==> Escaped(s) == ""
    ensures s != "" ==> Escaped(s) == (if s[0] == '"' || s[0] == '\\' then ['\\', s[0]] else [s[0]]) + Escaped(s[1..])
  {}

  lemma {:induction false} NumeralRoundTrip(s: string, i: nat, rest: string)
    requires IsNumeral(s) && 0 < i <= |s|
    ensures NumberEnd(s[i..] + " " + rest, s[..i]) == s
    decreases |s| - i
  {
    var src := s[i..] + " " + rest;
    if i < |s| {
      assert src[0] == s[i] && src[1..] == s[i + 1..] + " " + rest;
      assert s[..i] + [s[i]] == s[..i + 1];
      NumeralRoundTrip(s, i + 1, rest);
    } else {
      assert src[0] == ' ' && s[..i] == s;
    }
  }

  lemma {:induction false} WordRoundTrip(s: string, i: nat, rest: string)
    requires (forall k :: 0 <= k < |s| ==> IsWordChar(s[k])) && 0 < i <= |s|
    ensures WordEnd(s[i..] + " " + rest, s[..i]) == s
    decreases |s| - i
  {
    var src := s[i..] + " " + rest;
    if i < |s| {
      assert src[0] == s[i] && src[1..] == s[i + 1..] + " " + rest;
      assert s[..i] + [s[i]] == s[..i + 1];
      WordRoundTrip(s, i + 1, rest);
    } else {
      assert src[0] == ' ' && s[..i] == s;
    }
  }

  lemma NumberReads(lib: Library, s: string, rest: string)
    requires IsNumeral(s) && lib.number(s).Some?
    ensures NextToken(lib, s + " " + rest) == Tok(Number(lib.number(s).value), " " + rest)
  {
    hide NumberEnd, StringBody, WordEnd, WordToken;
    var src := s + " " + rest;
    NumeralRoundTrip(s, 1, rest);
    assert src[1..] == s[1..] + " " + rest && [src[0]] == s[..1];
    assert src[|s|..] == " " + rest;
  }

  lemma WordReads(lib: Library, s: string, rest: string)
    requires s != "" && IsLetter(s[0]) && forall k :: 0 <= k < |s| ==> IsWordChar(s[k])
    ensures NextToken(lib, s + " " + rest) == Tok(WordToken(s), " " + rest)
  {
    hide NumberEnd, StringBody, WordEnd, WordToken;
    var src := s + " " + rest;
    WordRoundTrip(s, 1, rest);
    assert src[1..] == s[1..] + " " + rest && [src[0]] == s[..1];
    assert src[|s|..] == " " + rest;
  }

  lemma QuoteStarts(lib: Library, s: string)
    requires s != "" && s[0] == '"'
    ensures NextToken(lib, s) == StringBody(lib, s[1..], '"', "")
  {
    hide NumberEnd, StringBody, WordEnd, WordToken;
  }

  lemma StringReads(lib: Library, s: string, rest: string)
    requires lib.utf8(s)
    ensures NextToken(lib, "\"" + Escaped(s) + "\"" + rest) ==
            if |s| <= 65536 then Tok(Str(s), rest) else Bad(StringTooLong)
  {
    hide NextToken, StringBody, Escaped;
    var src := "\"" + Escaped(s) + "\"" + rest;
    assert src[0] == '"' && src[1..] == Escaped(s) + "\"" + rest;
    QuoteStarts(lib, src);
    assert "" + s == s;
    StringRoundTrip(lib, s, "", rest);
  }

  lemma OneCharacterReads(lib: Library, c: char, rest: string)
    requires OneCharacter(c).Some?
    ensures NextToken(lib, [c] + " " + rest) == Tok(OneCharacter(c).value, " " + rest)
  {
    hide NumberEnd, StringBody, WordEnd, WordToken, OneCharacter;
    var src := [c] + " " + rest;
    assert src[0] == c && src[1] == ' ' && src[1..] == " " + rest;
    SymbolsAreNoSpace(c);
    assert SkipSpace(src) == src;
  }

  lemma SymbolsAreNoSpace(c: char)
    requires OneCharacter(c).Some?
    ensures !IsSpace(c)
  {}

  lemma TwoCharactersRead(lib: Library, s: string, rest: string)
    requires |s| == 2 && TwoCharacters(s).Some?
    ensures NextToken(lib, s + " " + rest) == Tok(TwoCharacters(s).value, " " + rest)
  {
    hide NumberEnd, StringBody, WordEnd, WordToken, OneCharacter;
    var src := s + " " + rest;
    assert s[..2] == s && src[..2] == s && src[2..] == " " + rest;
    assert src[0] == s[0];
  }

  lemma SymbolReads(lib: Library, numeral: real -> string, t: Token, rest: string)
    requires !t.Number? && !t.Str? && !t.Ident? && !t.True? && !t.False? && !t.Null?
    ensures NextToken(lib, Spell(numeral, t) + " " + rest) == Tok(t, " " + rest)
  {
    hide NextToken, Escaped;
    var s := Spell(numeral, t);
    if |s| == 2 {
      assert s[..2] == s;
      TwoCharactersRead(lib, s, rest);
    } else {
      assert s == [s[0]];
      OneCharacterReads(lib, s[0], rest);
    }
  }

  lemma TokenReads(lib: Library, numeral: real -> string, t: Token, rest: string)
    requires Spellable(lib, numeral, t)
    ensures NextToken(lib, Spell(numeral, t) + " " + rest) == Tok(t, " " + rest)
  {
    hide NextToken, Escaped;
    match t
    case Number(n) => NumberReads(lib, numeral(n), rest);
    case Str(s) =>
      StringReads(lib, s, " " + rest);
      assert "\"" + Escaped(s) + "\"" + (" " + rest) == Spell(numeral, t) + " " + rest;
    case Ident(name) => WordReads(lib, name, rest);
    case True => WordReads(lib, "true", rest);
    case False => WordReads(lib, "false", rest);
    case Null => WordReads(lib, "null", rest);
    case _ => SymbolReads(lib, numeral, t, rest);
  }

  lemma SpaceIsSkipped(lib: Library, s: string)
    ensures NextToken(lib, " " + s) == NextToken(lib, s)
  {
    assert (" " + s)[1..] == s;
  }

  /** Tokens written down with a space behind each read back as they were, up to the cap on their number. */
  lemma {:induction false} TokensRoundTrip(lib: Library, numeral: real -> string, ts: seq<Token>, count: nat, gap: bool)
    requires forall t :: t in ts ==> Spellable(lib, numeral, t)
    requires count <= MAX_TOKENS
    ensures Tokenize(lib, (if gap then " " else "") + ShowTokens(numeral, ts), count) ==
            if count + |ts| <= 4096 then Ok(ts) else Err(TooManyTokens)
    decreases |ts|
  {
    hide NextToken, Spellable, Spell;
    var text := ShowTokens(numeral, ts);
    var src := (if gap then " " else "") + text;
    if gap { SpaceIsSkipped(lib, text); } else { assert src == text; }
    TokenizeUnfold(lib, src, count);
    if ts == [] {
      NothingToRead(lib);
    } else {
      TokenReads(lib, numeral, ts[0], ShowTokens(numeral, ts[1..]));
      if count < MAX_TOKENS { TokensRoundTrip(lib, numeral, ts[1..], count + 1, true); }
      assert ts == [ts[0]] + ts[1..];
    }
  }

  lemma NothingToRead(lib: Library)
    ensures NextToken(lib, "") == End
  {}

  // ---- Text to tree ----

  datatype TextError = Lexing(lex: LexError) | Parsing(parse: ParseError)

  function ParseText(lib: Library, src: string): Result<Expr, TextError> {
    match Tokenize(lib, src, 0)
    case Err(error) => Err(Lexing(error))
    case Ok(ts) =>
      (match ParseTop(ts)
       case Ok(e) => Ok(e)
       case Err(error) => Err(Parsing(error)))
  }

  function PrintText(numeral: real -> string, e: Expr): string { ShowTokens(numeral, Print(e)) }

  /** An expression written as text reads back as the same tree exactly when it keeps within the two bounds. */
  lemma TextRoundTrip(lib: Library, numeral: real -> string, e: Expr)
    requires Image(e) && forall t :: t in Print(e) ==> Spellable(lib, numeral, t)
    ensures ParseText(lib, PrintText(numeral, e)) ==
            if |Print(e)| > 4096 then Err(Lexing(TooManyTokens))
            else if DepthOf(e) > 64 then Err(Parsing(TooDeep))
            else Ok(e)
  {
    hide Tokenize, ParseTop, Print, Spellable, Image, DepthOf, ShowTokens;
    TokensRoundTrip(lib, numeral, Print(e), 0, false);
    assert "" + PrintText(numeral, e) == PrintText(numeral, e);
    ParserInvertsPrinter(e);
  }
}
