/** What the lexer reads, told from the characters: white space, symbols, strings, numbers and words. */
module Lexemes {
  import opened Wrappers
  import opened Expressions
  import opened ExpressionLexer

  const WHITE: string := " \t\n\r"

  predicate IsWhite(c: char) { c in WHITE || c == 12 as char }

  const PAIRS: map<string, Token> := map[
    "==" := EqEq, "!=" := NotEq, "<=" := LtEq, ">=" := GtEq, "&&" := AndAnd, "||" := OrOr]

  const MARKS: map<char, Token> := map[
    '+' := Plus, '-' := Minus, '*' := Star, '/' := Slash, '%' := Percent, '<' := Lt, '>' := Gt, '!' := Bang,
    '(' := LParen, ')' := RParen, '[' := LBracket, ']' := RBracket, ',' := Comma, '.' := Dot, '$' := Dollar]

  const WORDS: map<string, Token> := map["true" := True, "false" := False, "null" := Null]

  // ---- White space ----

  /** Where the first token would begin. */
  ghost predicate BeginsAt(s: string, k: nat) {
    k <= |s| && (forall i :: 0 <= i < k ==> IsWhite(s[i])) && (k < |s| ==> !IsWhite(s[k]))
  }

  lemma {:induction false} SpaceSkipped(s: string, k: nat)
    requires BeginsAt(s, k)
    ensures SkipSpace(s) == s[k..]
    decreases k
  {
    if k > 0 {
      forall i | 0 <= i < k - 1 ensures IsWhite(s[1..][i]) { assert s[1..][i] == s[i + 1]; }
      SpaceSkipped(s[1..], k - 1);
      assert s[1..][k - 1..] == s[k..];
      assert IsWhite(s[0]);
    }
  }

  lemma {:induction false} BeginsSomewhere(s: string, i: nat) returns (k: nat)
    requires i <= |s| && forall j :: 0 <= j < i ==> IsWhite(s[j])
    ensures BeginsAt(s, k)
    decreases |s| - i
  {
    if i < |s| && IsWhite(s[i]) { k := BeginsSomewhere(s, i + 1); } else { k := i; }
  }

  // ---- Symbols ----

  lemma TwoAreSymbols(s: string)
    ensures TwoCharacters(s) == if |s| >= 2 && s[..2] in PAIRS then Some(PAIRS[s[..2]]) else None
  {}

  lemma OneIsSymbol(c: char)
    ensures OneCharacter(c) == if c in MARKS then Some(MARKS[c]) else None
  {}

  // ---- Strings ----

  /** One element of a string literal and what it stands for: a backslash takes the next character along. */
  ghost predicate StandsFor(piece: string, quote: char, c: char) {
    || (piece == [c] && c != quote && c != '\\')
    || (piece == "\\n" && c == '\n')
    || (piece == "\\t" && c == '\t')
    || (piece == "\\" + [c] && c != 'n' && c != 't')
  }

  /** `inside` is the elements in turn and then `rest`, which ends, closes the string, or breaks off in an escape. */
  ghost predicate SplitsInto(inside: string, quote: char, pieces: seq<string>, value: string, rest: string) {
    && inside == Glued(pieces) + rest && |pieces| == |value|
    && (forall i :: 0 <= i < |pieces| ==> StandsFor(pieces[i], quote, value[i]))
    && (rest == "" || rest[0] == quote || rest == "\\")
  }

  ghost function Glued(pieces: seq<string>): string {
    if pieces == [] then "" else pieces[0] + Glued(pieces[1..])
  }

  /** A string longer than the cap is refused before anything behind the cap is looked at. */
  ghost function StringResult(lib: Library, quote: char, value: string, rest: string): Lexed {
    if |value| > 65536 then Bad(StringTooLong)
    else if rest == "" then Bad(UnterminatedString)
    else if rest[0] == quote then (if lib.utf8(value) then Tok(Str(value), rest[1..]) else Bad(InvalidUtf8))
    else if |value| == 65536 then Bad(StringTooLong)
    else Bad(UnterminatedEscape)
  }

  lemma {:induction false} Splits(inside: string, quote: char) returns (pieces: seq<string>, value: string, rest: string)
    requires quote != '\\'
    ensures SplitsInto(inside, quote, pieces, value, rest)
    decreases |inside|
  {
    if inside == "" || inside[0] == quote || inside == "\\" {
      pieces, value, rest := [], "", inside;
    } else {
      var piece, c;
      if inside[0] == '\\' {
        piece, c := inside[..2], Unescape(inside[1]);
        assert piece == "\\" + [inside[1]];
      } else {
        piece, c := inside[..1], inside[0];
        assert piece == [c];
      }
      assert inside == piece + inside[|piece|..] && StandsFor(piece, quote, c);
      pieces, value, rest := Splits(inside[|piece|..], quote);
      SplitsMore(inside[|piece|..], quote, pieces, value, rest, piece, c);
      pieces, value := [piece] + pieces, [c] + value;
    }
  }

  lemma SplitsMore(inside: string, quote: char, pieces: seq<string>, value: string, rest: string, piece: string, c: char)
    requires SplitsInto(inside, quote, pieces, value, rest) && StandsFor(piece, quote, c)
    ensures SplitsInto(piece + inside, quote, [piece] + pieces, [c] + value, rest)
  {
    hide StandsFor;
    assert ([piece] + pieces)[1..] == pieces;
    assert piece + (Glued(pieces) + rest) == piece + Glued(pieces) + rest;
  }

  lemma SplitsLess(inside: string, quote: char, pieces: seq<string>, value: string, rest: string)
    requires SplitsInto(inside, quote, pieces, value, rest) && pieces != []
    ensures |value| == |pieces| && |pieces[0]| <= |inside| && inside == pieces[0] + inside[|pieces[0]|..]
    ensures StandsFor(pieces[0], quote, value[0])
    ensures SplitsInto(inside[|pieces[0]|..], quote, pieces[1..], value[1..], rest)
  {
    hide StandsFor;
    assert inside == pieces[0] + (Glued(pieces[1..]) + rest);
    assert inside[|pieces[0]|..] == Glued(pieces[1..]) + rest;
    forall i | 0 <= i < |pieces[1..]| ensures StandsFor(pieces[1..][i], quote, value[1..][i]) {
      assert StandsFor(pieces[i + 1], quote, value[i + 1]);
    }
  }

  lemma {:induction false} StringRead(lib: Library, inside: string, quote: char, pieces: seq<string>, value: string,
      rest: string, buf: string)
    requires SplitsInto(inside, quote, pieces, value, rest) && quote != '\\' && |buf| <= 65536
    ensures StringBody(lib, inside, quote, buf) == StringResult(lib, quote, buf + value, rest)
    decreases |pieces|
  {
    hide StringBody, SplitsInto;
    StringBodyUnfold(lib, inside, quote, buf);
    if pieces == [] {
      NothingSplit(inside, quote, value, rest);
      assert buf + value == buf;
    } else {
      SplitsLess(inside, quote, pieces, value, rest);
      var more := inside[|pieces[0]|..];
      assert value == [value[0]] + value[1..] && buf + value == buf + [value[0]] + value[1..];
      PieceRead(quote, pieces[0], value[0], more);
      if |buf| < 65536 { StringRead(lib, more, quote, pieces[1..], value[1..], rest, buf + [value[0]]); }
    }
  }

  lemma NothingSplit(inside: string, quote: char, value: string, rest: string)
    requires SplitsInto(inside, quote, [], value, rest)
    ensures value == "" && inside == rest && (rest == "" || rest[0] == quote || rest == "\\")
  {}

  lemma PieceRead(quote: char, piece: string, c: char, more: string)
    requires StandsFor(piece, quote, c) && quote != '\\'
    ensures var s := piece + more;
            && s != "" && s[0] != quote
            && (s[0] == '\\' ==> |s| > 1 && s[2..] == more && Unescape(s[1]) == c)
            && (s[0] != '\\' ==> s[1..] == more && s[0] == c)
  {
    var s := piece + more;
    assert s[|piece|..] == more;
  }

  // ---- Numbers and words ----

  /** Digits, dots and exponent marks, and a sign straight behind an exponent mark. */
  ghost predicate InNumber(s: string, i: nat)
    requires 0 < i < |s|
  {
    s[i] in "0123456789.eE" || (s[i] in "+-" && s[i - 1] in "eE")
  }

  /** The longest number that `s` begins with. */
  ghost predicate NumberEndsAt(s: string, n: nat) {
    0 < n <= |s| && (forall i :: 0 < i < n ==> InNumber(s, i)) && (n < |s| ==> !InNumber(s, n))
  }

  ghost predicate InWord(c: char) { 'a' <= c <= 'z' || 'A' <= c <= 'Z' || '0' <= c <= '9' || c == '_' }

  /** The longest word that `s` begins with. */
  ghost predicate WordEndsAt(s: string, n: nat) {
    0 < n <= |s| && (forall i :: 0 < i < n ==> InWord(s[i])) && (n < |s| ==> !InWord(s[n]))
  }

  lemma {:induction false} NumberRead(s: string, i: nat) returns (n: nat)
    requires 0 < i <= |s| && forall k :: 0 < k < i ==> InNumber(s, k)
    ensures NumberEndsAt(s, n) && NumberEnd(s[i..], s[..i]) == s[..n]
    decreases |s| - i
  {
    hide ContinuesNumber, InNumber;
    if i == |s| {
      n := i;
    } else {
      Continues(s, i);
      if InNumber(s, i) {
        assert s[..i] + [s[i]] == s[..i + 1] && s[i..][1..] == s[i + 1..];
        n := NumberRead(s, i + 1);
      } else {
        n := i;
      }
    }
  }

  lemma Continues(s: string, i: nat)
    requires 0 < i < |s|
    ensures ContinuesNumber(s[..i], s[i]) <==> InNumber(s, i)
  {
    DigitListed(s[i]);
    assert s[..i][|s[..i]| - 1] == s[i - 1];
  }

  lemma DigitListed(c: char)
    ensures IsDigit(c) <==> c in "0123456789"
    ensures c in "0123456789.eE" <==> c in "0123456789" || c == '.' || c == 'e' || c == 'E'
  {
    if IsDigit(c) {
      var d := c as int - '0' as int;
      assert "0123456789"[d] == c;
    }
    assert "0123456789.eE" == "0123456789" + ".eE";
  }

  lemma {:induction false} WordRead(s: string, i: nat) returns (n: nat)
    requires 0 < i <= |s| && forall k :: 0 < k < i ==> InWord(s[k])
    ensures WordEndsAt(s, n) && WordEnd(s[i..], s[..i]) == s[..n]
    decreases |s| - i
  {
    if i == |s| {
      n := i;
    } else if InWord(s[i]) {
      assert s[..i] + [s[i]] == s[..i + 1] && s[i..][1..] == s[i + 1..];
      n := WordRead(s, i + 1);
    } else {
      n := i;
    }
  }

  // ---- One token ----

  ghost predicate BeginsSymbol(t: string) { t != "" && (t[0] in MARKS || (|t| >= 2 && t[..2] in PAIRS)) }

  ghost predicate ReadsSymbol(t: string, r: Lexed)
    requires BeginsSymbol(t)
  {
    r == if |t| >= 2 && t[..2] in PAIRS then Tok(PAIRS[t[..2]], t[2..]) else Tok(MARKS[t[0]], t[1..])
  }

  ghost predicate ReadsString(lib: Library, t: string, r: Lexed) {
    t != "" && exists pieces: seq<string>, value: string, rest: string ::
      SplitsInto(t[1..], t[0], pieces, value, rest) && r == StringResult(lib, t[0], value, rest)
  }

  ghost predicate ReadsNumber(lib: Library, t: string, r: Lexed) {
    exists n: nat :: NumberEndsAt(t, n)
                && r == if lib.number(t[..n]).Some? then Tok(Number(lib.number(t[..n]).value), t[n..]) else Bad(BadNumber)
  }

  ghost predicate ReadsWord(t: string, r: Lexed) {
    exists n: nat :: WordEndsAt(t, n) && r == Tok(if t[..n] in WORDS then WORDS[t[..n]] else Ident(t[..n]), t[n..])
  }

  /** The next token of any text, by what it begins with behind its white space. */
  lemma NextTokenMeans(lib: Library, s: string) returns (k: nat)
    ensures BeginsAt(s, k)
    ensures var r, t := NextToken(lib, s), s[k..];
            if k == |s| then r == End
            else if BeginsSymbol(t) then ReadsSymbol(t, r)
            else if t[0] == '"' || t[0] == '\'' then ReadsString(lib, t, r)
            else if '0' <= t[0] <= '9' then ReadsNumber(lib, t, r)
            else if 'a' <= t[0] <= 'z' || 'A' <= t[0] <= 'Z' || t[0] == '_' then ReadsWord(t, r)
            else r == Bad(UnexpectedCharacter(t[0]))
  {
    hide BeginsAt, SkipSpace, TwoCharacters, OneCharacter, StringBody, NumberEnd, WordEnd, ReadsString, ReadsNumber,
         ReadsWord, WordToken, PAIRS, MARKS;
    k := BeginsSomewhere(s, 0);
    SpaceSkipped(s, k);
    assert k <= |s| by { BeginsInside(s, k); }
    var t := s[k..];
    if t != "" {
      TwoAreSymbols(t);
      OneIsSymbol(t[0]);
      assert t[..1] == [t[0]];
      if t[0] == '"' || t[0] == '\'' { QuotedMeans(lib, t); }
      if '0' <= t[0] <= '9' { NumeralMeans(lib, t); }
      if IsLetter(t[0]) { WordMeans(t); }
    }
  }

  lemma BeginsInside(s: string, k: nat)
    requires BeginsAt(s, k)
    ensures k <= |s|
  {}

  lemma QuotedMeans(lib: Library, t: string)
    requires t != "" && t[0] != '\\'
    ensures ReadsString(lib, t, StringBody(lib, t[1..], t[0], ""))
  {
    hide StringBody, SplitsInto, StringResult;
    var pieces, value, rest := Splits(t[1..], t[0]);
    StringRead(lib, t[1..], t[0], pieces, value, rest, "");
    assert "" + value == value;
  }

  lemma NumeralMeans(lib: Library, t: string)
    requires t != ""
    ensures var lexeme := NumberEnd(t[1..], [t[0]]);
            |lexeme| <= |t| && ReadsNumber(lib, t,
              if lib.number(lexeme).Some? then Tok(Number(lib.number(lexeme).value), t[|lexeme|..]) else Bad(BadNumber))
  {
    hide NumberEnd, NumberEndsAt;
    var n := NumberRead(t, 1);
    EndsInside(t, n);
    assert t[..1] == [t[0]];
  }

  lemma EndsInside(t: string, n: nat)
    ensures NumberEndsAt(t, n) ==> n <= |t|
    ensures WordEndsAt(t, n) ==> n <= |t|
  {}

  lemma WordMeans(t: string)
    requires t != ""
    ensures var word := WordEnd(t[1..], [t[0]]);
            |word| <= |t| && ReadsWord(t, Tok(WordToken(word), t[|word|..]))
  {
    hide WordEnd, WordEndsAt;
    var n := WordRead(t, 1);
    EndsInside(t, n);
    assert t[..1] == [t[0]];
  }

  // ---- All tokens ----

  /** Token by token: `rests[i]` is the text in front of token `i`. */
  ghost predicate ReadsAlong(lib: Library, src: string, ts: seq<Token>, rests: seq<string>) {
    && |rests| == |ts| + 1 && rests[0] == src
    && forall i :: 0 <= i < |ts| ==> NextToken(lib, rests[i]) == Tok(ts[i], rests[i + 1])
  }

  /** The tokens up to the end or to the first bad one, of which the 4097th is refused. */
  lemma {:induction false} LexingMeans(lib: Library, src: string, ts: seq<Token>, rests: seq<string>, count: nat)
    requires ReadsAlong(lib, src, ts, rests) && count <= 4096
    ensures var r, last := Tokenize(lib, src, count), NextToken(lib, rests[|ts|]);
            && (count + |ts| > 4096 ==> r == Err(TooManyTokens))
            && (count + |ts| <= 4096 && last.End? ==> r == Ok(ts))
            && (count + |ts| <= 4096 && last.Bad? ==> r == Err(last.error))
    decreases |ts|
  {
    hide NextToken;
    TokenizeUnfold(lib, src, count);
    if ts != [] && count < 4096 {
      assert NextToken(lib, rests[0]) == Tok(ts[0], rests[1]);
      forall i | 0 <= i < |ts[1..]| ensures NextToken(lib, rests[1..][i]) == Tok(ts[1..][i], rests[1..][i + 1]) {
        assert NextToken(lib, rests[i + 1]) == Tok(ts[i + 1], rests[i + 2]);
      }
      LexingMeans(lib, rests[1], ts[1..], rests[1..], count + 1);
      assert ts == [ts[0]] + ts[1..];
    } else if ts != [] {
      assert NextToken(lib, rests[0]) == Tok(ts[0], rests[1]);
    }
  }
}
