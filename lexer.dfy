/**
 * The lexer (class `Lexer` in model.h / model.cc). It walks the expression one
 * token per `Next` call and keeps the previously returned token in `prev`,
 * which decides how `+`, `-`, `*`, `/`, `%`, `^` and `)` are read.
 *
 * The pure functions below say what one `Next` call does from a given position
 * and previous token; the class methods, which advance the position in loops
 * as the C++ does, are proved against them.
 */
module Lexing {
  import opened Tokens

  // ASCII character classes standing in for <cctype>.

  /** `std::isspace` in the C locale: blank, tab, newline, vertical tab, form feed, carriage return. */
  predicate IsSpace(c: char) { c == ' ' || 9 <= c as int <= 13 }

  /** `std::isdigit`. */
  predicate IsDigit(c: char) { '0' <= c <= '9' }

  /** `std::isalpha` in the C locale. */
  predicate IsAlpha(c: char) { 'a' <= c <= 'z' || 'A' <= c <= 'Z' }

  /** `std::isalnum` in the C locale. */
  predicate IsAlnum(c: char) { IsDigit(c) || IsAlpha(c) }

  /** `isop`: the characters handed to the operator scanner. */
  predicate IsOpChar(c: char)
  {
    c == '+' || c == '-' || c == '*' || c == '/' || c == '%' || c == '^' || c == '(' || c == ')'
  }

  /**
   * `strchr("1234567890.", c) != nullptr`. strchr also finds the string's
   * terminating NUL, so a NUL character continues a number.
   */
  predicate IsNumberChar(c: char) { IsDigit(c) || c == '.' || c == '\0' }

  /**
   * The character classes as the sets of characters they accept: the six
   * C-locale spaces, the ten digits, the eight characters of `isop`, and the
   * characters `strchr` finds in "1234567890." including its NUL terminator.
   */
  lemma CharacterClasses(c: char)
    ensures IsSpace(c) <==> c in " \t\n\U{B}\U{C}\r"
    ensures IsDigit(c) <==> c in "0123456789"
    ensures IsOpChar(c) <==> c in "+-*/%^()"
    ensures IsNumberChar(c) <==> c in "1234567890.\0"
  {
  }

  /** The first position at or after `i` that does not hold a space. */
  function SkipSpaces(s: string, i: nat): (j: nat)
    requires i <= |s|
    ensures i <= j <= |s|
    ensures forall k :: i <= k < j ==> IsSpace(s[k])
    ensures j == |s| || !IsSpace(s[j])
    decreases |s| - i
  {
    if i < |s| && IsSpace(s[i]) then SkipSpaces(s, i + 1) else i
  }

  /**
   * Where the number scan that starts at `i` stops, given whether a decimal
   * point has been seen already: after the maximal run of number characters
   * holding at most one '.', in front of a second '.'.
   */
  function NumberEnd(s: string, i: nat, seenDot: bool): (j: nat)
    requires i <= |s|
    ensures i <= j <= |s|
    ensures forall k :: i <= k < j ==> IsNumberChar(s[k])
    ensures seenDot ==> forall k :: i <= k < j ==> s[k] != '.'
    ensures forall k1, k2 :: i <= k1 < k2 < j && s[k1] == '.' ==> s[k2] != '.'
    ensures j == |s| || !IsNumberChar(s[j])
            || (s[j] == '.' && (seenDot || exists k :: i <= k < j && s[k] == '.'))
    decreases |s| - i
  {
    if i < |s| && IsNumberChar(s[i]) then
      if s[i] == '.' && seenDot then i
      else NumberEnd(s, i + 1, seenDot || s[i] == '.')
    else i
  }

  /** Where the identifier scan that starts at `i` stops: after the maximal alphanumeric run. */
  function IdentEnd(s: string, i: nat): (j: nat)
    requires i <= |s|
    ensures i <= j <= |s|
    ensures forall k :: i <= k < j ==> IsAlnum(s[k])
    ensures j == |s| || !IsAlnum(s[j])
    decreases |s| - i
  {
    if i < |s| && IsAlnum(s[i]) then IdentEnd(s, i + 1) else i
  }

  /**
   * The token the operator scanner returns for `c` after `prev`. `rest` is the
   * input from `c` on; it is only read in the branch for a character that is
   * not an operator, which `Next` never takes.
   */
  function OperatorToken(c: char, prev: Token, rest: string): Token
  {
    match c
    case '+' =>
      if prev == Token.StartStream() || prev.IsOperator() then Token.Whitespace()
      else Token.PlusOp()
    case '-' =>
      if prev == Token.StartStream()
         || ((prev.IsOperator() || prev.IsOpenBrace()) && !prev.IsCloseBrace())
      then Token.Negate()
      else Token.MinusOp()
    case '*' => if prev == Token.StartStream() then Token.Default() else Token.MulOp()
    case '/' => if prev == Token.StartStream() then Token.Default() else Token.DivOp()
    case '%' => if prev == Token.StartStream() then Token.Default() else Token.ModOp()
    case '^' => if prev == Token.StartStream() then Token.Default() else Token.ExpOp()
    case '(' => Token.OpenBrace()
    case ')' => if prev == Token.StartStream() then Token.Default() else Token.CloseBrace()
    case _ => Token.Invalid(rest)
  }

  /** For an operator character, the scanner returns a lexer token that is neither an identifier nor a number. */
  lemma OperatorTokenKinds(c: char, prev: Token, rest: string)
    requires IsOpChar(c)
    ensures var t := OperatorToken(c, prev, rest);
      LexerToken(t) && t.kind != Kind.Ident && t.kind != Kind.Number
  {
  }

  /** What one `Next` call yields: the token and the position after it. */
  datatype Lexed = Lexed(tok: Token, pos: nat)

  /**
   * One `Next` call from position `i` with previous token `prev`. It returns
   * EndStream exactly when only spaces are left, and then stops at the end;
   * every other token consumes at least one character.
   */
  function Step(s: string, i: nat, prev: Token): (r: Lexed)
    requires i <= |s|
    ensures r.pos <= |s|
    ensures r.tok.kind == Kind.EndStream <==> forall k :: i <= k < |s| ==> IsSpace(s[k])
    ensures r.tok.kind == Kind.EndStream ==> r.tok == Token.EndStream() && r.pos == |s|
    ensures r.tok.kind != Kind.EndStream ==> i < r.pos && LexerToken(r.tok)
  {
    var j := SkipSpaces(s, i);
    if j == |s| then Lexed(Token.EndStream(), j)
    else if IsDigit(s[j]) then
      var e := NumberEnd(s, j, false);
      Lexed(Token.Number(s[j..e]), e)
    else if IsOpChar(s[j]) then
      OperatorTokenKinds(s[j], prev, s[j..]);
      Lexed(OperatorToken(s[j], prev, s[j..]), j + 1)
    else if IsAlpha(s[j]) then
      var e := IdentEnd(s, j);
      Lexed(Token.Ident(s[j..e]), e)
    else Lexed(Token.Invalid(s[j..j + 1]), j + 1)
  }

  /** The previous token after a `Next` call: unchanged when the stream has ended. */
  function NextPrev(prev: Token, t: Token): Token
  {
    if t == Token.EndStream() then prev else t
  }

  /** All tokens that `Next` returns from position `i` before the first EndStream. */
  function Tokenize(s: string, i: nat, prev: Token): (ts: seq<Token>)
    requires i <= |s|
    ensures |ts| <= |s| - i
    ensures forall k :: 0 <= k < |ts| ==> ts[k].kind != Kind.EndStream && LexerToken(ts[k])
    decreases |s| - i
  {
    var r := Step(s, i, prev);
    if r.tok == Token.EndStream() then []
    else
      [r.tok] + Tokenize(s, r.pos, NextPrev(prev, r.tok))
  }

  /** `Tokenize` past one `Step` that returned a token. */
  lemma TokenizeAfter(s: string, i: nat, prev: Token, t: Token, j: nat)
    requires i <= |s| && Step(s, i, prev) == Lexed(t, j) && t != Token.EndStream()
    ensures i < j <= |s| && Tokenize(s, i, prev) == [t] + Tokenize(s, j, NextPrev(prev, t))
  {
  }

  /** `Tokenize` stops at a `Step` that returned EndStream, which is at the end. */
  lemma TokenizeAtEnd(s: string, i: nat, prev: Token, j: nat)
    requires i <= |s| && Step(s, i, prev) == Lexed(Token.EndStream(), j)
    ensures j == |s| && Tokenize(s, i, prev) == []
  {
  }

  /** The tokens of a whole expression, as a fresh lexer's `Collect` returns them. */
  function Lex(s: string): (ts: seq<Token>)
    ensures |ts| <= |s|
    ensures forall k :: 0 <= k < |ts| ==> ts[k].kind != Kind.EndStream && LexerToken(ts[k])
  {
    Tokenize(s, 0, Token.StartStream())
  }

  /** Once the input is exhausted, `Next` keeps returning EndStream and nothing changes. */
  lemma EndStreamIsSticky(s: string, i: nat, prev: Token)
    requires i <= |s|
    requires Step(s, i, prev).tok.kind == Kind.EndStream
    ensures var r := Step(s, i, prev);
      && NextPrev(prev, r.tok) == prev
      && Step(s, r.pos, prev) == r
  {
  }

  /**
   * A number scan stops in front of a second decimal point; the next call then
   * returns that point alone as an Invalid token.
   */
  lemma SecondDotIsInvalid(s: string, i: nat, prev: Token)
    requires i <= |s|
    requires Step(s, i, prev).tok.kind == Kind.Number
    requires var e := Step(s, i, prev).pos; e < |s| && s[e] == '.'
    ensures var r := Step(s, i, prev);
      && '.' in r.tok.text
      && Step(s, r.pos, r.tok) == Lexed(Token.Invalid("."), r.pos + 1)
  {
    var j := NumberStep(s, i, prev);
    var e := NumberEnd(s, j, false);
    var k :| j <= k < e && s[k] == '.';
    assert s[j..e][k - j] == '.';
    DotStep(s, e, Token.Number(s[j..e]));
  }

  /** A `Step` that returns a number scans it from the first non-space position `j`. */
  lemma NumberStep(s: string, i: nat, prev: Token) returns (j: nat)
    requires i <= |s| && Step(s, i, prev).tok.kind == Kind.Number
    ensures j == SkipSpaces(s, i) && j < |s| && IsDigit(s[j])
    ensures var e := NumberEnd(s, j, false); Step(s, i, prev) == Lexed(Token.Number(s[j..e]), e)
  {
    j := SkipSpaces(s, i);
  }

  /** A '.' that does not start a number is read alone as an Invalid token. */
  lemma DotStep(s: string, e: nat, prev: Token)
    requires e < |s| && s[e] == '.'
    ensures Step(s, e, prev) == Lexed(Token.Invalid("."), e + 1)
  {
    assert SkipSpaces(s, e) == e;
    assert s[e..e + 1] == ".";
  }

  /**
   * How the operator scanner reads a sign: a `+` is dropped after the stream
   * start or an operator, and a `-` is a negation after the stream start, an
   * operator or an open brace.
   */
  lemma SignRules(prev: Token, rest: string)
    ensures OperatorToken('+', prev, rest)
      == if prev == Token.StartStream() || prev.IsOperator() then Token.Whitespace() else Token.PlusOp()
    ensures OperatorToken('-', prev, rest)
      == if prev == Token.StartStream() || prev.IsOperator() || prev.kind == Kind.OpenBrace
         then Token.Negate() else Token.MinusOp()
  {
  }

  /** Right after the stream start, a binary operator or `)` is the default Invalid token; `(` opens. */
  lemma OperatorsAtStart(rest: string)
    ensures var prev := Token.StartStream();
      && OperatorToken('*', prev, rest) == Token.Invalid()
      && OperatorToken('/', prev, rest) == Token.Invalid()
      && OperatorToken('%', prev, rest) == Token.Invalid()
      && OperatorToken('^', prev, rest) == Token.Invalid()
      && OperatorToken(')', prev, rest) == Token.Invalid()
      && OperatorToken('(', prev, rest) == Token.OpenBrace()
  {
  }

  /** After any other token, a binary operator, `)` or `(` is its own token. */
  lemma OperatorsAfterStart(prev: Token, rest: string)
    requires prev != Token.StartStream()
    ensures OperatorToken('*', prev, rest) == Token.MulOp()
    ensures OperatorToken('/', prev, rest) == Token.DivOp()
    ensures OperatorToken('%', prev, rest) == Token.ModOp()
    ensures OperatorToken('^', prev, rest) == Token.ExpOp()
    ensures OperatorToken(')', prev, rest) == Token.CloseBrace()
    ensures OperatorToken('(', prev, rest) == Token.OpenBrace()
  {
  }

  /** The tokens the lexer can produce. */
  predicate LexerToken(t: Token)
  {
    || t.kind in {Kind.Invalid, Kind.Number, Kind.Ident}
    || t in {Token.Whitespace(), Token.OpenBrace(), Token.CloseBrace(), Token.PlusOp(),
             Token.MinusOp(), Token.MulOp(), Token.DivOp(), Token.ModOp(),
             Token.ExpOp(), Token.Negate()}
  }

  /**
   * The lexer of model.h. `expr` is the text it walks, `pos` the iterator `it_`
   * (with `|expr|` as `end_`), `prev` the last token returned.
   */
  class Lexer {
    const expr: string
    var pos: nat
    var prev: Token

    ghost predicate Valid()
      reads this
    {
      pos <= |expr|
    }

    /** A new lexer is at the first character, with StartStream as its previous token. */
    constructor (expr: string)
      ensures Valid()
      ensures this.expr == expr && pos == 0 && prev == Token.StartStream()
    {
      this.expr := expr;
      pos := 0;
      prev := Token.StartStream();
    }

    /** Scans a number: the maximal run of number characters with at most one '.'. */
    method Digit() returns (t: Token)
      requires Valid()
      modifies this`pos
      ensures Valid()
      ensures pos == NumberEnd(expr, old(pos), false)
      ensures t == Token.Number(expr[old(pos)..pos])
    {
      var start := pos;
      var haveDecPoint := false;
      while pos < |expr| && IsNumberChar(expr[pos])
        invariant start <= pos <= |expr|
        invariant NumberEnd(expr, pos, haveDecPoint) == NumberEnd(expr, start, false)
        decreases |expr| - pos
      {
        if expr[pos] == '.' && !haveDecPoint {
          haveDecPoint := true;
        } else if expr[pos] == '.' && haveDecPoint {
          break;
        }
        pos := pos + 1;
      }
      t := Token.Number(expr[start..pos]);
    }

    /** Scans an identifier: the maximal alphanumeric run. */
    method Ident() returns (t: Token)
      requires Valid()
      modifies this`pos
      ensures Valid()
      ensures pos == IdentEnd(expr, old(pos))
      ensures t == Token.Ident(expr[old(pos)..pos])
    {
      var start := pos;
      while pos < |expr| && IsAlnum(expr[pos])
        invariant start <= pos <= |expr|
        invariant IdentEnd(expr, pos) == IdentEnd(expr, start)
        decreases |expr| - pos
      {
        pos := pos + 1;
      }
      t := Token.Ident(expr[start..pos]);
    }

    /** Scans one operator or brace character, reading it in the light of `prev`. */
    method Operator() returns (t: Token)
      requires Valid() && pos < |expr|
      modifies this`pos
      ensures Valid()
      ensures pos == old(pos) + 1
      ensures t == OperatorToken(expr[old(pos)], prev, expr[old(pos)..])
    {
      var c := expr[pos];
      pos := pos + 1;
      match c
      case '+' =>
        if prev == Token.StartStream() || prev.IsOperator() {
          return Token.Whitespace();
        }
        return Token.PlusOp();
      case '-' =>
        if prev == Token.StartStream()
           || ((prev.IsOperator() || prev.IsOpenBrace()) && !prev.IsCloseBrace()) {
          return Token.Negate();
        }
        return Token.MinusOp();
      case '*' =>
        if prev == Token.StartStream() { return Token.Default(); }
        return Token.MulOp();
      case '/' =>
        if prev == Token.StartStream() { return Token.Default(); }
        return Token.DivOp();
      case '%' =>
        if prev == Token.StartStream() { return Token.Default(); }
        return Token.ModOp();
      case '^' =>
        if prev == Token.StartStream() { return Token.Default(); }
        return Token.ExpOp();
      case '(' =>
        return Token.OpenBrace();
      case ')' =>
        if prev == Token.StartStream() { return Token.Default(); }
        return Token.CloseBrace();
      case _ =>
        return Token.Invalid(expr[pos - 1..]);
    }

    /** Returns the next token and remembers it as `prev` (except EndStream). */
    method Next() returns (t: Token)
      requires Valid()
      modifies this`pos, this`prev
      ensures Valid()
      ensures Lexed(t, pos) == Step(expr, old(pos), old(prev))
      ensures prev == NextPrev(old(prev), t)
    {
      while pos < |expr| && IsSpace(expr[pos])
        invariant old(pos) <= pos <= |expr|
        invariant SkipSpaces(expr, pos) == SkipSpaces(expr, old(pos))
        invariant prev == old(prev)
        decreases |expr| - pos
      {
        pos := pos + 1;
      }
      if pos == |expr| {
        assert SkipSpaces(expr, old(pos)) == |expr|;
        return Token.EndStream();
      }
      if IsDigit(expr[pos]) {
        t := Digit();
      } else if IsOpChar(expr[pos]) {
        t := Operator();
      } else if IsAlpha(expr[pos]) {
        t := Ident();
      } else {
        t := Token.Invalid(expr[pos..pos + 1]);
        pos := pos + 1;
      }
      prev := t;
    }

    /** Calls `Next` until EndStream and returns every token before it. */
    method Collect() returns (tokens: seq<Token>)
      requires Valid()
      modifies this`pos, this`prev
      ensures Valid() && pos == |expr|
      ensures tokens == Tokenize(expr, old(pos), old(prev))
    {
      tokens := [];
      while true
        invariant Valid()
        invariant tokens + Tokenize(expr, pos, prev) == Tokenize(expr, old(pos), old(prev))
        decreases |expr| - pos
      {
        ghost var p, q := pos, prev;
        var tok := Next();
        if tok.Equals(Token.EndStream()) {
          TokenizeAtEnd(expr, p, q, pos);
          return;
        }
        TokenizeAfter(expr, p, q, tok, pos);
        assert tokens + [tok] + Tokenize(expr, pos, prev) == tokens + ([tok] + Tokenize(expr, pos, prev));
        tokens := tokens + [tok];
      }
    }
  }
}
