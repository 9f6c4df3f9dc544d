/**
 * Whole expressions traced from the string to the value `Evaluate` returns:
 * "1+1", "-1+1", "1+-1", "+x" and "1-2*3-4". Each expression is a string given
 * character by character, and each stage (lexing, the parse loop, the final
 * drain, the run) is a lemma of its own.
 */
module Expressions {
  import opened Results
  import opened Tokens
  import opened Lexing
  import opened Postfix
  import opened Evaluation
  import opened Scenarios

  // One `Next` call over a single character

  /** A digit followed by the end or by a character that is not a number character is a one-digit Number. */
  lemma LexDigit(s: string, i: nat, prev: Token)
    requires i < |s| && IsDigit(s[i])
    requires i + 1 == |s| || !IsNumberChar(s[i + 1])
    ensures Step(s, i, prev) == Lexed(Token.Number([s[i]]), i + 1)
  {
    assert !IsSpace(s[i]);
    assert SkipSpaces(s, i) == i;
    assert NumberEnd(s, i + 1, false) == i + 1;
    assert NumberEnd(s, i, false) == i + 1;
    assert s[i..i + 1] == [s[i]];
  }

  /** An operator character is read by the operator scanner and consumes one character. */
  lemma LexOperator(s: string, i: nat, prev: Token)
    requires i < |s| && IsOpChar(s[i])
    ensures Step(s, i, prev) == Lexed(OperatorToken(s[i], prev, s[i..]), i + 1)
  {
    assert !IsSpace(s[i]) && !IsDigit(s[i]);
    assert SkipSpaces(s, i) == i;
  }

  /** A last letter is a one-letter Ident. */
  lemma LexLastLetter(s: string, prev: Token)
    requires s != [] && IsAlpha(s[|s| - 1])
    ensures Step(s, |s| - 1, prev) == Lexed(Token.Ident([s[|s| - 1]]), |s|)
  {
    var i := |s| - 1;
    assert !IsSpace(s[i]) && !IsDigit(s[i]) && !IsOpChar(s[i]);
    assert SkipSpaces(s, i) == i;
    assert IdentEnd(s, i + 1) == |s|;
    assert IdentEnd(s, i) == |s|;
    assert s[i..|s|] == [s[i]];
  }

  /** At the end of the input, `Next` returns EndStream. */
  lemma LexEnd(s: string, prev: Token)
    ensures Step(s, |s|, prev) == Lexed(Token.EndStream(), |s|)
  {
  }

  /** `Tokenize` past a one-digit number. */
  lemma TokenizeDigit(s: string, i: nat, prev: Token)
    requires i < |s| && IsDigit(s[i])
    requires i + 1 == |s| || !IsNumberChar(s[i + 1])
    ensures Tokenize(s, i, prev) == [Token.Number([s[i]])] + Tokenize(s, i + 1, Token.Number([s[i]]))
  {
    LexDigit(s, i, prev);
    TokenizeAfter(s, i, prev, Token.Number([s[i]]), i + 1);
  }

  /** `Tokenize` past an operator character. */
  lemma TokenizeOperator(s: string, i: nat, prev: Token)
    requires i < |s| && IsOpChar(s[i])
    ensures var t := OperatorToken(s[i], prev, s[i..]);
      Tokenize(s, i, prev) == [t] + Tokenize(s, i + 1, t)
  {
    var t := OperatorToken(s[i], prev, s[i..]);
    LexOperator(s, i, prev);
    OperatorTokenKinds(s[i], prev, s[i..]);
    TokenizeAfter(s, i, prev, t, i + 1);
  }

  /** `Tokenize` over a last digit. */
  lemma TokenizeLastDigit(s: string, prev: Token)
    requires s != [] && IsDigit(s[|s| - 1])
    ensures Tokenize(s, |s| - 1, prev) == [Token.Number([s[|s| - 1]])]
  {
    TokenizeDigit(s, |s| - 1, prev);
    TokenizeEnd(s, Token.Number([s[|s| - 1]]));
  }

  /** `Tokenize` over a last letter. */
  lemma TokenizeLastLetter(s: string, prev: Token)
    requires s != [] && IsAlpha(s[|s| - 1])
    ensures Tokenize(s, |s| - 1, prev) == [Token.Ident([s[|s| - 1]])]
  {
    var t := Token.Ident([s[|s| - 1]]);
    LexLastLetter(s, prev);
    TokenizeAfter(s, |s| - 1, prev, t, |s|);
    TokenizeEnd(s, t);
  }

  /** `Tokenize` at the end of the input is empty. */
  lemma TokenizeEnd(s: string, prev: Token)
    ensures Tokenize(s, |s|, prev) == []
  {
    LexEnd(s, prev);
    TokenizeAtEnd(s, |s|, prev, |s|);
  }

  // One iteration of the parse loop

  /** The Whitespace token the lexer makes of a dropped `+` changes nothing. */
  lemma WhitespaceDispatch(st: ParseState)
    ensures Dispatch(st, Token.Whitespace()) == Success(st)
  {
  }

  /** The identifier "x" goes to the output as the Variable. */
  lemma VariableDispatch(st: ParseState)
    ensures Dispatch(st, Token.Ident("x")) == Success(ParseState(st.ca + [Token.Variable("x")], st.tx))
  {
    assert ResolveMathFnName("x").None?;
  }

  /** An operator on an empty stack is pushed. */
  lemma OperatorOnEmpty(ca: seq<Token>, t: Token)
    requires t.IsOperator()
    ensures Dispatch(ParseState(ca, []), t) == Success(ParseState(ca, [t]))
  {
    OperatorDispatch(ParseState(ca, []), t);
    PushOperatorCases(ParseState(ca, []), t);
    assert [] + [t] == [t];
  }

  /** An operator over a weaker top is pushed on it. */
  lemma OperatorOverWeaker(ca: seq<Token>, tx: seq<Token>, t: Token)
    requires t.IsOperator() && tx != [] && Ordinal(Top(tx).kind) < Ordinal(t.kind)
    ensures Dispatch(ParseState(ca, tx), t) == Success(ParseState(ca, tx + [t]))
  {
    OperatorDispatch(ParseState(ca, tx), t);
    PushOperatorCases(ParseState(ca, tx), t);
  }

  /** An operator over a single stronger operator that is not a Function pops it. */
  lemma OperatorOverOne(ca: seq<Token>, top: Token, t: Token)
    requires t.IsOperator() && top.kind != Kind.Function && Ordinal(top.kind) >= Ordinal(t.kind)
    ensures Dispatch(ParseState(ca, [top]), t) == Success(ParseState(ca + [top], [t]))
  {
    OperatorDispatch(ParseState(ca, [top]), t);
    PushOperatorCases(ParseState(ca, [top]), t);
    assert [top][..0] + [t] == [t];
  }

  // Short sequences taken apart and put together, stated on variables so
  // that the proofs about whole expressions compare no sequence displays

  lemma AppendToEmpty<T>(a: T)
    ensures [] + [a] == [a]
  {
  }

  lemma AppendToOne<T>(a: T, b: T)
    ensures [a] + [b] == [a, b]
  {
  }

  lemma AppendToTwo<T>(a: T, b: T, c: T)
    ensures [a, b] + [c] == [a, b, c]
  {
  }

  lemma AppendToThree<T>(a: T, b: T, c: T, d: T)
    ensures [a, b, c] + [d] == [a, b, c, d]
  {
  }

  lemma AppendToFour<T>(a: T, b: T, c: T, d: T, e: T)
    ensures [a, b, c, d] + [e] == [a, b, c, d, e]
  {
  }

  lemma PrependToTwo<T>(a: T, b: T, c: T)
    ensures [a] + [b, c] == [a, b, c]
  {
  }

  lemma PrependToThree<T>(a: T, b: T, c: T, d: T)
    ensures [a] + [b, c, d] == [a, b, c, d]
  {
  }

  lemma PrependToFour<T>(a: T, b: T, c: T, d: T, e: T)
    ensures [a] + [b, c, d, e] == [a, b, c, d, e]
  {
  }

  lemma PrependTwoToFive<T>(a: T, b: T, c: T, d: T, e: T, f: T, g: T)
    ensures [a] + ([b] + [c, d, e, f, g]) == [a, b, c, d, e, f, g]
  {
  }

  lemma JoinFourAndThree<T>(a: T, b: T, c: T, d: T, e: T, f: T, g: T)
    ensures [a, b, c, d] + [e, f, g] == [a, b, c, d, e, f, g]
  {
  }

  lemma JoinFiveAndTwo<T>(a: T, b: T, c: T, d: T, e: T, f: T, g: T)
    ensures [a, b, c, d, e] + [f, g] == [a, b, c, d, e, f, g]
  {
  }

  lemma JoinTwoAndTwo<T>(a: T, b: T, c: T, d: T)
    ensures [a, b] + [c, d] == [a, b, c, d]
  {
  }

  lemma UnconsThree<T>(a: T, b: T, c: T)
    ensures [a, b, c] == [a] + ([b] + [c])
  {
  }

  lemma UnconsFour<T>(a: T, b: T, c: T, d: T)
    ensures [a, b, c, d] == [a] + ([b] + ([c] + [d]))
  {
  }

  lemma ConsListTwo<T>(a: T, b: T)
    ensures [a, b] == [a] + ([b] + [])
  {
  }

  lemma ConsListThree<T>(a: T, b: T, c: T)
    ensures [a, b, c] == [a] + ([b] + ([c] + []))
  {
  }

  lemma ConsListFour<T>(a: T, b: T, c: T, d: T)
    ensures [a, b, c, d] == [a] + ([b] + ([c] + ([d] + [])))
  {
  }

  lemma ConsListFourOnto<T>(a: T, b: T, c: T, d: T, rest: seq<T>)
    ensures [a, b, c, d] + rest == [a] + ([b] + ([c] + ([d] + rest)))
  {
  }

  // The final drain of a short parse state, stated on token variables

  lemma DrainNone(a: Token)
    ensures Drain(ParseState([a], [])).ca == [a]
  {
    assert Reversed([]) == [];
  }

  lemma DrainOneOverTwo(a: Token, b: Token, t: Token)
    ensures Drain(ParseState([a, b], [t])).ca == [a, b, t]
  {
    assert Reversed([t]) == [t];
  }

  lemma DrainOneOverThree(a: Token, b: Token, c: Token, t: Token)
    ensures Drain(ParseState([a, b, c], [t])).ca == [a, b, c, t]
  {
    assert Reversed([t]) == [t];
  }

  lemma ReversedPair(t: Token, u: Token)
    ensures Reversed([t, u]) == [u, t]
  {
    assert [t, u][..1] == [t];
  }

  lemma DrainTwoOverTwo(a: Token, b: Token, t: Token, u: Token)
    ensures Drain(ParseState([a, b], [t, u])).ca == [a, b, u, t]
  {
    ReversedPair(t, u);
    JoinTwoAndTwo(a, b, u, t);
  }

  lemma DrainTwoOverFive(a: Token, b: Token, c: Token, d: Token, e: Token, t: Token, u: Token)
    ensures Drain(ParseState([a, b, c, d, e], [t, u])).ca == [a, b, c, d, e, u, t]
  {
    ReversedPair(t, u);
    JoinFiveAndTwo(a, b, c, d, e, u, t);
  }

  /** A negation over `+` is stacked: it binds tighter. */
  lemma NegateOverPlus(ca: seq<Token>)
    ensures Dispatch(ParseState(ca, [Token.PlusOp()]), Token.Negate())
      == Success(ParseState(ca, [Token.PlusOp(), Token.Negate()]))
  {
    OperatorOverWeaker(ca, [Token.PlusOp()], Token.Negate());
    AppendToOne(Token.PlusOp(), Token.Negate());
  }

  /** `*` over `-` is stacked: it binds tighter. */
  lemma MulOverMinus(ca: seq<Token>)
    ensures Dispatch(ParseState(ca, [Token.MinusOp()]), Token.MulOp())
      == Success(ParseState(ca, [Token.MinusOp(), Token.MulOp()]))
  {
    OperatorOverWeaker(ca, [Token.MinusOp()], Token.MulOp());
    AppendToOne(Token.MinusOp(), Token.MulOp());
  }

  /** `+` over a lone negation pops it: the negation binds tighter. */
  lemma PlusOverNegate(ca: seq<Token>)
    ensures Dispatch(ParseState(ca, [Token.Negate()]), Token.PlusOp())
      == Success(ParseState(ca + [Token.Negate()], [Token.PlusOp()]))
  {
    OperatorOverOne(ca, Token.Negate(), Token.PlusOp());
  }

  /** A second `-` over `- *` pops only the `*`. */
  lemma MinusOverMulOverMinus(ca: seq<Token>)
    ensures var sub, mul := Token.MinusOp(), Token.MulOp();
      Dispatch(ParseState(ca, [sub, mul]), sub) == Success(ParseState(ca + [mul], [sub, sub]))
  {
    var sub, mul := Token.MinusOp(), Token.MulOp();
    PopOneOperator(ca, [sub], mul, sub);
    AppendToOne(sub, mul);
    AppendToOne(sub, sub);
  }

  /** `Run` over a single token that executes. */
  lemma RunSingle(t: Token, stack: seq<Value>, x: Value, next: seq<Value>)
    requires Execute(stack, t, x) == Success(next)
    ensures Run([t], stack, x) == Success(next)
  {
    assert [t] == [t] + [];
    RunCons(t, [], stack, x, next);
  }

  /** A negation over two values negates the top one. */
  lemma ExecuteNegateOverTwo(u: Value, v: Value, x: Value)
    ensures Execute([u, v], Token.Negate(), x) == Success([u, Neg(v)])
  {
    assert [u, v][..1] == [u] && Peek([u, v], 0) == v;
    AppendToOne(u, Neg(v));
  }

  /** A stack of one value yields that value. */
  lemma TopOfSingle(v: Value)
    ensures TopOfStack([v]) == Success(v)
  {
  }

  /** `Evaluate` of an expression that parses to `postfix` and runs to `stack` returns the top of `stack`. */
  lemma CalculateOf(expr: string, postfix: seq<Token>, stack: seq<Value>, x: Value)
    ensures Compile(expr) == Success(postfix) && Run(postfix, [], x) == Success(stack)
      ==> Calculate(expr, x) == TopOfStack(stack)
  {
  }

  // "1+1"

  /** "1+1" is read as Number("1"), PlusOp, Number("1"): the `+` follows a number, so it is binary. */
  lemma OnePlusOneLexes(s: string)
    requires |s| == 3 && s[0] == '1' && s[1] == '+' && s[2] == '1'
    ensures Lex(s) == [Token.Number("1"), Token.PlusOp(), Token.Number("1")]
  {
    var one, plus := Token.Number("1"), Token.PlusOp();
    assert [s[0]] == [s[2]] == "1";
    TokenizeLastDigit(s, plus);
    TokenizeOperator(s, 1, one);
    SignRules(one, s[1..]);
    AppendToOne(plus, one);
    TokenizeDigit(s, 0, Token.StartStream());
    PrependToTwo(one, plus, one);
  }



  /** The parse loop over `1 + 1` sends both numbers to the output and stacks the `+`. */
  lemma OnePlusOneShunts(a: Token, b: Token)
    requires a.kind == Kind.Number && b.kind == Kind.Number
    ensures Shunt(ParseState([], []), [a, Token.PlusOp(), b]) == Shunted(ParseState([a, b], [Token.PlusOp()]), None)
  {
    var plus := Token.PlusOp();
    ConsListThree(a, plus, b);
    NumberToOutput(ParseState([], []), a);
    AppendToEmpty(a);
    ShuntCons(ParseState([], []), a, [plus] + ([b] + []), ParseState([a], []));
    OperatorOnEmpty([a], plus);
    ShuntCons(ParseState([a], []), plus, [b] + [], ParseState([a], [plus]));
    NumberToOutput(ParseState([a], [plus]), b);
    AppendToOne(a, b);
    ShuntCons(ParseState([a], [plus]), b, [], ParseState([a, b], [plus]));
  }

  /** The parse of "1+1" is `1 1 +`. */
  lemma OnePlusOneCompiles(s: string)
    requires |s| == 3 && s[0] == '1' && s[1] == '+' && s[2] == '1'
    ensures Compile(s) == Success([Token.Number("1"), Token.Number("1"), Token.PlusOp()])
  {
    var one, plus := Token.Number("1"), Token.PlusOp();
    OnePlusOneLexes(s);
    OnePlusOneShunts(one, one);
    CompileOf(s, ParseState([one, one], [plus]));
    DrainOneOverTwo(one, one, plus);
  }

  /** Running `1 1 +` gives 1 + 1. */
  lemma OnePlusOneRuns(x: Value)
    ensures var one, plus := Token.Number("1"), Token.PlusOp();
      Run([one, one, plus], [], x) == Success([Bin(Add, Lit("1"), Lit("1"))])
  {
    var one, plus := Token.Number("1"), Token.PlusOp();
    var l1 := Lit("1");
    ExecuteNumber([], one, x);
    AppendToEmpty(l1);
    AppendToOne(l1, l1);
    UnconsThree(one, one, plus);
    RunCons(one, [one] + [plus], [], x, [l1]);
    ExecuteNumber([l1], one, x);
    RunCons(one, [plus], [l1], x, [l1, l1]);
    RunCombineLast(plus, l1, l1, x);
  }

  /** "1+1" evaluates to 1 + 1. */
  lemma OnePlusOneEvaluates(s: string, x: Value)
    requires |s| == 3 && s[0] == '1' && s[1] == '+' && s[2] == '1'
    ensures Calculate(s, x) == Success(Bin(Add, Lit("1"), Lit("1")))
  {
    OnePlusOneCompiles(s);
    OnePlusOneRuns(x);
    CalculateOf(s, [Token.Number("1"), Token.Number("1"), Token.PlusOp()], [Bin(Add, Lit("1"), Lit("1"))], x);
    TopOfSingle(Bin(Add, Lit("1"), Lit("1")));
  }

  // "-1+1"

  /** "-1+1" is read as Negate, Number("1"), PlusOp, Number("1"). */
  lemma NegatedOnePlusOneLexes(s: string)
    requires |s| == 4 && s[0] == '-' && s[1] == '1' && s[2] == '+' && s[3] == '1'
    ensures Lex(s) == [Token.Negate(), Token.Number("1"), Token.PlusOp(), Token.Number("1")]
  {
    var neg, one, plus := Token.Negate(), Token.Number("1"), Token.PlusOp();
    assert [s[1]] == [s[3]] == "1";
    TokenizeLastDigit(s, plus);
    TokenizeOperator(s, 2, one);
    SignRules(one, s[2..]);
    AppendToOne(plus, one);
    TokenizeDigit(s, 1, neg);
    PrependToTwo(one, plus, one);
    TokenizeOperator(s, 0, Token.StartStream());
    SignRules(Token.StartStream(), s[0..]);
    PrependToThree(neg, one, plus, one);
  }




  /** The `+` of `- 1 + 1` pops the negation, which binds tighter, to the output. */
  lemma NegatedOnePlusOneShunts(a: Token, b: Token)
    requires a.kind == Kind.Number && b.kind == Kind.Number
    ensures var neg, plus := Token.Negate(), Token.PlusOp();
      Shunt(ParseState([], []), [neg, a, plus, b]) == Shunted(ParseState([a, neg, b], [plus]), None)
  {
    var neg, plus := Token.Negate(), Token.PlusOp();
    ConsListFour(neg, a, plus, b);
    OperatorOnEmpty([], neg);
    ShuntCons(ParseState([], []), neg, [a] + ([plus] + ([b] + [])), ParseState([], [neg]));
    NumberToOutput(ParseState([], [neg]), a);
    AppendToEmpty(a);
    ShuntCons(ParseState([], [neg]), a, [plus] + ([b] + []), ParseState([a], [neg]));
    PlusOverNegate([a]);
    AppendToOne(a, neg);
    ShuntCons(ParseState([a], [neg]), plus, [b] + [], ParseState([a, neg], [plus]));
    NumberToOutput(ParseState([a, neg], [plus]), b);
    AppendToTwo(a, neg, b);
    ShuntCons(ParseState([a, neg], [plus]), b, [], ParseState([a, neg, b], [plus]));
  }

  /** Running `1 - 1 +` (the `-` a negation) gives (-1) + 1. */
  lemma NegatedOnePlusOneRuns(x: Value)
    ensures var one, neg, plus := Token.Number("1"), Token.Negate(), Token.PlusOp();
      Run([one, neg, one, plus], [], x) == Success([Bin(Add, Neg(Lit("1")), Lit("1"))])
  {
    var one, neg, plus := Token.Number("1"), Token.Negate(), Token.PlusOp();
    var l1 := Lit("1");
    UnconsFour(one, neg, one, plus);
    ExecuteNumber([], one, x);
    AppendToEmpty(l1);
    RunCons(one, [neg] + ([one] + [plus]), [], x, [l1]);
    assert Execute([l1], neg, x) == Success([Neg(l1)]);
    RunCons(neg, [one] + [plus], [l1], x, [Neg(l1)]);
    ExecuteNumber([Neg(l1)], one, x);
    AppendToOne(Neg(l1), l1);
    RunCons(one, [plus], [Neg(l1)], x, [Neg(l1), l1]);
    RunCombineLast(plus, Neg(l1), l1, x);
  }

  /** The parse of "-1+1" is `1 -` (the negation) then `1 +`. */
  lemma NegatedOnePlusOneCompiles(s: string)
    requires |s| == 4 && s[0] == '-' && s[1] == '1' && s[2] == '+' && s[3] == '1'
    ensures Compile(s) == Success([Token.Number("1"), Token.Negate(), Token.Number("1"), Token.PlusOp()])
  {
    var neg, one, plus := Token.Negate(), Token.Number("1"), Token.PlusOp();
    NegatedOnePlusOneLexes(s);
    NegatedOnePlusOneShunts(one, one);
    CompileOf(s, ParseState([one, neg, one], [plus]));
    DrainOneOverThree(one, neg, one, plus);
  }

  /** "-1+1" evaluates to (-1) + 1: a leading `-` negates the first operand only. */
  lemma NegatedOnePlusOneEvaluates(s: string, x: Value)
    requires |s| == 4 && s[0] == '-' && s[1] == '1' && s[2] == '+' && s[3] == '1'
    ensures Calculate(s, x) == Success(Bin(Add, Neg(Lit("1")), Lit("1")))
  {
    var neg, one, plus := Token.Negate(), Token.Number("1"), Token.PlusOp();
    NegatedOnePlusOneCompiles(s);
    NegatedOnePlusOneRuns(x);
    CalculateOf(s, [one, neg, one, plus], [Bin(Add, Neg(Lit("1")), Lit("1"))], x);
    TopOfSingle(Bin(Add, Neg(Lit("1")), Lit("1")));
  }

  // "1+-1"

  /** "1+-1" is read as Number("1"), PlusOp, Negate, Number("1"): a `-` after an operator is a negation. */
  lemma OnePlusNegatedOneLexes(s: string)
    requires |s| == 4 && s[0] == '1' && s[1] == '+' && s[2] == '-' && s[3] == '1'
    ensures Lex(s) == [Token.Number("1"), Token.PlusOp(), Token.Negate(), Token.Number("1")]
  {
    var one, plus, neg := Token.Number("1"), Token.PlusOp(), Token.Negate();
    assert [s[0]] == [s[3]] == "1";
    TokenizeLastDigit(s, neg);
    TokenizeOperator(s, 2, plus);
    SignRules(plus, s[2..]);
    AppendToOne(neg, one);
    TokenizeOperator(s, 1, one);
    SignRules(one, s[1..]);
    PrependToTwo(plus, neg, one);
    TokenizeDigit(s, 0, Token.StartStream());
    PrependToThree(one, plus, neg, one);
  }

  /** The negation of `1 + - 1` is stacked over the weaker `+`. */
  lemma OnePlusNegatedOneShunts(a: Token, b: Token)
    requires a.kind == Kind.Number && b.kind == Kind.Number
    ensures var plus, neg := Token.PlusOp(), Token.Negate();
      Shunt(ParseState([], []), [a, plus, neg, b]) == Shunted(ParseState([a, b], [plus, neg]), None)
  {
    var plus, neg := Token.PlusOp(), Token.Negate();
    ConsListFour(a, plus, neg, b);
    NumberToOutput(ParseState([], []), a);
    AppendToEmpty(a);
    ShuntCons(ParseState([], []), a, [plus] + ([neg] + ([b] + [])), ParseState([a], []));
    OperatorOnEmpty([a], plus);
    ShuntCons(ParseState([a], []), plus, [neg] + ([b] + []), ParseState([a], [plus]));
    NegateOverPlus([a]);
    ShuntCons(ParseState([a], [plus]), neg, [b] + [], ParseState([a], [plus, neg]));
    NumberToOutput(ParseState([a], [plus, neg]), b);
    AppendToOne(a, b);
    ShuntCons(ParseState([a], [plus, neg]), b, [], ParseState([a, b], [plus, neg]));
  }

  /** The parse of "1+-1" is `1 1 - +`, the `-` a negation: the drain pops it before the `+`. */
  lemma OnePlusNegatedOneCompiles(s: string)
    requires |s| == 4 && s[0] == '1' && s[1] == '+' && s[2] == '-' && s[3] == '1'
    ensures Compile(s) == Success([Token.Number("1"), Token.Number("1"), Token.Negate(), Token.PlusOp()])
  {
    var one, plus, neg := Token.Number("1"), Token.PlusOp(), Token.Negate();
    OnePlusNegatedOneLexes(s);
    OnePlusNegatedOneShunts(one, one);
    CompileOf(s, ParseState([one, one], [plus, neg]));
    DrainTwoOverTwo(one, one, plus, neg);
  }

  /** Running `1 1 - +` (the `-` a negation) gives 1 + (-1). */
  lemma OnePlusNegatedOneRuns(x: Value)
    ensures var one, neg, plus := Token.Number("1"), Token.Negate(), Token.PlusOp();
      Run([one, one, neg, plus], [], x) == Success([Bin(Add, Lit("1"), Neg(Lit("1")))])
  {
    var one, neg, plus := Token.Number("1"), Token.Negate(), Token.PlusOp();
    var l1 := Lit("1");
    UnconsFour(one, one, neg, plus);
    ExecuteNumber([], one, x);
    AppendToEmpty(l1);
    RunCons(one, [one] + ([neg] + [plus]), [], x, [l1]);
    ExecuteNumber([l1], one, x);
    AppendToOne(l1, l1);
    RunCons(one, [neg] + [plus], [l1], x, [l1, l1]);
    ExecuteNegateOverTwo(l1, l1, x);
    RunCons(neg, [plus], [l1, l1], x, [l1, Neg(l1)]);
    RunCombineLast(plus, l1, Neg(l1), x);
  }

  /** "1+-1" evaluates to 1 + (-1). */
  lemma OnePlusNegatedOneEvaluates(s: string, x: Value)
    requires |s| == 4 && s[0] == '1' && s[1] == '+' && s[2] == '-' && s[3] == '1'
    ensures Calculate(s, x) == Success(Bin(Add, Lit("1"), Neg(Lit("1"))))
  {
    var one, plus, neg := Token.Number("1"), Token.PlusOp(), Token.Negate();
    OnePlusNegatedOneCompiles(s);
    OnePlusNegatedOneRuns(x);
    CalculateOf(s, [one, one, neg, plus], [Bin(Add, Lit("1"), Neg(Lit("1")))], x);
    TopOfSingle(Bin(Add, Lit("1"), Neg(Lit("1"))));
  }

  // "+x"

  /** "+x" is read as Whitespace and Ident("x"): a `+` at the start is dropped. */
  lemma PlusXLexes(s: string)
    requires |s| == 2 && s[0] == '+' && s[1] == 'x'
    ensures Lex(s) == [Token.Whitespace(), Token.Ident("x")]
  {
    var ws, ident := Token.Whitespace(), Token.Ident("x");
    TokenizeLastLetter(s, ws);
    assert [s[1]] == "x";
    TokenizeOperator(s, 0, Token.StartStream());
    SignRules(Token.StartStream(), s[0..]);
    AppendToOne(ws, ident);
  }





  /** The parse of "+x" is the single Variable: the Whitespace token is skipped. */
  lemma PlusXCompiles(s: string)
    requires |s| == 2 && s[0] == '+' && s[1] == 'x'
    ensures Compile(s) == Success([Token.Variable("x")])
  {
    var ws, ident, v := Token.Whitespace(), Token.Ident("x"), Token.Variable("x");
    PlusXLexes(s);
    ConsListTwo(ws, ident);
    WhitespaceDispatch(ParseState([], []));
    ShuntCons(ParseState([], []), ws, [ident] + [], ParseState([], []));
    VariableDispatch(ParseState([], []));
    AppendToEmpty(v);
    ShuntCons(ParseState([], []), ident, [], ParseState([v], []));
    CompileOf(s, ParseState([v], []));
    DrainNone(v);
  }

  /** Running the single Variable pushes the value of the variable. */
  lemma PlusXRuns(x: Value)
    ensures Run([Token.Variable("x")], [], x) == Success([x])
  {
    RunSingle(Token.Variable("x"), [], x, [x]);
  }

  /** "+x" evaluates to the value of the variable. */
  lemma PlusXEvaluates(s: string, x: Value)
    requires |s| == 2 && s[0] == '+' && s[1] == 'x'
    ensures Calculate(s, x) == Success(x)
  {
    PlusXCompiles(s);
    PlusXRuns(x);
    CalculateOf(s, [Token.Variable("x")], [x], x);
    TopOfSingle(x);
  }

  // "1-2*3-4"

  /** The last three characters of "1-2*3-4", after the `*`: Number("3"), MinusOp, Number("4"). */
  lemma MixedTailLexes(s: string)
    requires |s| == 7 && s[4] == '3' && s[5] == '-' && s[6] == '4'
    ensures Tokenize(s, 4, Token.MulOp()) == [Token.Number("3"), Token.MinusOp(), Token.Number("4")]
  {
    var n3, sub, n4 := Token.Number("3"), Token.MinusOp(), Token.Number("4");
    assert [s[4]] == "3" && [s[6]] == "4";
    TokenizeLastDigit(s, sub);
    TokenizeOperator(s, 5, n3);
    SignRules(n3, s[5..]);
    AppendToOne(sub, n4);
    TokenizeDigit(s, 4, Token.MulOp());
    PrependToTwo(n3, sub, n4);
  }




  /** From the `2` of "1-2*3-4" on: Number("2"), MulOp, then the tail. */
  lemma MixedMiddleLexes(s: string)
    requires |s| == 7 && s[2] == '2' && s[3] == '*'
    requires s[4] == '3' && s[5] == '-' && s[6] == '4'
    ensures Tokenize(s, 2, Token.MinusOp())
      == [Token.Number("2"), Token.MulOp(), Token.Number("3"), Token.MinusOp(), Token.Number("4")]
  {
    var n2, mul, n3, sub, n4 := Token.Number("2"), Token.MulOp(), Token.Number("3"), Token.MinusOp(), Token.Number("4");
    assert [s[2]] == "2";
    MixedTailLexes(s);
    TokenizeOperator(s, 3, n2);
    OperatorsAfterStart(n2, s[3..]);
    PrependToThree(mul, n3, sub, n4);
    TokenizeDigit(s, 2, sub);
    PrependToFour(n2, mul, n3, sub, n4);
  }


  /** "1-2*3-4" is read as 1, MinusOp, 2, MulOp, 3, MinusOp, 4. */
  lemma MixedLexes(s: string)
    requires |s| == 7 && s[0] == '1' && s[1] == '-' && s[2] == '2' && s[3] == '*'
    requires s[4] == '3' && s[5] == '-' && s[6] == '4'
    ensures Lex(s) == [Token.Number("1"), Token.MinusOp(), Token.Number("2"), Token.MulOp(),
                       Token.Number("3"), Token.MinusOp(), Token.Number("4")]
  {
    var n1, sub := Token.Number("1"), Token.MinusOp();
    assert [s[0]] == "1";
    MixedMiddleLexes(s);
    TokenizeOperator(s, 1, n1);
    SignRules(n1, s[1..]);
    TokenizeDigit(s, 0, Token.StartStream());
    PrependTwoToFive(n1, sub, Token.Number("2"), Token.MulOp(), Token.Number("3"), sub, Token.Number("4"));
  }


  /** The first four tokens of `a - b * c - d`: the `*` is stacked over the weaker `-`. */
  lemma MixedShuntsHead(a: Token, b: Token, rest: seq<Token>)
    requires a.kind == Kind.Number && b.kind == Kind.Number
    ensures var sub, mul := Token.MinusOp(), Token.MulOp();
      Shunt(ParseState([], []), [a, sub, b, mul] + rest) == Shunt(ParseState([a, b], [sub, mul]), rest)
  {
    var sub, mul := Token.MinusOp(), Token.MulOp();
    ConsListFourOnto(a, sub, b, mul, rest);
    NumberToOutput(ParseState([], []), a);
    AppendToEmpty(a);
    ShuntCons(ParseState([], []), a, [sub] + ([b] + ([mul] + rest)), ParseState([a], []));
    OperatorOnEmpty([a], sub);
    ShuntCons(ParseState([a], []), sub, [b] + ([mul] + rest), ParseState([a], [sub]));
    NumberToOutput(ParseState([a], [sub]), b);
    AppendToOne(a, b);
    ShuntCons(ParseState([a], [sub]), b, [mul] + rest, ParseState([a, b], [sub]));
    MulOverMinus([a, b]);
    ShuntCons(ParseState([a, b], [sub]), mul, rest, ParseState([a, b], [sub, mul]));
  }

  /** The last three tokens: the second `-` pops only the `*`, and `d` goes to the output. */
  lemma MixedShuntsTail(a: Token, b: Token, c: Token, d: Token)
    requires c.kind == Kind.Number && d.kind == Kind.Number
    ensures var sub, mul := Token.MinusOp(), Token.MulOp();
      Shunt(ParseState([a, b], [sub, mul]), [c, sub, d]) == Shunted(ParseState([a, b, c, mul, d], [sub, sub]), None)
  {
    var sub, mul := Token.MinusOp(), Token.MulOp();
    ConsListThree(c, sub, d);
    NumberToOutput(ParseState([a, b], [sub, mul]), c);
    AppendToTwo(a, b, c);
    ShuntCons(ParseState([a, b], [sub, mul]), c, [sub] + ([d] + []), ParseState([a, b, c], [sub, mul]));
    MinusOverMulOverMinus([a, b, c]);
    AppendToThree(a, b, c, mul);
    ShuntCons(ParseState([a, b, c], [sub, mul]), sub, [d] + [], ParseState([a, b, c, mul], [sub, sub]));
    NumberToOutput(ParseState([a, b, c, mul], [sub, sub]), d);
    AppendToFour(a, b, c, mul, d);
    ShuntCons(ParseState([a, b, c, mul], [sub, sub]), d, [], ParseState([a, b, c, mul, d], [sub, sub]));
  }

  /** The parse of `a - b * c - d` is `a b c * d - -`: the two `-` end stacked and drain together. */
  lemma MixedCompiles(s: string)
    requires |s| == 7 && s[0] == '1' && s[1] == '-' && s[2] == '2' && s[3] == '*'
    requires s[4] == '3' && s[5] == '-' && s[6] == '4'
    ensures Compile(s) == Success(MixedPostfix())
  {
    var n1, n2, n3, n4 := Token.Number("1"), Token.Number("2"), Token.Number("3"), Token.Number("4");
    var sub, mul := Token.MinusOp(), Token.MulOp();
    MixedLexes(s);
    MixedShuntsHead(n1, n2, [n3, sub, n4]);
    JoinFourAndThree(n1, sub, n2, mul, n3, sub, n4);
    MixedShuntsTail(n1, n2, n3, n4);
    CompileOf(s, ParseState([n1, n2, n3, mul, n4], [sub, sub]));
    DrainTwoOverFive(n1, n2, n3, mul, n4, sub, sub);
  }

  /**
   * "1-2*3-4" evaluates to 1 - ((2 * 3) - 4), not (1 - 2 * 3) - 4: the
   * single pop of `HandleOperator_` groups the two subtractions to the right.
   */
  lemma MixedEvaluates(s: string, x: Value)
    requires |s| == 7 && s[0] == '1' && s[1] == '-' && s[2] == '2' && s[3] == '*'
    requires s[4] == '3' && s[5] == '-' && s[6] == '4'
    ensures Calculate(s, x) == Success(Bin(Sub, Lit("1"), Bin(Sub, Bin(Mul, Lit("2"), Lit("3")), Lit("4"))))
  {
    MixedCompiles(s);
    MixedPostfixValue(x);
    CalculateOf(s, MixedPostfix(), [Bin(Sub, Lit("1"), Bin(Sub, Bin(Mul, Lit("2"), Lit("3")), Lit("4")))], x);
    TopOfSingle(Bin(Sub, Lit("1"), Bin(Sub, Bin(Mul, Lit("2"), Lit("3")), Lit("4"))));
  }
}
