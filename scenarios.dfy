/**
 * Worked examples traced through the model: the regrouping that the single
 * pop of `HandleOperator_` gives to "1-2*3-4", the double pop of a negated
 * function call, and "--1", which parses but underflows when evaluated.
 */
module Scenarios {
  import opened Results
  import opened Tokens
  import opened Lexing
  import opened Postfix
  import opened Evaluation

  /** An operator over a stronger top that is not a Function pops exactly that top. */
  lemma PopOneOperator(ca: seq<Token>, below: seq<Token>, top: Token, t: Token)
    requires t.IsOperator() && top.kind != Kind.Function
    requires Ordinal(top.kind) >= Ordinal(t.kind)
    ensures Dispatch(ParseState(ca, below + [top]), t) == Success(ParseState(ca + [top], below + [t]))
  {
    var tx := below + [top];
    assert Top(tx) == top;
    var r := PushOperator(ParseState(ca, tx), t);
    assert |r.ca| == |ca| + 1;
    assert tx[|tx| - 1..] == [top] && tx[..|tx| - 1] == below;
  }

  /**
   * The quirk at the heart of "1-2*3-4": when the second `-` arrives over
   * `- *`, `HandleOperator_` pops the `*` and stops, leaving the first `-`
   * on the stack under the second.
   */
  lemma SecondMinusPopsOnlyTheProduct()
    ensures var n1, n2, n3 := Token.Number("1"), Token.Number("2"), Token.Number("3");
      var sub, mul := Token.MinusOp(), Token.MulOp();
      PushOperator(ParseState([n1, n2, n3], [sub, mul]), sub) == ParseState([n1, n2, n3, mul], [sub, sub])
  {
    var n1, n2, n3 := Token.Number("1"), Token.Number("2"), Token.Number("3");
    var sub, mul := Token.MinusOp(), Token.MulOp();
    PopOneOperator([n1, n2, n3], [sub], mul, sub);
    assert [sub] + [mul] == [sub, mul] && [n1, n2, n3] + [mul] == [n1, n2, n3, mul] && [sub] + [sub] == [sub, sub];
  }

  /**
   * The `+` of "-cos(x)+1": over the stack `- cos`, it pops the function and
   * the negation under it, so the negation applies to the call alone.
   */
  lemma NegatedCallPopsBoth()
    ensures var v, neg, cos := Token.Variable("x"), Token.Negate(), Token.Function("cos");
      PushOperator(ParseState([v], [neg, cos]), Token.PlusOp()) == ParseState([v, cos, neg], [Token.PlusOp()])
  {
    var v, neg, cos := Token.Variable("x"), Token.Negate(), Token.Function("cos");
    PushOperatorCases(ParseState([v], [neg, cos]), Token.PlusOp());
    assert [neg, cos][..0] == [];
  }

  /** A number pushes the literal of its text. */
  lemma ExecuteNumber(stack: seq<Value>, t: Token, x: Value)
    requires t.kind == Kind.Number
    ensures Execute(stack, t, x) == Success(stack + [Lit(t.text)])
  {
  }

  /** `Run` past a first token that executes. */
  lemma RunCons(t: Token, rest: seq<Token>, stack: seq<Value>, x: Value, next: seq<Value>)
    requires Execute(stack, t, x) == Success(next)
    ensures Run([t] + rest, stack, x) == Run(rest, next, x)
  {
    assert ([t] + rest)[0] == t && ([t] + rest)[1..] == rest;
  }

  /** A binary operator replaces the two top values by their combination. */
  lemma ExecuteBinary(below: seq<Value>, lhs: Value, rhs: Value, t: Token, x: Value)
    requires BinaryOp(t.kind).Some?
    ensures Execute(below + [lhs] + [rhs], t, x) == Success(below + [Bin(BinaryOp(t.kind).value, lhs, rhs)])
  {
    var s := below + [lhs] + [rhs];
    assert s[..|s| - 1] == below + [lhs];
    assert s[..|s| - 1][..|s| - 2] == below;
  }

  /** `1 2 3 * 4 - -`, the postfix form `Parse_` makes of "1-2*3-4". */
  function MixedPostfix(): seq<Token>
  {
    [Token.Number("1"), Token.Number("2"), Token.Number("3"), Token.MulOp(),
     Token.Number("4"), Token.MinusOp(), Token.MinusOp()]
  }

  /** Three numbers at the front are pushed in order. */
  lemma RunThreeNumbers(a: Token, b: Token, c: Token, rest: seq<Token>, x: Value)
    requires a.kind == Kind.Number && b.kind == Kind.Number && c.kind == Kind.Number
    ensures Run([a, b, c] + rest, [], x) == Run(rest, [Lit(a.text), Lit(b.text), Lit(c.text)], x)
  {
    var va, vb, vc := Lit(a.text), Lit(b.text), Lit(c.text);
    assert [a, b, c] + rest == [a] + ([b] + ([c] + rest));
    ExecuteNumber([], a, x);
    assert [] + [va] == [va];
    RunCons(a, [b] + ([c] + rest), [], x, [va]);
    ExecuteNumber([va], b, x);
    assert [va] + [vb] == [va, vb];
    RunCons(b, [c] + rest, [va], x, [va, vb]);
    ExecuteNumber([va, vb], c, x);
    assert [va, vb] + [vc] == [va, vb, vc];
    RunCons(c, rest, [va, vb], x, [va, vb, vc]);
  }

  /** A binary operator over three values replaces the top two by their combination. */
  lemma RunCombineTop(t: Token, u: Value, v: Value, w: Value, rest: seq<Token>, x: Value)
    requires BinaryOp(t.kind).Some?
    ensures Run([t] + rest, [u, v, w], x) == Run(rest, [u, Bin(BinaryOp(t.kind).value, v, w)], x)
  {
    var c := Bin(BinaryOp(t.kind).value, v, w);
    ExecuteBinary([u], v, w, t, x);
    assert [u] + [v] + [w] == [u, v, w] && [u] + [c] == [u, c];
    RunCons(t, rest, [u, v, w], x, [u, c]);
  }

  /** A number over two values is pushed as a third. */
  lemma RunNumberOverTwo(d: Token, u: Value, v: Value, rest: seq<Token>, x: Value)
    requires d.kind == Kind.Number
    ensures Run([d] + rest, [u, v], x) == Run(rest, [u, v, Lit(d.text)], x)
  {
    ExecuteNumber([u, v], d, x);
    assert [u, v] + [Lit(d.text)] == [u, v, Lit(d.text)];
    RunCons(d, rest, [u, v], x, [u, v, Lit(d.text)]);
  }

  /** A last binary operator over two values leaves their combination alone. */
  lemma RunCombineLast(t: Token, u: Value, v: Value, x: Value)
    requires BinaryOp(t.kind).Some?
    ensures Run([t], [u, v], x) == Success([Bin(BinaryOp(t.kind).value, u, v)])
  {
    var c := Bin(BinaryOp(t.kind).value, u, v);
    ExecuteBinary([], u, v, t, x);
    assert [] + [u] + [v] == [u, v] && [] + [c] == [c] && [t] + [] == [t];
    RunCons(t, [], [u, v], x, [c]);
  }

  /** `d - -` over two values subtracts d from the top one, then that difference from the other. */
  lemma RunTwoDifferences(u: Value, v: Value, d: Token, x: Value)
    requires d.kind == Kind.Number
    ensures Run([d, Token.MinusOp(), Token.MinusOp()], [u, v], x)
      == Success([Bin(Sub, u, Bin(Sub, v, Lit(d.text)))])
  {
    var sub := Token.MinusOp();
    assert [d, sub, sub] == [d] + ([sub] + [sub]);
    RunNumberOverTwo(d, u, v, [sub] + [sub], x);
    RunCombineTop(sub, u, v, Lit(d.text), [sub], x);
    RunCombineLast(sub, u, Bin(Sub, v, Lit(d.text)), x);
  }

  /** Seven tokens as three, one and three. */
  lemma SplitSeven(t0: Token, t1: Token, t2: Token, t3: Token, t4: Token, t5: Token, t6: Token)
    ensures [t0, t1, t2, t3, t4, t5, t6] == [t0, t1, t2] + ([t3] + [t4, t5, t6])
  {
  }

  /**
   * Running `a b c * d - -`, the postfix form that `Parse_` makes of
   * "a-b*c-d" because of the single pop above, computes a - ((b * c) - d),
   * not (a - b * c) - d: operators of equal precedence that meet across a
   * stronger one group to the right.
   */
  lemma MixedPrecedenceGroupsRight(a: Token, b: Token, c: Token, d: Token, x: Value)
    requires a.kind == Kind.Number && b.kind == Kind.Number && c.kind == Kind.Number && d.kind == Kind.Number
    ensures Run([a, b, c, Token.MulOp(), d, Token.MinusOp(), Token.MinusOp()], [], x)
      == Success([Bin(Sub, Lit(a.text), Bin(Sub, Bin(Mul, Lit(b.text), Lit(c.text)), Lit(d.text)))])
  {
    var tail := [d, Token.MinusOp(), Token.MinusOp()];
    SplitSeven(a, b, c, Token.MulOp(), d, Token.MinusOp(), Token.MinusOp());
    RunThreeNumbers(a, b, c, [Token.MulOp()] + tail, x);
    RunCombineTop(Token.MulOp(), Lit(a.text), Lit(b.text), Lit(c.text), tail, x);
    RunTwoDifferences(Lit(a.text), Bin(Mul, Lit(b.text), Lit(c.text)), d, x);
  }

  /** The instance "1-2*3-4": 1 - ((2 * 3) - 4). */
  lemma MixedPostfixValue(x: Value)
    ensures Run(MixedPostfix(), [], x)
      == Success([Bin(Sub, Lit("1"), Bin(Sub, Bin(Mul, Lit("2"), Lit("3")), Lit("4")))])
  {
    MixedPrecedenceGroupsRight(Token.Number("1"), Token.Number("2"), Token.Number("3"), Token.Number("4"), x);
  }

  /** The first `-` of "--1", at the stream start, is a negation. */
  lemma DoubleNegateFirstSign()
    ensures Step("--1", 0, Token.StartStream()) == Lexed(Token.Negate(), 1)
  {
    assert SkipSpaces("--1", 0) == 0;
    SignRules(Token.StartStream(), "--1");
  }

  /** The second `-`, after a negation, is a negation again. */
  lemma DoubleNegateSecondSign()
    ensures Step("--1", 1, Token.Negate()) == Lexed(Token.Negate(), 2)
  {
    assert SkipSpaces("--1", 1) == 1;
    SignRules(Token.Negate(), "--1"[1..]);
  }

  /** The `1` is a number, and then the stream ends. */
  lemma DoubleNegateOperand()
    ensures Step("--1", 2, Token.Negate()) == Lexed(Token.Number("1"), 3)
    ensures Step("--1", 3, Token.Number("1")) == Lexed(Token.EndStream(), 3)
  {
    var s := "--1";
    assert SkipSpaces(s, 2) == 2 && IsDigit(s[2]);
    assert NumberEnd(s, 3, false) == 3;
    assert NumberEnd(s, 2, false) == 3;
    assert s[2..3] == "1";
    assert SkipSpaces(s, 3) == 3;
  }

  /** From the `1` on, "--1" is that one number. */
  lemma DoubleNegateTail()
    ensures Tokenize("--1", 2, Token.Negate()) == [Token.Number("1")]
  {
    DoubleNegateOperand();
    TokenizeAfter("--1", 2, Token.Negate(), Token.Number("1"), 3);
    TokenizeAtEnd("--1", 3, Token.Number("1"), 3);
  }

  /** The lexer reads "--1" as two negations and a number. */
  lemma DoubleNegateLexes()
    ensures Lex("--1") == [Token.Negate(), Token.Negate(), Token.Number("1")]
  {
    var neg, one := Token.Negate(), Token.Number("1");
    DoubleNegateFirstSign();
    TokenizeAfter("--1", 0, Token.StartStream(), neg, 1);
    DoubleNegateSecondSign();
    TokenizeAfter("--1", 1, neg, neg, 2);
    DoubleNegateTail();
    assert [neg] + ([neg] + [one]) == [neg, neg, one];
  }

  /** The parse loop past a first token it accepts. */
  lemma ShuntCons(st: ParseState, t: Token, rest: seq<Token>, next: ParseState)
    requires Dispatch(st, t) == Success(next)
    ensures Shunt(st, [t] + rest) == Shunt(next, rest)
  {
    assert ([t] + rest)[0] == t && ([t] + rest)[1..] == rest;
  }

  /** An operator token goes through `HandleOperator_`. */
  lemma OperatorDispatch(st: ParseState, t: Token)
    requires t.IsOperator()
    ensures Dispatch(st, t) == Success(PushOperator(st, t))
  {
  }

  /** A negation on an empty stack is pushed. */
  lemma NegateOnEmpty()
    ensures Dispatch(ParseState([], []), Token.Negate()) == Success(ParseState([], [Token.Negate()]))
  {
    OperatorDispatch(ParseState([], []), Token.Negate());
    PushOperatorCases(ParseState([], []), Token.Negate());
    assert [] + [Token.Negate()] == [Token.Negate()];
  }

  /** A negation over a negation pops it, having the same precedence. */
  lemma NegateOverNegate(ca: seq<Token>)
    ensures Dispatch(ParseState(ca, [Token.Negate()]), Token.Negate())
      == Success(ParseState(ca + [Token.Negate()], [Token.Negate()]))
  {
    var neg := Token.Negate();
    OperatorDispatch(ParseState(ca, [neg]), neg);
    PushOperatorCases(ParseState(ca, [neg]), neg);
    assert [neg][..0] + [neg] == [neg];
  }

  /** A number goes straight to the output. */
  lemma NumberToOutput(st: ParseState, t: Token)
    requires t.kind == Kind.Number
    ensures Dispatch(st, t) == Success(ParseState(st.ca + [t], st.tx))
  {
  }

  /**
   * The parse loop over `- - 1`: the second negation meets the first on the
   * stack with the same precedence, so it pops it to the output.
   */
  lemma DoubleNegateShunts()
    ensures var neg, one := Token.Negate(), Token.Number("1");
      Shunt(ParseState([], []), [neg, neg, one]) == Shunted(ParseState([neg, one], [neg]), None)
  {
    var neg, one := Token.Negate(), Token.Number("1");
    assert [neg, neg, one] == [neg] + ([neg] + ([one] + []));
    NegateOnEmpty();
    ShuntCons(ParseState([], []), neg, [neg] + ([one] + []), ParseState([], [neg]));
    NegateOverNegate([]);
    assert [] + [neg] == [neg];
    ShuntCons(ParseState([], [neg]), neg, [one] + [], ParseState([neg], [neg]));
    NumberToOutput(ParseState([neg], [neg]), one);
    assert [neg] + [one] == [neg, one];
    ShuntCons(ParseState([neg], [neg]), one, [], ParseState([neg, one], [neg]));
  }

  /** Parsing an expression whose tokens the loop gets through ends with the drained state. */
  lemma CompileOf(expr: string, st: ParseState)
    requires Shunt(ParseState([], []), Lex(expr)) == Shunted(st, None)
    ensures Compile(expr) == Success(Drain(st).ca)
  {
    CompileUnfolded(expr);
  }

  /** The final drain moves the last negation behind the `1`. */
  lemma DoubleNegateDrains()
    ensures var neg, one := Token.Negate(), Token.Number("1");
      Drain(ParseState([neg, one], [neg])).ca == [neg, one, neg]
  {
    var neg, one := Token.Negate(), Token.Number("1");
    assert Reversed([neg]) == [neg];
    assert [neg, one] + [neg] == [neg, one, neg];
  }

  /** The postfix form of "--1" is `- 1 -`: the first negation comes before its operand. */
  lemma DoubleNegateCompiles()
    ensures Compile("--1") == Success([Token.Negate(), Token.Number("1"), Token.Negate()])
  {
    var neg, one := Token.Negate(), Token.Number("1");
    DoubleNegateLexes();
    DoubleNegateShunts();
    CompileOf("--1", ParseState([neg, one], [neg]));
    DoubleNegateDrains();
  }

  /** Running `- 1 -` fails at once: the first negation finds an empty stack. */
  lemma DoubleNegateRunUnderflows(x: Value)
    ensures Run([Token.Negate(), Token.Number("1"), Token.Negate()], [], x) == Failure(StackUnderflow)
  {
    assert Execute([], Token.Negate(), x) == Failure(StackUnderflow);
  }

  /**
   * "--1" is lexed without an Invalid token and parsed without error, yet
   * `Evaluate` fails with a stack underflow: a well-formed expression does
   * not always evaluate.
   */
  lemma DoubleNegateUnderflows(x: Value)
    ensures Compile("--1").Success?
    ensures Calculate("--1", x) == Failure(StackUnderflow)
  {
    DoubleNegateCompiles();
    DoubleNegateRunUnderflows(x);
  }
}
