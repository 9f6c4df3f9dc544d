/**
 * The operand-stack half of `SmartCalc::Evaluate` (model.cc). Floating-point
 * arithmetic is not modelled: a value is the expression tree the evaluator
 * would compute, with a number literal standing for the decimal value of its
 * text, so the lemmas are about which operands meet which operator.
 */
module Evaluation {
  import opened Results
  import opened Tokens
  import opened Postfix
  import Lexing

  datatype BinOp = Add | Sub | Mul | Div | Mod | Pow

  /**
   * A computed value: `Lit(text)` is the number the text denotes, `Bin` a
   * binary operation on its left and right operands, `Neg` a negation,
   * `Call` a math function applied to an argument.
   */
  datatype Value =
    | Lit(text: string)
    | Bin(op: BinOp, lhs: Value, rhs: Value)
    | Neg(arg: Value)
    | Call(fn: MathFn, arg: Value)

  /** The default variable value, `0.0`. */
  const Zero: Value := Lit("0")

  /** The binary operation of an operator kind, if it is one. */
  function BinaryOp(k: Kind): (r: Option<BinOp>)
    ensures r.Some? <==> k in {Kind.PlusOp, Kind.MinusOp, Kind.MulOp, Kind.DivOp, Kind.ModOp, Kind.ExpOp}
  {
    match k
    case PlusOp => Some(Add)
    case MinusOp => Some(Sub)
    case MulOp => Some(Mul)
    case DivOp => Some(Div)
    case ModOp => Some(Mod)
    case ExpOp => Some(Pow)
    case _ => None
  }

  /** The stack element at `depth` below the top (0 is the top). */
  function Peek(stack: seq<Value>, depth: nat): Value
    requires depth < |stack|
  {
    stack[|stack| - 1 - depth]
  }

  /**
   * `ApplyOperator` with the push that follows it: fewer than two operands is
   * a stack underflow; otherwise the top is the right operand, the one under
   * it the left, and both are replaced by one result.
   */
  function ApplyOperator(stack: seq<Value>, op: BinOp): (r: Result<seq<Value>, CalcError>)
    ensures r.Failure? <==> |stack| < 2
    ensures r.Failure? ==> r.error == StackUnderflow
    ensures r.Success? ==>
      && |r.value| == |stack| - 1
      && r.value[..|stack| - 2] == stack[..|stack| - 2]
      && Peek(r.value, 0) == Bin(op, Peek(stack, 1), Peek(stack, 0))
  {
    if |stack| < 2 then Failure(StackUnderflow)
    else
      var rhs := stack[|stack| - 1];
      var rest := stack[..|stack| - 1];
      var lhs := rest[|rest| - 1];
      Success(rest[..|rest| - 1] + [Bin(op, lhs, rhs)])
  }

  /** The tokens the evaluator knows how to execute. */
  predicate Executable(t: Token)
  {
    || t.kind in {Kind.Number, Kind.Variable, Kind.Negate}
    || BinaryOp(t.kind).Some?
    || (t.kind == Kind.Function && ResolveMathFnName(t.text).Some?)
  }

  /** How many operands an executable token takes from the stack. */
  function Arity(t: Token): nat
  {
    if BinaryOp(t.kind).Some? then 2
    else if t.kind in {Kind.Negate, Kind.Function} then 1
    else 0
  }

  /**
   * One iteration of `Evaluate`'s loop. A token takes its operands from the
   * top of the stack and leaves one result there, keeping everything below;
   * an unknown function name is reported before a missing operand, and any
   * token that is neither a value nor an operator is an invalid token.
   */
  function Execute(stack: seq<Value>, t: Token, x: Value): (r: Result<seq<Value>, CalcError>)
    ensures r.Success? <==> Executable(t) && Arity(t) <= |stack|
    ensures r.Success? ==>
      && |r.value| == |stack| - Arity(t) + 1
      && r.value[..|stack| - Arity(t)] == stack[..|stack| - Arity(t)]
    ensures r.Success? && t.kind == Kind.Number ==> r.value == stack + [Lit(t.text)]
    ensures r.Success? && t.kind == Kind.Variable ==> r.value == stack + [x]
    ensures r.Success? && t.kind == Kind.Negate ==> Peek(r.value, 0) == Neg(Peek(stack, 0))
    ensures r.Success? && t.kind == Kind.Function ==>
      Peek(r.value, 0) == Call(ResolveMathFnName(t.text).value, Peek(stack, 0))
    ensures r.Success? && BinaryOp(t.kind).Some? ==>
      Peek(r.value, 0) == Bin(BinaryOp(t.kind).value, Peek(stack, 1), Peek(stack, 0))
    ensures r.Failure? ==>
      r.error == (if t.kind == Kind.Function && ResolveMathFnName(t.text).None? then InvalidFunctionName(t.text)
                  else if !Executable(t) then InvalidToken(t)
                  else StackUnderflow)
  {
    match t.kind
    case Number => Success(stack + [Lit(t.text)])
    case Variable => Success(stack + [x])
    case PlusOp => ApplyOperator(stack, Add)
    case MinusOp => ApplyOperator(stack, Sub)
    case MulOp => ApplyOperator(stack, Mul)
    case DivOp => ApplyOperator(stack, Div)
    case ModOp => ApplyOperator(stack, Mod)
    case ExpOp => ApplyOperator(stack, Pow)
    case Negate =>
      if |stack| < 1 then Failure(StackUnderflow)
      else Success(stack[..|stack| - 1] + [Neg(Peek(stack, 0))])
    case Function =>
      (match ResolveMathFnName(t.text)
       case None => Failure(InvalidFunctionName(t.text))
       case Some(fn) =>
         if |stack| < 1 then Failure(StackUnderflow)
         else Success(stack[..|stack| - 1] + [Call(fn, Peek(stack, 0))]))
    case _ => Failure(InvalidToken(t))
  }

  /** How much a postfix sequence grows the stack: one result per token, less its operands. */
  function Net(postfix: seq<Token>): int
  {
    if postfix == [] then 0 else 1 - Arity(postfix[0]) + Net(postfix[1..])
  }

  /** `Evaluate`'s loop over the postfix tokens, stopping at the first failure. */
  function Run(postfix: seq<Token>, stack: seq<Value>, x: Value): Result<seq<Value>, CalcError>
    decreases |postfix|
  {
    if postfix == [] then Success(stack)
    else
      match Execute(stack, postfix[0], x)
      case Failure(e) => Failure(e)
      case Success(next) => Run(postfix[1..], next, x)
  }

  /**
   * A run that gets through has executed every token, and has grown the
   * stack by the sequence's net effect.
   */
  lemma {:induction false} RunShape(postfix: seq<Token>, stack: seq<Value>, x: Value)
    ensures var r := Run(postfix, stack, x);
      r.Success? ==>
        && (forall k :: 0 <= k < |postfix| ==> Executable(postfix[k]))
        && |r.value| == |stack| + Net(postfix)
    decreases |postfix|
  {
    if postfix != [] {
      var e := Execute(stack, postfix[0], x);
      if e.Success? {
        RunShape(postfix[1..], e.value, x);
        assert forall k :: 1 <= k < |postfix| ==> postfix[1..][k - 1] == postfix[k];
      }
    }
  }

  /** The end of `Evaluate`: the top of the stack, even when more values lie below it. */
  function TopOfStack(stack: seq<Value>): (r: Result<Value, CalcError>)
    ensures r.Success? <==> stack != []
    ensures r.Success? ==> r.value == stack[|stack| - 1]
    ensures r.Failure? ==> r.error == StackUnderflow
  {
    if stack == [] then Failure(StackUnderflow) else Success(Peek(stack, 0))
  }

  /**
   * `SmartCalc::Evaluate(expr, x)` as a function of its arguments alone. A
   * parse error is reported before anything is evaluated, and a value comes
   * only from an expression the lexer read without an Invalid token and whose
   * postfix form leaves at least one value on the stack.
   */
  function Calculate(expr: string, x: Value): (r: Result<Value, CalcError>)
    ensures Compile(expr).Failure? ==> r == Failure(Compile(expr).error)
    ensures r.Success? ==>
      && (forall k :: 0 <= k < |Lexing.Lex(expr)| ==> Lexing.Lex(expr)[k].kind != Kind.Invalid)
      && Net(Compile(expr).value) >= 1
  {
    match Compile(expr)
    case Failure(e) => Failure(e)
    case Success(postfix) =>
      RunShape(postfix, [], x);
      match Run(postfix, [], x)
      case Failure(e) => Failure(e)
      case Success(stack) => TopOfStack(stack)
  }

  /** `Calculate` written in terms of the parse loop and the final drain. */
  lemma CalculateUnfolded(expr: string, x: Value)
    ensures var s := Shunt(ParseState([], []), Lexing.Lex(expr));
      Calculate(expr, x) ==
        if s.error.Some? then Failure(s.error.value)
        else
          var r := Run(Drain(s.state).ca, [], x);
          if r.Failure? then Failure(r.error) else TopOfStack(r.value)
  {
  }

  /** `Run` from position `i` executes one token and goes on from `i + 1`. */
  lemma RunStep(postfix: seq<Token>, i: nat, stack: seq<Value>, x: Value)
    requires i < |postfix|
    ensures var e := Execute(stack, postfix[i], x);
      Run(postfix[i..], stack, x) == if e.Failure? then Failure(e.error) else Run(postfix[i + 1..], e.value, x)
  {
    assert postfix[i..][0] == postfix[i] && postfix[i..][1..] == postfix[i + 1..];
  }

  /** Running two postfix sequences one after the other is running their concatenation. */
  lemma {:induction false} RunAppend(a: seq<Token>, b: seq<Token>, stack: seq<Value>, x: Value)
    ensures Run(a + b, stack, x) ==
      match Run(a, stack, x)
      case Failure(e) => Failure(e)
      case Success(mid) => Run(b, mid, x)
    decreases |a|
  {
    if a == [] {
      assert a + b == b;
    } else {
      assert (a + b)[0] == a[0] && (a + b)[1..] == a[1..] + b;
      match Execute(stack, a[0], x)
      case Failure(_) =>
      case Success(next) => RunAppend(a[1..], b, next, x);
    }
  }

  /**
   * Values already on the stack below a run's operands are untouched: a run
   * that succeeds from `stack` succeeds from `base + stack` and leaves `base`
   * below its result.
   */
  lemma {:induction false} RunKeepsBase(postfix: seq<Token>, base: seq<Value>, stack: seq<Value>, x: Value)
    requires Run(postfix, stack, x).Success?
    ensures Run(postfix, base + stack, x) == Success(base + Run(postfix, stack, x).value)
    decreases |postfix|
  {
    if postfix != [] {
      var t := postfix[0];
      var next := Execute(stack, t, x).value;
      ExecuteKeepsBase(stack, base, t, x);
      RunKeepsBase(postfix[1..], base, next, x);
    }
  }

  /** One step of `RunKeepsBase`. */
  lemma ExecuteKeepsBase(stack: seq<Value>, base: seq<Value>, t: Token, x: Value)
    requires Execute(stack, t, x).Success?
    ensures Execute(base + stack, t, x) == Success(base + Execute(stack, t, x).value)
  {
    var s := base + stack;
    if BinaryOp(t.kind).Some? {
      ApplyKeepsBase(stack, base, BinaryOp(t.kind).value);
    } else if t.kind == Kind.Negate {
      UnaryKeepsBase(stack, base, Neg(Peek(stack, 0)));
    } else if t.kind == Kind.Function {
      UnaryKeepsBase(stack, base, Call(ResolveMathFnName(t.text).value, Peek(stack, 0)));
    } else {
      assert s + [Lit(t.text)] == base + (stack + [Lit(t.text)]);
      assert s + [x] == base + (stack + [x]);
    }
  }

  /** Replacing the top of `stack` leaves `base` below it alone. */
  lemma UnaryKeepsBase(stack: seq<Value>, base: seq<Value>, v: Value)
    requires |stack| >= 1
    ensures var s := base + stack;
      && Peek(s, 0) == Peek(stack, 0)
      && s[..|s| - 1] + [v] == base + (stack[..|stack| - 1] + [v])
  {
    var s := base + stack;
    assert s[..|s| - 1] == base + stack[..|stack| - 1];
  }

  lemma ApplyKeepsBase(stack: seq<Value>, base: seq<Value>, op: BinOp)
    requires |stack| >= 2
    ensures ApplyOperator(base + stack, op) == Success(base + ApplyOperator(stack, op).value)
  {
    var s := base + stack;
    var rest, rest' := s[..|s| - 1], stack[..|stack| - 1];
    assert rest == base + rest';
    assert rest[..|rest| - 1] == base + rest'[..|rest'| - 1];
    assert rest[|rest| - 1] == rest'[|rest'| - 1] && s[|s| - 1] == stack[|stack| - 1];
    var v := Bin(op, rest'[|rest'| - 1], stack[|stack| - 1]);
    assert rest[..|rest| - 1] + [v] == base + (rest'[..|rest'| - 1] + [v]);
  }

  /**
   * A postfix sequence holding a token the evaluator cannot execute (an
   * unmatched open brace, an unknown identifier) never runs to the end.
   */
  lemma {:induction false} RunFailsOnUnexecutable(postfix: seq<Token>, stack: seq<Value>, x: Value, k: nat)
    requires k < |postfix| && !Executable(postfix[k])
    ensures Run(postfix, stack, x).Failure?
    decreases |postfix|
  {
    match Execute(stack, postfix[0], x)
    case Failure(_) =>
    case Success(next) =>
      assert k > 0 && postfix[1..][k - 1] == postfix[k];
      RunFailsOnUnexecutable(postfix[1..], next, x, k - 1);
  }

  /**
   * An open brace that no `)` closed is drained into the postfix output and
   * makes the evaluation fail.
   */
  lemma UnmatchedOpenBraceFails(expr: string, x: Value)
    requires Compile(expr).Success? && Token.OpenBrace() in Compile(expr).value
    ensures Calculate(expr, x).Failure?
  {
    var p := Compile(expr).value;
    var k :| 0 <= k < |p| && p[k] == Token.OpenBrace();
    RunFailsOnUnexecutable(p, [], x, k);
  }

  /**
   * When every Function token in a postfix sequence names a known function,
   * running it never fails with InvalidFunctionName.
   */
  lemma {:induction false} RunNeverMisnames(postfix: seq<Token>, stack: seq<Value>, x: Value)
    requires forall u :: u in postfix && u.kind == Kind.Function ==> u.text in FunctionNames
    ensures !(Run(postfix, stack, x).Failure? && Run(postfix, stack, x).error.InvalidFunctionName?)
    decreases |postfix|
  {
    if postfix != [] {
      assert postfix[0] in postfix;
      match Execute(stack, postfix[0], x)
      case Failure(_) =>
      case Success(next) =>
        assert forall u :: u in postfix[1..] ==> u in postfix;
        RunNeverMisnames(postfix[1..], next, x);
    }
  }

  /**
   * Because the parser only makes Function tokens from names it resolved,
   * the evaluator's own name check never fires on an expression.
   */
  lemma CalculateNeverMisnames(expr: string, x: Value)
    ensures !(Calculate(expr, x).Failure? && Calculate(expr, x).error.InvalidFunctionName?)
  {
    if Compile(expr).Success? {
      CompileConserves(expr);
      RunNeverMisnames(Compile(expr).value, [], x);
    }
  }

  /**
   * The parse errors of `Evaluate` are exactly the lexer's Invalid tokens:
   * an expression fails to parse iff the lexer produced one, and the error
   * carries it.
   */
  lemma ParseFailsOnlyOnLexerInvalid(expr: string, x: Value)
    requires Compile(expr).Failure?
    ensures Calculate(expr, x) == Failure(Compile(expr).error)
    ensures Calculate(expr, x).error.InvalidToken?
    ensures Calculate(expr, x).error.tok.kind == Kind.Invalid
    ensures Calculate(expr, x).error.tok in Lexing.Lex(expr)
  {
  }
}
