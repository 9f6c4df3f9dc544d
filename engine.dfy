/**
 * `SmartCalc` (model.h, model.cc): the object that owns the two token
 * vectors of the shunting-yard parse and evaluates an expression with them.
 * Each method is proved against the function of `Postfix` or `Evaluation`
 * that describes one step of the algorithm, so the lemmas proved there are
 * lemmas about this class.
 */
module Engine {
  import opened Results
  import opened Tokens
  import opened Lexing
  import opened Postfix
  import opened Evaluation

  /**
   * The static `ApplyOperator` of model.cc together with the push that
   * follows each call: pops the right and then the left operand and pushes
   * their combination, or fails on a stack of fewer than two values.
   */
  method ApplyOperatorOn(stack: seq<Value>, op: BinOp) returns (r: Result<seq<Value>, CalcError>)
    ensures r == ApplyOperator(stack, op)
  {
    if |stack| < 2 {
      return Failure(StackUnderflow);
    }
    var rest := stack;
    var rhs := rest[|rest| - 1];
    rest := rest[..|rest| - 1];
    var lhs := rest[|rest| - 1];
    rest := rest[..|rest| - 1];
    return Success(rest + [Bin(op, lhs, rhs)]);
  }

  class SmartCalc {
    /** The postfix output, `ca_`. */
    var ca: seq<Token>
    /** The operator stack, `tx_`; its top is the last element. */
    var tx: seq<Token>

    /** The two vectors as one parser state. */
    function State(): ParseState
      reads this
    {
      ParseState(ca, tx)
    }

    constructor ()
      ensures ca == [] && tx == []
    {
      ca, tx := [], [];
    }

    /** `Clear_`: empties both vectors. */
    method Clear()
      modifies this
      ensures ca == [] && tx == []
    {
      ca, tx := [], [];
    }

    /** `HandleCloseBrace_`: pops to the output down to the topmost open brace, which is dropped. */
    method HandleCloseBrace()
      modifies this
      ensures State() == Postfix.CloseBrace(old(State()))
    {
      while tx != []
        invariant Postfix.CloseBrace(ParseState(ca, tx)) == Postfix.CloseBrace(old(State()))
        decreases |tx|
      {
        var top, below := Top(tx), tx[..|tx| - 1];
        CloseBraceUnfold(ParseState(ca, tx));
        if top.Equals(Token.OpenBrace()) {
          tx := below;
          return;
        }
        ca, tx := ca + [top], below;
      }
    }

    /** `HandleIdent_`: a known function name is stacked, anything else goes to the output. */
    method HandleIdent(tok: Token)
      modifies this
      ensures State() == PushIdent(old(State()), tok)
    {
      if ResolveMathFnName(tok.text).Some? {
        tx := tx + [Token.Function(tok.text)];
      } else if tok.text == "x" {
        ca := ca + [Token.Variable(tok.text)];
      } else {
        ca := ca + [Token.Invalid(tok.text)];
      }
    }

    /**
     * `HandleOperator_`: pops the stack top to the output when its kind is
     * not below the operator's, and a Negate under a popped Function with it;
     * then stacks the operator.
     */
    method HandleOperator(tok: Token)
      modifies this
      ensures State() == PushOperator(old(State()), tok)
    {
      var out, stack := ca, tx;
      PushOperatorCases(ParseState(out, stack), tok);
      if |stack| != 0 {
        var back := Top(stack);
        if Ordinal(back.kind) >= Ordinal(tok.kind) {
          out, stack := out + [back], stack[..|stack| - 1];
          if back.kind == Kind.Function && |stack| > 0 && Top(stack).Equals(Token.Negate()) {
            assert stack[..|stack| - 1] == tx[..|tx| - 2];
            out, stack := out + [Top(stack)], stack[..|stack| - 1];
          }
        }
      }
      ca, tx := out, stack + [tok];
    }

    /** One iteration of `Parse_`'s loop: hands `t` to its handler, or reports it as invalid. */
    method Feed(t: Token) returns (err: Option<CalcError>)
      modifies this
      ensures err.None? <==> Dispatch(old(State()), t).Success?
      ensures err.None? ==> State() == Dispatch(old(State()), t).value
      ensures err.Some? ==> err.value == Dispatch(old(State()), t).error && State() == old(State())
    {
      if t.IsNumber() {
        ca := ca + [t];
      } else if t.IsIdent() {
        HandleIdent(t);
      } else if t.IsOpenBrace() {
        tx := tx + [t];
      } else if t.IsCloseBrace() {
        HandleCloseBrace();
      } else if t.IsOperator() {
        HandleOperator(t);
      } else if t.Equals(Token.Whitespace()) {
      } else {
        return Some(InvalidToken(t));
      }
      return None;
    }

    /** The loop that ends `Parse_`: moves the whole stack to the output, top first. */
    method DrainStack()
      modifies this
      ensures State() == Drain(old(State()))
    {
      while tx != []
        invariant Drain(ParseState(ca, tx)) == Drain(old(State()))
        decreases |tx|
      {
        DrainStep(ParseState(ca, tx));
        ca, tx := ca + [Top(tx)], tx[..|tx| - 1];
      }
    }

    /**
     * `Parse_`: lexes `expr` and feeds every token to the parser, then moves
     * what is left on the stack to the output. The first token the parser
     * does not accept is returned as the error, with the vectors as they
     * were when it was met.
     */
    method Parse(expr: string) returns (err: Option<CalcError>)
      modifies this
      ensures var s := Shunt(old(State()), Lex(expr));
        && err == s.error
        && State() == (if s.error.None? then Drain(s.state) else s.state)
    {
      var lexer := new Lexer(expr);
      var toks := lexer.Collect();
      for i := 0 to |toks|
        invariant Shunt(State(), toks[i..]) == Shunt(old(State()), toks)
      {
        ShuntStep(State(), toks, i);
        err := Feed(toks[i]);
        if err.Some? {
          return;
        }
      }
      assert toks[|toks|..] == [];
      assert Shunt(old(State()), Lex(expr)) == Shunted(State(), None);
      err := None;
      DrainStack();
    }

    /**
     * The loop of `Evaluate` over the postfix output: the operand stack it
     * ends with, or the first error it meets.
     */
    method RunOutput(x: Value) returns (res: Result<seq<Value>, CalcError>)
      ensures res == Run(ca, [], x)
    {
      var postfix := ca;
      var stack: seq<Value> := [];
      for i := 0 to |postfix|
        invariant Run(postfix[i..], stack, x) == Run(postfix, [], x)
      {
        var tok := postfix[i];
        RunStep(postfix, i, stack, x);
        var op := BinaryOp(tok.kind);
        var next: Result<seq<Value>, CalcError>;
        if tok.kind == Kind.Number {
          next := Success(stack + [Lit(tok.text)]);
        } else if tok.kind == Kind.Variable {
          next := Success(stack + [x]);
        } else if op.Some? {
          next := ApplyOperatorOn(stack, op.value);
        } else if tok.kind == Kind.Negate {
          if |stack| < 1 {
            return Failure(StackUnderflow);
          }
          next := Success(stack[..|stack| - 1] + [Neg(stack[|stack| - 1])]);
        } else if tok.kind == Kind.Function {
          var fn := ResolveMathFnName(tok.text);
          if fn.None? {
            return Failure(InvalidFunctionName(tok.text));
          }
          if |stack| < 1 {
            return Failure(StackUnderflow);
          }
          next := Success(stack[..|stack| - 1] + [Call(fn.value, stack[|stack| - 1])]);
        } else {
          return Failure(InvalidToken(tok));
        }
        assert next == Execute(stack, tok, x);
        if next.Failure? {
          return Failure(next.error);
        }
        stack := next.value;
      }
      assert postfix[|postfix|..] == [];
      return Success(stack);
    }

    /**
     * The end of `Evaluate` after a successful parse: runs the postfix output
     * and returns the top of the operand stack.
     */
    method RunToTop(x: Value) returns (r: Result<Value, CalcError>)
      ensures var res := Run(ca, [], x);
        r == if res.Failure? then Failure(res.error) else TopOfStack(res.value)
    {
      var res := RunOutput(x);
      if res.Failure? {
        return Failure(res.error);
      }
      var stack := res.value;
      if stack == [] {
        return Failure(StackUnderflow);
      }
      return Success(stack[|stack| - 1]);
    }

    /**
     * `Evaluate`: clears the vectors, parses `expr` and runs the postfix
     * output on an operand stack, returning its top. `x` is the value of the
     * variable `x`.
     */
    method Evaluate(expr: string, x: Value := Zero) returns (r: Result<Value, CalcError>)
      modifies this
      ensures r == Calculate(expr, x)
      ensures var s := Shunt(ParseState([], []), Lex(expr));
        State() == (if s.error.None? then Drain(s.state) else s.state)
    {
      CalculateUnfolded(expr, x);
      Clear();
      var err := Parse(expr);
      if err.Some? {
        return Failure(err.value);
      }
      r := RunToTop(x);
    }
  }
}
