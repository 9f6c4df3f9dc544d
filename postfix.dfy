/**
 * The infix-to-postfix half of `SmartCalc` (model.cc, `Parse_` and its
 * handlers), as functions on the pair of token vectors it mutates: `ca`, the
 * postfix output, and `tx`, the stack of pending operators, functions and
 * open braces (its top is the last element).
 */
module Postfix {
  import opened Results
  import opened Tokens
  import opened Lexing

  /** The math functions an identifier may name; `ln` is log10 and `log` the natural logarithm. */
  datatype MathFn = Cos | Sin | Tan | Acos | Asin | Atan | Sqrt | Log10 | Ln

  /** The fixed function vocabulary. */
  const FunctionNames: set<string> := {"cos", "sin", "tan", "acos", "asin", "atan", "sqrt", "ln", "log"}

  /** `ResolveMathFnName_`: the function a name stands for, if any. */
  function ResolveMathFnName(name: string): (r: Option<MathFn>)
    ensures r.Some? <==> name in FunctionNames
    ensures r.Some? ==> |name| > 0
    ensures name == "ln" ==> r == Some(Log10)
    ensures name == "log" ==> r == Some(Ln)
  {
    if |name| == 0 then None
    else if name == "cos" then Some(Cos)
    else if name == "sin" then Some(Sin)
    else if name == "tan" then Some(Tan)
    else if name == "acos" then Some(Acos)
    else if name == "asin" then Some(Asin)
    else if name == "atan" then Some(Atan)
    else if name == "sqrt" then Some(Sqrt)
    else if name == "ln" then Some(Log10)
    else if name == "log" then Some(Ln)
    else None
  }

  /** Distinct names in the vocabulary resolve to distinct functions. */
  lemma ResolveIsInjective(a: string, b: string)
    requires a in FunctionNames && b in FunctionNames && a != b
    ensures ResolveMathFnName(a) != ResolveMathFnName(b)
  {
  }

  /** The three failures of `Evaluate`, each thrown as an exception in the C++. */
  datatype CalcError =
    | InvalidToken(tok: Token)
    | InvalidFunctionName(name: string)
    | StackUnderflow

  datatype ParseState = ParseState(ca: seq<Token>, tx: seq<Token>)

  /** `s` in pop order: last element first. */
  function Reversed(s: seq<Token>): (r: seq<Token>)
    ensures |r| == |s|
    ensures forall k :: 0 <= k < |s| ==> r[k] == s[|s| - 1 - k]
  {
    if s == [] then [] else [s[|s| - 1]] + Reversed(s[..|s| - 1])
  }

  /** Popping from `a + [x]` yields `x` first, then `a` in pop order. */
  lemma ReversedSnoc(a: seq<Token>, x: Token)
    ensures Reversed(a + [x]) == [x] + Reversed(a)
  {
    assert (a + [x])[..|a|] == a;
  }

  /** Reversal keeps every token and its multiplicity. */
  lemma {:induction false} ReversedPermutes(s: seq<Token>)
    ensures multiset(Reversed(s)) == multiset(s)
  {
    if s != [] {
      ReversedPermutes(s[..|s| - 1]);
      assert s == s[..|s| - 1] + [s[|s| - 1]];
    }
  }

  /** The top of a non-empty stack. */
  function Top(tx: seq<Token>): Token
    requires tx != []
  {
    tx[|tx| - 1]
  }

  /**
   * `HandleCloseBrace_`: moves stack tops to the output until it pops (and
   * drops) an OpenBrace, or until the stack is empty; an unmatched `)` is no
   * error. The stack keeps what lay below the topmost open brace, and the
   * output gains what lay above it, in pop order.
   */
  function CloseBrace(st: ParseState): (r: ParseState)
    ensures |r.tx| <= |st.tx| && r.tx == st.tx[..|r.tx|]
    ensures Token.OpenBrace() in st.tx ==>
      && |r.tx| < |st.tx| && st.tx[|r.tx|] == Token.OpenBrace()
      && Token.OpenBrace() !in st.tx[|r.tx| + 1..]
      && r.ca == st.ca + Reversed(st.tx[|r.tx| + 1..])
    ensures Token.OpenBrace() !in st.tx ==> r.tx == [] && r.ca == st.ca + Reversed(st.tx)
    decreases |st.tx|
  {
    if st.tx == [] then st
    else
      var top := Top(st.tx);
      var below := st.tx[..|st.tx| - 1];
      assert st.tx == below + [top];
      if top == Token.OpenBrace() then
        CloseBraceStop(st.ca, below);
        ParseState(st.ca, below)
      else
        var r := CloseBrace(ParseState(st.ca + [top], below));
        CloseBraceStep(st.ca, below, top, r);
        r
  }

  /** One pop of `CloseBrace`: an open brace on top ends it, any other top moves to the output. */
  lemma CloseBraceUnfold(st: ParseState)
    requires st.tx != []
    ensures var below := st.tx[..|st.tx| - 1];
      CloseBrace(st) ==
        if Top(st.tx) == Token.OpenBrace() then ParseState(st.ca, below)
        else CloseBrace(ParseState(st.ca + [Top(st.tx)], below))
  {
  }

  /** An open brace on top stops `CloseBrace` at once: it is the topmost one. */
  lemma CloseBraceStop(ca: seq<Token>, below: seq<Token>)
    ensures var tx := below + [Token.OpenBrace()];
      && |below| < |tx| && tx[|below|] == Token.OpenBrace()
      && tx[|below| + 1..] == [] && Token.OpenBrace() !in tx[|below| + 1..]
      && below == tx[..|below|]
      && ca == ca + Reversed(tx[|below| + 1..])
  {
    var tx := below + [Token.OpenBrace()];
    assert tx[|below| + 1..] == [];
  }

  /** The step of `CloseBrace` past one non-brace token `top`. */
  lemma CloseBraceStep(ca: seq<Token>, below: seq<Token>, top: Token, r: ParseState)
    requires top != Token.OpenBrace()
    requires |r.tx| <= |below| && r.tx == below[..|r.tx|]
    requires Token.OpenBrace() in below ==>
      && |r.tx| < |below| && below[|r.tx|] == Token.OpenBrace()
      && Token.OpenBrace() !in below[|r.tx| + 1..]
      && r.ca == ca + [top] + Reversed(below[|r.tx| + 1..])
    requires Token.OpenBrace() !in below ==> r.tx == [] && r.ca == ca + [top] + Reversed(below)
    ensures var tx := below + [top];
      && r.tx == tx[..|r.tx|]
      && (Token.OpenBrace() in tx ==>
          && |r.tx| < |tx| && tx[|r.tx|] == Token.OpenBrace()
          && Token.OpenBrace() !in tx[|r.tx| + 1..]
          && r.ca == ca + Reversed(tx[|r.tx| + 1..]))
      && (Token.OpenBrace() !in tx ==> r.tx == [] && r.ca == ca + Reversed(tx))
  {
    var tx := below + [top];
    assert tx[..|r.tx|] == below[..|r.tx|];
    assert Token.OpenBrace() in tx <==> Token.OpenBrace() in below;
    if Token.OpenBrace() in below {
      CloseBraceStepFound(ca, below, top, |r.tx|);
    } else {
      ReversedSnoc(below, top);
    }
  }

  lemma CloseBraceStepFound(ca: seq<Token>, below: seq<Token>, top: Token, m: nat)
    requires top != Token.OpenBrace() && m < |below|
    requires Token.OpenBrace() !in below[m + 1..]
    ensures Token.OpenBrace() !in (below + [top])[m + 1..]
    ensures ca + [top] + Reversed(below[m + 1..]) == ca + Reversed((below + [top])[m + 1..])
  {
    assert (below + [top])[m + 1..] == below[m + 1..] + [top];
    ReversedSnoc(below[m + 1..], top);
  }

  /** `CloseBrace` loses no token but the open brace it discards. */
  lemma CloseBraceConserves(st: ParseState)
    ensures var r := CloseBrace(st);
      multiset(r.ca) + multiset(r.tx)
        + (if Token.OpenBrace() in st.tx then multiset{Token.OpenBrace()} else multiset{})
        == multiset(st.ca) + multiset(st.tx)
  {
    var r := CloseBrace(st);
    if Token.OpenBrace() in st.tx {
      var m := |r.tx|;
      DropConserves(st, r, st.tx[m + 1..]);
    } else {
      ReversedPermutes(st.tx);
    }
  }

  lemma DropConserves(st: ParseState, r: ParseState, tail: seq<Token>)
    requires |r.tx| < |st.tx| && r.tx == st.tx[..|r.tx|] && st.tx[|r.tx|] == Token.OpenBrace()
    requires tail == st.tx[|r.tx| + 1..] && r.ca == st.ca + Reversed(tail)
    ensures multiset(r.ca) + multiset(r.tx) + multiset{Token.OpenBrace()}
            == multiset(st.ca) + multiset(st.tx)
  {
    var m := |r.tx|;
    assert multiset(r.ca) == multiset(st.ca) + multiset(tail) by {
      ReversedPermutes(tail);
    }
    assert multiset(r.tx) == multiset(st.tx[..m]);
    StackSplit(st.tx, m, tail);
  }

  /** A stack is what lies below position `m`, the open brace at `m`, and what lies above it. */
  lemma StackSplit(tx: seq<Token>, m: nat, tail: seq<Token>)
    requires m < |tx| && tx[m] == Token.OpenBrace() && tail == tx[m + 1..]
    ensures multiset(tx) == multiset(tx[..m]) + multiset{Token.OpenBrace()} + multiset(tail)
  {
    assert tx == tx[..m] + [tx[m]] + tail;
  }

  /**
   * `HandleOperator_`: pops at most one token, and only when the stack's top
   * ranks at least as high as the incoming operator; a Function popped this
   * way takes the Negate under it along. Then the operator is pushed.
   */
  function PushOperator(st: ParseState, tok: Token): (r: ParseState)
    ensures var n := |r.ca| - |st.ca|;
      && 0 <= n <= 2 && n <= |st.tx|
      && r.ca == st.ca + Reversed(st.tx[|st.tx| - n..])
      && r.tx == st.tx[..|st.tx| - n] + [tok]
    ensures |r.ca| > |st.ca| <==> st.tx != [] && Ordinal(Top(st.tx).kind) >= Ordinal(tok.kind)
    ensures |r.ca| == |st.ca| + 2 <==>
      && st.tx != [] && Ordinal(Top(st.tx).kind) >= Ordinal(tok.kind)
      && Top(st.tx).kind == Kind.Function && |st.tx| >= 2 && st.tx[|st.tx| - 2] == Token.Negate()
  {
    var n := |st.tx|;
    if n != 0 && Ordinal(Top(st.tx).kind) >= Ordinal(tok.kind) then
      var top := st.tx[n - 1];
      assert st.tx[n - 1..] == [top];
      assert Reversed([top]) == [top];
      if top.kind == Kind.Function && n >= 2 && st.tx[n - 2] == Token.Negate() then
        var neg := st.tx[n - 2];
        assert st.tx[n - 2..] == [neg, top];
        assert Reversed([neg, top]) == [top, neg];
        ParseState(st.ca + [top, neg], st.tx[..n - 2] + [tok])
      else
        ParseState(st.ca + [top], st.tx[..n - 1] + [tok])
    else
      assert st.tx[n..] == [];
      ParseState(st.ca, st.tx + [tok])
  }

  /** `PushOperator` by cases: no pop, one pop, or a Function popped together with the Negate under it. */
  lemma PushOperatorCases(st: ParseState, tok: Token)
    ensures var tx := st.tx;
      PushOperator(st, tok) ==
        if tx == [] || Ordinal(Top(tx).kind) < Ordinal(tok.kind) then ParseState(st.ca, tx + [tok])
        else if Top(tx).kind == Kind.Function && |tx| >= 2 && tx[|tx| - 2] == Token.Negate() then
          ParseState(st.ca + [Top(tx), tx[|tx| - 2]], tx[..|tx| - 2] + [tok])
        else ParseState(st.ca + [Top(tx)], tx[..|tx| - 1] + [tok])
  {
  }

  /** Moving the top `n` tokens of a stack to the output and pushing `tok` keeps every token. */
  lemma MoveConserves(st: ParseState, r: ParseState, n: nat, tok: Token)
    requires n <= |st.tx|
    requires r.ca == st.ca + Reversed(st.tx[|st.tx| - n..]) && r.tx == st.tx[..|st.tx| - n] + [tok]
    ensures multiset(r.ca) + multiset(r.tx) == multiset(st.ca) + multiset(st.tx) + multiset{tok}
  {
    var kept, popped := st.tx[..|st.tx| - n], st.tx[|st.tx| - n..];
    assert st.tx == kept + popped;
    ReversedPermutes(popped);
  }

  /** `PushOperator` moves tokens from stack to output and adds only the operator. */
  lemma PushOperatorConserves(st: ParseState, tok: Token)
    ensures var r := PushOperator(st, tok);
      multiset(r.ca) + multiset(r.tx) == multiset(st.ca) + multiset(st.tx) + multiset{tok}
  {
    var r := PushOperator(st, tok);
    MoveConserves(st, r, |r.ca| - |st.ca|, tok);
  }

  /** What `HandleIdent_` makes of an identifier. */
  function IdentImage(tok: Token): (t: Token)
    ensures t.text == tok.text
    ensures t.kind == Kind.Function <==> tok.text in FunctionNames
    ensures t.kind == Kind.Variable <==> tok.text == "x"
    ensures t.kind in {Kind.Function, Kind.Variable, Kind.Invalid}
  {
    if ResolveMathFnName(tok.text).Some? then Token.Function(tok.text)
    else if tok.text == "x" then Token.Variable(tok.text)
    else Token.Invalid(tok.text)
  }

  /**
   * `HandleIdent_`: a function name goes on the stack as a Function; `x` and
   * any other name go to the output as a Variable or an Invalid token.
   */
  function PushIdent(st: ParseState, tok: Token): (r: ParseState)
    ensures IdentImage(tok).kind == Kind.Function ==> r.ca == st.ca && r.tx == st.tx + [IdentImage(tok)]
    ensures IdentImage(tok).kind != Kind.Function ==> r.tx == st.tx && r.ca == st.ca + [IdentImage(tok)]
  {
    var t := IdentImage(tok);
    if t.kind == Kind.Function then ParseState(st.ca, st.tx + [t]) else ParseState(st.ca + [t], st.tx)
  }

  /** The tokens `Parse_` accepts; any other token is an error. */
  predicate Dispatchable(t: Token)
  {
    t.IsNumber() || t.IsIdent() || t.IsOpenBrace() || t.IsCloseBrace() || t.IsOperator()
    || t == Token.Whitespace()
  }

  /** One iteration of `Parse_`'s loop. */
  function Dispatch(st: ParseState, t: Token): (r: Result<ParseState, CalcError>)
    ensures r.Failure? <==> !Dispatchable(t)
    ensures r.Failure? ==> r.error == InvalidToken(t)
  {
    if t.IsNumber() then Success(ParseState(st.ca + [t], st.tx))
    else if t.IsIdent() then Success(PushIdent(st, t))
    else if t.IsOpenBrace() then Success(ParseState(st.ca, st.tx + [t]))
    else if t.IsCloseBrace() then Success(CloseBrace(st))
    else if t.IsOperator() then Success(PushOperator(st, t))
    else if t == Token.Whitespace() then Success(st)
    else Failure(InvalidToken(t))
  }

  /** The state `Parse_`'s loop reaches, and the error it stops on, if any. */
  datatype Shunted = Shunted(state: ParseState, error: Option<CalcError>)

  /** `Parse_`'s loop over the tokens; it stops at the first token it cannot dispatch. */
  function Shunt(st: ParseState, toks: seq<Token>): (r: Shunted)
    ensures r.error.Some? ==> r.error.value.InvalidToken? && r.error.value.tok in toks && !Dispatchable(r.error.value.tok)
    decreases |toks|
  {
    if toks == [] then Shunted(st, None)
    else
      match Dispatch(st, toks[0])
      case Failure(e) => Shunted(st, Some(e))
      case Success(next) => Shunt(next, toks[1..])
  }

  /** The loop runs to the end exactly when every token is one the parser accepts. */
  lemma {:induction false} ShuntSucceedsIff(st: ParseState, toks: seq<Token>)
    ensures Shunt(st, toks).error.None? <==> forall k :: 0 <= k < |toks| ==> Dispatchable(toks[k])
    decreases |toks|
  {
    if toks != [] && Dispatch(st, toks[0]).Success? {
      ShuntSucceedsIff(Dispatch(st, toks[0]).value, toks[1..]);
      assert forall k :: 1 <= k < |toks| ==> toks[k] == toks[1..][k - 1];
    }
  }

  /** `Shunt` from position `i` takes one dispatch step and goes on from `i + 1`. */
  lemma ShuntStep(st: ParseState, toks: seq<Token>, i: nat)
    requires i < |toks|
    ensures var d := Dispatch(st, toks[i]);
      Shunt(st, toks[i..]) == if d.Failure? then Shunted(st, Some(d.error)) else Shunt(d.value, toks[i + 1..])
  {
    assert toks[i..][0] == toks[i] && toks[i..][1..] == toks[i + 1..];
  }

  /** The position of the first token the parser does not accept, or the length when there is none. */
  function FirstRejected(toks: seq<Token>): (k: nat)
    ensures k <= |toks|
    ensures forall j :: 0 <= j < k ==> Dispatchable(toks[j])
    ensures k < |toks| ==> !Dispatchable(toks[k])
  {
    if toks == [] || !Dispatchable(toks[0]) then 0
    else 1 + FirstRejected(toks[1..])
  }

  /** A failed parse reports the first token it could not dispatch, and only a rejected token fails it. */
  lemma {:induction false} ShuntFailsAtFirst(st: ParseState, toks: seq<Token>)
    ensures var k := FirstRejected(toks);
      Shunt(st, toks).error == if k < |toks| then Some(InvalidToken(toks[k])) else None
    decreases |toks|
  {
    if toks != [] {
      var d := Dispatch(st, toks[0]);
      if d.Success? {
        assert Shunt(st, toks) == Shunt(d.value, toks[1..]);
        ShuntFailsAtFirst(d.value, toks[1..]);
        assert FirstRejected(toks) == 1 + FirstRejected(toks[1..]);
      }
    }
  }

  /** The end of `Parse_`: the rest of the stack goes to the output in pop order. */
  function Drain(st: ParseState): (r: ParseState)
    ensures r.tx == [] && r.ca == st.ca + Reversed(st.tx)
    ensures multiset(r.ca) == multiset(st.ca) + multiset(st.tx)
  {
    ReversedPermutes(st.tx);
    ParseState(st.ca + Reversed(st.tx), [])
  }

  /** Moving the stack top to the output is one step of `Drain`. */
  lemma DrainStep(st: ParseState)
    requires st.tx != []
    ensures Drain(ParseState(st.ca + [Top(st.tx)], st.tx[..|st.tx| - 1])) == Drain(st)
  {
    var below, top := st.tx[..|st.tx| - 1], Top(st.tx);
    assert st.tx == below + [top];
    ReversedSnoc(below, top);
    assert st.ca + [top] + Reversed(below) == st.ca + ([top] + Reversed(below));
  }

  /** Lexing and parsing a whole expression from empty vectors: its postfix form, or the parse error. */
  function Compile(expr: string): (r: Result<seq<Token>, CalcError>)
    ensures r.Failure? <==> exists k :: 0 <= k < |Lex(expr)| && Lex(expr)[k].kind == Kind.Invalid
    ensures r.Failure? ==> r.error.InvalidToken? && r.error.tok.kind == Kind.Invalid && r.error.tok in Lex(expr)
    ensures r.Failure? ==> var k := FirstRejected(Lex(expr)); k < |Lex(expr)| && r.error.tok == Lex(expr)[k]
  {
    var toks := Lex(expr);
    forall k | 0 <= k < |toks| ensures Dispatchable(toks[k]) <==> toks[k].kind != Kind.Invalid {
      LexerTokenDispatch(toks[k]);
    }
    var s := Shunt(ParseState([], []), toks);
    ShuntSucceedsIff(ParseState([], []), toks);
    if s.error.Some? then
      ShuntFailsAtFirst(ParseState([], []), toks);
      Failure(s.error.value)
    else Success(Drain(s.state).ca)
  }

  /** `Parse_` on a fresh expression: the loop over the lexer's tokens, then the final drain. */
  lemma CompileUnfolded(expr: string)
    ensures var s := Shunt(ParseState([], []), Lex(expr));
      Compile(expr) == if s.error.Some? then Failure(s.error.value) else Success(Drain(s.state).ca)
  {
  }

  /** The parser accepts every token the lexer makes except an Invalid one. */
  lemma LexerTokenDispatch(t: Token)
    requires LexerToken(t)
    ensures Dispatchable(t) <==> t.kind != Kind.Invalid
  {
  }

  /** The tokens a dispatched token contributes to the two vectors. */
  function Image(t: Token): (r: seq<Token>)
    ensures forall u :: u in r ==> u.kind != Kind.CloseBrace
    ensures forall u :: u in r && u.kind == Kind.Function ==> u.text in FunctionNames
  {
    if t.IsNumber() || t.IsOpenBrace() || t.IsOperator() then [t]
    else if t.IsIdent() then [IdentImage(t)]
    else []
  }

  function Images(toks: seq<Token>): (r: seq<Token>)
    ensures forall u :: u in r ==> u.kind != Kind.CloseBrace
    ensures forall u :: u in r && u.kind == Kind.Function ==> u.text in FunctionNames
  {
    if toks == [] then [] else Image(toks[0]) + Images(toks[1..])
  }

  /** All tokens held in the two vectors. */
  ghost function Pool(st: ParseState): multiset<Token>
  {
    multiset(st.ca) + multiset(st.tx)
  }

  /** The open brace a token takes off the stack for good: only a `)` that finds one does. */
  function Matched(st: ParseState, t: Token): multiset<Token>
  {
    if t.IsCloseBrace() && Token.OpenBrace() in st.tx then multiset{Token.OpenBrace()} else multiset{}
  }

  /** Adding one token to either vector adds it to the pool. */
  lemma AddConserves(st: ParseState, r: ParseState, t: Token)
    requires r == ParseState(st.ca + [t], st.tx) || r == ParseState(st.ca, st.tx + [t])
    ensures Pool(r) == Pool(st) + multiset{t}
  {
  }

  /** One dispatch adds the token's image to the vectors and loses only a matched open brace. */
  lemma DispatchConserves(st: ParseState, t: Token)
    requires Dispatch(st, t).Success?
    ensures Pool(Dispatch(st, t).value) + Matched(st, t) == Pool(st) + multiset(Image(t))
  {
    var r := Dispatch(st, t).value;
    if t.IsCloseBrace() {
      assert r == CloseBrace(st);
      CloseBraceConserves(st);
    } else {
      assert Matched(st, t) == multiset{};
      if t.IsNumber() {
        assert r == ParseState(st.ca + [t], st.tx) && Image(t) == [t];
        AddConserves(st, r, t);
      } else if t.IsIdent() {
        assert r == PushIdent(st, t) && Image(t) == [IdentImage(t)];
        AddConserves(st, r, IdentImage(t));
      } else if t.IsOpenBrace() {
        assert r == ParseState(st.ca, st.tx + [t]) && Image(t) == [t];
        AddConserves(st, r, t);
      } else if t.IsOperator() {
        assert r == PushOperator(st, t) && Image(t) == [t];
        PushOperatorConserves(st, t);
      } else {
        assert r == st && Image(t) == [];
      }
    }
  }

  /** The open braces matched along `Parse_`'s loop. */
  ghost function ShuntMatched(st: ParseState, toks: seq<Token>): (m: multiset<Token>)
    ensures forall u :: u in m ==> u == Token.OpenBrace()
    decreases |toks|
  {
    if toks == [] then multiset{}
    else
      match Dispatch(st, toks[0])
      case Failure(_) => multiset{}
      case Success(next) => Matched(st, toks[0]) + ShuntMatched(next, toks[1..])
  }

  /** Chaining two conservation equations. */
  lemma SumStep(a: multiset<Token>, b: multiset<Token>, c: multiset<Token>, d: multiset<Token>,
                e: multiset<Token>, f: multiset<Token>, g: multiset<Token>)
    requires a + b == c + d
    requires c + e == f + g
    ensures a + (e + b) == f + (g + d)
  {
    assert forall u :: (a + (e + b))[u] == (f + (g + d))[u] by {
      forall u ensures (a + (e + b))[u] == (f + (g + d))[u] {
        assert (a + b)[u] == (c + d)[u];
        assert (c + e)[u] == (f + g)[u];
      }
    }
  }

  /**
   * Every token that `Parse_`'s loop handles ends up, once, in the output or
   * on the stack, except the open braces matched by a close brace.
   */
  lemma {:induction false} ShuntConserves(st: ParseState, toks: seq<Token>)
    requires Shunt(st, toks).error.None?
    ensures Pool(Shunt(st, toks).state) + ShuntMatched(st, toks) == Pool(st) + multiset(Images(toks))
    decreases |toks|
  {
    if toks != [] {
      var t, rest := toks[0], toks[1..];
      assert Dispatchable(t);
      var next := Dispatch(st, t).value;
      var final := Shunt(next, rest).state;
      assert Shunt(st, toks).state == final;
      assert ShuntMatched(st, toks) == Matched(st, t) + ShuntMatched(next, rest);
      assert multiset(Images(toks)) == multiset(Image(t)) + multiset(Images(rest)) by {
        assert Images(toks) == Image(t) + Images(rest);
      }
      DispatchConserves(st, t);
      ShuntConserves(next, rest);
      SumStep(Pool(final), ShuntMatched(next, rest), Pool(next), multiset(Images(rest)),
              Matched(st, t), Pool(st), multiset(Image(t)));
    }
  }

  /**
   * What `Parse_` leaves in the output after a successful loop and the final
   * drain holds exactly the images of the tokens read, each once, except open
   * braces: those matched by a `)` are gone, unmatched ones remain. So it
   * holds no `)`, and every Function in it names a known function.
   */
  lemma {:induction false} PostfixConserves(toks: seq<Token>)
    requires Shunt(ParseState([], []), toks).error.None?
    ensures var p := Drain(Shunt(ParseState([], []), toks).state).ca;
      && (forall u :: u != Token.OpenBrace() ==> multiset(p)[u] == multiset(Images(toks))[u])
      && multiset(p)[Token.OpenBrace()] <= multiset(Images(toks))[Token.OpenBrace()]
      && (forall u :: u in p ==> u.kind != Kind.CloseBrace)
      && (forall u :: u in p && u.kind == Kind.Function ==> u.text in FunctionNames)
  {
    var st0 := ParseState([], []);
    ShuntConserves(st0, toks);
    var p := Drain(Shunt(st0, toks).state).ca;
    var m := ShuntMatched(st0, toks);
    assert multiset(p) + m == multiset(Images(toks));
    forall u | u != Token.OpenBrace() ensures multiset(p)[u] == multiset(Images(toks))[u] {
      assert u !in m;
    }
    forall u | u in p
      ensures u.kind != Kind.CloseBrace
      ensures u.kind == Kind.Function ==> u.text in FunctionNames
    {
      if u != Token.OpenBrace() {
        assert multiset(p)[u] > 0;
        assert multiset(Images(toks))[u] > 0;
      }
    }
  }

  /** `PostfixConserves` for the tokens of a whole expression. */
  lemma CompileConserves(expr: string)
    requires Compile(expr).Success?
    ensures var p := Compile(expr).value;
      && (forall u :: u != Token.OpenBrace() ==> multiset(p)[u] == multiset(Images(Lex(expr)))[u])
      && multiset(p)[Token.OpenBrace()] <= multiset(Images(Lex(expr)))[Token.OpenBrace()]
      && (forall u :: u in p ==> u.kind != Kind.CloseBrace)
      && (forall u :: u in p && u.kind == Kind.Function ==> u.text in FunctionNames)
  {
    var toks := Lex(expr);
    assert Compile(expr).value == Drain(Shunt(ParseState([], []), toks).state).ca;
    PostfixConserves(toks);
  }
}
