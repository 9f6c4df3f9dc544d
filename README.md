# SmartCalc expression engine in Dafny

This project models the expression engine of SmartCalc v2 (`src/model/model.h`
and `src/model/model.cc`) and proves its behaviour. The engine has three parts:

- **Token** (module `Tokens`). A token is a kind plus the text it was read from.
  The order in which the kinds are declared is also the parser's precedence
  table.
- **Lexer** (module `Lexing`). It walks the expression and returns one token per
  `Next` call. It remembers the previous token, and that token decides how
  `+`, `-`, `* / % ^` and `)` are read. The class `Lexing.Lexer` keeps the
  scanning loops of the C++. Each of its methods is proved against a pure
  function (`Step`, `Tokenize`) that says what one call returns from a given
  position and previous token.
- **SmartCalc** (modules `Postfix`, `Evaluation`, `Engine`). This is a
  shunting-yard variant. It turns the tokens into postfix order using the
  output vector `ca` and the operator stack `tx`, then evaluates the postfix
  sequence on an operand stack. `Postfix` and `Evaluation` describe each step
  as a function and prove the properties. The class `Engine.SmartCalc` pushes
  and pops its two vectors in place, as the C++ does. Each method is proved
  equal to the matching function, so those properties carry over to it.

Arithmetic is symbolic. A value is the expression tree the evaluator would
compute:

- `Lit(text)` for a number literal;
- `Bin(op, lhs, rhs)` for a binary operation;
- `Neg(v)` for a negation;
- `Call(fn, v)` for a math function.

The proofs are therefore about token flow and stack discipline: which operands
meet which operator. The three failures of `Evaluate` form the datatype
`CalcError`:

- `InvalidToken(tok)`;
- `InvalidFunctionName(name)`;
- `StackUnderflow`.

The model keeps the code's own behaviour, not textbook shunting-yard:

- `HandleOperator_` pops at most one token. After popping a Function, it also
  pops a Negate that sits under it.
- An unmatched `)` is ignored.
- An unmatched `(` is drained into the postfix output and fails at evaluation.
- `ln` names log10 and `log` names the natural logarithm.
- When several values are left, the top one is returned.

`Scenarios.MixedPrecedenceGroupsRight` and `Expressions.MixedEvaluates` show
where the single pop leads: "1-2*3-4" evaluates as 1 - ((2 * 3) - 4).
The module `Expressions` traces whole strings from the characters to the
value: "1+1", "-1+1", "1+-1", "+x" and "1-2*3-4".
`Scenarios.DoubleNegateUnderflows` shows that "--1" parses but fails to
evaluate, with a stack underflow.

## Model

| member | source | states |
|---|---|---|
| Tokens.Ordinal | src/model/model.h:18-36 | The enumerator values run from -3 (StartStream) to 13 (Ident). StartStream is the only -3 and Ident the only 13. |
| Tokens.OrdinalInjective | src/model/model.h:18-36 | Two kinds have the same value iff they are the same kind, so comparing kinds is a total order. |
| Tokens.PrecedenceOrder | src/model/model.cc:327 | In the comparison `HandleOperator_` makes, Negate and Function outrank every binary operator and Function outranks Negate. OpenBrace ranks below every operator, so an operator never pops it. |
| Tokens.Token.Default | src/model/model.h:39 | The default token has kind Invalid and empty text. |
| Tokens.Token.OfKind | src/model/model.h:40 | The kind-only constructor gives the kind and empty text. |
| Tokens.Token.Equals | src/model/model.h:51-53 | `==` holds iff kind and text both agree, that is, iff the tokens are the same value. |
| Tokens.Token.NotEquals | src/model/model.h:55-57 | `!=` as written (kinds differ or texts differ) is the exact negation of `==`. |
| Tokens.Token.IsOperator | src/model/model.cc:77-81 | It holds for exactly the seven kinds PlusOp, MinusOp, MulOp, DivOp, ModOp, ExpOp and Negate, which are the contiguous range PlusOp..Negate. |
| Tokens.KindOnlyTokensCompareByKind | src/model/model.h:81-92 | Two kind-only tokens are equal iff their kinds are. `Invalid()` is the default token, and it differs from `Invalid(".")`. |
| Tokens.FactoriesKeepText | src/model/model.h:62-79 | The text factories store their text unchanged, so `Number(a) == Number(b)` iff a == b, and the same holds for Ident. |
| Tokens.Token.Invalid | src/model/model.h:62-64 | Builds a token of kind Invalid holding the given text. With no argument, it is the default token (model.h:82). |
| Tokens.Token.Number | src/model/model.h:66-68 | Builds a token of kind Number holding the given text. |
| Tokens.Token.Variable | src/model/model.h:70-72 | Builds a token of kind Variable holding the given text. |
| Tokens.Token.Function | src/model/model.h:74-76 | Builds a token of kind Function holding the given text. |
| Tokens.Token.Ident | src/model/model.h:77-79 | Builds a token of kind Ident holding the given text. |
| Tokens.KindTests | src/model/model.h:101-105 | `IsIdent` and `IsNumber` hold exactly for the tokens the Ident and Number factories can build. `IsOpenBrace` and `IsCloseBrace` hold exactly for the kinds of the OpenBrace and CloseBrace factories, whatever the text. |
| Lexing.CharacterClasses | src/model/model.cc:15-18 | `isop` accepts exactly the eight characters `+ - * / % ^ ( )`. The space, digit and number-character tests accept exactly the C-locale spaces (blank, \t, \n, \v, \f, \r), the ten digits, and the characters `strchr` finds in "1234567890.", including its NUL terminator. |
| Lexing.SkipSpaces | src/model/model.cc:105 | Gives the first position at or after i that is not a space, or the end. Everything skipped is a space. |
| Lexing.NumberEnd | src/model/model.cc:129-139 | The scan covers only number characters and holds at most one '.'. It stops at the end, at a non-number character, or in front of a second '.'. |
| Lexing.IdentEnd | src/model/model.cc:182-188 | The scan stops after the maximal alphanumeric run. |
| Lexing.OperatorToken | src/model/model.cc:141-180 | `Operator_`: the token for an operator character, decided by the previous token. What it returns for each character and previous token is stated by `SignRules`, `OperatorsAtStart` and `OperatorsAfterStart`, and `OperatorTokenKinds` bounds its kinds. |
| Lexing.OperatorTokenKinds | src/model/model.cc:141-180 | For an operator character, `Operator_` returns one of the lexer's tokens, and never an Ident or a Number. |
| Lexing.Step | src/model/model.cc:102-120 | One `Next` returns EndStream iff only spaces remain, and then it stops at the end. Any other token consumes at least one character and is one of the lexer's tokens. |
| Lexing.Tokenize | src/model/model.cc:122-127 | The tokens collected from position i never include EndStream, and each is a lexer token. There are at most as many of them as characters from i on. |
| Lexing.Lex | src/model/model.cc:276-278 | The tokens `Parse_` gets from a fresh lexer: never EndStream, each a lexer token, and no more of them than the expression has characters. |
| Lexing.EndStreamIsSticky | src/model/model.cc:105-106 | Once only spaces remain, `Next` keeps returning EndStream, without moving and without changing `prev_`. |
| Lexing.SecondDotIsInvalid | src/model/model.cc:129-139 | When a number is followed by '.', the number already holds a '.', and the next `Next` returns that '.' alone as Invalid("."). |
| Lexing.OperatorsAtStart | src/model/model.cc:155-176 | Right after StartStream, each of `* / % ^ )` gives the default Invalid token, and `(` gives OpenBrace. |
| Lexing.OperatorsAfterStart | src/model/model.cc:155-176 | After any previous token other than StartStream, `* / % ^ )` give MulOp, DivOp, ModOp, ExpOp and CloseBrace, and `(` gives OpenBrace. |
| Lexing.SignRules | src/model/model.cc:143-154 | `+` after StartStream or an operator is Whitespace, and PlusOp otherwise. `-` after StartStream, an operator or an OpenBrace is Negate, and MinusOp otherwise. |
| Lexing.Lexer.constructor | src/model/model.h:117-118 | A new lexer starts at the first character, with StartStream as its previous token. |
| Lexing.Lexer.Digit | src/model/model.cc:129-139 | The position moves to `NumberEnd`, and the token is the Number of exactly the characters passed. |
| Lexing.Lexer.Ident | src/model/model.cc:182-188 | The position moves to `IdentEnd`, and the token is the Ident of the characters passed. |
| Lexing.Lexer.Operator | src/model/model.cc:141-180 | Consumes one character and returns `OperatorToken` of it and `prev`. |
| Lexing.Lexer.Next | src/model/model.cc:102-120 | The token and the new position are `Step` of the old state. `prev` becomes the token, except after EndStream. |
| Lexing.Lexer.Collect | src/model/model.cc:122-127 | Returns `Tokenize` of the starting state: every token before EndStream. It ends at the end of the input. |
| Postfix.ResolveMathFnName | src/model/model.cc:341-366 | A name resolves iff it is one of cos, sin, tan, acos, asin, atan, sqrt, ln or log, so never the empty name. `ln` resolves to log10 and `log` to the natural logarithm. |
| Postfix.ResolveIsInjective | src/model/model.cc:346-363 | Distinct names resolve to distinct functions. |
| Postfix.CloseBrace | src/model/model.cc:304-313 | With an OpenBrace on the stack, the stack keeps what lay below the topmost one, and the output gains what lay above it in pop order. Without one, the whole stack moves to the output in pop order, with no error. |
| Postfix.CloseBraceConserves | src/model/model.cc:304-313 | No token is lost except the one open brace discarded. |
| Postfix.PushOperator | src/model/model.cc:324-339 | The operator ends on top of the stack. A pop happens iff the stack is non-empty and its top's kind value is at least the operator's. Exactly two tokens are popped iff the popped top is a Function with a Negate under it; otherwise at most one is. The popped tokens go to the output in pop order. |
| Postfix.PushOperatorConserves | src/model/model.cc:324-339 | The vectors together hold the same tokens as before, plus the operator. |
| Postfix.IdentImage | src/model/model.cc:315-322 | An identifier becomes a Function iff its name resolves, a Variable iff it is "x", and an Invalid otherwise. The text is kept. |
| Postfix.PushIdent | src/model/model.cc:315-322 | A Function goes on the stack. A Variable or Invalid goes to the output. Nothing else changes. |
| Postfix.Dispatch | src/model/model.cc:278-295 | One loop iteration fails iff the token is not a Number, Ident, brace, operator or Whitespace. The error is InvalidToken of that token. |
| Postfix.Shunt | src/model/model.cc:278-296 | The loop over the tokens stops only on an error, and that error is InvalidToken of one of the tokens, which the parser does not accept. |
| Postfix.ShuntSucceedsIff | src/model/model.cc:278-296 | The loop reaches the end of the tokens iff every token is one it accepts. |
| Postfix.FirstRejected | src/model/model.cc:278-296 | The index of the first token the parse loop does not accept, or the length when there is none: every token before it is accepted. |
| Postfix.ShuntFailsAtFirst | src/model/model.cc:278-296 | The loop fails iff some token is one the parser does not accept, and its error is InvalidToken of the first such token (`FirstRejected`); every earlier token was accepted. |
| Postfix.Drain | src/model/model.cc:298-301 | The stack ends empty, and the output is extended by the stack's tokens in pop order, top first. As a multiset, the output grows by exactly the stack's tokens. |
| Postfix.Compile | src/model/model.cc:275-302 | Parsing a fresh expression fails iff the lexer produced an Invalid token. The error is InvalidToken of the first token the loop rejects (`FirstRejected`); that token is Invalid, and no earlier token is. |
| Postfix.LexerTokenDispatch | src/model/model.cc:279-295 | The parser accepts every token the lexer can produce except an Invalid one. |
| Postfix.DispatchConserves | src/model/model.cc:278-295 | One iteration adds the token's image (itself, or its resolved identifier, or nothing) to the two vectors. It loses only an open brace matched by `)`. |
| Postfix.ShuntConserves | src/model/model.cc:278-296 | Over the whole loop, every token handled is in the output or on the stack exactly once, except the matched open braces. |
| Postfix.PostfixConserves | src/model/model.cc:275-313 | The postfix output holds each token image exactly as often as the input produced it. The exception is open braces, which can only be fewer. The output holds no `)`, and each of its Functions names a known function. |
| Postfix.CompileConserves | src/model/model.cc:275-302 | The same as PostfixConserves, for the tokens the lexer makes of an expression. |
| Evaluation.BinaryOp | src/model/model.cc:206-228 | Exactly the six binary operator kinds have an operation. |
| Evaluation.ApplyOperator | src/model/model.cc:20-30 | Fewer than two values is StackUnderflow. Otherwise the stack shrinks by one and keeps everything under the two operands. Its new top is the operation applied to the value under the top and the top, in that order. |
| Evaluation.Execute | src/model/model.cc:196-264 | A token succeeds iff it is executable and the stack holds enough operands for it. On success, the stack below the operands is kept. A Number pushes the literal of its text and a Variable pushes `x`. A Negate replaces the top with its negation, and a Function replaces it with the resolved function applied to it. A binary operator replaces the two top values with the operation applied to the lower value and the top, in that order. An unresolvable function name is reported before any underflow. Any other non-value, non-operator token is InvalidToken. |
| Evaluation.TopOfStack | src/model/model.cc:267 | The result is the top of the final stack, even when values lie below it. An empty stack is StackUnderflow. |
| Evaluation.Run | src/model/model.cc:196-265 | `Evaluate`'s loop over the postfix tokens, stopping at the first failure. Each step is `Execute`, whose contract gives the result of every kind; `RunShape`, `RunAppend` and `RunKeepsBase` state what a whole run does. |
| Evaluation.RunShape | src/model/model.cc:196-265 | A run of the operand-stack loop that reaches the end has executed every token, and has grown the stack by the sequence's net effect: one result per token, less its operands. |
| Evaluation.Calculate | src/model/model.cc:190-268 | A parse error is returned before anything is evaluated. A value is returned only for an expression the lexer read without an Invalid token, and whose postfix form has a positive net stack effect. |
| Evaluation.RunAppend | src/model/model.cc:196-265 | Running two postfix sequences one after the other is the same as running their concatenation. |
| Evaluation.RunKeepsBase | src/model/model.cc:196-265 | A run that succeeds from a stack also succeeds on any values put under it, and leaves those values untouched. |
| Evaluation.ExecuteKeepsBase | src/model/model.cc:196-264 | A single token leaves the values under its operands untouched. |
| Evaluation.RunFailsOnUnexecutable | src/model/model.cc:259-263 | A postfix sequence that holds a token the evaluator cannot execute never runs to the end. |
| Evaluation.UnmatchedOpenBraceFails | src/model/model.cc:298-301 | An open brace left in the postfix output by the final drain makes evaluation fail. |
| Evaluation.RunNeverMisnames | src/model/model.cc:240-257 | If every Function names a known function, the run never fails with InvalidFunctionName. |
| Evaluation.CalculateNeverMisnames | src/model/model.cc:315-317 | The parser only stacks names that resolved, so evaluating an expression never fails with InvalidFunctionName. |
| Evaluation.ParseFailsOnlyOnLexerInvalid | src/model/model.cc:190-192 | When parsing fails, `Evaluate` fails with that error: InvalidToken of an Invalid token that the lexer produced. |
| Engine.ApplyOperatorOn | src/model/model.cc:20-30 | The imperative pop-pop-push gives the result `ApplyOperator` specifies. |
| Engine.SmartCalc.constructor | src/model/model.h:155-156 | Both vectors start empty. |
| Engine.SmartCalc.Clear | src/model/model.cc:270-273 | Both vectors become empty. |
| Engine.SmartCalc.HandleCloseBrace | src/model/model.cc:304-313 | The popping loop leaves the vectors as `CloseBrace` of their old state. |
| Engine.SmartCalc.HandleIdent | src/model/model.cc:315-322 | The new vectors are `PushIdent` of the old ones. |
| Engine.SmartCalc.HandleOperator | src/model/model.cc:324-339 | The new vectors are `PushOperator` of the old ones. The popped token's kind is read after the pop, as the C++ reads it. |
| Engine.SmartCalc.Feed | src/model/model.cc:279-295 | One iteration of the parse loop fails iff `Dispatch` does, with the same error and the vectors untouched. Otherwise the vectors become the dispatched state. |
| Engine.SmartCalc.DrainStack | src/model/model.cc:298-301 | The vectors become `Drain` of their old state. |
| Engine.SmartCalc.Parse | src/model/model.cc:275-302 | The error is the one `Shunt` meets over the lexer's tokens. On success the vectors are the drained final state. On failure they are the state at the failing token. |
| Engine.SmartCalc.RunOutput | src/model/model.cc:194-265 | The operand-stack loop over `ca` yields exactly `Run` of it from an empty stack. |
| Engine.SmartCalc.RunToTop | src/model/model.cc:194-267 | Running the loop over `ca` and taking the top of the stack gives `TopOfStack` of `Run(ca)`, or the run's error. The vectors are untouched. |
| Engine.SmartCalc.Evaluate | src/model/model.cc:190-268 | The result is `Calculate(expr, x)`, and the vectors are left as the parse of `expr` from empty vectors leaves them. |
| Scenarios.PopOneOperator | src/model/model.cc:325-336 | An operator over a stronger top that is not a Function pops exactly that one token and is pushed in its place. |
| Scenarios.SecondMinusPopsOnlyTheProduct | src/model/model.cc:324-339 | In "1-2*3-4", the second `-` over the stack `- *` pops only the `*`, which leaves two minus signs stacked. |
| Scenarios.NegatedCallPopsBoth | src/model/model.cc:329-335 | In "-cos(x)+1", the `+` over the stack `- cos` pops the Function and then the Negate under it, and is pushed alone. |
| Scenarios.ExecuteBinary | src/model/model.cc:20-30 | A binary operator replaces the two top values with their combination. |
| Scenarios.MixedPrecedenceGroupsRight | src/model/model.cc:196-229 | For any numbers a, b, c and d, the postfix `a b c * d - -` evaluates to a - ((b * c) - d). |
| Scenarios.MixedPostfixValue | src/model/model.cc:196-229 | The postfix `1 2 3 * 4 - -` evaluates to 1 - ((2 * 3) - 4). |
| Scenarios.DoubleNegateLexes | src/model/model.cc:141-154 | "--1" is read as Negate, Negate, Number("1"): a `-` after StartStream or after an operator is a negation. |
| Scenarios.DoubleNegateShunts | src/model/model.cc:324-339 | Over the stack `-`, the second Negate has the same precedence, so it pops the first to the output before being pushed. |
| Scenarios.DoubleNegateCompiles | src/model/model.cc:275-313 | The postfix form of "--1" is `- 1 -`, with the first negation before its operand. |
| Scenarios.DoubleNegateUnderflows | src/model/model.cc:190-268 | "--1" parses without error, yet `Evaluate` fails with StackUnderflow, because the first Negate finds the operand stack empty. |
| Expressions.OnePlusOneLexes | src/model/model.cc:102-180 | "1+1" is read as Number("1"), PlusOp, Number("1"): a `+` after a number is binary. |
| Expressions.OnePlusOneShunts | src/model/model.cc:278-339 | For any two numbers a and b, the parse loop over `a + b` sends both numbers to the output and stacks the `+`. |
| Expressions.OnePlusOneCompiles | src/model/model.cc:275-302 | The postfix form of "1+1" is `1 1 +`. |
| Expressions.OnePlusOneRuns | src/model/model.cc:196-265 | Running `1 1 +` leaves the single value 1 + 1. |
| Expressions.OnePlusOneEvaluates | src/tests/smartcalc.cc:15-18 | `Evaluate("1+1")` succeeds with 1 + 1. |
| Expressions.NegatedOnePlusOneLexes | src/model/model.cc:102-180 | "-1+1" is read as Negate, Number("1"), PlusOp, Number("1"): a `-` at the start is a negation. |
| Expressions.NegatedOnePlusOneShunts | src/model/model.cc:278-339 | For any two numbers a and b, over `- a + b` the `+` pops the negation, which binds tighter, to the output. |
| Expressions.NegatedOnePlusOneCompiles | src/model/model.cc:275-302 | The postfix form of "-1+1" is `1 - 1 +`, the `-` a negation. |
| Expressions.NegatedOnePlusOneRuns | src/model/model.cc:196-265 | Running that postfix form leaves the single value (-1) + 1. |
| Expressions.NegatedOnePlusOneEvaluates | src/tests/smartcalc.cc:20-23 | `Evaluate("-1+1")` succeeds with (-1) + 1: the leading `-` negates the first operand only. |
| Expressions.OnePlusNegatedOneLexes | src/model/model.cc:102-180 | "1+-1" is read as Number("1"), PlusOp, Negate, Number("1"): a `-` after an operator is a negation. |
| Expressions.OnePlusNegatedOneShunts | src/model/model.cc:278-339 | For any two numbers a and b, over `a + - b` the negation is stacked over the weaker `+`. |
| Expressions.OnePlusNegatedOneCompiles | src/model/model.cc:275-302 | The postfix form of "1+-1" is `1 1 - +`, the `-` a negation: the final drain pops it before the `+`. |
| Expressions.OnePlusNegatedOneRuns | src/model/model.cc:196-265 | Running that postfix form leaves the single value 1 + (-1). |
| Expressions.OnePlusNegatedOneEvaluates | src/tests/smartcalc.cc:25-28 | `Evaluate("1+-1")` succeeds with 1 + (-1). |
| Expressions.PlusXLexes | src/model/model.cc:102-188 | "+x" is read as Whitespace and Ident("x"): a `+` at the start is dropped. |
| Expressions.PlusXCompiles | src/model/model.cc:275-322 | The postfix form of "+x" is the single Variable "x": the Whitespace token changes nothing. |
| Expressions.PlusXRuns | src/model/model.cc:196-265 | Running the single Variable pushes the value of x. |
| Expressions.PlusXEvaluates | src/tests/smartcalc.cc:124-127 | `Evaluate("+x", x)` succeeds with the value of x. |
| Expressions.MixedTailLexes | src/model/model.cc:102-180 | After the `*` of "1-2*3-4", the rest is read as Number("3"), MinusOp, Number("4"). |
| Expressions.MixedMiddleLexes | src/model/model.cc:102-180 | From the `2` on, "1-2*3-4" is read as Number("2"), MulOp, Number("3"), MinusOp, Number("4"). |
| Expressions.MixedLexes | src/model/model.cc:102-180 | "1-2*3-4" is read as Number("1"), MinusOp, Number("2"), MulOp, Number("3"), MinusOp, Number("4"). |
| Expressions.MixedShuntsHead | src/model/model.cc:278-339 | For any numbers a and b, the first four tokens of `a - b * c - d` leave both numbers in the output and `- *` on the stack. |
| Expressions.MixedShuntsTail | src/model/model.cc:278-339 | From there, the second `-` pops only the `*`, and the loop ends with `a b c * d` in the output and two `-` on the stack. |
| Expressions.MixedCompiles | src/model/model.cc:275-302 | The postfix form of "1-2*3-4" is `1 2 3 * 4 - -`. |
| Expressions.MixedEvaluates | src/model/model.cc:190-268 | `Evaluate("1-2*3-4")` succeeds with 1 - ((2 * 3) - 4), not (1 - 2 * 3) - 4. |

## Left out

- Floating-point arithmetic is not modelled. This covers `std::atof` of a number's text, `+ - * /`, `fmod`, `pow`, and cos, sin, tan, acos, asin, atan, sqrt, log10 and log, with their NaN and infinity cases. Values are symbolic trees, and a number literal stands for its text.
- `CreditCalc`, `assertd` and `EPS` are not modelled, because they are floating-point loan formulas with a tolerance comparison.
- The message strings are not modelled: `Token::c_str`, `operator<<` for tokens, and the exception messages. The two exception types `std::logic_error` and `std::invalid_argument` are not kept apart. Errors are the datatype `CalcError`.
- Evaluating an expression that leaves the operand stack empty (for example "+" or "()") reads `stack.back()` of an empty vector. This is undefined behaviour in the C++; the model returns StackUnderflow.
- `HandleOperator_` reads the kind of `tx_back`, a reference to an element it has just popped. The model reads the popped token's kind.
- Tokens own their text. The lifetimes of the C++ `std::string_view` slices are not modelled.
- In the unreachable default branch of `Operator_`, the C++ builds an Invalid token from the rest of the C string. The model uses the rest of the expression.
- The input is a string of characters, not the bytes of a `std::string_view`. A character outside ASCII, such as 'é', is one Invalid token holding that character in the model. The C++ reads each of its UTF-8 bytes as a separate one-byte Invalid token, so the InvalidToken error of `Evaluate` carries a different text.
- `std::isspace`, `std::isdigit`, `std::isalpha` and `std::isalnum` are the ASCII classes of the C locale; other locales are not modelled. The model keeps the NUL character as a number character, as `strchr` finds it.
- The default constructor `Lexer()`, which has no expression to walk, is not modelled.
- The Qt user interface (`src/view`, `src/main.cc`) and the forwarding controller (`src/controller/controller.h`) are not modelled, because they do not take part in evaluation.
- Evaluation.Calculate: no lemma says that a well-formed expression evaluates without error, because that is false for the code. `Scenarios.DoubleNegateUnderflows` shows "--1": it lexes and parses without error, the second `-` pops the first (both are Negate, and `HandleOperator_` pops on `>=`), and the postfix `- 1 -` underflows at its first token.
