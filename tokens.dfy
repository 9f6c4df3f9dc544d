/**
 * The lexical unit of the expression engine (class `Token` in model.h):
 * a kind plus a piece of text. The C++ token holds a non-owning view into
 * the expression; here it owns a copy of those characters.
 */
module Tokens {

  /** The token kinds, in the declaration order that the parser uses as precedence. */
  datatype Kind =
    | StartStream | EndStream | Invalid | Whitespace | Number | Variable
    | OpenBrace | CloseBrace | PlusOp | MinusOp | MulOp | DivOp | ModOp
    | ExpOp | Negate | Function | Ident

  /**
   * The underlying value of each enumerator: `StartStream = -3` and every
   * following enumerator one more than the one before it. Comparing two kinds
   * with `>=` in C++ compares these numbers.
   */
  function Ordinal(k: Kind): (r: int)
    ensures -3 <= r <= 13
    ensures k == Kind.StartStream <==> r == -3
    ensures k == Kind.Ident <==> r == 13
  {
    match k
    case StartStream => -3
    case EndStream => -2
    case Invalid => -1
    case Whitespace => 0
    case Number => 1
    case Variable => 2
    case OpenBrace => 3
    case CloseBrace => 4
    case PlusOp => 5
    case MinusOp => 6
    case MulOp => 7
    case DivOp => 8
    case ModOp => 9
    case ExpOp => 10
    case Negate => 11
    case Function => 12
    case Ident => 13
  }

  /** Distinct kinds have distinct ordinals, so `>=` on kinds is a total order. */
  lemma OrdinalInjective(a: Kind, b: Kind)
    ensures Ordinal(a) == Ordinal(b) <==> a == b
  {
  }

  /**
   * The precedence facts the parser relies on: Negate and Function outrank
   * every binary operator, Function outranks Negate, and no operator ranks
   * at or below OpenBrace, so an operator never pops an open brace.
   */
  lemma PrecedenceOrder(op: Kind)
    requires op in {Kind.PlusOp, Kind.MinusOp, Kind.MulOp, Kind.DivOp, Kind.ModOp, Kind.ExpOp}
    ensures Ordinal(Kind.Negate) > Ordinal(op)
    ensures Ordinal(Kind.Function) > Ordinal(Kind.Negate)
    ensures Ordinal(Kind.OpenBrace) < Ordinal(op)
    ensures Ordinal(Kind.OpenBrace) < Ordinal(Kind.Negate)
  {
  }

  datatype Token = Token(kind: Kind, text: string)
  {
    /** `Token() = default`: kind Invalid and no text. */
    static function Default(): (t: Token)
      ensures t.kind == Kind.Invalid && t.text == ""
    {
      Token(Kind.Invalid, "")
    }

    /** `Token(Kind)`: a token that carries no text. */
    static function OfKind(k: Kind): (t: Token)
      ensures t.kind == k && |t.text| == 0
    {
      Token(k, "")
    }

    // The text-carrying factories. `Invalid()` with no argument is the default token.
    static function Invalid(text: string := ""): (t: Token)
      ensures t.kind == Kind.Invalid && t.text == text
    {
      Token(Kind.Invalid, text)
    }

    static function Number(text: string): (t: Token)
      ensures t.kind == Kind.Number && t.text == text
    {
      Token(Kind.Number, text)
    }

    static function Variable(text: string): (t: Token)
      ensures t.kind == Kind.Variable && t.text == text
    {
      Token(Kind.Variable, text)
    }

    static function Function(text: string): (t: Token)
      ensures t.kind == Kind.Function && t.text == text
    {
      Token(Kind.Function, text)
    }

    static function Ident(text: string): (t: Token)
      ensures t.kind == Kind.Ident && t.text == text
    {
      Token(Kind.Ident, text)
    }

    // The kind-only factories.
    static function StartStream(): Token { OfKind(Kind.StartStream) }
    static function EndStream(): Token { OfKind(Kind.EndStream) }
    static function Whitespace(): Token { OfKind(Kind.Whitespace) }
    static function OpenBrace(): Token { OfKind(Kind.OpenBrace) }
    static function CloseBrace(): Token { OfKind(Kind.CloseBrace) }
    static function PlusOp(): Token { OfKind(Kind.PlusOp) }
    static function MinusOp(): Token { OfKind(Kind.MinusOp) }
    static function MulOp(): Token { OfKind(Kind.MulOp) }
    static function DivOp(): Token { OfKind(Kind.DivOp) }
    static function ModOp(): Token { OfKind(Kind.ModOp) }
    static function ExpOp(): Token { OfKind(Kind.ExpOp) }
    static function Negate(): Token { OfKind(Kind.Negate) }

    /** `operator==`: kind and text both agree. */
    function Equals(rhs: Token): (r: bool)
      ensures r <==> this == rhs
    {
      kind == rhs.kind && text == rhs.text
    }

    /** `operator!=`, written out as the source writes it. */
    function NotEquals(rhs: Token): (r: bool)
      ensures r <==> !Equals(rhs)
    {
      kind != rhs.kind || text != rhs.text
    }

    /** The seven operator kinds are exactly the ordinal range PlusOp..Negate. */
    predicate IsOperator()
      ensures IsOperator() <==> Ordinal(Kind.PlusOp) <= Ordinal(kind) <= Ordinal(Kind.Negate)
    {
      kind == Kind.Negate || kind == Kind.PlusOp || kind == Kind.MinusOp
      || kind == Kind.MulOp || kind == Kind.DivOp || kind == Kind.ModOp
      || kind == Kind.ExpOp
    }

    predicate IsIdent() { kind == Kind.Ident }
    predicate IsNumber() { kind == Kind.Number }
    predicate IsOpenBrace() { kind == Kind.OpenBrace }
    predicate IsCloseBrace() { kind == Kind.CloseBrace }
  }

  /** Each kind test holds exactly for the tokens its factory can build. */
  lemma KindTests(t: Token)
    ensures t.IsIdent() <==> t == Token.Ident(t.text)
    ensures t.IsNumber() <==> t == Token.Number(t.text)
    ensures t.IsOpenBrace() <==> Token.OfKind(t.kind) == Token.OpenBrace()
    ensures t.IsCloseBrace() <==> Token.OfKind(t.kind) == Token.CloseBrace()
  {
  }

  /**
   * Tokens built by a kind-only factory carry no text, so two of them are
   * equal exactly when their kinds are, wherever they were produced; and the
   * argument-less `Invalid()` is the default token.
   */
  lemma KindOnlyTokensCompareByKind(a: Kind, b: Kind)
    ensures Token.OfKind(a) == Token.OfKind(b) <==> a == b
    ensures Token.Invalid() == Token.Default() == Token.OfKind(Kind.Invalid)
    ensures Token.Invalid() != Token.Invalid(".")
  {
  }

  /** The text-carrying factories store their text unchanged, so equal tokens came from equal texts. */
  lemma FactoriesKeepText(s1: string, s2: string)
    ensures Token.Number(s1) == Token.Number(s2) <==> s1 == s2
    ensures Token.Ident(s1) == Token.Ident(s2) <==> s1 == s2
    ensures Token.Function(s1).text == Token.Variable(s1).text == Token.Invalid(s1).text == s1
  {
  }
}
