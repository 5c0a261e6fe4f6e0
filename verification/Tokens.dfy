// Tokens and the operator table.

module Tokens {

  datatype OpKind =
    | PlusAssign | MinusAssign | MulAssign | DivAssign | AndAssign | OrAssign | ShlAssign | ShrAssign
    | OrOr | AndAnd | DotDot | Pipe | Caret | Ampersand | EqEq | NotEq
    | Greater | GreaterEq | Less | LessEq | ShiftLeft | ShiftRight
    | Plus | Minus | Star | Slash | Percent | ArrowRight
    | Exclamation | AtSign

  // Operand stands for everything parsed as one operand; Other for any token that
  // starts no operand and is no operator.
  datatype Token = Op(kind: OpKind) | Operand(id: nat) | Newline | Eof | Other(code: nat)

  datatype Properties = Properties(binary: bool, unary: bool, rightAssoc: bool, precedence: nat)

  // An unknown token has no flags and precedence 0.
  function PropertiesOf(t: Token): Properties {
    match t
    case Op(k) => TableEntry(k)
    case _ => Properties(false, false, false, 0)
  }

  function TableEntry(k: OpKind): Properties {
    match k
    case Exclamation | AtSign => Properties(false, true, false, 0)
    case PlusAssign | MinusAssign | MulAssign | DivAssign => Properties(true, false, false, 400)
    case AndAssign | OrAssign | ShlAssign | ShrAssign => Properties(true, false, false, 400)
    case OrOr => Properties(true, false, false, 490)
    case AndAnd => Properties(true, false, false, 500)
    case DotDot => Properties(true, false, false, 550)
    case Pipe => Properties(true, false, false, 580)
    case Caret => Properties(true, false, false, 590)
    case Ampersand => Properties(true, true, false, 600)
    case EqEq | NotEq => Properties(true, false, false, 700)
    case Greater | GreaterEq | Less | LessEq => Properties(true, false, false, 800)
    case ShiftLeft | ShiftRight => Properties(true, false, false, 900)
    case Plus => Properties(true, false, false, 1000)
    case Minus => Properties(true, true, false, 1000)
    case Star | Slash | Percent => Properties(true, false, false, 1100)
    case ArrowRight => Properties(true, false, false, 1200)
  }

  predicate IsBinaryOp(t: Token) {
    PropertiesOf(t).binary
  }

  predicate IsUnaryOp(t: Token) {
    PropertiesOf(t).unary
  }

  predicate IsRightAssoc(t: Token) {
    PropertiesOf(t).rightAssoc
  }

  function Precedence(t: Token): nat {
    PropertiesOf(t).precedence
  }

  function PrecedenceCmp(a: Token, b: Token): int {
    Precedence(a) - Precedence(b)
  }
}
