/** Tokens as the lexer produces them and the parser rewrites them. */
module Tokens {
  import opened Base

  /** The token types of the lexer's pattern table (simulator.js:429-480). */
  datatype Kind =
    | LABEL | LO8 | HI8 | REG | INT | INST | STR | DIR
    | WORDPLUSQ | XPLUSQ | WORDPLUS | MINUSWORD | WORD
    | COMMA | LPAR | RPAR | PLUS | MINUS | TIMES | DIV
    | LOGAND | BITAND | LOGOR | BITOR | BITXOR | BITNOT | NEQ | LOGNOT
    | GEQ | LEQ | DEQ | RSHIFT | LSHIFT | GT | LT | EQ | SYMBOL | REF

  /** A token's value: a JavaScript string or number; `VUndef` is the `undefined` a missing
      label or argument leaves behind, `VNaN` the `NaN` of a failed `parseInt` or of an
      expression with no finite value. */
  datatype Value = VInt(n: int) | VStr(s: string) | VUndef | VNaN

  datatype Token = Token(kind: Kind, value: Value)

  /** The spelling of a token type, which the operand validator compares as a string. */
  function KindName(k: Kind): string {
    match k
    case LABEL => "LABEL" case LO8 => "LO8" case HI8 => "HI8" case REG => "REG"
    case INT => "INT" case INST => "INST" case STR => "STR" case DIR => "DIR"
    case WORDPLUSQ => "WORDPLUSQ" case XPLUSQ => "XPLUSQ" case WORDPLUS => "WORDPLUS"
    case MINUSWORD => "MINUSWORD" case WORD => "WORD" case COMMA => "COMMA"
    case LPAR => "LPAR" case RPAR => "RPAR" case PLUS => "PLUS" case MINUS => "MINUS"
    case TIMES => "TIMES" case DIV => "DIV" case LOGAND => "LOGAND" case BITAND => "BITAND"
    case LOGOR => "LOGOR" case BITOR => "BITOR" case BITXOR => "BITXOR"
    case BITNOT => "BITNOT" case NEQ => "NEQ" case LOGNOT => "LOGNOT" case GEQ => "GEQ"
    case LEQ => "LEQ" case DEQ => "DEQ" case RSHIFT => "RSHIFT" case LSHIFT => "LSHIFT"
    case GT => "GT" case LT => "LT" case EQ => "EQ" case SYMBOL => "SYMBOL" case REF => "REF"
  }

  /** Membership in `MATH[1..]`: the operator and bracket kinds of an expression. */
  predicate IsMathOp(k: Kind) {
    k in {PLUS, MINUS, TIMES, DIV, BITAND, BITOR, BITXOR, BITNOT, LSHIFT, RSHIFT,
          LT, GT, DEQ, LEQ, GEQ, NEQ, LOGAND, LOGOR, LOGNOT, LPAR, RPAR}
  }

  /** Membership in `MATH`: the kinds an expression is made of. */
  predicate IsMath(k: Kind) { k == INT || IsMathOp(k) }

  /** The string JavaScript's `+` makes of a value when it concatenates it. */
  function ValueText(v: Value): string {
    match v
    case VInt(n) => IntToString(n)
    case VStr(s) => s
    case VUndef => "undefined"
    case VNaN => "NaN"
  }
}
