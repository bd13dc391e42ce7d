/** Token types, their printed names and their binding powers. */
module Tokens {

  datatype TokenType =
    | Illegal | Ident
    // literals
    | Int | Float | Hex | Octal | String
    // keywords
    | Break | Case | Const | Continue | Default | Defer | Else | Fallthrough | For | Func
    | Proc | If | Import | Return | Select | Struct | Switch | Type | Var
    // symbols
    | Semi | Colon | Define | DoubleColon | Ellipse | Period | Comma
    | LParen | RParen | LBrack | RBrack | LBrace | RBrace
    | Add | AddAssign | Inc | Arrow | Sub | SubAssign | Dec
    | Mul | MulAssign | Quo | QuoAssign | Rem | RemAssign | Xor | XorAssign
    | Lss | Leq | Shl | ShlAssign | Gtr | Geq | Shr | ShrAssign
    | Assign | Eql | Not | Neq | AndNot | AndNotAssign | And | AndAssign | Land
    | Or | OrAssign | Lor
    // end of file
    | End

  datatype Token = Token(ty: TokenType, value: string)

  /** The left binding power of a token. */
  function BindingPower(t: TokenType): int {
    match t
    case End => -10
    case Assign => 10
    case AddAssign => 10
    case SubAssign => 10
    case MulAssign => 10
    case RemAssign => 10
    case OrAssign => 10
    case ShrAssign => 10
    case Define => 10
    case Land => 20
    case Lor => 20
    case Eql => 30
    case Neq => 30
    case Lss => 30
    case Gtr => 30
    case Leq => 30
    case Geq => 30
    case Add => 40
    case Sub => 40
    case Mul => 50
    case Quo => 50
    case Rem => 50
    case Not => 60
    case Period => 70
    case LBrack => 70
    case LParen => 70
    case _ => 0
  }

  predicate IsLiteral(t: TokenType) {
    t.Int? || t.Float? || t.Hex? || t.Octal? || t.String?
  }

  predicate IsKeyword(t: TokenType) {
    || t.Break? || t.Case? || t.Const? || t.Continue? || t.Default? || t.Defer? || t.Else?
    || t.Fallthrough? || t.For? || t.Func? || t.Proc? || t.If? || t.Import? || t.Return?
    || t.Select? || t.Struct? || t.Switch? || t.Type? || t.Var?
  }

  /** Everything else that can be read: operators and punctuation. */
  predicate IsSymbol(t: TokenType) {
    !IsLiteral(t) && !IsKeyword(t) && !t.Ident? && !t.Illegal? && !t.End?
  }

  function TokenName(t: TokenType): string {
    match t
    case Illegal => "illegal"
    case End => "[END]"
    case Ident => "[ident]"
    case Int => "[int]"
    case Float => "[float]"
    case Hex => "[hex]"
    case Octal => "[octal]"
    case String => "[string]"
    case Break => "break"
    case Case => "case"
    case Const => "const"
    case Continue => "continue"
    case Default => "default"
    case Else => "else"
    case Fallthrough => "fallthrough"
    case For => "for"
    case Func => "func"
    case Proc => "proc"
    case If => "if"
    case Import => "import"
    case Return => "return"
    case Select => "select"
    case Struct => "struct"
    case Switch => "switch"
    case Type => "type"
    case Var => "var"
    case Defer => "defer"
    case Define => ":="
    case Semi => ";"
    case Colon => ":"
    case DoubleColon => "::"
    case Ellipse => "..."
    case Period => "."
    case Comma => ","
    case LParen => "("
    case RParen => ")"
    case LBrack => "["
    case RBrack => "]"
    case LBrace => "{"
    case RBrace => "}"
    case Add => "+"
    case AddAssign => "+="
    case Inc => "++"
    case Arrow => "->"
    case Sub => "-"
    case SubAssign => "-="
    case Dec => "--"
    case Mul => "*"
    case MulAssign => "*="
    case Quo => "/"
    case QuoAssign => "/="
    case Rem => "%"
    case RemAssign => "%="
    case Xor => "^"
    case XorAssign => "^="
    case Gtr => ">"
    case Geq => ">="
    case Lss => "<"
    case Leq => "<="
    case Shl => "<<"
    case ShlAssign => "<<="
    case Shr => ">>"
    case ShrAssign => ">>="
    case Assign => "="
    case Eql => "=="
    case Not => "!"
    case Neq => "!="
    case And => "&"
    case AndAssign => "&="
    case AndNot => "&^"
    case AndNotAssign => "&^="
    case Land => "&&"
    case Or => "|"
    case OrAssign => "|="
    case Lor => "||"
  }
}
