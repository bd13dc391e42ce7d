/** Fixed-width two's-complement integers, as the LLVM integer types that
    `CompileType` chooses, plus the one-bit type of comparisons.
    A value of width `w` is kept as its SIGNED reading, so the one-bit `true`
    is -1: that is what a signed cast of it to a wider type produces. */
module Ints {
  import opened Wrappers

  datatype Width = I1 | I8 | I16 | I32 | I64

  function Half(w: Width): int {
    match w
    case I1 => 1
    case I8 => 0x80
    case I16 => 0x8000
    case I32 => 0x8000_0000
    case I64 => 0x8000_0000_0000_0000
  }

  predicate InRange(w: Width, x: int) {
    -Half(w) <= x < Half(w)
  }

  /** The value of width `w` that is congruent to `x` modulo two to the width. */
  function Wrap(w: Width, x: int): (r: int)
    ensures InRange(w, r)
  {
    match w
    case I1 => (x + 1) % 2 - 1
    case I8 => (x + 0x80) % 0x100 - 0x80
    case I16 => (x + 0x8000) % 0x1_0000 - 0x8000
    case I32 => (x + 0x8000_0000) % 0x1_0000_0000 - 0x8000_0000
    case I64 => (x + 0x8000_0000_0000_0000) % 0x1_0000_0000_0000_0000 - 0x8000_0000_0000_0000
  }

  /** C and LLVM division: the quotient is cut toward zero. */
  function Truncate(a: int, b: int): int
    requires b != 0
  {
    if (a >= 0) == (b > 0) then Abs(a) / Abs(b) else -(Abs(a) / Abs(b))
  }

  function Abs(a: int): nat {
    if a < 0 then -a else a
  }

  datatype BinOp = Add | Sub | Mul | Quo | Rem | Lss | Leq | Gtr | Geq | Eql | Neq

  predicate IsComparison(op: BinOp) {
    op.Lss? || op.Leq? || op.Gtr? || op.Geq? || op.Eql? || op.Neq?
  }

  function ResultWidth(op: BinOp, node: Width): Width {
    if IsComparison(op) then I1 else node
  }

  function Truth(b: bool): int {
    if b then -1 else 0
  }

  /** `a op b` at width `w`; None where the signed division instructions
      have undefined behaviour. */
  function Arith(op: BinOp, w: Width, a: int, b: int): (r: Option<int>)
    ensures r.Some? ==> InRange(ResultWidth(op, w), r.value)
  {
    match op
    case Add => Some(Wrap(w, a + b))
    case Sub => Some(Wrap(w, a - b))
    case Mul => Some(Wrap(w, a * b))
    case Quo => if Overflows(w, a, b) then None else Some(Wrap(w, Truncate(a, b)))
    case Rem => if Overflows(w, a, b) then None else Some(Wrap(w, a - b * Truncate(a, b)))
    case Lss => Some(Truth(a < b))
    case Leq => Some(Truth(a <= b))
    case Gtr => Some(Truth(a > b))
    case Geq => Some(Truth(a >= b))
    case Eql => Some(Truth(a == b))
    case Neq => Some(Truth(a != b))
  }

  predicate Overflows(w: Width, a: int, b: int) {
    b == 0 || (a == -Half(w) && b == -1)
  }

  /** The width both operands of a binary expression are brought to. */
  function Promote(a: Width, b: Width): Width {
    if a == b then a else I64
  }

  lemma WrapIdentity(w: Width, x: int)
    requires InRange(w, x)
    ensures Wrap(w, x) == x
  {
  }

  lemma PromoteKeepsValue(a: Width, b: Width, x: int)
    requires InRange(a, x)
    ensures Wrap(Promote(a, b), x) == x
  {
    WrapIdentity(Promote(a, b), x);
  }

  /** `-x` is emitted as a multiplication by the constant -1: at every width this
      is the modular negation, including the most negative value. */
  lemma NegationIsMultiplication(w: Width, x: int)
    requires InRange(w, x)
    ensures Arith(Mul, w, -1, x) == Some(if x == -Half(w) then x else -x)
  {
    assert -1 * x == -x;
    if x != -Half(w) {
      WrapIdentity(w, -x);
    } else {
      match w {
        case I1 =>
        case I8 =>
        case I16 =>
        case I32 =>
        case I64 =>
      }
    }
  }
}
