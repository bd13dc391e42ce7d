/** The expression language, stated without the parser: how a tree is spelled and
    which trees the binding powers allow. */
module Grammar {
  import opened Tokens
  import opened Pratt

  function Mark(t: TokenType): Token { Token(t, "") }

  /** The tokens a tree is written with. */
  function Flatten(e: Exp): seq<Token>
    decreases e
  {
    match e
    case Missing => []
    case IdentExp(n) => [Token(Ident, n)]
    case Literal(t) => [t]
    case Unary(op, r) => [op] + Flatten(r)
    case Binary(l, op, r) => Flatten(l) + ([op] + Flatten(r))
    case Selector(x, s) => Flatten(x) + ([Mark(Period)] + Flatten(s))
    case Index(x, i) => Flatten(x) + ([Mark(LBrack)] + (Flatten(i) + [Mark(RBrack)]))
    case Call(f, args) => Flatten(f) + ([Mark(LParen)] + (Commas(args) + [Mark(RParen)]))
    case Array(vs) => [Mark(LBrack)] + (Commas(vs) + [Mark(RBrack)])
    // the closing brace of a key/value list is not consumed
    case KeyValueList(items) => [Mark(LBrace)] + Commas(items)
    case KeyValue(k, v) => if k.Missing? then Flatten(v) else Flatten(k) + ([Mark(Colon)] + Flatten(v))
  }

  function Commas(es: seq<Exp>): seq<Token>
    decreases es
  {
    if es == [] then []
    else if |es| == 1 then Flatten(es[0])
    else Flatten(es[0]) + ([Mark(Comma)] + Commas(es[1..]))
  }

  /** May token `t` stand right after the tree `e`? It must not bind to any
      expression that ends where `e` ends. */
  predicate CanFollow(e: Exp, t: TokenType)
    decreases e
  {
    match e
    case Unary(_, r) => BindingPower(t) <= UNARY_POWER && CanFollow(r, t)
    case Binary(_, op, r) => BindingPower(t) <= RightPower(op.ty) && CanFollow(r, t)
    case Selector(_, s) => BindingPower(t) <= BindingPower(Period) && CanFollow(s, t)
    case KeyValueList(_) => t.RBrace?
    case KeyValue(_, v) => BindingPower(t) <= 0 && CanFollow(v, t)
    case _ => true
  }

  /** The power with which an infix operator holds its right operand. */
  function RightPower(op: TokenType): int {
    if IsRightOperator(op) then BindingPower(op) - 1 else BindingPower(op)
  }

  /** The trees that can be read with right binding power `r`: operators on the left
      spine are stronger than `r`, and nothing in an operand would have taken the
      token that follows the operand. */
  predicate Respects(e: Exp, r: int)
    decreases e
  {
    match e
    case Missing => false
    case IdentExp(_) => true
    case Literal(t) => IsLiteral(t.ty)
    case Unary(op, x) => (op.ty.Not? || op.ty.Sub?) && Respects(x, UNARY_POWER)
    case Binary(l, op, x) =>
      && (IsLeftOperator(op.ty) || IsRightOperator(op.ty)) && r < BindingPower(op.ty)
      && Respects(l, r) && CanFollow(l, op.ty)
      && Respects(x, RightPower(op.ty))
    case Selector(x, s) =>
      && r < BindingPower(Period) && Respects(x, r) && CanFollow(x, Period)
      && Respects(s, BindingPower(Period))
    case Index(x, i) =>
      && r < BindingPower(LBrack) && Respects(x, r) && CanFollow(x, LBrack)
      && Respects(i, 0) && CanFollow(i, RBrack)
    case Call(f, args) =>
      && r < BindingPower(LParen) && Respects(f, r) && CanFollow(f, LParen)
      && AllRespect(args, RParen)
    case Array(vs) => AllRespect(vs, RBrack)
    case KeyValueList(items) => ItemsRespect(items)
    case KeyValue(_, _) => false
  }

  /** A comma separated list closed by `close`. */
  predicate AllRespect(es: seq<Exp>, close: TokenType)
    decreases es
  {
    es == [] || (Respects(es[0], 0) && CanFollow(es[0], if |es| == 1 then close else Comma) && AllRespect(es[1..], close))
  }

  predicate ItemsRespect(es: seq<Exp>)
    decreases es
  {
    es == [] || (ItemRespects(es[0], if |es| == 1 then RBrace else Comma) && ItemsRespect(es[1..]))
  }

  /** An entry of a key/value list that `t` follows. */
  predicate ItemRespects(e: Exp, t: TokenType)
    decreases e
  {
    && e.KeyValue?
    && (e.key.Missing? || (Respects(e.key, 0) && CanFollow(e.key, Colon)))
    && Respects(e.value, 0) && CanFollow(e.value, t)
  }

  // ---------- tokens in an array ----------

  ghost predicate HasAt(ts: seq<Token>, pos: nat, s: seq<Token>) {
    pos + |s| <= |ts| && forall i :: 0 <= i < |s| ==> ts[pos + i] == s[i]
  }

  lemma HasAtSplit(ts: seq<Token>, pos: nat, a: seq<Token>, b: seq<Token>)
    ensures HasAt(ts, pos, a + b) <==> HasAt(ts, pos, a) && HasAt(ts, pos + |a|, b)
  {
    if HasAt(ts, pos, a + b) {
      forall i | 0 <= i < |a| ensures ts[pos + i] == a[i] {
        assert (a + b)[i] == a[i];
      }
      forall i | 0 <= i < |b| ensures ts[pos + |a| + i] == b[i] {
        assert (a + b)[|a| + i] == b[i];
      }
    }
  }

  lemma HasOne(ts: seq<Token>, pos: nat, t: Token)
    ensures HasAt(ts, pos, [t]) <==> pos < |ts| && ts[pos] == t
  {
    assert [t][0] == t;
  }
}
