/** The specification of the expression parser: what each parse routine makes of a
    token array, a cursor and an error queue. Class `Parser` computes exactly this. */
module Pratt {
  import opened Tokens

  /** Expression nodes. `Missing` is the NULL child or result of a failed parse;
      an array-style entry of a key/value list also has no key. */
  datatype Exp =
    | Missing
    | IdentExp(name: string)
    | Literal(token: Token)
    | Unary(uop: Token, right: Exp)
    | Binary(left: Exp, op: Token, rhs: Exp)
    | Selector(exp: Exp, selector: Exp)
    | Index(base: Exp, index: Exp)
    | Call(callee: Exp, args: seq<Exp>)
    | KeyValue(key: Exp, value: Exp)
    | KeyValueList(items: seq<Exp>)
    | Array(values: seq<Exp>)

  datatype ErrorKind = ExpectToken(ty: TokenType) | ExpectPrefix | ExpectInfix | ExpectType | ExpectArrayLength | ExpectStatement
  datatype Error = Error(kind: ErrorKind, start: nat)

  /** `Fault`: the C code reads past the token array or copies from a NULL node. */
  datatype Parsed = Done(node: Exp, pos: nat, errors: seq<Error>) | Fault
  datatype ParsedList = List(nodes: seq<Exp>, pos: nat, errors: seq<Error>) | ListFault

  const UNARY_POWER := 60

  /** `parser_expect`: past the token if it is there, otherwise one more error. */
  function Expect(ts: seq<Token>, pos: nat, ty: TokenType, errors: seq<Error>): (nat, seq<Error>)
    requires pos < |ts|
  {
    if ts[pos].ty == ty then (pos + 1, errors) else (pos, errors + [Error(ExpectToken(ty), pos)])
  }

  /** Where a successful step may leave the cursor and the queue. */
  ghost predicate Advances(ts: seq<Token>, pos: nat, errors: seq<Error>, r: Parsed) {
    r.Done? ==> pos < r.pos <= |ts| && errors <= r.errors && (r.node.Missing? ==> errors < r.errors)
  }

  ghost predicate ListAdvances(ts: seq<Token>, pos: nat, errors: seq<Error>, r: ParsedList) {
    r.List? ==> pos <= r.pos < |ts| && errors <= r.errors
  }

  function ParseExp(ts: seq<Token>, pos: nat, rbp: int, errors: seq<Error>): (r: Parsed)
    ensures Advances(ts, pos, errors, r)
    decreases |ts| - pos, 2
  {
    if pos >= |ts| then Fault
    else
      var left := Nud(ts, pos, errors);
      if left.Fault? || left.node.Missing? then left
      else LedLoop(ts, left.pos, rbp, left.node, left.errors)
  }

  /** Binds operators into `left` while they are stronger than `rbp`. */
  function LedLoop(ts: seq<Token>, pos: nat, rbp: int, left: Exp, errors: seq<Error>): (r: Parsed)
    requires pos <= |ts| && !left.Missing?
    ensures r.Done? ==> pos <= r.pos <= |ts| && errors <= r.errors && (r.node.Missing? ==> errors < r.errors)
    decreases |ts| - pos, 1
  {
    if pos >= |ts| then Fault
    else if rbp < BindingPower(ts[pos].ty) then
      var next := Led(ts, pos, left, errors);
      if next.Fault? || next.node.Missing? then next
      else LedLoop(ts, next.pos, rbp, next.node, next.errors)
    else Done(left, pos, errors)
  }

  /** The token at `pos` in prefix position. */
  function Nud(ts: seq<Token>, pos: nat, errors: seq<Error>): (r: Parsed)
    requires pos < |ts|
    ensures Advances(ts, pos, errors, r)
    decreases |ts| - pos, 1
  {
    var t := ts[pos];
    if t.ty.Ident? then Done(IdentExp(t.value), pos + 1, errors)
    else if IsLiteral(t.ty) then Done(Literal(t), pos + 1, errors)
    else if t.ty.Not? || t.ty.Sub? then Prefixed(ts, pos, errors)
    else if t.ty.LBrace? then
      var items := ParseItems(ts, pos + 1, errors);
      if items.ListFault? then Fault else Done(KeyValueList(items.nodes), items.pos, items.errors)
    else if t.ty.LBrack? then
      var values := ParseValues(ts, pos + 1, errors);
      if values.ListFault? then Fault
      else
        var (p, es) := Expect(ts, values.pos, RBrack, values.errors);
        Done(Array(values.nodes), p, es)
    else Done(Missing, pos + 1, errors + [Error(ExpectPrefix, pos + 1)])
  }

  function Prefixed(ts: seq<Token>, pos: nat, errors: seq<Error>): (r: Parsed)
    requires pos < |ts|
    ensures Advances(ts, pos, errors, r)
    decreases |ts| - pos, 0
  {
    var right := ParseExp(ts, pos + 1, UNARY_POWER, errors);
    if right.Fault? then Fault else Done(Unary(ts[pos], right.node), right.pos, right.errors)
  }

  /** The token at `pos` between `left` and what follows. */
  function Led(ts: seq<Token>, pos: nat, left: Exp, errors: seq<Error>): (r: Parsed)
    requires pos < |ts|
    ensures Advances(ts, pos, errors, r)
    decreases |ts| - pos, 0
  {
    var t := ts[pos];
    var bp := BindingPower(t.ty);
    if IsLeftOperator(t.ty) then Infixed(ts, pos, left, bp, errors)
    else if IsRightOperator(t.ty) then Infixed(ts, pos, left, bp - 1, errors)
    else if t.ty.Period? then
      var s := ParseExp(ts, pos + 1, bp, errors);
      if s.Fault? then Fault else Done(Selector(left, s.node), s.pos, s.errors)
    else if t.ty.LBrack? then
      var i := ParseExp(ts, pos + 1, 0, errors);
      if i.Fault? || i.pos >= |ts| then Fault
      else
        var (p, es) := Expect(ts, i.pos, RBrack, i.errors);
        Done(Index(left, i.node), p, es)
    // a brace falls through to the call case
    else if t.ty.LBrace? || t.ty.LParen? then Called(ts, pos, left, errors)
    else Done(Missing, pos + 1, errors + [Error(ExpectInfix, pos + 1)])
  }

  predicate IsLeftOperator(t: TokenType) {
    t.Add? || t.Sub? || t.Mul? || t.Quo? || t.Rem? || t.Eql? || t.Neq? || t.Gtr? || t.Lss? || t.Geq? || t.Leq?
  }

  /** Right associative operators, assignments among them. */
  predicate IsRightOperator(t: TokenType) {
    || t.Land? || t.Lor? || t.Assign? || t.AddAssign? || t.SubAssign? || t.MulAssign?
    || t.RemAssign? || t.OrAssign? || t.ShlAssign? || t.Define?
  }

  function Infixed(ts: seq<Token>, pos: nat, left: Exp, rbp: int, errors: seq<Error>): (r: Parsed)
    requires pos < |ts|
    ensures Advances(ts, pos, errors, r)
    decreases |ts| - pos - 1, 3
  {
    var right := ParseExp(ts, pos + 1, rbp, errors);
    if right.Fault? then Fault else Done(Binary(left, ts[pos], right.node), right.pos, right.errors)
  }

  function Called(ts: seq<Token>, pos: nat, left: Exp, errors: seq<Error>): (r: Parsed)
    requires pos < |ts|
    ensures Advances(ts, pos, errors, r)
    decreases |ts| - pos - 1, 4
  {
    if pos + 1 >= |ts| then Fault
    else if ts[pos + 1].ty.RParen? then Done(Call(left, []), pos + 2, errors)
    else
      var args := ParseArgs(ts, pos + 1, errors);
      if args.ListFault? then Fault
      else
        var (p, es) := Expect(ts, args.pos, RParen, args.errors);
        Done(Call(left, args.nodes), p, es)
  }

  /** One or more arguments, up to the closing parenthesis. */
  function ParseArgs(ts: seq<Token>, pos: nat, errors: seq<Error>): (r: ParsedList)
    ensures ListAdvances(ts, pos, errors, r)
    decreases |ts| - pos, 3
  {
    var arg := ParseExp(ts, pos, 0, errors);
    if arg.Fault? || arg.node.Missing? || arg.pos >= |ts| then ListFault
    else if ts[arg.pos].ty.RParen? then List([arg.node], arg.pos, arg.errors)
    else
      var (p, es) := Expect(ts, arg.pos, Comma, arg.errors);
      var rest := ParseArgs(ts, p, es);
      if rest.ListFault? then ListFault else List([arg.node] + rest.nodes, rest.pos, rest.errors)
  }

  /** Array values up to the closing bracket; a comma may stand before it. */
  function ParseValues(ts: seq<Token>, pos: nat, errors: seq<Error>): (r: ParsedList)
    requires pos <= |ts|
    ensures ListAdvances(ts, pos, errors, r)
    decreases |ts| - pos, 3
  {
    if pos >= |ts| then ListFault
    else if ts[pos].ty.RBrack? then List([], pos, errors)
    else
      var v := ParseExp(ts, pos, 0, errors);
      if v.Fault? || v.node.Missing? || v.pos >= |ts| then ListFault
      else
        var (p, es) := if ts[v.pos].ty.RBrack? then (v.pos, v.errors) else Expect(ts, v.pos, Comma, v.errors);
        var rest := ParseValues(ts, p, es);
        if rest.ListFault? then ListFault else List([v.node] + rest.nodes, rest.pos, rest.errors)
  }

  /** Entries of a key/value list; the closing brace is left where it is. */
  function ParseItems(ts: seq<Token>, pos: nat, errors: seq<Error>): (r: ParsedList)
    requires pos <= |ts|
    ensures ListAdvances(ts, pos, errors, r)
    decreases |ts| - pos, 4
  {
    if pos >= |ts| then ListFault
    else if ts[pos].ty.RBrace? then List([], pos, errors)
    else
      var item := ParseItem(ts, pos, errors);
      if item.Fault? || item.pos >= |ts| then ListFault
      else
        var (p, es) := if ts[item.pos].ty.RBrace? then (item.pos, item.errors) else Expect(ts, item.pos, Comma, item.errors);
        var rest := ParseItems(ts, p, es);
        if rest.ListFault? then ListFault else List([item.node] + rest.nodes, rest.pos, rest.errors)
  }

  /** `expression:expression` or `expression`. */
  function ParseItem(ts: seq<Token>, pos: nat, errors: seq<Error>): (r: Parsed)
    requires pos < |ts|
    ensures Advances(ts, pos, errors, r)
    decreases |ts| - pos, 3
  {
    var first := ParseExp(ts, pos, 0, errors);
    if first.Fault? || first.pos >= |ts| then Fault
    else if ts[first.pos].ty.Colon? then
      var value := ParseExp(ts, first.pos + 1, 0, first.errors);
      if value.Fault? then Fault else Done(KeyValue(first.node, value.node), value.pos, value.errors)
    else Done(KeyValue(Missing, first.node), first.pos, first.errors)
  }
}
