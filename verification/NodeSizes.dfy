/** How many nodes an expression takes: without an error, those of its tree. */
module NodeSizes {
  import opened Tokens
  import opened Pratt
  import opened Nodes
  import PrattSound

  function Size(e: Exp): (n: nat)
    ensures !e.Missing? ==> n > 0
    decreases e
  {
    match e
    case Missing => 0
    case IdentExp(_) => 1
    case Literal(_) => 1
    case Unary(_, x) => Size(x) + 1
    case Binary(l, _, r) => Size(l) + Size(r) + 1
    case Selector(x, s) => Size(x) + Size(s) + 1
    case Index(x, i) => Size(x) + Size(i) + 1
    case Call(f, args) => Size(f) + Sizes(args) + 1
    case KeyValue(k, v) => Size(k) + Size(v) + 1
    case KeyValueList(items) => Sizes(items) + 1
    case Array(vs) => Sizes(vs) + 1
  }

  function Sizes(es: seq<Exp>): nat
    decreases es
  {
    if es == [] then 0 else Size(es[0]) + Sizes(es[1..])
  }

  lemma SizesFirst(e: Exp, es: seq<Exp>)
    ensures Sizes([e] + es) == Size(e) + Sizes(es)
  {
    assert ([e] + es)[1..] == es;
  }

  predicate Quiet(errors: seq<Error>, r: Parsed) { r.Done? && r.errors == errors }

  predicate QuietList(errors: seq<Error>, r: ParsedList) { r.List? && r.errors == errors }

  lemma {:induction false} ExpSize(ts: seq<Token>, pos: nat, rbp: int, errors: seq<Error>)
    requires Quiet(errors, ParseExp(ts, pos, rbp, errors))
    ensures ExpNodes(ts, pos, rbp, errors) == Size(ParseExp(ts, pos, rbp, errors).node)
    decreases |ts| - pos, 2
  {
    hide Nud, LedLoop, Size;
    var left := Nud(ts, pos, errors);
    PrattSound.SameErrors(errors, left.errors, ParseExp(ts, pos, rbp, errors).errors);
    NudSize(ts, pos, errors);
    LoopSize(ts, left.pos, rbp, left.node, errors);
  }

  lemma {:induction false} LoopSize(ts: seq<Token>, pos: nat, rbp: int, left: Exp, errors: seq<Error>)
    requires pos <= |ts| && !left.Missing? && Quiet(errors, LedLoop(ts, pos, rbp, left, errors))
    ensures LoopNodes(ts, pos, rbp, left, errors) + Size(left) == Size(LedLoop(ts, pos, rbp, left, errors).node)
    decreases |ts| - pos, 1
  {
    hide Led, Size;
    if rbp < BindingPower(ts[pos].ty) {
      var next := Led(ts, pos, left, errors);
      PrattSound.SameErrors(errors, next.errors, LedLoop(ts, pos, rbp, left, errors).errors);
      LedSize(ts, pos, left, errors);
      LoopSize(ts, next.pos, rbp, next.node, errors);
    }
  }

  lemma {:induction false} NudSize(ts: seq<Token>, pos: nat, errors: seq<Error>)
    requires pos < |ts| && Quiet(errors, Nud(ts, pos, errors))
    ensures NudNodes(ts, pos, errors) == Size(Nud(ts, pos, errors).node)
    decreases |ts| - pos, 1
  {
    hide ParseItems, ParseValues, ParseExp;
    var t := ts[pos].ty;
    if t.Not? || t.Sub? {
      ExpSize(ts, pos + 1, UNARY_POWER, errors);
    } else if t.LBrace? {
      ItemsSize(ts, pos + 1, errors);
    } else if t.LBrack? {
      var values := ParseValues(ts, pos + 1, errors);
      PrattSound.SameErrors(errors, values.errors, Nud(ts, pos, errors).errors);
      ValuesSize(ts, pos + 1, errors);
    }
  }

  lemma {:induction false} LedSize(ts: seq<Token>, pos: nat, left: Exp, errors: seq<Error>)
    requires pos < |ts| && Quiet(errors, Led(ts, pos, left, errors))
    ensures LedNodes(ts, pos, errors) + Size(left) == Size(Led(ts, pos, left, errors).node)
    decreases |ts| - pos, 0
  {
    hide ParseExp, Called, Size;
    var t := ts[pos].ty;
    if IsLeftOperator(t) {
      InfixedSize(ts, pos, left, BindingPower(t), errors);
    } else if IsRightOperator(t) {
      InfixedSize(ts, pos, left, BindingPower(t) - 1, errors);
    } else if t.Period? {
      SelectorSize(ts, pos, left, errors);
    } else if t.LBrack? {
      IndexSize(ts, pos, left, errors);
    } else if t.LBrace? || t.LParen? {
      CalledSize(ts, pos, left, errors);
    }
  }

  lemma {:induction false} InfixedSize(ts: seq<Token>, pos: nat, left: Exp, rbp: int, errors: seq<Error>)
    requires pos < |ts| && Quiet(errors, Infixed(ts, pos, left, rbp, errors))
    ensures ExpNodes(ts, pos + 1, rbp, errors) + 1 + Size(left) == Size(Infixed(ts, pos, left, rbp, errors).node)
    decreases |ts| - pos - 1, 3
  {
    hide ParseExp;
    ExpSize(ts, pos + 1, rbp, errors);
  }

  lemma {:induction false} SelectorSize(ts: seq<Token>, pos: nat, left: Exp, errors: seq<Error>)
    requires pos < |ts| && ts[pos].ty.Period? && Quiet(errors, Led(ts, pos, left, errors))
    ensures ExpNodes(ts, pos + 1, BindingPower(Period), errors) + 1 + Size(left) == Size(Led(ts, pos, left, errors).node)
    decreases |ts| - pos - 1, 3
  {
    hide ParseExp;
    ExpSize(ts, pos + 1, BindingPower(Period), errors);
  }

  lemma {:induction false} IndexSize(ts: seq<Token>, pos: nat, left: Exp, errors: seq<Error>)
    requires pos < |ts| && ts[pos].ty.LBrack? && Quiet(errors, Led(ts, pos, left, errors))
    ensures ExpNodes(ts, pos + 1, 0, errors) + 1 + Size(left) == Size(Led(ts, pos, left, errors).node)
    decreases |ts| - pos - 1, 3
  {
    hide ParseExp;
    var i := ParseExp(ts, pos + 1, 0, errors);
    PrattSound.SameErrors(errors, i.errors, Led(ts, pos, left, errors).errors);
    ExpSize(ts, pos + 1, 0, errors);
  }

  lemma {:induction false} CalledSize(ts: seq<Token>, pos: nat, left: Exp, errors: seq<Error>)
    requires pos < |ts| && Quiet(errors, Called(ts, pos, left, errors))
    ensures CalledNodes(ts, pos, errors) + Size(left) == Size(Called(ts, pos, left, errors).node)
    decreases |ts| - pos - 1, 4
  {
    hide ParseArgs, ArgsNodes;
    if !ts[pos + 1].ty.RParen? {
      var args := ParseArgs(ts, pos + 1, errors);
      PrattSound.SameErrors(errors, args.errors, Called(ts, pos, left, errors).errors);
      ArgsSize(ts, pos + 1, errors);
    }
  }

  lemma {:induction false} ArgsSize(ts: seq<Token>, pos: nat, errors: seq<Error>)
    requires QuietList(errors, ParseArgs(ts, pos, errors))
    ensures ArgsNodes(ts, pos, errors) == Sizes(ParseArgs(ts, pos, errors).nodes)
    decreases |ts| - pos, 3
  {
    hide ParseExp, Sizes;
    var arg := ParseExp(ts, pos, 0, errors);
    PrattSound.SameErrors(errors, arg.errors, ParseArgs(ts, pos, errors).errors);
    ExpSize(ts, pos, 0, errors);
    if ts[arg.pos].ty.RParen? {
      SizesFirst(arg.node, []);
      NoSizes();
      assert [arg.node] + [] == [arg.node];
    } else {
      var (p, es) := Expect(ts, arg.pos, Comma, arg.errors);
      PrattSound.SameErrors(errors, es, ParseArgs(ts, pos, errors).errors);
      ArgsSize(ts, p, es);
      SizesFirst(arg.node, ParseArgs(ts, p, es).nodes);
    }
  }

  lemma NoSizes()
    ensures Sizes([]) == 0
  {
  }

  lemma {:induction false} ValuesSize(ts: seq<Token>, pos: nat, errors: seq<Error>)
    requires pos <= |ts| && QuietList(errors, ParseValues(ts, pos, errors))
    ensures ValuesNodes(ts, pos, errors) == Sizes(ParseValues(ts, pos, errors).nodes)
    decreases |ts| - pos, 3
  {
    hide ParseExp, Sizes;
    if ts[pos].ty.RBrack? {
      NoSizes();
    } else {
      var v := ParseExp(ts, pos, 0, errors);
      PrattSound.SameErrors(errors, v.errors, ParseValues(ts, pos, errors).errors);
      ExpSize(ts, pos, 0, errors);
      var (p, es) := if ts[v.pos].ty.RBrack? then (v.pos, v.errors) else Expect(ts, v.pos, Comma, v.errors);
      PrattSound.SameErrors(errors, es, ParseValues(ts, pos, errors).errors);
      ValuesSize(ts, p, es);
      SizesFirst(v.node, ParseValues(ts, p, es).nodes);
    }
  }

  lemma {:induction false} ItemsSize(ts: seq<Token>, pos: nat, errors: seq<Error>)
    requires pos <= |ts| && QuietList(errors, ParseItems(ts, pos, errors))
    ensures ItemsNodes(ts, pos, errors) == Sizes(ParseItems(ts, pos, errors).nodes)
    decreases |ts| - pos, 4
  {
    hide ParseItem, Sizes;
    if ts[pos].ty.RBrace? {
      NoSizes();
    } else {
      var v := ParseItem(ts, pos, errors);
      PrattSound.SameErrors(errors, v.errors, ParseItems(ts, pos, errors).errors);
      ItemSize(ts, pos, errors);
      var (p, es) := if ts[v.pos].ty.RBrace? then (v.pos, v.errors) else Expect(ts, v.pos, Comma, v.errors);
      PrattSound.SameErrors(errors, es, ParseItems(ts, pos, errors).errors);
      ItemsSize(ts, p, es);
      SizesFirst(v.node, ParseItems(ts, p, es).nodes);
    }
  }

  lemma {:induction false} ItemSize(ts: seq<Token>, pos: nat, errors: seq<Error>)
    requires pos < |ts| && Quiet(errors, ParseItem(ts, pos, errors))
    ensures ItemNodes(ts, pos, errors) == Size(ParseItem(ts, pos, errors).node)
    decreases |ts| - pos, 3
  {
    hide ParseExp;
    var first := ParseExp(ts, pos, 0, errors);
    PrattSound.SameErrors(errors, first.errors, ParseItem(ts, pos, errors).errors);
    ExpSize(ts, pos, 0, errors);
    if ts[first.pos].ty.Colon? {
      ExpSize(ts, first.pos + 1, 0, errors);
    }
  }

  // ---------- whatever the errors ----------

  /** What was read as a binary node took more than that node. */
  lemma BinaryNodes(ts: seq<Token>, pos: nat, rbp: int, errors: seq<Error>)
    requires ParseExp(ts, pos, rbp, errors).Done? && ParseExp(ts, pos, rbp, errors).node.Binary?
    ensures ExpNodes(ts, pos, rbp, errors) >= 2
  {
    hide Nud, NudNodes, LedLoop, LoopNodes;
    var left := Nud(ts, pos, errors);
    NudTakes(ts, pos, errors);
    LoopBinary(ts, left.pos, rbp, left.node, left.errors);
  }

  lemma NudTakes(ts: seq<Token>, pos: nat, errors: seq<Error>)
    requires pos < |ts| && Nud(ts, pos, errors).Done? && !Nud(ts, pos, errors).node.Missing?
    ensures NudNodes(ts, pos, errors) >= 1 && !Nud(ts, pos, errors).node.Binary?
  {
    hide ParseExp, ParseItems, ParseValues, ExpNodes, ItemsNodes, ValuesNodes;
  }

  lemma LedTakes(ts: seq<Token>, pos: nat, left: Exp, errors: seq<Error>)
    requires pos < |ts| && Led(ts, pos, left, errors).Done? && !Led(ts, pos, left, errors).node.Missing?
    ensures LedNodes(ts, pos, errors) >= 1
  {
    hide ParseExp, ParseArgs, ExpNodes, ArgsNodes;
  }

  lemma LoopBinary(ts: seq<Token>, pos: nat, rbp: int, left: Exp, errors: seq<Error>)
    requires pos <= |ts| && !left.Missing? && !left.Binary?
    requires LedLoop(ts, pos, rbp, left, errors).Done? && LedLoop(ts, pos, rbp, left, errors).node.Binary?
    ensures LoopNodes(ts, pos, rbp, left, errors) >= 1
  {
    hide Led, LedNodes;
    LedTakes(ts, pos, left, errors);
  }
}
