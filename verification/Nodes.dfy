/** What a parse takes from the pools of nodes, call by call: the parser of `Statements` and
    `Files` once more, with its calls of `pool_get` and `pool_release` instead of its result. */
module Nodes {
  import opened Wrappers
  import opened Tokens
  import opened Pratt
  import opened Statements
  import opened Files

  /** A node for an expression, a statement or a declaration, and the return of the
      expression node that was taken `age` expression nodes ago. */
  datatype Call = NewExp | NewSmt | NewDcl | OldExp(age: nat)

  function Exps(n: nat): (r: seq<Call>)
    ensures |r| == n
  {
    seq(n, _ => NewExp)
  }

  // ---------- expressions: how many nodes ----------

  function ExpNodes(ts: seq<Token>, pos: nat, rbp: int, errors: seq<Error>): nat
    decreases |ts| - pos, 2
  {
    if pos >= |ts| then 0
    else
      var left := Nud(ts, pos, errors);
      NudNodes(ts, pos, errors) +
        if left.Fault? || left.node.Missing? then 0 else LoopNodes(ts, left.pos, rbp, left.node, left.errors)
  }

  function LoopNodes(ts: seq<Token>, pos: nat, rbp: int, left: Exp, errors: seq<Error>): nat
    requires pos <= |ts| && !left.Missing?
    decreases |ts| - pos, 1
  {
    if pos >= |ts| || rbp >= BindingPower(ts[pos].ty) then 0
    else
      var next := Led(ts, pos, left, errors);
      LedNodes(ts, pos, errors) +
        if next.Fault? || next.node.Missing? then 0 else LoopNodes(ts, next.pos, rbp, next.node, next.errors)
  }

  function NudNodes(ts: seq<Token>, pos: nat, errors: seq<Error>): nat
    requires pos < |ts|
    decreases |ts| - pos, 1
  {
    var t := ts[pos].ty;
    if t.Ident? || IsLiteral(t) then 1
    else if t.Not? || t.Sub? then ExpNodes(ts, pos + 1, UNARY_POWER, errors) + 1
    else if t.LBrace? then ItemsNodes(ts, pos + 1, errors) + 1
    else if t.LBrack? then ValuesNodes(ts, pos + 1, errors) + 1
    else 0
  }

  /** They do not depend on the tree on the left. */
  function LedNodes(ts: seq<Token>, pos: nat, errors: seq<Error>): nat
    requires pos < |ts|
    decreases |ts| - pos, 0
  {
    var t := ts[pos].ty;
    if IsLeftOperator(t) || t.Period? then ExpNodes(ts, pos + 1, BindingPower(t), errors) + 1
    else if IsRightOperator(t) then ExpNodes(ts, pos + 1, BindingPower(t) - 1, errors) + 1
    else if t.LBrack? then ExpNodes(ts, pos + 1, 0, errors) + 1
    else if t.LBrace? || t.LParen? then CalledNodes(ts, pos, errors)
    else 0
  }

  function CalledNodes(ts: seq<Token>, pos: nat, errors: seq<Error>): nat
    requires pos < |ts|
    decreases |ts| - pos - 1, 4
  {
    if pos + 1 >= |ts| then 0
    else if ts[pos + 1].ty.RParen? then 1
    else ArgsNodes(ts, pos + 1, errors) + 1
  }

  function ArgsNodes(ts: seq<Token>, pos: nat, errors: seq<Error>): nat
    decreases |ts| - pos, 3
  {
    var arg := ParseExp(ts, pos, 0, errors);
    ExpNodes(ts, pos, 0, errors) +
      if arg.Fault? || arg.node.Missing? || arg.pos >= |ts| || ts[arg.pos].ty.RParen? then 0
      else
        var (p, es) := Expect(ts, arg.pos, Comma, arg.errors);
        ArgsNodes(ts, p, es)
  }

  function ValuesNodes(ts: seq<Token>, pos: nat, errors: seq<Error>): nat
    requires pos <= |ts|
    decreases |ts| - pos, 3
  {
    if pos >= |ts| || ts[pos].ty.RBrack? then 0
    else
      var v := ParseExp(ts, pos, 0, errors);
      ExpNodes(ts, pos, 0, errors) +
        if v.Fault? || v.node.Missing? || v.pos >= |ts| then 0
        else
          var (p, es) := if ts[v.pos].ty.RBrack? then (v.pos, v.errors) else Expect(ts, v.pos, Comma, v.errors);
          ValuesNodes(ts, p, es)
  }

  function ItemsNodes(ts: seq<Token>, pos: nat, errors: seq<Error>): nat
    requires pos <= |ts|
    decreases |ts| - pos, 4
  {
    if pos >= |ts| || ts[pos].ty.RBrace? then 0
    else
      var item := ParseItem(ts, pos, errors);
      ItemNodes(ts, pos, errors) +
        if item.Fault? || item.pos >= |ts| then 0
        else
          var (p, es) := if ts[item.pos].ty.RBrace? then (item.pos, item.errors) else Expect(ts, item.pos, Comma, item.errors);
          ItemsNodes(ts, p, es)
  }

  function ItemNodes(ts: seq<Token>, pos: nat, errors: seq<Error>): nat
    requires pos < |ts|
    decreases |ts| - pos, 3
  {
    var first := ParseExp(ts, pos, 0, errors);
    ExpNodes(ts, pos, 0, errors) + 1 +
      if first.Fault? || first.pos >= |ts| || !ts[first.pos].ty.Colon? then 0
      else ExpNodes(ts, first.pos + 1, 0, first.errors)
  }

  function ExpLog(ts: seq<Token>, pos: nat, errors: seq<Error>): seq<Call> { Exps(ExpNodes(ts, pos, 0, errors)) }

  // ---------- declarations ----------

  function TypeLog(ts: seq<Token>, st: State): seq<Call> {
    if st.pos >= |ts| || !ts[st.pos].ty.Ident? then []
    else if st.pos + 1 >= |ts| || !ts[st.pos + 1].ty.LBrack? then [NewExp]
    else
      var n := ParseExp(ts, st.pos + 2, 0, st.errors);
      [NewExp] + (ExpLog(ts, st.pos + 2, st.errors) + if n.Fault? || n.node.Missing? then [] else [NewExp])
  }

  function VariableLog(ts: seq<Token>, st: State): seq<Call> {
    if st.pos >= |ts| then []
    else if ts[st.pos].ty.Var? then
      TypeLog(ts, st.(pos := st.pos + 1)) + TypedLog(ts, ParseType(ts, st.(pos := st.pos + 1)))
    else if !ts[st.pos].ty.Ident? then []
    else ValueLog(ts, st.(pos := st.pos + 1), Define)
  }

  function TypedLog(ts: seq<Token>, t: TypeParse): seq<Call> {
    if t.TypeCrash? || t.ty.None? || t.st.pos >= |ts| || !ts[t.st.pos].ty.Ident? then []
    else ValueLog(ts, t.st.(pos := t.st.pos + 1), Assign)
  }

  function ValueLog(ts: seq<Token>, st: State, op: TokenType): seq<Call> {
    if st.pos >= |ts| then []
    else
      var (p, es) := Expect(ts, st.pos, op, st.errors);
      var e := ParseExp(ts, p, 0, es);
      ExpLog(ts, p, es) + if e.Fault? || e.node.Missing? then [] else [NewDcl]
  }

  // ---------- statements ----------

  /** A name takes two nodes before it is known whether a step follows it. */
  function KnownLog(ts: seq<Token>, st: State): seq<Call>
    requires st.scope != [] && st.pos < |ts|
    decreases |ts| - st.pos, 2
  {
    var t := ts[st.pos].ty;
    if t.Return? then ExpLog(ts, st.pos + 1, st.errors) + [NewSmt]
    else if t.LBrace? then BlockLog(ts, st)
    else if t.If? then IfLog(ts, st)
    else if t.For? then ForLog(ts, st)
    else if t.Var? then VariableLog(ts, st) + [NewSmt]
    else if t.Ident? then
      if st.pos + 1 < |ts| && (ts[st.pos + 1].ty.Inc? || ts[st.pos + 1].ty.Dec?) then [NewExp, NewExp, NewSmt, NewExp]
      else [NewExp, NewExp]
    else []
  }

  function StatementLog(ts: seq<Token>, st: State): seq<Call>
    requires st.scope != []
    decreases |ts| - st.pos, 3
  {
    if st.pos >= |ts| then []
    else
      var known := ParseKnown(ts, st);
      if known.Crash? || !known.smt.Nothing? then KnownLog(ts, st)
      else
        var e := ParseExp(ts, st.pos, 0, st.errors);
        KnownLog(ts, st) + (ExpLog(ts, st.pos, st.errors) + if e.Fault? then [] else ConvertedLog(e.node))
  }

  /** The binary node is given back; an assignment with an operation has taken another one
      before. What is no statement after all keeps the node only where a name is missing. */
  function ConvertedLog(e: Exp): seq<Call> {
    if !e.Binary? then []
    else if e.op.ty.Assign? then [NewSmt, OldExp(1)]
    else if IsAssignment(e.op.ty) then [NewSmt, NewExp, OldExp(2)]
    else if !e.op.ty.Define? then [OldExp(1)]
    else if e.left.IdentExp? then [NewDcl, NewSmt, OldExp(1)]
    else []
  }

  function IfLog(ts: seq<Token>, st: State): seq<Call>
    requires st.scope != [] && st.pos < |ts|
    decreases |ts| - st.pos, 1
  {
    CondLog(ts, st.(pos := st.pos + 1)) + [NewSmt]
  }

  function CondLog(ts: seq<Token>, st: State): seq<Call>
    requires st.scope != []
    decreases |ts| - st.pos, 1
  {
    var c := ParseExp(ts, st.pos, 0, st.errors);
    ExpLog(ts, st.pos, st.errors) + if c.Fault? then [] else BodyLog(ts, st.(pos := c.pos, errors := c.errors))
  }

  function BodyLog(ts: seq<Token>, st: State): seq<Call>
    requires st.scope != []
    decreases |ts| - st.pos, 6
  {
    var b := ParseBlock(ts, st);
    BlockLog(ts, st) + if b.Crash? then [] else ElseLog(ts, b.st)
  }

  /** A last `else` has a node of its own. */
  function ElseLog(ts: seq<Token>, st: State): seq<Call>
    requires st.scope != []
    decreases |ts| - st.pos, 1
  {
    if st.pos >= |ts| || !ts[st.pos].ty.Else? then []
    else
      StatementLog(ts, st.(pos := st.pos + 1)) +
        if st.pos + 1 < |ts| && ts[st.pos + 1].ty.If? then [] else [NewSmt]
  }

  function ForLog(ts: seq<Token>, st: State): seq<Call>
    requires st.scope != [] && st.pos < |ts|
    decreases |ts| - st.pos, 1
  {
    var v := ParseVariable(ts, st.(pos := st.pos + 1));
    VariableLog(ts, st.(pos := st.pos + 1)) +
      if v.VarCrash? || v.st.pos >= |ts| then [] else TestLog(ts, ExpectSemi(ts, v.st))
  }

  function TestLog(ts: seq<Token>, st: State): seq<Call>
    requires st.scope != []
    decreases |ts| - st.pos, 1
  {
    var c := ParseExp(ts, st.pos, 0, st.errors);
    ExpLog(ts, st.pos, st.errors) +
      if c.Fault? || c.pos >= |ts| then [] else RoundsLog(ts, ExpectSemi(ts, st.(pos := c.pos, errors := c.errors)))
  }

  function RoundsLog(ts: seq<Token>, st: State): seq<Call>
    requires st.scope != []
    decreases |ts| - st.pos, 6
  {
    var inc := ParseStatement(ts, st);
    StatementLog(ts, st) + if inc.Crash? then [] else BlockLog(ts, inc.st) + [NewSmt]
  }

  function BlockLog(ts: seq<Token>, st: State): seq<Call>
    requires st.scope != []
    decreases |ts| - st.pos, if st.pos < |ts| && ts[st.pos].ty.LBrace? then 1 else 5
  {
    if st.pos >= |ts| then []
    else
      var (p, es) := Expect(ts, st.pos, LBrace, st.errors);
      ListLog(ts, State(p, es, [map[]] + st.scope, st.next)) + [NewSmt]
  }

  function ListLog(ts: seq<Token>, st: State): seq<Call>
    requires st.scope != []
    decreases |ts| - st.pos, 4
  {
    if st.pos >= |ts| || ts[st.pos].ty.RBrace? then []
    else
      var s := ParseStatement(ts, st);
      StatementLog(ts, st) +
        if s.Crash? || s.smt.Nothing? || s.st.pos >= |ts| then []
        else ListLog(ts, if ts[s.st.pos].ty.RBrace? then s.st else ExpectSemi(ts, s.st))
  }

  // ---------- single steps ----------

  /** Nothing more is read where the first token tells all. */
  lemma KnownLogs(ts: seq<Token>, st: State)
    requires st.scope != [] && st.pos < |ts|
    requires var t := ts[st.pos].ty; t.Return? || t.LBrace? || t.If? || t.For? || t.Var?
    ensures StatementLog(ts, st) == KnownLog(ts, st)
  {
    hide ParseExp, ParseBlock, ParseIf, ParseFor, ParseVariable, KnownLog;
  }

  lemma OtherLog(ts: seq<Token>, st: State, e: Parsed)
    requires st.scope != [] && st.pos < |ts| && ParseKnown(ts, st) == Did(Nothing, st)
    requires e == ParseExp(ts, st.pos, 0, st.errors) && e.Done?
    ensures StatementLog(ts, st) == KnownLog(ts, st) + (ExpLog(ts, st.pos, st.errors) + ConvertedLog(e.node))
  {
    hide KnownLog, ConvertedLog, ParseKnown;
  }

  lemma ListLogStep(ts: seq<Token>, st: State, s: Parse, next: State)
    requires st.scope != [] && st.pos < |ts| && !ts[st.pos].ty.RBrace?
    requires s == ParseStatement(ts, st) && s.Did? && !s.smt.Nothing? && s.st.pos < |ts|
    requires next == (if ts[s.st.pos].ty.RBrace? then s.st else ExpectSemi(ts, s.st)) && next.scope != []
    ensures ListLog(ts, st) == StatementLog(ts, st) + ListLog(ts, next)
  {
    hide StatementLog, ParseStatement;
  }

  lemma IfKnown(ts: seq<Token>, st: State)
    requires st.scope != [] && st.pos < |ts| && ts[st.pos].ty.If?
    ensures KnownLog(ts, st) == CondLog(ts, st.(pos := st.pos + 1)) + [NewSmt]
  {
    hide CondLog;
  }

  lemma BodyLogStep(ts: seq<Token>, st: State, b: Parse)
    requires st.scope != [] && b == ParseBlock(ts, st) && b.Did? && b.st.scope != []
    ensures BodyLog(ts, st) == BlockLog(ts, st) + ElseLog(ts, b.st)
  {
    hide BlockLog, ElseLog;
  }

  lemma CondLogStep(ts: seq<Token>, st: State, e: Parsed)
    requires st.scope != [] && e == ParseExp(ts, st.pos, 0, st.errors) && e.Done?
    ensures CondLog(ts, st) == ExpLog(ts, st.pos, st.errors) + BodyLog(ts, st.(pos := e.pos, errors := e.errors))
  {
    hide BodyLog;
  }

  lemma ForKnown(ts: seq<Token>, st: State, v: VarParse)
    requires st.scope != [] && st.pos < |ts| && ts[st.pos].ty.For?
    requires v == ParseVariable(ts, st.(pos := st.pos + 1)) && v.DidVar? && v.st.pos < |ts| && v.st.scope != []
    ensures KnownLog(ts, st) == VariableLog(ts, st.(pos := st.pos + 1)) + TestLog(ts, ExpectSemi(ts, v.st))
  {
    hide TestLog, VariableLog, ParseVariable;
  }

  lemma TestLogStep(ts: seq<Token>, st: State, e: Parsed)
    requires st.scope != [] && e == ParseExp(ts, st.pos, 0, st.errors) && e.Done? && e.pos < |ts|
    ensures var st1 := ExpectSemi(ts, st.(pos := e.pos, errors := e.errors));
      st1.scope != [] && TestLog(ts, st) == ExpLog(ts, st.pos, st.errors) + RoundsLog(ts, st1)
  {
    hide RoundsLog;
  }

  lemma VarKnown(ts: seq<Token>, st: State)
    requires st.scope != [] && st.pos < |ts| && ts[st.pos].ty.Var?
    ensures KnownLog(ts, st) == VariableLog(ts, st) + [NewSmt]
  {
    hide VariableLog;
  }

  lemma NoListLog(ts: seq<Token>, st: State)
    requires st.scope != [] && st.pos < |ts| && ts[st.pos].ty.RBrace?
    ensures ListLog(ts, st) == []
  {
  }

  // ---------- files ----------

  /** A declaration for each parameter, and a node for its type. */
  function ParamsLog(ts: seq<Token>, st: State, first: bool): seq<Call>
    decreases |ts| - st.pos
  {
    if st.pos >= |ts| || ts[st.pos].ty.Arrow? || ts[st.pos].ty.LBrace? then []
    else
      var (p, es) := if first then (st.pos, st.errors) else Expect(ts, st.pos, Comma, st.errors);
      var st1 := st.(pos := p, errors := es);
      var t := ParseType(ts, st1);
      TypeLog(ts, st1) +
        if t.TypeCrash? || t.ty.None? || t.st.pos >= |ts| || !ts[t.st.pos].ty.Ident? then []
        else [NewDcl] + ParamsLog(ts, t.st.(pos := t.st.pos + 1), false)
  }

  function FunctionLog(ts: seq<Token>, st: State): seq<Call>
    requires st.scope != []
  {
    if st.pos + 2 >= |ts| || !ts[st.pos].ty.Proc? || !ts[st.pos + 1].ty.Ident? then []
    else
      var (p, es) := Expect(ts, st.pos + 2, DoubleColon, st.errors);
      var st1 := st.(pos := p, errors := es);
      ParamsLog(ts, st1, true) + RestLog(ts, ts[st.pos + 1].value, ParseParams(ts, st1, []))
  }

  function RestLog(ts: seq<Token>, name: string, a: ArgsParse): seq<Call>
    requires a.DidArgs? ==> a.st.scope != [] && a.st.pos <= |ts|
  {
    if a.ArgsCrash? || a.args.None? || a.st.pos >= |ts| || !ts[a.st.pos].ty.Arrow? then []
    else
      var st1 := a.st.(pos := a.st.pos + 1);
      var t := ParseType(ts, st1);
      TypeLog(ts, st1) +
        if t.TypeCrash? || t.ty.None? then []
        else [NewDcl] + BlockLog(ts, BoundAll(t.st, InOrder(a.args.value, name)))
  }

  function FileLog(ts: seq<Token>, st: State): seq<Call>
    requires st.scope != []
    decreases |ts| - st.pos
  {
    if st.pos >= |ts| || !StartsTop(ts[st.pos].ty) then []
    else
      var d := ParseTop(ts, st);
      TopLog(ts, st) + if d.TopCrash? then [] else FileLog(ts, d.st)
  }

  function TopLog(ts: seq<Token>, st: State): seq<Call>
    requires st.scope != [] && st.pos < |ts|
  {
    if ts[st.pos].ty.Proc? then FunctionLog(ts, st) else VariableLog(ts, st)
  }
}
