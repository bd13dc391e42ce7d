/** The specification of the IR generator: the state it threads and what each
    compile routine makes of it. Class `Irgen` computes exactly these functions. */
module Lowering {
  import opened Wrappers
  import opened Ints
  import opened Ir
  import opened Source

  /** `dcl->llvmValue`: the register holding the address of the variable's cell. */
  datatype Slot = Slot(reg: nat, width: Width)

  datatype State = State(
    blocks: seq<Ir.Block>,
    cur: nat,
    next: nat,
    slots: map<Dcl, Slot>,
    sigs: seq<Signature>,
    ret: Width)

  predicate Ok(st: State) {
    st.cur < |st.blocks|
  }

  // ---------- builder primitives ----------

  function SetBlock(st: State, b: nat): State { st.(cur := b) }

  /** Appends an instruction that defines no register. */
  function Emit(st: State, i: Instr): State
    requires Ok(st)
  {
    st.(blocks := st.blocks[st.cur := st.blocks[st.cur] + [i]])
  }

  /** Appends an instruction that defines register `st.next`. */
  function Define(st: State, i: Instr): State
    requires Ok(st)
  {
    Emit(st, i).(next := st.next + 1)
  }

  /** `LLVMAppendBasicBlock`: the new block is number `|st.blocks|`. */
  function Append(st: State): State {
    st.(blocks := st.blocks + [[]])
  }

  // ---------- expressions ----------

  /** The slot of a declaration; an uncompiled one has no defined address in the
      C code, and the static rules exclude it. */
  function SlotOf(st: State, d: Dcl): Slot {
    if d in st.slots then st.slots[d] else Slot(0, I64)
  }

  /** A signed cast, and no instruction at all between equal types. */
  function LowerCast(st: State, o: Operand, w: Width): (r: (State, Operand))
    requires Ok(st)
    ensures r.0.cur == st.cur && |r.0.blocks| == |st.blocks|
  {
    if o.width == w then (st, o)
    else (Define(st, IntCast(st.next, o, w)), Reg(w, st.next))
  }

  function LowerExp(st: State, e: Source.Exp): (r: (State, Operand))
    requires Ok(st)
    ensures r.0.cur == st.cur && |r.0.blocks| == |st.blocks|
    decreases e
  {
    match e
    case Literal(n) => (st, Const(I64, Wrap(I64, n)))
    case BoolLit(b) => (st, Const(I1, Truth(b)))
    case Ident(d) =>
      var s := SlotOf(st, d);
      (Define(st, Load(st.next, s.width, s.reg)), Reg(s.width, st.next))
    case Unary(op, x) =>
      var (s1, o) := LowerExp(st, x);
      if op.Plus? then (s1, o)
      else (Define(s1, Bin(s1.next, Mul, Const(o.width, -1), o)), Reg(o.width, s1.next))
    case Binary(l, op, r) =>
      var (s1, a) := LowerExp(st, l);
      var (s2, b) := LowerExp(s1, r);
      Operate(s2, op, a, b)
    case CallExp(f, args) =>
      var (s1, os) := LowerArgs(st, args);
      var w := if f < |st.sigs| then st.sigs[f].ret else I64;
      (Define(s1, Call(s1.next, f, os)), Reg(w, s1.next))
  }

  /** Brings both operands to one width and appends the operation. */
  function Operate(st: State, op: BinOp, a: Operand, b: Operand): (r: (State, Operand))
    requires Ok(st)
    ensures r.0.cur == st.cur && |r.0.blocks| == |st.blocks|
  {
    var w := Promote(a.width, b.width);
    var (s1, a') := LowerCast(st, a, w);
    var (s2, b') := LowerCast(s1, b, w);
    (Define(s2, Bin(s2.next, op, a', b')), Reg(ResultWidth(op, w), s2.next))
  }

  function LowerArgs(st: State, args: seq<Source.Exp>): (r: (State, seq<Operand>))
    requires Ok(st)
    ensures r.0.cur == st.cur && |r.0.blocks| == |st.blocks|
    decreases args
  {
    if args == [] then (st, [])
    else
      var (s1, o) := LowerExp(st, args[0]);
      var (s2, os) := LowerArgs(s1, args[1..]);
      (s2, [o] + os)
  }

  // ---------- statements ----------

  function LowerVariable(st: State, v: VarDcl): (r: State)
    requires Ok(st)
    ensures r.cur == st.cur && |r.blocks| == |st.blocks|
  {
    var (s1, o) := LowerExp(st, v.value);
    var w := if v.ty.Some? then v.ty.value else o.width;
    var (s2, o') := LowerCast(s1, o, w);
    var s3 := Emit(Define(s2, Alloca(s2.next, w)), Store(o', s2.next));
    s3.(slots := s3.slots[v.dcl := Slot(s2.next, w)])
  }

  function LowerSmt(st: State, s: Source.Smt): (r: State)
    requires Ok(st)
    ensures Ok(r) && |r.blocks| >= |st.blocks|
    decreases s, 2
  {
    match s
    case Declare(v) => LowerVariable(st, v)
    case Assign(d, e) =>
      var slot := SlotOf(st, d);
      var (s1, o) := LowerExp(st, e);
      Emit(s1, Store(o, slot.reg))
    case Return(e) =>
      var (s1, o) := LowerExp(st, e);
      var (s2, o') := LowerCast(s1, o, st.ret);
      Emit(s2, Ret(o'))
    case Block(smts) => LowerSmts(st, smts)
    case If(_, _, _) => LowerBranch(Append(st), s, None, |st.blocks|)
    case For(_, _, _, _) => LowerLoop(st, s)
  }

  function LowerSmts(st: State, smts: seq<Source.Smt>): (r: State)
    requires Ok(st)
    ensures Ok(r) && |r.blocks| >= |st.blocks|
    decreases smts, 0
  {
    if smts == [] then st else LowerSmts(LowerSmt(st, smts[0]), smts[1..])
  }

  /** Compiles `s` into block `b`, restores the current block and also gives the
      block in which the code of `s` ends. */
  function BlockAt(st: State, s: Source.Smt, b: nat): (r: (State, nat))
    requires Ok(st) && b < |st.blocks|
    ensures r.0.cur == st.cur && |r.0.blocks| >= |st.blocks| && r.1 < |r.0.blocks|
    decreases s, 3
  {
    var inner := LowerSmt(SetBlock(st, b), s);
    (SetBlock(inner, st.cur), inner.cur)
  }

  /** Continues block `out` at `end` unless it already ends in a terminator. */
  function Join(st: State, out: nat, end: nat): (r: State)
    requires Ok(st) && out < |st.blocks|
    ensures r.cur == st.cur && |r.blocks| == |st.blocks|
  {
    if Terminated(st.blocks[out]) then st
    else SetBlock(Emit(SetBlock(st, out), Br(end)), st.cur)
  }

  /** One link of an if / else-if / else chain whose code continues at `end`;
      `at` is the block set aside for the link, none for the first one. */
  function LowerBranch(st: State, s: Source.Smt, at: Option<nat>, end: nat): (r: State)
    requires Ok(st) && end < |st.blocks| && (at.Some? ==> at.value < |st.blocks|)
    ensures Ok(r) && |r.blocks| >= |st.blocks|
    decreases s, 1
  {
    if !s.If? then st
    else if s.cond.None? then
      var (s1, out) := BlockAt(st, s.body, if at.Some? then at.value else st.cur);
      if Terminated(s1.blocks[out]) then SetBlock(s1, out)
      else SetBlock(Emit(SetBlock(s1, out), Br(end)), end)
    else
      var parent := if at.Some? then at.value else st.cur;
      var (s1, ifFalse) := Test(st, s, parent, end);
      var s2 := SetBlock(s1, ifFalse);
      var s3 := if s.elses.Some? then LowerBranch(s2, s.elses.value, Some(ifFalse), end) else s2;
      SetBlock(s3, end)
  }

  /** The body at a new block, joined to `end` when it falls through, and then the
      test that chooses between the body and the block to try next. */
  function Test(st: State, s: Source.Smt, parent: nat, end: nat): (r: (State, nat))
    requires Ok(st) && s.If? && s.cond.Some? && parent < |st.blocks| && end < |st.blocks|
    ensures Ok(r.0) && |r.0.blocks| >= |st.blocks| && r.1 < |r.0.blocks|
    decreases s, 0
  {
    var block := |st.blocks|;
    var ifFalse := if s.elses.Some? then block + 1 else end;
    var s2 := Opened(st, s);
    var (s3, out) := BlockAt(s2, s.body, block);
    var s4 := if Terminated(s3.blocks[out]) then s3 else SetBlock(Join(s3, out, end), parent);
    var (s5, c) := LowerExp(s4, s.cond.value);
    (Emit(s5, CondBr(c, block, ifFalse)), ifFalse)
  }

  /** The block for the body of an if and, when something follows an else, one for that. */
  function Opened(st: State, s: Source.Smt): State
    requires s.If?
  {
    if s.elses.Some? then Append(Append(st)) else Append(st)
  }

  function LowerLoop(st: State, s: Source.Smt): (r: State)
    requires Ok(st) && s.For?
    ensures Ok(r) && |r.blocks| >= |st.blocks|
    decreases s, 1
  {
    var (s1, header, out, exit) := Entry(st, s);
    var s2 := LowerSmt(SetBlock(s1, out), s.inc);
    var (s3, again) := LowerExp(s2, s.test);
    SetBlock(Emit(s3, CondBr(again, header, exit)), exit)
  }

  /** The loop variable, the body at a new block, and the guarded entry into it:
      gives the state, the header, the block the body ends in, and the exit. */
  function Entry(st: State, s: Source.Smt): (r: (State, nat, nat, nat))
    requires Ok(st) && s.For?
    ensures r.0.cur == st.cur && |r.0.blocks| >= |st.blocks|
    ensures r.1 < |r.0.blocks| && r.2 < |r.0.blocks| && r.3 < |r.0.blocks|
    decreases s, 0
  {
    var s1 := LowerVariable(st, s.index);
    var header := |s1.blocks|;
    var (s2, out) := BlockAt(Append(s1), s.loop, header);
    var (s3, first) := LowerExp(s2, s.test);
    var exit := |s3.blocks|;
    (Emit(Append(s3), CondBr(first, header, exit)), header, out, exit)
  }

  // ---------- functions ----------

  /** The entry block and, for each parameter, a cell holding the argument. */
  function LowerParams(params: seq<Parameter>, sigs: seq<Signature>, ret: Width): (r: State)
    ensures r.cur == 0 && |r.blocks| == 1
  {
    if params == [] then State([[]], 0, 0, map[], sigs, ret)
    else
      var i := |params| - 1;
      LowerParam(LowerParams(params[..i], sigs, ret), params[i], i)
  }

  function LowerParam(st: State, p: Parameter, i: nat): (r: State)
    requires Ok(st)
    ensures r.cur == st.cur && |r.blocks| == |st.blocks|
  {
    var s1 := Emit(Define(st, Alloca(st.next, p.ty)), Store(Param(p.ty, i), st.next));
    s1.(slots := s1.slots[p.dcl := Slot(st.next, p.ty)])
  }

  function LowerFunction(f: Function, sigs: seq<Signature>): (r: State)
    ensures Ok(r)
  {
    LowerSmt(LowerParams(f.params, sigs, f.ret), f.body)
  }

  /** The block that is deleted when code generation ends in it and it is empty. */
  function Deleted(r: State): Option<nat>
    requires Ok(r)
  {
    if r.blocks[r.cur] == [] then Some(r.cur) else None
  }

  /** The blocks that are left then. */
  function Remaining(r: State): Code
    requires Ok(r)
  {
    map k: nat | k < |r.blocks| && Deleted(r) != Some(k) :: r.blocks[k]
  }
}
