/** The target: basic blocks, registers and memory cells, and a step machine.
    It stands for the part of LLVM that the statement compiler talks to. */
module Ir {
  import opened Wrappers
  import opened Ints

  datatype Operand =
    | Const(width: Width, value: int)
    | Reg(width: Width, id: nat)
    | Param(width: Width, index: nat)

  datatype Instr =
    | Alloca(dst: nat, cell: Width)
    | Load(dst: nat, cell: Width, addr: nat)
    | Store(src: Operand, addr: nat)
    | Bin(dst: nat, op: BinOp, left: Operand, right: Operand)
    | IntCast(dst: nat, src: Operand, to: Width)
    | Call(dst: nat, fn: nat, args: seq<Operand>)
    | Br(target: nat)
    | CondBr(cond: Operand, ifTrue: nat, ifFalse: nat)
    | Ret(result: Operand)

  type Block = seq<Instr>

  predicate IsTerminator(i: Instr) {
    i.Br? || i.CondBr? || i.Ret?
  }

  /** `LLVMGetBasicBlockTerminator(b) != NULL`: only the last instruction counts. */
  predicate Terminated(b: Block) {
    |b| > 0 && IsTerminator(b[|b| - 1])
  }

  /** What calling a function with given arguments does. A pair that is not a key
      is a call that does not come back. */
  datatype CallOutcome = Returns(value: int) | Traps
  datatype Invocation = Invocation(fn: nat, args: seq<int>)
  type Oracle = imap<Invocation, CallOutcome>

  /** The blocks of a function. A block that was deleted leaves its number unused. */
  type Code = map<nat, Block>

  datatype Machine = Machine(code: Code, args: seq<int>, calls: Oracle)

  type Registers = map<nat, int>
  datatype Cell = Cell(width: Width, value: int)
  type Memory = seq<Cell>

  /** `Trapped` is undefined arithmetic, `Hung` a call that never comes back and
      `Stuck` ill-formed code: an undefined register, a bad address, operands of
      the wrong width, or running off the end of a block. `Lost` is a branch to a
      block that is not there. */
  datatype Config =
    | Running(block: nat, index: nat, regs: Registers, mem: Memory)
    | Halted(value: int)
    | Trapped
    | Hung
    | Stuck
    | Lost

  function Value(o: Operand, regs: Registers, args: seq<int>): Option<int> {
    match o
    case Const(_, v) => Some(v)
    case Reg(_, r) => if r in regs then Some(regs[r]) else None
    case Param(_, i) => if i < |args| then Some(args[i]) else None
  }

  function Values(os: seq<Operand>, regs: Registers, args: seq<int>): (r: Option<seq<int>>)
    ensures r.Some? ==> |r.value| == |os|
    ensures r.Some? <==> forall i :: 0 <= i < |os| ==> Value(os[i], regs, args).Some?
    ensures r.Some? ==> forall i :: 0 <= i < |os| ==> Value(os[i], regs, args) == Some(r.value[i])
  {
    if os == [] then Some([])
    else
      var init := Values(os[..|os| - 1], regs, args);
      var last := Value(os[|os| - 1], regs, args);
      if init.Some? && last.Some? then Some(init.value + [last.value]) else None
  }

  function Address(r: nat, regs: Registers, mem: Memory): Option<nat> {
    if r in regs && 0 <= regs[r] < |mem| then Some(regs[r]) else None
  }

  /** The effect of one instruction of a running machine. */
  function Execute(m: Machine, c: Config, i: Instr): Config
    requires c.Running?
  {
    var Running(b, k, regs, mem) := c;
    match i
    case Alloca(dst, w) => Running(b, k + 1, regs[dst := |mem|], mem + [Cell(w, 0)])
    case Load(dst, w, addr) =>
      var a := Address(addr, regs, mem);
      if a.None? || mem[a.value].width != w then Stuck
      else Running(b, k + 1, regs[dst := mem[a.value].value], mem)
    case Store(src, addr) =>
      var v := Value(src, regs, m.args);
      var a := Address(addr, regs, mem);
      if v.None? || a.None? || mem[a.value].width != src.width then Stuck
      else Running(b, k + 1, regs, mem[a.value := Cell(src.width, v.value)])
    case Bin(dst, op, l, r) =>
      var x := Value(l, regs, m.args);
      var y := Value(r, regs, m.args);
      if x.None? || y.None? || l.width != r.width then Stuck
      else
        var v := Arith(op, l.width, x.value, y.value);
        if v.None? then Trapped else Running(b, k + 1, regs[dst := v.value], mem)
    case IntCast(dst, src, to) =>
      var v := Value(src, regs, m.args);
      if v.None? then Stuck else Running(b, k + 1, regs[dst := Wrap(to, v.value)], mem)
    case Call(dst, fn, args) =>
      var vs := Values(args, regs, m.args);
      if vs.None? then Stuck
      else if Invocation(fn, vs.value) !in m.calls then Hung
      else if m.calls[Invocation(fn, vs.value)].Traps? then Trapped
      else Running(b, k + 1, regs[dst := m.calls[Invocation(fn, vs.value)].value], mem)
    case Br(t) => Running(t, 0, regs, mem)
    case CondBr(cond, t, f) =>
      var v := Value(cond, regs, m.args);
      if v.None? || cond.width != I1 then Stuck
      else Running(if v.value != 0 then t else f, 0, regs, mem)
    case Ret(result) =>
      var v := Value(result, regs, m.args);
      if v.None? then Stuck else Halted(v.value)
  }

  function Step(m: Machine, c: Config): Config {
    if !c.Running? then c
    else if c.block !in m.code then Lost
    else if c.index < |m.code[c.block]| then Execute(m, c, m.code[c.block][c.index])
    else Stuck
  }

  function Run(m: Machine, c: Config, n: nat): Config
    decreases n
  {
    if n == 0 then c else Run(m, Step(m, c), n - 1)
  }

  lemma {:induction false} RunPlus(m: Machine, c: Config, a: nat, b: nat)
    ensures Run(m, c, a + b) == Run(m, Run(m, c, a), b)
    decreases a
  {
    if a != 0 {
      RunPlus(m, Step(m, c), a - 1, b);
    }
  }

  lemma {:induction false} RunStopped(m: Machine, c: Config, n: nat)
    requires !c.Running?
    ensures Run(m, c, n) == c
    decreases n
  {
    if n != 0 {
      RunStopped(m, c, n - 1);
    }
  }

  /** Once a machine has stopped it stays as it is. */
  lemma RunMonotone(m: Machine, c: Config, a: nat, b: nat)
    requires a <= b && !Run(m, c, a).Running?
    ensures Run(m, c, b) == Run(m, c, a)
  {
    RunPlus(m, c, a, b - a);
    RunStopped(m, Run(m, c, a), b - a);
  }
}
