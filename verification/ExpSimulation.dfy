/** Straight-line code: what an expression's code leaves in its register is what
    the evaluator gives, and nothing older than that code is disturbed. */
module ExpSimulation {
  import opened Wrappers
  import opened Ints
  import opened Ir
  import opened Source
  import opened Lowering
  import opened Growth

  /** The cell of `d` holds `v`. */
  ghost predicate Holds(fin: State, d: Dcl, v: Val, regs: Registers, mem: Memory) {
    && d in fin.slots
    && fin.slots[d].reg in regs
    && 0 <= regs[fin.slots[d].reg] < |mem|
    && mem[regs[fin.slots[d].reg]] == Cell(v.w, v.v)
    && fin.slots[d].width == v.w
    && InRange(v.w, v.v)
  }

  ghost predicate Apart(fin: State, d: Dcl, e: Dcl, regs: Registers) {
    && d in fin.slots && e in fin.slots
    && fin.slots[d].reg in regs && fin.slots[e].reg in regs
    && regs[fin.slots[d].reg] != regs[fin.slots[e].reg]
  }

  /** Every variable of the store has a cell of its own that holds its value. */
  ghost predicate Match(fin: State, store: Store, regs: Registers, mem: Memory) {
    && (forall d :: d in store ==> Holds(fin, d, store[d], regs, mem))
    && (forall d, e :: d in store && e in store && d != e ==> Apart(fin, d, e, regs))
  }

  /** Registers outside `lo..hi` are as they were. */
  ghost predicate Kept(before: Registers, after: Registers, lo: nat, hi: nat) {
    forall k :: k in before && !(lo <= k < hi) ==> k in after && after[k] == before[k]
  }

  ghost predicate OracleOk(ctx: Context) {
    forall k :: k in ctx.calls && k.fn < |ctx.sigs| && ctx.calls[k].Returns?
      ==> InRange(ctx.sigs[k.fn].ret, ctx.calls[k].value)
  }

  /** The visible variables have been compiled and are in the store. */
  ghost predicate Visible(env: Env, st: State, store: Store) {
    forall d :: d in env ==> d in st.slots && d in store && st.slots[d].width == env[d]
  }

  /** The code of `m` has all blocks of the finished graph `fin` that are not empty. */
  ghost predicate Carried(m: Machine, fin: State) {
    forall k :: 0 <= k < |fin.blocks| && fin.blocks[k] != [] ==> k in m.code && m.code[k] == fin.blocks[k]
  }

  /** Machine `m` runs the finished graph `fin` in the same surroundings as `ctx`. */
  ghost predicate Hosts(m: Machine, fin: State, ctx: Context) {
    && Carried(m, fin) && m.calls == ctx.calls
    && ctx.sigs == fin.sigs && ctx.ret == fin.ret
    && OracleOk(ctx)
  }

  /** The machine is about to execute what is appended to `st` next. */
  ghost predicate At(st: State, c: Config) {
    Ok(st) && c.Running? && c.block == st.cur && c.index == |st.blocks[st.cur]|
  }

  ghost predicate Stands(m: Machine, fin: State, ctx: Context, st: State, env: Env, store: Store, c: Config) {
    && Hosts(m, fin, ctx)
    && At(st, c) && SlotsBelow(st)
    && Match(fin, store, c.regs, c.mem)
    && Visible(env, st, store)
  }

  lemma StepEmitted(m: Machine, fin: State, st: State, i: Instr, c: Config)
    requires Carried(m, fin) && At(st, c) && Grown(Emit(st, i), fin)
    ensures Step(m, c) == Execute(m, c, i)
    ensures Run(m, c, 1) == Execute(m, c, i)
  {
    var b := Emit(st, i).blocks[st.cur];
    assert Prefix(b, fin.blocks[st.cur]);
    assert b[c.index] == i;
    assert Run(m, c, 1) == Run(m, Step(m, c), 0);
  }

  lemma StepDefined(m: Machine, fin: State, st: State, i: Instr, c: Config)
    requires Carried(m, fin) && At(st, c) && Grown(Define(st, i), fin)
    ensures Step(m, c) == Execute(m, c, i)
    ensures Run(m, c, 1) == Execute(m, c, i)
  {
    var b := Define(st, i).blocks[st.cur];
    assert Prefix(b, fin.blocks[st.cur]);
    assert b[c.index] == i;
    assert Run(m, c, 1) == Run(m, Step(m, c), 0);
  }

  /** Registers defined by expression code are never the address of a variable. */
  lemma MatchKept(fin: State, st: State, r: State, store: Store, before: Registers, after: Registers, mem: Memory)
    requires SlotsBelow(st) && r.slots == st.slots && Later(r, fin)
    requires Match(fin, store, before, mem) && Kept(before, after, st.next, r.next)
    ensures Match(fin, store, after, mem)
  {
    forall d | d in store ensures Holds(fin, d, store[d], after, mem) {
      assert Holds(fin, d, store[d], before, mem);
    }
    forall d, e | d in store && e in store && d != e ensures Apart(fin, d, e, after) {
      assert Apart(fin, d, e, before) && Holds(fin, d, store[d], before, mem) && Holds(fin, e, store[e], before, mem);
    }
  }

  /** Operand `o`, a constant or a register older than `next`, has value `x`. */
  ghost predicate Carries(m: Machine, o: Operand, regs: Registers, next: nat, x: Val) {
    && Value(o, regs, m.args) == Some(x.v) && o.width == x.w && InRange(x.w, x.v)
    && (o.Reg? ==> o.id < next)
  }

  /** Where code for an expression ends up: past its last instruction with the value
      in operand `o`, or stopped exactly as the evaluator stops. */
  ghost predicate Yields(m: Machine, st: State, c: Config, r: State, o: Operand, c': Config, v: EvalResult) {
    match v
    case Gives(x) => Passes(st, c, r, c') && Carries(m, o, c'.regs, r.next, x)
    case Trap => c' == Trapped
    case Hang => c' == Hung
    case Wrong => false
  }

  /** From the point of `st` to the point of `r`, memory and old registers untouched. */
  ghost predicate Passes(st: State, c: Config, r: State, c': Config) {
    && At(st, c) && At(r, c') && r.cur == st.cur && c'.mem == c.mem
    && Kept(c.regs, c'.regs, st.next, r.next)
  }

  lemma PassesTransitive(a: State, c: Config, b: State, c1: Config, r: State, c2: Config)
    requires Passes(a, c, b, c1) && Passes(b, c1, r, c2) && a.next <= b.next <= r.next
    ensures Passes(a, c, r, c2)
  {
  }

  /** An operand computed earlier still has its value. */
  lemma CarriesLater(m: Machine, o: Operand, x: Val, st: State, c: Config, r: State, c': Config)
    requires Passes(st, c, r, c') && Carries(m, o, c.regs, st.next, x) && st.next <= r.next
    ensures Carries(m, o, c'.regs, r.next, x)
  {
  }

  lemma RunCast(m: Machine, fin: State, st: State, o: Operand, w: Width, c: Config, x: Val) returns (n: nat)
    requires Carried(m, fin) && At(st, c) && Carries(m, o, c.regs, st.next, x)
    requires Later(LowerCast(st, o, w).0, fin)
    ensures var (r, o') := LowerCast(st, o, w);
      Yields(m, st, c, r, o', Run(m, c, n), Gives(Val(w, Wrap(w, x.v))))
  {
    if o.width == w {
      n := 0;
      WrapIdentity(w, x.v);
    } else {
      n := 1;
      StepDefined(m, fin, st, IntCast(st.next, o, w), c);
    }
  }

  lemma RunBin(m: Machine, fin: State, st: State, op: BinOp, a: Operand, b: Operand, c: Config, x: Val, y: Val)
    requires Carried(m, fin) && At(st, c) && x.w == y.w
    requires Carries(m, a, c.regs, st.next, x) && Carries(m, b, c.regs, st.next, y)
    requires Later(Define(st, Bin(st.next, op, a, b)), fin)
    ensures var v := Arith(op, x.w, x.v, y.v);
      Yields(m, st, c, Define(st, Bin(st.next, op, a, b)), Reg(ResultWidth(op, x.w), st.next), Run(m, c, 1),
             if v.None? then Trap else Gives(Val(ResultWidth(op, x.w), v.value)))
  {
    StepDefined(m, fin, st, Bin(st.next, op, a, b), c);
  }

  /** Both operands, cast to the common width, keep their signed values. */
  lemma RunPromote(m: Machine, fin: State, st: State, a: Operand, b: Operand, c: Config, x: Val, y: Val) returns (n: nat)
    requires Carried(m, fin) && At(st, c) && SlotsBelow(st)
    requires Carries(m, a, c.regs, st.next, x) && Carries(m, b, c.regs, st.next, y)
    requires Later(LowerCast(LowerCast(st, a, Promote(x.w, y.w)).0, b, Promote(x.w, y.w)).0, fin)
    ensures var w := Promote(x.w, y.w);
      var (s1, a') := LowerCast(st, a, w);
      var (s2, b') := LowerCast(s1, b, w);
      && Passes(st, c, s2, Run(m, c, n))
      && Carries(m, a', Run(m, c, n).regs, s2.next, Val(w, x.v))
      && Carries(m, b', Run(m, c, n).regs, s2.next, Val(w, y.v))
  {
    var w := Promote(x.w, y.w);
    var (s1, a') := LowerCast(st, a, w);
    CastTouches(st, a, w);
    CastTouches(s1, b, w);
    var (s2, b') := LowerCast(s1, b, w);
    LaterTransitive(s1, s2, fin);
    PromoteKeepsValue(x.w, y.w, x.v);
    WrapIdentity(w, y.v);
    var n1 := RunCast(m, fin, st, a, w, c, x);
    var c1 := Run(m, c, n1);
    CarriesLater(m, b, y, st, c, s1, c1);
    var n2 := RunCast(m, fin, s1, b, w, c1, y);
    var c2 := Run(m, c1, n2);
    CarriesLater(m, a', Val(w, x.v), s1, c1, s2, c2);
    PassesTransitive(st, c, s1, c1, s2, c2);
    RunPlus(m, c, n1, n2);
    n := n1 + n2;
  }

  lemma RunOperate(m: Machine, fin: State, st: State, op: BinOp, a: Operand, b: Operand, c: Config, x: Val, y: Val) returns (n: nat)
    requires Carried(m, fin) && At(st, c) && SlotsBelow(st)
    requires Carries(m, a, c.regs, st.next, x) && Carries(m, b, c.regs, st.next, y)
    requires Later(Operate(st, op, a, b).0, fin)
    ensures var (r, o) := Operate(st, op, a, b);
      var w := Promote(x.w, y.w);
      var v := Arith(op, w, x.v, y.v);
      Yields(m, st, c, r, o, Run(m, c, n), if v.None? then Trap else Gives(Val(ResultWidth(op, w), v.value)))
  {
    var w := Promote(x.w, y.w);
    var (s1, a') := LowerCast(st, a, w);
    var (s2, b') := LowerCast(s1, b, w);
    CastTouches(st, a, w);
    CastTouches(s1, b, w);
    var i := Bin(s2.next, op, a', b');
    EmitTouches(s2, i);
    LaterTransitive(s2, Define(s2, i), fin);
    var n1 := RunPromote(m, fin, st, a, b, c, x, y);
    var c1 := Run(m, c, n1);
    RunBin(m, fin, s2, op, a', b', c1, Val(w, x.v), Val(w, y.v));
    RunPlus(m, c, n1, 1);
    n := n1 + 1;
    var v := Arith(op, w, x.v, y.v);
    if v.Some? {
      PassesTransitive(st, c, s2, c1, Define(s2, i), Run(m, c1, 1));
    }
  }

  /** Expression code leaves the machine standing in the same place, further on. */
  lemma StandsAfter(m: Machine, fin: State, ctx: Context, st: State, env: Env, store: Store, c: Config, r: State, c': Config)
    requires Stands(m, fin, ctx, st, env, store, c) && Passes(st, c, r, c')
    requires r.slots == st.slots && SlotsBelow(r) && Later(r, fin)
    ensures Stands(m, fin, ctx, r, env, store, c')
  {
    MatchKept(fin, st, r, store, c.regs, c'.regs, c.mem);
  }

  lemma YieldsAfter(m: Machine, st: State, c: Config, s1: State, c1: Config, r: State, o: Operand, c': Config, v: EvalResult)
    requires Passes(st, c, s1, c1) && Yields(m, s1, c1, r, o, c', v)
    requires st.next <= s1.next <= r.next
    ensures Yields(m, st, c, r, o, c', v)
  {
    if v.Gives? {
      PassesTransitive(st, c, s1, c1, r, c');
    }
  }

  /** The generated operand has the expression's static width. */
  lemma {:induction false} ExpWidth(st: State, e: Source.Exp, env: Env)
    requires Ok(st) && SlotsBelow(st) && ExpType(e, env, st.sigs).Some?
    requires forall d :: d in env ==> d in st.slots && st.slots[d].width == env[d]
    ensures LowerExp(st, e).1.width == ExpType(e, env, st.sigs).value
    decreases e
  {
    match e
    case Literal(_) =>
    case BoolLit(_) =>
    case Ident(_) =>
    case Unary(_, x) => ExpWidth(st, x, env);
    case Binary(l, _, r) =>
      ExpWidth(st, l, env);
      ExpTouches(st, l);
      ExpWidth(LowerExp(st, l).0, r, env);
    case CallExp(_, args) =>
      ArgsTouches(st, args);
  }

  /** The code of an expression computes the evaluator's value. */
  lemma {:induction false} RunExp(m: Machine, fin: State, ctx: Context, st: State, e: Source.Exp, env: Env, store: Store, c: Config) returns (n: nat)
    requires Stands(m, fin, ctx, st, env, store, c)
    requires ExpType(e, env, st.sigs).Some? && Later(LowerExp(st, e).0, fin)
    ensures var (r, o) := LowerExp(st, e);
      Yields(m, st, c, r, o, Run(m, c, n), Eval(e, store, ctx))
    decreases e, 2
  {
    hide LowerArgs, EvalArgs, Later;
    match e
    case Literal(_) => n := 0;
    case BoolLit(_) => n := 0;
    case Ident(d) => n := RunIdent(m, fin, ctx, st, d, env, store, c);
    case Unary(op, x) =>
      if op.Plus? {
        n := RunExp(m, fin, ctx, st, x, env, store, c);
      } else {
        n := RunMinus(m, fin, ctx, st, x, env, store, c);
      }
    case Binary(l, op, r) =>
      n := RunBinary(m, fin, ctx, st, e, env, store, c);
    case CallExp(f, args) =>
      n := RunCall(m, fin, ctx, st, e, env, store, c);
  }

  /** A load from the variable's cell. */
  lemma RunIdent(m: Machine, fin: State, ctx: Context, st: State, d: Dcl, env: Env, store: Store, c: Config) returns (n: nat)
    requires Stands(m, fin, ctx, st, env, store, c)
    requires d in env && Later(LowerExp(st, Ident(d)).0, fin)
    ensures var (r, o) := LowerExp(st, Ident(d));
      Yields(m, st, c, r, o, Run(m, c, n), Eval(Ident(d), store, ctx))
  {
    n := 1;
    var s := SlotOf(st, d);
    assert Holds(fin, d, store[d], c.regs, c.mem);
    StepDefined(m, fin, st, Load(st.next, s.width, s.reg), c);
  }

  lemma MinusInside(st: State, x: Source.Exp, fin: State)
    requires Ok(st) && SlotsBelow(st) && Later(LowerExp(st, Unary(Minus, x)).0, fin)
    ensures Inside(st, LowerExp(st, x).0, fin)
  {
    var (s1, o) := LowerExp(st, x);
    ExpTouches(st, x);
    EmitTouches(s1, Bin(s1.next, Mul, Const(o.width, -1), o));
    LaterTransitive(s1, LowerExp(st, Unary(Minus, x)).0, fin);
  }

  lemma {:induction false} RunMinus(m: Machine, fin: State, ctx: Context, st: State, x: Source.Exp, env: Env, store: Store, c: Config) returns (n: nat)
    requires Stands(m, fin, ctx, st, env, store, c)
    requires ExpType(x, env, st.sigs).Some? && Later(LowerExp(st, Unary(Minus, x)).0, fin)
    ensures var (r, o) := LowerExp(st, Unary(Minus, x));
      Yields(m, st, c, r, o, Run(m, c, n), Eval(Unary(Minus, x), store, ctx))
    decreases x, 3
  {
    hide Define, Step, Later, Carried, Passes;
    var (s1, o) := LowerExp(st, x);
    MinusInside(st, x, fin);
    n := RunExp(m, fin, ctx, st, x, env, store, c);
    var v := Eval(x, store, ctx);
    if v.Gives? {
      RunNegate(m, fin, st, c, s1, o, Run(m, c, n), v.val);
      RunPlus(m, c, n, 1);
      n := n + 1;
    }
  }

  lemma RunNegate(m: Machine, fin: State, st: State, c: Config, s1: State, o: Operand, c1: Config, x: Val)
    requires Carried(m, fin) && st.next <= s1.next
    requires Passes(st, c, s1, c1) && Carries(m, o, c1.regs, s1.next, x)
    requires Later(Define(s1, Bin(s1.next, Mul, Const(o.width, -1), o)), fin)
    ensures Yields(m, st, c, Define(s1, Bin(s1.next, Mul, Const(o.width, -1), o)), Reg(o.width, s1.next), Run(m, c1, 1),
                   Gives(Val(x.w, Wrap(x.w, -x.v))))
  {
    assert -1 * x.v == -x.v;
    RunBin(m, fin, s1, Mul, Const(o.width, -1), o, c1, Val(x.w, -1), x);
    YieldsAfter(m, st, c, s1, c1, Define(s1, Bin(s1.next, Mul, Const(o.width, -1), o)), Reg(o.width, s1.next), Run(m, c1, 1),
                Gives(Val(x.w, Wrap(x.w, -x.v))));
  }

  /** What running the pieces of an expression needs to know of its code. */
  ghost predicate Inside(st: State, r: State, fin: State) {
    Later(r, fin) && SlotsBelow(r) && r.slots == st.slots && r.sigs == st.sigs && st.next <= r.next
  }

  lemma ExpInside(st: State, e: Source.Exp, fin: State)
    requires Ok(st) && SlotsBelow(st)
    ensures Later(LowerExp(st, e).0, fin) ==> Inside(st, LowerExp(st, e).0, fin) && Later(st, fin)
    ensures SlotsBelow(LowerExp(st, e).0)
  {
    ExpTouches(st, e);
    if Later(LowerExp(st, e).0, fin) {
      LaterTransitive(st, LowerExp(st, e).0, fin);
    }
  }

  lemma OperateInside(st: State, op: BinOp, a: Operand, b: Operand, fin: State)
    requires Ok(st) && SlotsBelow(st) && Later(Operate(st, op, a, b).0, fin)
    ensures Inside(st, Operate(st, op, a, b).0, fin) && Later(st, fin)
  {
    OperateTouches(st, op, a, b);
    LaterTransitive(st, Operate(st, op, a, b).0, fin);
  }

  lemma OperandsInside(st: State, l: Source.Exp, r: Source.Exp, op: BinOp, fin: State)
    requires Ok(st) && SlotsBelow(st) && Later(LowerExp(st, Binary(l, op, r)).0, fin)
    ensures var (s1, a) := LowerExp(st, l);
      var (s2, b) := LowerExp(s1, r);
      Inside(st, s1, fin) && Inside(s1, s2, fin) && s2.next <= Operate(s2, op, a, b).0.next
  {
    var (s1, a) := LowerExp(st, l);
    var (s2, b) := LowerExp(s1, r);
    ExpInside(st, l, fin);
    ExpInside(s1, r, fin);
    OperateInside(s2, op, a, b, fin);
  }

  lemma {:induction false} RunBinary(m: Machine, fin: State, ctx: Context, st: State, e: Source.Exp, env: Env, store: Store, c: Config) returns (n: nat)
    requires Stands(m, fin, ctx, st, env, store, c) && e.Binary?
    requires ExpType(e, env, st.sigs).Some? && Later(LowerExp(st, e).0, fin)
    ensures var (r, o) := LowerExp(st, e);
      Yields(m, st, c, r, o, Run(m, c, n), Eval(e, store, ctx))
    decreases e, 0
  {
    hide Operate, Passes, Later, Match, Visible;
    var (s1, a) := LowerExp(st, e.left);
    var (s2, b) := LowerExp(s1, e.rhs);
    var (s3, o) := Operate(s2, e.op, a, b);
    OperandsInside(st, e.left, e.rhs, e.op, fin);
    n := RunExp(m, fin, ctx, st, e.left, env, store, c);
    var c1 := Run(m, c, n);
    var v := Eval(e.left, store, ctx);
    if v.Gives? {
      StandsAfter(m, fin, ctx, st, env, store, c, s1, c1);
      var n2 := RunExp(m, fin, ctx, s1, e.rhs, env, store, c1);
      var c2 := Run(m, c1, n2);
      RunPlus(m, c, n, n2);
      n := n + n2;
      var y := Eval(e.rhs, store, ctx);
      if y.Gives? {
        CarriesLater(m, a, v.val, s1, c1, s2, c2);
        PassesTransitive(st, c, s1, c1, s2, c2);
        var n3 := RunOperate(m, fin, s2, e.op, a, b, c2, v.val, y.val);
        YieldsAfter(m, st, c, s2, c2, s3, o, Run(m, c2, n3), Eval(e, store, ctx));
        RunPlus(m, c, n, n3);
        n := n + n3;
      }
    }
  }

  /** Where code for an argument list ends up. */
  ghost predicate YieldsArgs(m: Machine, st: State, c: Config, r: State, os: seq<Operand>, c': Config, v: ArgsResult) {
    match v
    case Args(xs) =>
      && Passes(st, c, r, c') && |os| == |xs|
      && forall i :: 0 <= i < |os| ==> Carries(m, os[i], c'.regs, r.next, xs[i])
    case ArgsTrap => c' == Trapped
    case ArgsHang => c' == Hung
    case ArgsWrong => false
  }

  lemma ArgsInside(st: State, args: seq<Source.Exp>, fin: State)
    requires Ok(st) && SlotsBelow(st) && args != [] && Later(LowerArgs(st, args).0, fin)
    ensures var s1 := LowerExp(st, args[0]).0;
      Inside(st, s1, fin) && s1.next <= LowerArgs(s1, args[1..]).0.next
  {
    var s1 := LowerExp(st, args[0]).0;
    ExpTouches(st, args[0]);
    ArgsTouches(s1, args[1..]);
    LaterTransitive(s1, LowerArgs(s1, args[1..]).0, fin);
  }

  lemma {:induction false} RunArgs(m: Machine, fin: State, ctx: Context, st: State, args: seq<Source.Exp>, params: seq<Width>, env: Env, store: Store, c: Config) returns (n: nat)
    requires Stands(m, fin, ctx, st, env, store, c)
    requires ArgsMatch(args, params, env, st.sigs) && Later(LowerArgs(st, args).0, fin)
    ensures var (r, os) := LowerArgs(st, args);
      var v := EvalArgs(args, store, ctx);
      YieldsArgs(m, st, c, r, os, Run(m, c, n), v) && (v.Args? ==> Widths(v.vals) == params)
    decreases args
  {
    hide Later, LowerExp, Eval;
    if args == [] {
      n := 0;
    } else {
      var (s1, o) := LowerExp(st, args[0]);
      var (s2, os) := LowerArgs(s1, args[1..]);
      ArgsInside(st, args, fin);
      n := RunExp(m, fin, ctx, st, args[0], env, store, c);
      var c1 := Run(m, c, n);
      if Eval(args[0], store, ctx).Gives? {
        ExpWidth(st, args[0], env);
        StandsAfter(m, fin, ctx, st, env, store, c, s1, c1);
        var n2 := RunArgs(m, fin, ctx, s1, args[1..], params[1..], env, store, c1);
        RunPlus(m, c, n, n2);
        ArgsAfter(m, st, c, s1, o, c1, Eval(args[0], store, ctx).val, s2, os, Run(m, c1, n2), EvalArgs(args[1..], store, ctx));
        n := n + n2;
      }
    }
  }

  lemma ArgsAfter(m: Machine, st: State, c: Config, s1: State, o: Operand, c1: Config, x: Val, s2: State, os: seq<Operand>, c2: Config, rest: ArgsResult)
    requires Passes(st, c, s1, c1) && Carries(m, o, c1.regs, s1.next, x) && YieldsArgs(m, s1, c1, s2, os, c2, rest)
    requires st.next <= s1.next <= s2.next
    ensures YieldsArgs(m, st, c, s2, [o] + os, c2, if rest.Args? then Args([x] + rest.vals) else rest)
    ensures rest.Args? ==> Widths([x] + rest.vals) == [o.width] + Widths(rest.vals)
  {
    if rest.Args? {
      CarriesLater(m, o, x, s1, c1, s2, c2);
      PassesTransitive(st, c, s1, c1, s2, c2);
    }
  }

  lemma RunCallInstr(m: Machine, fin: State, ctx: Context, st: State, f: nat, os: seq<Operand>, c: Config, xs: seq<Val>)
    requires Hosts(m, fin, ctx) && At(st, c) && |os| == |xs|
    requires forall i :: 0 <= i < |os| ==> Carries(m, os[i], c.regs, st.next, xs[i])
    requires Later(Define(st, Call(st.next, f, os)), fin) && f < |ctx.sigs|
    ensures Yields(m, st, c, Define(st, Call(st.next, f, os)), Reg(ctx.sigs[f].ret, st.next), Run(m, c, 1),
                   if Invocation(f, Numbers(xs)) !in ctx.calls then Hang
                   else match ctx.calls[Invocation(f, Numbers(xs))]
                     case Traps => Trap
                     case Returns(v) => Gives(Val(ctx.sigs[f].ret, v)))
  {
    StepDefined(m, fin, st, Call(st.next, f, os), c);
    assert Values(os, c.regs, m.args).value == Numbers(xs);
  }

  lemma {:induction false} RunCall(m: Machine, fin: State, ctx: Context, st: State, e: Source.Exp, env: Env, store: Store, c: Config) returns (n: nat)
    requires Stands(m, fin, ctx, st, env, store, c) && e.CallExp?
    requires ExpType(e, env, st.sigs).Some? && Later(LowerExp(st, e).0, fin)
    ensures var (r, o) := LowerExp(st, e);
      Yields(m, st, c, r, o, Run(m, c, n), Eval(e, store, ctx))
    decreases e, 0
  {
    hide Run, LowerArgs;
    var f := e.function_;
    var (s1, os) := LowerArgs(st, e.args);
    ArgsTouches(st, e.args);
    var i := Call(s1.next, f, os);
    EmitTouches(s1, i);
    LaterTransitive(s1, Define(s1, i), fin);
    n := RunArgs(m, fin, ctx, st, e.args, st.sigs[f].params, env, store, c);
    var c1 := Run(m, c, n);
    var v := EvalArgs(e.args, store, ctx);
    if v.Args? {
      RunCallInstr(m, fin, ctx, s1, f, os, c1, v.vals);
      YieldsAfter(m, st, c, s1, c1, Define(s1, i), Reg(st.sigs[f].ret, s1.next), Run(m, c1, 1), Eval(e, store, ctx));
      RunPlus(m, c, n, 1);
      n := n + 1;
    }
  }
}
