/** Forward simulation of statements: from the point where a statement's code
    starts, the block graph does what the evaluator does. */
module Simulation {
  import opened Wrappers
  import opened Ints
  import opened Ir
  import opened Source
  import opened Lowering
  import opened Growth
  import opened Layout
  import opened ExpSimulation

  /** Where a machine is `n` steps after it entered code that ends at the point of
      `r`: at that point with the evaluator's store in its cells, or stopped as the
      evaluator stopped, or still going after at least `fuel` steps. */
  ghost predicate Ended(m: Machine, fin: State, ctx: Context, r: State, env: Env, before: Store, o: Outcome, fuel: nat, n: nat, c: Config) {
    match o
    case Normal(store) => Stands(m, fin, ctx, r, env, store, c) && Open(r) && before.Keys <= store.Keys
    case Returned(v) => c == Halted(v)
    case Trapping => c == Trapped
    case Hanging => c == Hung
    case Failing => false
    case OutOfFuel => c.Running? && n >= fuel
  }

  ghost predicate Enters(m: Machine, fin: State, ctx: Context, st: State, env: Env, store: Store, c: Config) {
    Stands(m, fin, ctx, st, env, store, c) && Open(st)
  }

  lemma RunVariable(m: Machine, fin: State, ctx: Context, st: State, v: VarDcl, env: Env, store: Store, c: Config) returns (n: nat)
    requires Enters(m, fin, ctx, st, env, store, c) && v.dcl !in st.slots
    requires DeclareType(v, env, st.sigs).Some? && Later(LowerVariable(st, v), fin)
    ensures Ended(m, fin, ctx, LowerVariable(st, v), env[v.dcl := DeclareType(v, env, st.sigs).value], store,
                  ExecDeclare(v, store, ctx), 0, n, Run(m, c, n))
    ensures !ExecDeclare(v, store, ctx).OutOfFuel?
  {
    hide LowerVariable, LowerExp, LowerCast, Later, Match, Allocate;
    var (s1, o) := LowerExp(st, v.value);
    var w := if v.ty.Some? then v.ty.value else o.width;
    var (s2, o') := LowerCast(s1, o, w);
    VariableInside(st, v, fin);
    ExpWidth(st, v.value, env);
    n := RunConverted(m, fin, ctx, st, v.value, w, env, store, c);
    var y := Converted(Eval(v.value, store, ctx), w);
    if y.Gives? {
      RunFirst(m, fin, ctx, st, s2, v.dcl, w, o', env, store, c, Run(m, c, n), y.val);
      RunPlus(m, c, n, 2);
      n := n + 2;
      DeclareStores(v, store, ctx, w);
    }
  }

  /** A new variable whose first value has been computed. */
  lemma RunFirst(m: Machine, fin: State, ctx: Context, st: State, s2: State, d: Dcl, w: Width, o: Operand, env: Env, store: Store, c: Config, c2: Config, y: Val)
    requires Stands(m, fin, ctx, st, env, store, c) && d !in st.slots && Passes(st, c, s2, c2)
    requires s2.slots == st.slots && SlotsBelow(s2) && Later(s2, fin)
    requires Carries(m, o, c2.regs, s2.next, y) && y.w == w && Later(Allocate(s2, d, w, o), fin)
    ensures Ended(m, fin, ctx, Allocate(s2, d, w, o), env[d := w], store, Normal(store[d := y]), 0, 2, Run(m, c2, 2))
  {
    StandsAfter(m, fin, ctx, st, env, store, c, s2, c2);
    RunAllocate(m, fin, ctx, s2, d, w, o, env, store, c2, y);
  }

  function Converted(v: EvalResult, w: Width): EvalResult {
    if v.Gives? then Gives(Val(w, Wrap(w, v.val.v))) else v
  }

  lemma DeclareStores(v: VarDcl, store: Store, ctx: Context, w: Width)
    requires var x := Eval(v.value, store, ctx);
      x.Gives? && InRange(x.val.w, x.val.v) && w == if v.ty.Some? then v.ty.value else x.val.w
    ensures ExecDeclare(v, store, ctx) == Normal(store[v.dcl := Converted(Eval(v.value, store, ctx), w).val])
  {
    var x := Eval(v.value, store, ctx);
    WrapIdentity(x.val.w, x.val.v);
  }

  /** An expression and a cast of its value. */
  lemma RunConverted(m: Machine, fin: State, ctx: Context, st: State, e: Source.Exp, w: Width, env: Env, store: Store, c: Config) returns (n: nat)
    requires Stands(m, fin, ctx, st, env, store, c)
    requires var s1 := LowerExp(st, e).0;
      ExpType(e, env, st.sigs).Some? && Inside(st, s1, fin) && Later(LowerCast(s1, LowerExp(st, e).1, w).0, fin)
    ensures var (s1, o) := LowerExp(st, e);
      var (s2, o') := LowerCast(s1, o, w);
      Yields(m, st, c, s2, o', Run(m, c, n), Converted(Eval(e, store, ctx), w))
    ensures var x := Eval(e, store, ctx);
      x.Gives? ==> InRange(x.val.w, x.val.v) && LowerExp(st, e).1.width == x.val.w
  {
    var (s1, o) := LowerExp(st, e);
    var (s2, o') := LowerCast(s1, o, w);
    n := RunExp(m, fin, ctx, st, e, env, store, c);
    var x := Eval(e, store, ctx);
    if x.Gives? {
      var c1 := Run(m, c, n);
      var n2 := RunCast(m, fin, s1, o, w, c1, x.val);
      YieldsAfter(m, st, c, s1, c1, s2, o', Run(m, c1, n2), Converted(x, w));
      RunPlus(m, c, n, n2);
      n := n + n2;
    }
  }

  lemma VariableInside(st: State, v: VarDcl, fin: State)
    requires Ok(st) && SlotsBelow(st) && v.dcl !in st.slots && Later(LowerVariable(st, v), fin)
    ensures var (s1, o) := LowerExp(st, v.value);
      var w := if v.ty.Some? then v.ty.value else o.width;
      var (s2, o') := LowerCast(s1, o, w);
      && Inside(st, s1, fin) && Inside(s1, s2, fin)
      && Later(Allocate(s2, v.dcl, w, o'), fin) && LowerVariable(st, v) == Allocate(s2, v.dcl, w, o')
  {
    var (s1, o) := LowerExp(st, v.value);
    var w := if v.ty.Some? then v.ty.value else o.width;
    var (s2, o') := LowerCast(s1, o, w);
    ExpTouches(st, v.value);
    CastTouches(s1, o, w);
    AllocateTouches(s2, v.dcl, w, o');
    LaterTransitive(s2, Allocate(s2, v.dcl, w, o'), fin);
    LaterTransitive(s1, s2, fin);
  }

  /** The cell of a new variable and its first value. */
  function Allocate(st: State, d: Dcl, w: Width, o: Operand): State
    requires Ok(st)
  {
    var s3 := Emit(Define(st, Alloca(st.next, w)), Store(o, st.next));
    s3.(slots := s3.slots[d := Slot(st.next, w)])
  }

  lemma AllocateTouches(st: State, d: Dcl, w: Width, o: Operand)
    requires Ok(st) && SlotsBelow(st) && d !in st.slots
    ensures Touches(st, st.cur, Allocate(st, d, w, o))
  {
    var s3 := Define(st, Alloca(st.next, w));
    EmitTouches(st, Alloca(st.next, w));
    EmitTouches(s3, Store(o, st.next));
    TouchesTransitive(st, st.cur, s3, st.cur, Emit(s3, Store(o, st.next)));
    SlotAdded(st, st, Emit(s3, Store(o, st.next)), d, w);
  }

  lemma RunAllocate(m: Machine, fin: State, ctx: Context, st: State, d: Dcl, w: Width, o: Operand, env: Env, store: Store, c: Config, x: Val)
    requires Stands(m, fin, ctx, st, env, store, c) && d !in st.slots
    requires Carries(m, o, c.regs, st.next, x) && x.w == w
    requires Later(Allocate(st, d, w, o), fin)
    ensures Ended(m, fin, ctx, Allocate(st, d, w, o), env[d := w], store, Normal(store[d := x]), 0, 2, Run(m, c, 2))
  {
    hide Match, Later, Carried, Run;
    AllocateSteps(m, fin, st, d, w, o, c, x);
    MatchAllocated(fin, Allocate(st, d, w, o), st, d, w, store, c.regs, c.mem, x);
  }

  /** The cell is made and written. */
  lemma AllocateSteps(m: Machine, fin: State, st: State, d: Dcl, w: Width, o: Operand, c: Config, x: Val)
    requires Carried(m, fin) && At(st, c) && Carries(m, o, c.regs, st.next, x) && x.w == w
    requires Later(Allocate(st, d, w, o), fin)
    ensures Run(m, c, 2) == Running(c.block, c.index + 2, c.regs[st.next := |c.mem|], c.mem + [Cell(w, x.v)])
  {
    var s1 := Define(st, Alloca(st.next, w));
    var s2 := Emit(s1, Store(o, st.next));
    assert Grown(s2, fin) && Grown(s1, fin) by {
      EmitTouches(s1.(slots := map[]), Store(o, st.next));
      assert Prefix(s1.blocks[st.cur], s2.blocks[st.cur]);
      assert Grown(Allocate(st, d, w, o), fin);
    }
    StepDefined(m, fin, st, Alloca(st.next, w), c);
    var c1 := Run(m, c, 1);
    StepEmitted(m, fin, s1, Store(o, st.next), c1);
    RunPlus(m, c, 1, 1);
    assert (c.mem + [Cell(w, 0)])[|c.mem| := Cell(w, x.v)] == c.mem + [Cell(w, x.v)];
  }

  /** The new cell is apart from all others, and a cell the variable had in an
      earlier iteration is forgotten. */
  lemma MatchAllocated(fin: State, r: State, st: State, d: Dcl, w: Width, store: Store, regs: Registers, mem: Memory, x: Val)
    requires Match(fin, store, regs, mem) && SlotsBelow(st) && d !in st.slots
    requires r.slots == st.slots[d := Slot(st.next, w)] && r.next == st.next + 1 && Later(r, fin)
    requires x.w == w && InRange(w, x.v)
    ensures Match(fin, store[d := x], regs[st.next := |mem|], mem + [Cell(w, x.v)])
  {
    var store' := store[d := x];
    var regs' := regs[st.next := |mem|];
    assert fin.slots[d] == r.slots[d];
    forall e | e in store' ensures Holds(fin, e, store'[e], regs', mem + [Cell(w, x.v)]) {
      if e != d { assert Holds(fin, e, store[e], regs, mem); }
    }
    forall e, f | e in store' && f in store' && e != f ensures Apart(fin, e, f, regs') {
      if e != d { assert Holds(fin, e, store[e], regs, mem); }
      if f != d { assert Holds(fin, f, store[f], regs, mem); }
      if e != d && f != d { assert Apart(fin, e, f, regs); }
    }
  }

  // ---------- statements ----------

  /** The same machine seen from another point of the code that starts where it is. */
  lemma StandsMoved(m: Machine, fin: State, ctx: Context, st: State, env: Env, store: Store, c: Config, r: State, c': Config)
    requires Stands(m, fin, ctx, st, env, store, c)
    requires At(r, c') && Match(fin, store, c'.regs, c'.mem)
    requires SlotsBelow(r) && forall d :: d in st.slots ==> d in r.slots && r.slots[d] == st.slots[d]
    ensures Stands(m, fin, ctx, r, env, store, c')
  {
  }

  lemma EndedAfter(m: Machine, fin: State, ctx: Context, r: State, env: Env, before: Store, middle: Store, o: Outcome, fuel: nat, a: nat, b: nat, c: Config)
    requires Ended(m, fin, ctx, r, env, middle, o, fuel, b, c) && before.Keys <= middle.Keys
    ensures Ended(m, fin, ctx, r, env, before, o, fuel, a + b, c)
  {
  }

  /** A machine that stopped is at no point of the code. */
  lemma EndedStopped(m: Machine, fin: State, ctx: Context, r: State, r': State, env: Env, before: Store, o: Outcome, a: nat, b: nat, n: nat, c: Config)
    requires Ended(m, fin, ctx, r, env, before, o, a, n, c) && !o.Normal? && !o.OutOfFuel?
    ensures Ended(m, fin, ctx, r', env, before, o, b, n, c)
  {
  }

  /** At the start of block `t` or `f` as `e` evaluates, or stopped as it stops. */
  ghost predicate Chooses(fin: State, e: Source.Exp, t: nat, f: nat, store: Store, ctx: Context, n: nat, c: Config) {
    match Eval(e, store, ctx)
    case Gives(x) =>
      && x.w == I1 && n >= 1
      && c.Running? && c.block == (if x.v != 0 then t else f) && c.index == 0
      && Match(fin, store, c.regs, c.mem)
    case Trap => c == Trapped
    case Hang => c == Hung
    case Wrong => false
  }

  /** A condition followed by the branch on it. */
  lemma RunCondition(m: Machine, fin: State, ctx: Context, st: State, e: Source.Exp, t: nat, f: nat, env: Env, store: Store, c: Config) returns (n: nat)
    requires Stands(m, fin, ctx, st, env, store, c) && ExpType(e, env, st.sigs) == Some(I1)
    requires var (s1, o) := LowerExp(st, e); Later(Emit(s1, CondBr(o, t, f)), fin)
    ensures Chooses(fin, e, t, f, store, ctx, n, Run(m, c, n))
  {
    hide Emit, Match, LowerExp;
    var (s1, o) := LowerExp(st, e);
    ExpTouches(st, e);
    EmitTouches(s1, CondBr(o, t, f));
    LaterTransitive(s1, Emit(s1, CondBr(o, t, f)), fin);
    n := RunExp(m, fin, ctx, st, e, env, store, c);
    if Eval(e, store, ctx).Gives? {
      ExpWidth(st, e, env);
      var c1 := Run(m, c, n);
      StandsAfter(m, fin, ctx, st, env, store, c, s1, c1);
      StepEmitted(m, fin, s1, CondBr(o, t, f), c1);
      RunPlus(m, c, n, 1);
      n := n + 1;
    }
  }

  lemma RunAssign(m: Machine, fin: State, ctx: Context, st: State, d: Dcl, e: Source.Exp, env: Env, store: Store, c: Config) returns (n: nat)
    requires Enters(m, fin, ctx, st, env, store, c)
    requires Check(Assign(d, e), env, st.sigs).Some? && Later(LowerSmt(st, Assign(d, e)), fin)
    ensures Ended(m, fin, ctx, LowerSmt(st, Assign(d, e)), env, store, Exec(Assign(d, e), store, 0, ctx), 0, n, Run(m, c, n))
    ensures !Exec(Assign(d, e), store, 0, ctx).OutOfFuel?
  {
    hide Passes, Later, Match;
    var (s1, o) := LowerExp(st, e);
    AssignInside(st, d, e, fin);
    n := RunExp(m, fin, ctx, st, e, env, store, c);
    var x := Eval(e, store, ctx);
    if x.Gives? {
      ExpWidth(st, e, env);
      var c1 := Run(m, c, n);
      StandsAfter(m, fin, ctx, st, env, store, c, s1, c1);
      RunStore(m, fin, ctx, s1, d, o, env, store, c1, x.val);
      RunPlus(m, c, n, 1);
      n := n + 1;
    }
  }

  lemma AssignInside(st: State, d: Dcl, e: Source.Exp, fin: State)
    requires Ok(st) && SlotsBelow(st) && Later(LowerSmt(st, Assign(d, e)), fin)
    ensures Inside(st, LowerExp(st, e).0, fin)
  {
    var (s1, o) := LowerExp(st, e);
    ExpTouches(st, e);
    EmitTouches(s1, Store(o, SlotOf(st, d).reg));
    LaterTransitive(s1, LowerSmt(st, Assign(d, e)), fin);
  }

  lemma RunStore(m: Machine, fin: State, ctx: Context, st: State, d: Dcl, o: Operand, env: Env, store: Store, c: Config, x: Val)
    requires Stands(m, fin, ctx, st, env, store, c) && d in env && env[d] == x.w
    requires Carries(m, o, c.regs, st.next, x)
    requires Later(st, fin) && Later(Emit(st, Store(o, SlotOf(st, d).reg)), fin)
    ensures store[d].w == x.w
    ensures Ended(m, fin, ctx, Emit(st, Store(o, SlotOf(st, d).reg)), env, store, Normal(store[d := x]), 0, 1, Run(m, c, 1))
  {
    assert Holds(fin, d, store[d], c.regs, c.mem);
    StepEmitted(m, fin, st, Store(o, SlotOf(st, d).reg), c);
    MatchStored(fin, d, store, c.regs, c.mem, x);
  }

  lemma MatchStored(fin: State, d: Dcl, store: Store, regs: Registers, mem: Memory, x: Val)
    requires Match(fin, store, regs, mem) && d in store && store[d].w == x.w && InRange(x.w, x.v)
    ensures Holds(fin, d, store[d], regs, mem)
    ensures Match(fin, store[d := x], regs, mem[regs[fin.slots[d].reg] := Cell(x.w, x.v)])
  {
    assert Holds(fin, d, store[d], regs, mem);
    var mem' := mem[regs[fin.slots[d].reg] := Cell(x.w, x.v)];
    forall e | e in store ensures Holds(fin, e, store[d := x][e], regs, mem') {
      assert Holds(fin, e, store[e], regs, mem);
      if e != d { assert Apart(fin, d, e, regs); }
    }
    forall e, f | e in store && f in store && e != f ensures Apart(fin, e, f, regs) {
    }
  }

  lemma RunReturn(m: Machine, fin: State, ctx: Context, st: State, e: Source.Exp, env: Env, store: Store, c: Config) returns (n: nat)
    requires Enters(m, fin, ctx, st, env, store, c)
    requires Check(Return(e), env, st.sigs).Some? && Later(LowerSmt(st, Return(e)), fin)
    ensures Ended(m, fin, ctx, LowerSmt(st, Return(e)), env, store, Exec(Return(e), store, 0, ctx), 0, n, Run(m, c, n))
    ensures !Exec(Return(e), store, 0, ctx).OutOfFuel?
  {
    hide LowerSmt, LowerExp, Later, Run;
    ReturnInside(st, e, fin);
    n := RunResult(m, fin, ctx, st, e, env, store, c);
  }

  /** The value, the cast, and the return instruction. */
  lemma RunResult(m: Machine, fin: State, ctx: Context, st: State, e: Source.Exp, env: Env, store: Store, c: Config) returns (n: nat)
    requires Stands(m, fin, ctx, st, env, store, c) && ExpType(e, env, st.sigs).Some?
    requires var (s1, o) := LowerExp(st, e);
      var (s2, o') := LowerCast(s1, o, st.ret);
      Inside(st, s1, fin) && Later(s2, fin) && Grown(Emit(s2, Ret(o')), fin)
    ensures match Eval(e, store, ctx)
      case Gives(x) => Run(m, c, n) == Halted(Wrap(st.ret, x.v))
      case Trap => Run(m, c, n) == Trapped
      case Hang => Run(m, c, n) == Hung
      case Wrong => false
  {
    hide LowerExp, LowerCast, Match, Later, Visible;
    var (s1, o) := LowerExp(st, e);
    var (s2, o') := LowerCast(s1, o, st.ret);
    n := RunConverted(m, fin, ctx, st, e, st.ret, env, store, c);
    if Eval(e, store, ctx).Gives? {
      StepEmitted(m, fin, s2, Ret(o'), Run(m, c, n));
      RunPlus(m, c, n, 1);
      n := n + 1;
    }
  }

  lemma ReturnInside(st: State, e: Source.Exp, fin: State)
    requires Ok(st) && SlotsBelow(st) && Later(LowerSmt(st, Return(e)), fin)
    ensures var (s1, o) := LowerExp(st, e);
      var (s2, o') := LowerCast(s1, o, st.ret);
      Inside(st, s1, fin) && Later(s2, fin) && Grown(Emit(s2, Ret(o')), fin) && fin.ret == st.ret
  {
    hide LowerExp;
    var (s1, o) := LowerExp(st, e);
    var (s2, o') := LowerCast(s1, o, st.ret);
    ExpTouches(st, e);
    CastTouches(s1, o, st.ret);
    EmitTouches(s2, Ret(o'));
    LaterTransitive(s2, Emit(s2, Ret(o')), fin);
    LaterTransitive(s1, s2, fin);
  }

  /** From where a statement's code starts, the machine ends as the evaluator does with
      any fuel. */
  lemma {:induction false} RunSmt(m: Machine, fin: State, ctx: Context, st: State, s: Source.Smt, env: Env, store: Store, fuel: nat, c: Config) returns (n: nat)
    requires Enters(m, fin, ctx, st, env, store, c) && Ready(st, s)
    requires Check(s, env, st.sigs).Some? && Later(LowerSmt(st, s), fin)
    ensures Ended(m, fin, ctx, LowerSmt(st, s), Check(s, env, st.sigs).value, store, Exec(s, store, fuel, ctx), fuel, n, Run(m, c, n))
    decreases fuel, s, 5
  {
    match s
    case Declare(v) => n := RunVariable(m, fin, ctx, st, v, env, store, c);
    case Assign(d, e) => n := RunAssign(m, fin, ctx, st, d, e, env, store, c);
    case Return(e) => n := RunReturn(m, fin, ctx, st, e, env, store, c);
    case Block(smts) =>
      n := RunSmts(m, fin, ctx, st, smts, env, store, fuel, c);
      BlockScope(m, fin, ctx, st, smts, env, store, fuel, n, c);
    case If(_, _, _) => n := RunIf(m, fin, ctx, st, s, env, store, fuel, c);
    case For(_, _, _, _) => n := RunLoop(m, fin, ctx, st, s, env, store, fuel, c);
  }

  /** Leaving a block, its declarations go out of scope. */
  lemma BlockScope(m: Machine, fin: State, ctx: Context, st: State, smts: seq<Source.Smt>, env: Env, store: Store, fuel: nat, n: nat, c: Config)
    requires Stands(m, fin, ctx, st, env, store, c) && Ready(st, Block(smts))
    requires CheckSeq(smts, env, st.sigs).Some?
    requires Ended(m, fin, ctx, LowerSmts(st, smts), CheckSeq(smts, env, st.sigs).value, store, ExecSeq(smts, store, fuel, ctx), fuel, n, Run(m, c, n))
    ensures Ended(m, fin, ctx, LowerSmts(st, smts), env, store, ExecSeq(smts, store, fuel, ctx), fuel, n, Run(m, c, n))
  {
    SmtsExtends(st, smts);
  }

  lemma {:induction false} RunSmts(m: Machine, fin: State, ctx: Context, st: State, smts: seq<Source.Smt>, env: Env, store: Store, fuel: nat, c: Config) returns (n: nat)
    requires Enters(m, fin, ctx, st, env, store, c) && TreeSeq(smts, st.slots.Keys)
    requires CheckSeq(smts, env, st.sigs).Some? && Later(LowerSmts(st, smts), fin)
    ensures Ended(m, fin, ctx, LowerSmts(st, smts), CheckSeq(smts, env, st.sigs).value, store, ExecSeq(smts, store, fuel, ctx), fuel, n, Run(m, c, n))
    decreases fuel, smts, 0
  {
    if smts == [] {
      n := 0;
    } else {
      var s1 := LowerSmt(st, smts[0]);
      SmtExtends(st, smts[0]);
      SmtsExtends(s1, smts[1..]);
      LaterTransitive(s1, LowerSmts(s1, smts[1..]), fin);
      n := RunSmt(m, fin, ctx, st, smts[0], env, store, fuel, c);
      var first := Exec(smts[0], store, fuel, ctx);
      if first.Normal? {
        var c1 := Run(m, c, n);
        var env1 := Check(smts[0], env, st.sigs).value;
        var n2 := RunSmts(m, fin, ctx, s1, smts[1..], env1, first.store, fuel, c1);
        RunPlus(m, c, n, n2);
        EndedAfter(m, fin, ctx, LowerSmts(s1, smts[1..]), CheckSeq(smts, env, st.sigs).value, store, first.store,
                   ExecSeq(smts[1..], first.store, fuel, ctx), fuel, n, n2, Run(m, c1, n2));
        n := n + n2;
      }
    }
  }

  /** An if statement: the chain continues at the new block `end`. */
  lemma {:induction false} RunIf(m: Machine, fin: State, ctx: Context, st: State, s: Source.Smt, env: Env, store: Store, fuel: nat, c: Config) returns (n: nat)
    requires Enters(m, fin, ctx, st, env, store, c) && Ready(st, s) && s.If?
    requires Check(s, env, st.sigs).Some? && Later(LowerSmt(st, s), fin)
    ensures Ended(m, fin, ctx, LowerSmt(st, s), env, store, Exec(s, store, fuel, ctx), fuel, n, Run(m, c, n))
    decreases fuel, s, 4
  {
    var s1 := Append(st);
    AppendTouches(st, st.cur);
    StandsMoved(m, fin, ctx, st, env, store, c, s1, c);
    BranchTouches(s1, s, None, |st.blocks|);
    n := RunBranch(m, fin, ctx, s1, s, None, |st.blocks|, env, store, fuel, c);
  }

  /** The machine enters a link of a chain that continues at the still empty block `end`. */
  ghost predicate EntersChain(m: Machine, fin: State, ctx: Context, st: State, s: Source.Smt, at: Option<nat>, end: nat, env: Env, store: Store, c: Config) {
    && Enters(m, fin, ctx, st, env, store, c) && Ready(st, s) && CheckElse(s, env, st.sigs)
    && end < |st.blocks| && end != st.cur && st.blocks[end] == [] && (at.Some? ==> at.value == st.cur)
    && Later(LowerBranch(st, s, at, end), fin)
  }

  lemma {:induction false} RunBranch(m: Machine, fin: State, ctx: Context, st: State, s: Source.Smt, at: Option<nat>, end: nat, env: Env, store: Store, fuel: nat, c: Config) returns (n: nat)
    requires EntersChain(m, fin, ctx, st, s, at, end, env, store, c)
    ensures Ended(m, fin, ctx, SetBlock(LowerBranch(st, s, at, end), end), env, store, Exec(s, store, fuel, ctx), fuel, n, Run(m, c, n))
    decreases fuel, s, 3
  {
    BranchTouches(st, s, at, end);
    if s.cond.None? {
      n := RunLast(m, fin, ctx, st, s, at, end, env, store, fuel, c);
    } else {
      n := RunTest(m, fin, ctx, st, s, at, end, env, store, fuel, c);
    }
  }

  /** The bare `else` of a chain. */
  lemma {:induction false} RunLast(m: Machine, fin: State, ctx: Context, st: State, s: Source.Smt, at: Option<nat>, end: nat, env: Env, store: Store, fuel: nat, c: Config) returns (n: nat)
    requires EntersChain(m, fin, ctx, st, s, at, end, env, store, c) && s.cond.None?
    ensures Ended(m, fin, ctx, SetBlock(LowerBranch(st, s, at, end), end), env, store, Exec(s, store, fuel, ctx), fuel, n, Run(m, c, n))
    decreases fuel, s, 2
  {
    assert SetBlock(st, st.cur) == st;
    var inner := LowerSmt(st, s.body);
    assert SetBlock(SetBlock(inner, st.cur), inner.cur) == inner;
    assert SetBlock(LowerBranch(st, s, at, end), end) == SetBlock(Joined(inner, end), end);
    n := RunJoined(m, fin, ctx, st, s.body, inner, end, env, store, fuel, c);
  }

  /** A body and the branch that joins it to `end`. */
  lemma {:induction false} RunJoined(m: Machine, fin: State, ctx: Context, st: State, body: Source.Smt, inner: State, end: nat, env: Env, store: Store, fuel: nat, c: Config) returns (n: nat)
    requires Enters(m, fin, ctx, st, env, store, c) && Ready(st, body) && Check(body, env, st.sigs).Some? && body.Block?
    requires inner == LowerSmt(st, body) && end < |st.blocks| && end != st.cur && st.blocks[end] == []
    requires Later(Joined(inner, end), fin)
    ensures Ended(m, fin, ctx, SetBlock(Joined(inner, end), end), env, store,
                  Exec(body, store, fuel, ctx), fuel, n, Run(m, c, n))
    decreases fuel, body, 6
  {
    hide Later, Match;
    SmtExtends(st, body);
    if Open(inner) {
      EmitTouches(inner, Br(end));
      LaterTransitive(inner, Emit(inner, Br(end)), fin);
    }
    n := RunSmt(m, fin, ctx, st, body, env, store, fuel, c);
    var o := Exec(body, store, fuel, ctx);
    if o.Normal? {
      RunPlus(m, c, n, 1);
      RunBranching(m, fin, ctx, inner, end, env, o.store, Run(m, c, n));
      n := n + 1;
    }
  }

  /** The branch at the end of a body. */
  lemma RunBranching(m: Machine, fin: State, ctx: Context, inner: State, end: nat, env: Env, store: Store, c: Config)
    requires Enters(m, fin, ctx, inner, env, store, c)
    requires end < |inner.blocks| && end != inner.cur && inner.blocks[end] == [] && Later(Joined(inner, end), fin)
    ensures Enters(m, fin, ctx, SetBlock(Joined(inner, end), end), env, store, Run(m, c, 1))
  {
    var r := Emit(inner, Br(end));
    StepEmitted(m, fin, inner, Br(end), c);
    StandsMoved(m, fin, ctx, inner, env, store, c, SetBlock(r, end), Run(m, c, 1));
  }

  /** The end of a chain's code seen from two states that agree on it. */
  lemma EndedMoved(m: Machine, fin: State, ctx: Context, st: State, r: State, end: nat, env: Env, before: Store, o: Outcome, fuel: nat, n: nat, c: Config)
    requires end < |st.blocks| && end < |r.blocks| && st.blocks[end] == r.blocks[end]
    requires Ended(m, fin, ctx, SetBlock(st, end), env, before, o, fuel, n, c)
    requires SlotsBelow(r) && forall d :: d in st.slots ==> d in r.slots && r.slots[d] == st.slots[d]
    ensures Ended(m, fin, ctx, SetBlock(r, end), env, before, o, fuel, n, c)
  {
  }

  lemma {:induction false} RunTest(m: Machine, fin: State, ctx: Context, st: State, s: Source.Smt, at: Option<nat>, end: nat, env: Env, store: Store, fuel: nat, c: Config) returns (n: nat)
    requires EntersChain(m, fin, ctx, st, s, at, end, env, store, c) && s.cond.Some?
    ensures Ended(m, fin, ctx, SetBlock(LowerBranch(st, s, at, end), end), env, store, Exec(s, store, fuel, ctx), fuel, n, Run(m, c, n))
    decreases fuel, s, 2
  {
    hide Later, Match, Visible;
    n := RunChoice(m, fin, ctx, st, s, at, end, env, store, c);
    var v := Eval(s.cond.value, store, ctx);
    if v.Gives? {
      var c1 := Run(m, c, n);
      var n2: nat;
      if v.val.v != 0 {
        n2 := RunThen(m, fin, ctx, st, s, at, end, env, store, fuel, c, c1);
      } else {
        n2 := RunElse(m, fin, ctx, st, s, at, end, env, store, fuel, c, c1);
      }
      RunPlus(m, c, n, n2);
      EndedAfter(m, fin, ctx, SetBlock(LowerBranch(st, s, at, end), end), env, store, store, Exec(s, store, fuel, ctx), fuel, n, n2, Run(m, c1, n2));
      n := n + n2;
    }
  }

  /** The condition of a link sends the machine to the body or to what follows the else. */
  lemma RunChoice(m: Machine, fin: State, ctx: Context, st: State, s: Source.Smt, at: Option<nat>, end: nat, env: Env, store: Store, c: Config) returns (n: nat)
    requires EntersChain(m, fin, ctx, st, s, at, end, env, store, c) && s.cond.Some?
    ensures Chooses(fin, s.cond.value, |st.blocks|, Test(st, s, st.cur, end).1, store, ctx, n, Run(m, c, n))
  {
    assert Check(s, env, st.sigs).Some?;
    TestShape(st, s, end);
    TestLater(st, s, at, end, fin);
    var s4 := SetBlock(Joined(LowerSmt(SetBlock(Opened(st, s), |st.blocks|), s.body), end), st.cur);
    StandsMoved(m, fin, ctx, st, env, store, c, s4, c);
    n := RunCondition(m, fin, ctx, s4, s.cond.value, |st.blocks|, Test(st, s, st.cur, end).1, env, store, c);
  }

  lemma {:induction false} RunThen(m: Machine, fin: State, ctx: Context, st: State, s: Source.Smt, at: Option<nat>, end: nat, env: Env, store: Store, fuel: nat, c0: Config, c: Config) returns (n: nat)
    requires EntersChain(m, fin, ctx, st, s, at, end, env, store, c0) && s.cond.Some?
    requires c.Running? && c.block == |st.blocks| && c.index == 0 && Match(fin, store, c.regs, c.mem)
    ensures Ended(m, fin, ctx, SetBlock(LowerBranch(st, s, at, end), end), env, store, Exec(s.body, store, fuel, ctx), fuel, n, Run(m, c, n))
    decreases fuel, s, 1
  {
    assert Check(s, env, st.sigs).Some?;
    BodyShape(st, s, end);
    ThenLater(st, s, at, end, fin);
    var s2 := SetBlock(Opened(st, s), |st.blocks|);
    var inner := LowerSmt(s2, s.body);
    StandsMoved(m, fin, ctx, st, env, store, c0, s2, c);
    n := RunJoined(m, fin, ctx, s2, s.body, inner, end, env, store, fuel, c);
    BranchTouches(st, s, at, end);
    EndedMoved(m, fin, ctx, Joined(inner, end), LowerBranch(st, s, at, end), end, env, store, Exec(s.body, store, fuel, ctx), fuel, n, Run(m, c, n));
  }

  lemma {:induction false} RunElse(m: Machine, fin: State, ctx: Context, st: State, s: Source.Smt, at: Option<nat>, end: nat, env: Env, store: Store, fuel: nat, c0: Config, c: Config) returns (n: nat)
    requires EntersChain(m, fin, ctx, st, s, at, end, env, store, c0) && s.cond.Some?
    requires c.Running? && c.block == Test(st, s, st.cur, end).1 && c.index == 0 && Match(fin, store, c.regs, c.mem)
    ensures Ended(m, fin, ctx, SetBlock(LowerBranch(st, s, at, end), end), env, store,
                  if s.elses.Some? then Exec(s.elses.value, store, fuel, ctx) else Normal(store), fuel, n, Run(m, c, n))
    decreases fuel, s, 1
  {
    assert Check(s, env, st.sigs).Some?;
    TestShape(st, s, end);
    TestLater(st, s, at, end, fin);
    TestTouches(st, s, st.cur, end);
    var (r, ifFalse) := Test(st, s, st.cur, end);
    var s2 := SetBlock(r, ifFalse);
    StandsMoved(m, fin, ctx, st, env, store, c0, s2, c);
    if s.elses.Some? {
      n := RunBranch(m, fin, ctx, s2, s.elses.value, Some(ifFalse), end, env, store, fuel, c);
    } else {
      n := 0;
    }
  }

  // ---------- loops ----------

  /** The static rules for the parts of a loop, with its variable in scope. */
  predicate LoopChecks(s: Source.Smt, inner: Env, sigs: seq<Signature>)
    requires s.For?
  {
    && ExpType(s.test, inner, sigs) == Some(I1)
    && s.loop.Block? && Check(s.loop, inner, sigs) == Some(inner)
    && Check(s.inc, inner, sigs).Some?
  }

  ghost predicate InLoop(m: Machine, fin: State, ctx: Context, st: State, s: Source.Smt, inner: Env, store: Store) {
    && Hosts(m, fin, ctx) && Ready(st, s) && s.For?
    && LoopChecks(s, inner, st.sigs) && Later(LowerLoop(st, s), fin)
    && Visible(inner, LowerVariable(st, s.index), store)
  }

  lemma InLoopStill(m: Machine, fin: State, ctx: Context, st: State, s: Source.Smt, inner: Env, store: Store, store': Store)
    requires InLoop(m, fin, ctx, st, s, inner, store) && store.Keys <= store'.Keys
    ensures InLoop(m, fin, ctx, st, s, inner, store')
  {
  }

  /** The machine is at the start of block `b`. */
  ghost predicate AtBlock(fin: State, b: nat, store: Store, c: Config) {
    c.Running? && c.block == b && c.index == 0 && Match(fin, store, c.regs, c.mem)
  }

  lemma {:induction false} RunLoop(m: Machine, fin: State, ctx: Context, st: State, s: Source.Smt, env: Env, store: Store, fuel: nat, c: Config) returns (n: nat)
    requires Enters(m, fin, ctx, st, env, store, c) && Ready(st, s) && s.For?
    requires Check(s, env, st.sigs).Some? && Later(LowerLoop(st, s), fin)
    ensures Ended(m, fin, ctx, LowerLoop(st, s), Check(s, env, st.sigs).value, store, Exec(s, store, fuel, ctx), fuel, n, Run(m, c, n))
    decreases fuel, s, 4
  {
    var inner := Check(s, env, st.sigs).value;
    assert LoopChecks(s, inner, st.sigs);
    n := RunFor(m, fin, ctx, st, s, env, inner, store, fuel, c);
  }

  lemma {:induction false} RunFor(m: Machine, fin: State, ctx: Context, st: State, s: Source.Smt, env: Env, inner: Env, store: Store, fuel: nat, c: Config) returns (n: nat)
    requires Enters(m, fin, ctx, st, env, store, c) && Ready(st, s) && s.For?
    requires DeclareType(s.index, env, st.sigs).Some? && inner == env[s.index.dcl := DeclareType(s.index, env, st.sigs).value]
    requires LoopChecks(s, inner, st.sigs) && Later(LowerLoop(st, s), fin)
    ensures Ended(m, fin, ctx, LowerLoop(st, s), inner, store, Exec(s, store, fuel, ctx), fuel, n, Run(m, c, n))
    decreases fuel, s, 3, 1
  {
    hide LowerLoop, Hosts, Later, LowerVariable;
    n := RunStart(m, fin, ctx, st, s, env, inner, store, c);
    var first := ExecDeclare(s.index, store, ctx);
    assert Exec(s, store, fuel, ctx) == if first.Normal? then Iterate(s, first.store, fuel, ctx) else first;
    if first.Normal? {
      var c1 := Run(m, c, n);
      var n2 := RunAround(m, fin, ctx, st, s, FirstTest(st, s), inner, first.store, fuel, c1);
      RunPlus(m, c, n, n2);
      EndedAfter(m, fin, ctx, LowerLoop(st, s), inner, store, first.store, Iterate(s, first.store, fuel, ctx), fuel, n, n2, Run(m, c1, n2));
      n := n + n2;
    } else {
      EndedStopped(m, fin, ctx, FirstTest(st, s), LowerLoop(st, s), inner, store, first, 0, fuel, n, Run(m, c, n));
    }
  }

  /** The loop variable, up to the first test. */
  lemma RunStart(m: Machine, fin: State, ctx: Context, st: State, s: Source.Smt, env: Env, inner: Env, store: Store, c: Config) returns (n: nat)
    requires Enters(m, fin, ctx, st, env, store, c) && Ready(st, s) && s.For?
    requires DeclareType(s.index, env, st.sigs).Some? && inner == env[s.index.dcl := DeclareType(s.index, env, st.sigs).value]
    requires LoopChecks(s, inner, st.sigs) && Later(LowerLoop(st, s), fin)
    ensures var o := ExecDeclare(s.index, store, ctx);
      && Ended(m, fin, ctx, FirstTest(st, s), inner, store, if o.Normal? then OutOfFuel else o, 0, n, Run(m, c, n))
      && (o.Normal? ==> InLoop(m, fin, ctx, st, s, inner, o.store))
      && (o.Normal? ==> Stands(m, fin, ctx, FirstTest(st, s), inner, o.store, Run(m, c, n)) && store.Keys <= o.store.Keys)
    ensures var (r, o) := LowerExp(FirstTest(st, s), s.test);
      Later(Emit(r, CondBr(o, |st.blocks|, |BodyEnd(st, s).blocks|)), fin) && FirstTest(st, s).sigs == st.sigs
  {
    var s1 := LowerVariable(st, s.index);
    LoopLater(st, s, fin);
    BodyPlace(st, s);
    n := RunVariable(m, fin, ctx, st, s.index, env, store, c);
    var o := ExecDeclare(s.index, store, ctx);
    if o.Normal? {
      var c1 := Run(m, c, n);
      StandsMoved(m, fin, ctx, s1, inner, o.store, c1, FirstTest(st, s), c1);
    }
  }

  /** From either copy of the test: one more time around, or out. */
  lemma {:induction false} RunAround(m: Machine, fin: State, ctx: Context, st: State, s: Source.Smt, test: State, inner: Env, store: Store, fuel: nat, c: Config) returns (n: nat)
    requires InLoop(m, fin, ctx, st, s, inner, store)
    requires Stands(m, fin, ctx, test, inner, store, c) && test.sigs == st.sigs
    requires var (r, o) := LowerExp(test, s.test); Later(Emit(r, CondBr(o, |st.blocks|, |BodyEnd(st, s).blocks|)), fin)
    ensures Ended(m, fin, ctx, LowerLoop(st, s), inner, store, Iterate(s, store, fuel, ctx), fuel, n, Run(m, c, n))
    decreases fuel, s, 3, 0
  {
    hide Stands, Later, LowerLoop, Eval;
    n := RunCondition(m, fin, ctx, test, s.test, |st.blocks|, |BodyEnd(st, s).blocks|, inner, store, c);
    var v := Eval(s.test, store, ctx);
    if v.Gives? {
      var c1 := Run(m, c, n);
      if v.val.v != 0 {
        var n2 := RunAgain(m, fin, ctx, st, s, inner, store, fuel, c1);
        RunPlus(m, c, n, n2);
        n := n + n2;
      } else {
        LeaveLoop(m, fin, ctx, st, s, inner, store, c1);
      }
    }
  }

  lemma LeaveLoop(m: Machine, fin: State, ctx: Context, st: State, s: Source.Smt, inner: Env, store: Store, c: Config)
    requires InLoop(m, fin, ctx, st, s, inner, store) && AtBlock(fin, |BodyEnd(st, s).blocks|, store, c)
    ensures Stands(m, fin, ctx, LowerLoop(st, s), inner, store, c) && Open(LowerLoop(st, s))
  {
    LoopPieces(st, s);
    BodyPlace(st, s);
    EntryPlace(st, s);
    ExitPlace(st, s);
    LaterTransitive(FirstTest(st, s), IncStart(st, s), LowerLoop(st, s));
    LaterTransitive(LowerVariable(st, s.index), FirstTest(st, s), LowerLoop(st, s));
  }

  /** The body, the increment, and the test at the bottom. */
  lemma {:induction false} RunAgain(m: Machine, fin: State, ctx: Context, st: State, s: Source.Smt, inner: Env, store: Store, fuel: nat, c: Config) returns (n: nat)
    requires InLoop(m, fin, ctx, st, s, inner, store) && AtBlock(fin, |st.blocks|, store, c)
    ensures Ended(m, fin, ctx, LowerLoop(st, s), inner, store, Again(s, store, fuel, ctx),
                  if fuel == 0 then 0 else fuel - 1, n, Run(m, c, n))
    decreases fuel, s, 0
  {
    hide LowerLoop, Hosts, Later, LowerVariable;
    if fuel == 0 {
      n := 0;
    } else {
      n := RunBody(m, fin, ctx, st, s, inner, store, fuel - 1, c);
      var once := Exec(s.loop, store, fuel - 1, ctx);
      if once.Normal? {
        var c1 := Run(m, c, n);
        InLoopStill(m, fin, ctx, st, s, inner, store, once.store);
        var n2 := RunRest(m, fin, ctx, st, s, inner, once.store, fuel - 1, c1);
        RunPlus(m, c, n, n2);
        EndedAfter(m, fin, ctx, LowerLoop(st, s), inner, store, once.store, Again(s, store, fuel, ctx), fuel - 1, n, n2, Run(m, c1, n2));
        n := n + n2;
      }
    }
  }

  /** The increment and the test at the bottom. */
  lemma {:induction false} RunRest(m: Machine, fin: State, ctx: Context, st: State, s: Source.Smt, inner: Env, store: Store, fuel: nat, c: Config) returns (n: nat)
    requires InLoop(m, fin, ctx, st, s, inner, store) && Enters(m, fin, ctx, IncStart(st, s), inner, store, c)
    ensures var step := Exec(s.inc, store, fuel, ctx);
      Ended(m, fin, ctx, LowerLoop(st, s), inner, store, if step.Normal? then Iterate(s, step.store, fuel, ctx) else step, fuel, n, Run(m, c, n))
    decreases fuel, s, 5
  {
    hide LowerLoop, Hosts, Later, LowerVariable;
    n := RunInc(m, fin, ctx, st, s, inner, store, fuel, c);
    var step := Exec(s.inc, store, fuel, ctx);
    if step.Normal? {
      var c1 := Run(m, c, n);
      InLoopStill(m, fin, ctx, st, s, inner, store, step.store);
      var n2 := RunBottom(m, fin, ctx, st, s, inner, step.store, fuel, c1);
      RunPlus(m, c, n, n2);
      EndedAfter(m, fin, ctx, LowerLoop(st, s), inner, store, step.store, Iterate(s, step.store, fuel, ctx), fuel, n, n2, Run(m, c1, n2));
      n := n + n2;
    }
  }

  lemma {:induction false} RunBottom(m: Machine, fin: State, ctx: Context, st: State, s: Source.Smt, inner: Env, store: Store, fuel: nat, c: Config) returns (n: nat)
    requires InLoop(m, fin, ctx, st, s, inner, store) && Stands(m, fin, ctx, IncEnd(st, s), inner, store, c)
    ensures Ended(m, fin, ctx, LowerLoop(st, s), inner, store, Iterate(s, store, fuel, ctx), fuel, n, Run(m, c, n))
    decreases fuel, s, 4
  {
    BottomPlace(st, s, fin);
    n := RunAround(m, fin, ctx, st, s, IncEnd(st, s), inner, store, fuel, c);
  }

  lemma {:induction false} RunBody(m: Machine, fin: State, ctx: Context, st: State, s: Source.Smt, inner: Env, store: Store, fuel: nat, c: Config) returns (n: nat)
    requires InLoop(m, fin, ctx, st, s, inner, store) && AtBlock(fin, |st.blocks|, store, c)
    ensures Ended(m, fin, ctx, IncStart(st, s), inner, store, Exec(s.loop, store, fuel, ctx), fuel, n, Run(m, c, n))
    decreases fuel, s, 0
  {
    EnterBody(m, fin, ctx, st, s, inner, store, c);
    n := RunSmt(m, fin, ctx, BodyStart(st, s), s.loop, inner, store, fuel, c);
    if Exec(s.loop, store, fuel, ctx).Normal? {
      EnterInc(m, fin, ctx, st, s, inner, Exec(s.loop, store, fuel, ctx).store, Run(m, c, n));
    }
  }

  lemma EnterBody(m: Machine, fin: State, ctx: Context, st: State, s: Source.Smt, inner: Env, store: Store, c: Config)
    requires InLoop(m, fin, ctx, st, s, inner, store) && AtBlock(fin, |st.blocks|, store, c)
    ensures Enters(m, fin, ctx, BodyStart(st, s), inner, store, c)
    ensures Ready(BodyStart(st, s), s.loop) && BodyStart(st, s).sigs == st.sigs && Later(BodyEnd(st, s), fin)
  {
    hide LowerLoop, LowerVariable, LowerSmt;
    LoopLater(st, s, fin);
    BodyPlace(st, s);
  }

  lemma EnterInc(m: Machine, fin: State, ctx: Context, st: State, s: Source.Smt, inner: Env, store: Store, c: Config)
    requires Ready(st, s) && s.For?
    requires Enters(m, fin, ctx, BodyEnd(st, s), inner, store, c)
    ensures Enters(m, fin, ctx, IncStart(st, s), inner, store, c)
  {
    EntryPlace(st, s);
    LoopPieces(st, s);
  }

  lemma {:induction false} RunInc(m: Machine, fin: State, ctx: Context, st: State, s: Source.Smt, inner: Env, store: Store, fuel: nat, c: Config) returns (n: nat)
    requires InLoop(m, fin, ctx, st, s, inner, store) && Enters(m, fin, ctx, IncStart(st, s), inner, store, c)
    ensures Ended(m, fin, ctx, IncEnd(st, s), inner, store, Exec(s.inc, store, fuel, ctx), fuel, n, Run(m, c, n))
    decreases fuel, s, 0
  {
    IncPlace(st, s, fin);
    n := RunSmt(m, fin, ctx, IncStart(st, s), s.inc, inner, store, fuel, c);
    if Exec(s.inc, store, fuel, ctx).Normal? {
      DropScope(m, fin, ctx, IncStart(st, s), s.inc, inner, store, Exec(s.inc, store, fuel, ctx).store, Run(m, c, n));
    }
  }

  /** What is visible before a statement is visible after it. */
  lemma DropScope(m: Machine, fin: State, ctx: Context, st: State, s: Source.Smt, env: Env, store: Store, store': Store, c: Config)
    requires Ready(st, s) && Check(s, env, st.sigs).Some? && Visible(env, st, store) && store.Keys <= store'.Keys
    requires Stands(m, fin, ctx, LowerSmt(st, s), Check(s, env, st.sigs).value, store', c)
    ensures Stands(m, fin, ctx, LowerSmt(st, s), env, store', c)
  {
    SmtExtends(st, s);
  }
}
