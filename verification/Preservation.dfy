/** Whole functions and whole programs: the compiled graph behaves exactly as the
    source does. */
module Preservation {
  import opened Wrappers
  import opened Ints
  import opened Ir
  import opened Source
  import opened Lowering
  import opened Growth
  import opened Layout
  import opened Parameters
  import opened ExpSimulation
  import opened Simulation

  /** What a function body can do when it is called. */
  datatype Behaviour =
    | Result(value: int)   // returns a value
    | FallsOff             // reaches its end without a return
    | Undefined            // undefined arithmetic, here or in a callee
    | Waits                // a call that never comes back
    | Diverges             // a loop that never ends

  ghost predicate SourceDoes(f: Function, args: seq<int>, ctx: Context, b: Behaviour)
    requires |args| == |f.params|
  {
    match b
    case Result(v) => exists fuel :: RunSource(f, args, fuel, ctx) == Returned(v)
    case FallsOff => exists fuel :: RunSource(f, args, fuel, ctx).Normal?
    case Undefined => exists fuel :: RunSource(f, args, fuel, ctx) == Trapping
    case Waits => exists fuel :: RunSource(f, args, fuel, ctx) == Hanging
    case Diverges => forall fuel :: RunSource(f, args, fuel, ctx) == OutOfFuel
  }

  function RunSource(f: Function, args: seq<int>, fuel: nat, ctx: Context): Outcome
    requires |args| == |f.params|
  {
    Exec(f.body, Bind(f.params, args), fuel, ctx)
  }

  function Start(): Config { Running(0, 0, map[], []) }

  /** At an open block end, or sent to a block that was deleted. */
  predicate FellOff(c: Config) { c.Stuck? || c.Lost? }

  ghost predicate TargetDoes(m: Machine, b: Behaviour) {
    match b
    case Result(v) => exists n :: Run(m, Start(), n) == Halted(v)
    case FallsOff => exists n :: FellOff(Run(m, Start(), n))
    case Undefined => exists n :: Run(m, Start(), n) == Trapped
    case Waits => exists n :: Run(m, Start(), n) == Hung
    case Diverges => forall n :: Run(m, Start(), n).Running?
  }

  function Compiled(f: Function, sigs: seq<Signature>, args: seq<int>, calls: Oracle): Machine {
    Machine(Remaining(LowerFunction(f, sigs)), args, calls)
  }

  // ---------- the entry block ----------

  lemma ParamTouches(st: State, p: Parameter, i: nat)
    requires Ok(st) && SlotsBelow(st) && p.dcl !in st.slots
    ensures Touches(st, st.cur, LowerParam(st, p, i)) && LowerParam(st, p, i) == Allocate(st, p.dcl, p.ty, Param(p.ty, i))
  {
    AllocateTouches(st, p.dcl, p.ty, Param(p.ty, i));
  }

  /** The machine's first arguments are `args`, one in range for each parameter. */
  ghost predicate Passed(m: Machine, params: seq<Parameter>, args: seq<int>) {
    && Distinct(params) && |params| == |args| <= |m.args| && args == m.args[..|args|]
    && forall i :: 0 <= i < |args| ==> InRange(params[i].ty, args[i])
  }

  lemma PassedLess(m: Machine, params: seq<Parameter>, args: seq<int>)
    requires Passed(m, params, args) && params != []
    ensures Passed(m, params[..|params| - 1], args[..|params| - 1])
  {
  }

  lemma {:induction false} RunParams(m: Machine, fin: State, ctx: Context, params: seq<Parameter>, args: seq<int>) returns (n: nat)
    requires Hosts(m, fin, ctx) && Passed(m, params, args)
    requires Later(LowerParams(params, ctx.sigs, ctx.ret), fin)
    ensures Stands(m, fin, ctx, LowerParams(params, ctx.sigs, ctx.ret), ParamEnv(params), Bind(params, args), Run(m, Start(), n))
  {
    if params == [] {
      n := 0;
      NothingBound(m, fin, ctx);
    } else {
      PassedLess(m, params, args);
      ParamLater(params, ctx.sigs, ctx.ret, fin);
      n := RunParams(m, fin, ctx, params[..|params| - 1], args[..|params| - 1]);
      ParamStep(m, fin, ctx, params, args, n);
      n := n + 2;
    }
  }

  lemma ParamStep(m: Machine, fin: State, ctx: Context, params: seq<Parameter>, args: seq<int>, n: nat)
    requires Hosts(m, fin, ctx) && Passed(m, params, args) && params != []
    requires Later(LowerParams(params, ctx.sigs, ctx.ret), fin)
    requires var i := |params| - 1;
      Stands(m, fin, ctx, LowerParams(params[..i], ctx.sigs, ctx.ret), ParamEnv(params[..i]), Bind(params[..i], args[..i]), Run(m, Start(), n))
    ensures Stands(m, fin, ctx, LowerParams(params, ctx.sigs, ctx.ret), ParamEnv(params), Bind(params, args), Run(m, Start(), n + 2))
  {
    ParamLater(params, ctx.sigs, ctx.ret, fin);
    LastParam(m, fin, ctx, params, args, Run(m, Start(), n));
    RunPlus(m, Start(), n, 2);
  }

  lemma LastParam(m: Machine, fin: State, ctx: Context, params: seq<Parameter>, args: seq<int>, c: Config)
    requires Passed(m, params, args) && params != []
    requires Later(LowerParams(params, ctx.sigs, ctx.ret), fin)
    requires var i := |params| - 1;
      var st := LowerParams(params[..i], ctx.sigs, ctx.ret);
      Stands(m, fin, ctx, st, ParamEnv(params[..i]), Bind(params[..i], args[..i]), c) && params[i].dcl !in st.slots
    ensures Stands(m, fin, ctx, LowerParams(params, ctx.sigs, ctx.ret), ParamEnv(params), Bind(params, args), Run(m, c, 2))
  {
    var i := |params| - 1;
    var st := LowerParams(params[..i], ctx.sigs, ctx.ret);
    assert m.args[i] == m.args[..|args|][i] == args[i];
    RunParam(m, fin, ctx, st, params[i], i, args[i], ParamEnv(params[..i]), Bind(params[..i], args[..i]), c);
  }

  lemma NothingBound(m: Machine, fin: State, ctx: Context)
    requires Hosts(m, fin, ctx)
    ensures Stands(m, fin, ctx, LowerParams([], ctx.sigs, ctx.ret), ParamEnv([]), Bind([], []), Run(m, Start(), 0))
  {
  }

  lemma ParamLater(params: seq<Parameter>, sigs: seq<Signature>, ret: Width, fin: State)
    requires Distinct(params) && params != [] && Later(LowerParams(params, sigs, ret), fin)
    ensures var i := |params| - 1;
      var st := LowerParams(params[..i], sigs, ret);
      && Later(st, fin) && params[i].dcl !in st.slots && Distinct(params[..i])
      && LowerParams(params, sigs, ret) == LowerParam(st, params[i], i)
  {
    var i := |params| - 1;
    var st := LowerParams(params[..i], sigs, ret);
    LastIsNew(params);
    ParamsTouch(params[..i], sigs, ret);
    ParamTouches(st, params[i], i);
    LaterTransitive(st, LowerParam(st, params[i], i), fin);
  }

  lemma RunParam(m: Machine, fin: State, ctx: Context, st: State, p: Parameter, i: nat, v: int, env: Env, store: Store, c: Config)
    requires Stands(m, fin, ctx, st, env, store, c) && p.dcl !in st.slots
    requires i < |m.args| && m.args[i] == v && InRange(p.ty, v) && Later(LowerParam(st, p, i), fin)
    ensures Stands(m, fin, ctx, LowerParam(st, p, i), env[p.dcl := p.ty], store[p.dcl := Val(p.ty, v)], Run(m, c, 2))
  {
    ParamTouches(st, p, i);
    RunAllocate(m, fin, ctx, st, p.dcl, p.ty, Param(p.ty, i), env, store, c, Val(p.ty, v));
  }

  // ---------- one function ----------

  /** A callee as its caller sees it. */
  ghost predicate Callable(f: Function, args: seq<int>, ctx: Context) {
    CheckFunction(f, ctx.sigs) && Accepts(f, args) && OracleOk(ctx) && ctx.ret == f.ret
  }

  /** Where the machine is when the body is done; at a block end it has one step left. */
  ghost predicate BodyDone(f: Function, ctx: Context, r: Outcome, fuel: nat, n: nat, c: Config) {
    match r
    case Normal(_) => At(LowerFunction(f, ctx.sigs), c)
    case Returned(v) => c == Halted(v)
    case Trapping => c == Trapped
    case Hanging => c == Hung
    case Failing => false
    case OutOfFuel => c.Running? && n >= fuel
  }

  lemma RunBody(f: Function, args: seq<int>, ctx: Context, fuel: nat) returns (n: nat)
    requires Callable(f, args, ctx)
    ensures BodyDone(f, ctx, RunSource(f, args, fuel, ctx), fuel, n, Run(Compiled(f, ctx.sigs, args, ctx.calls), Start(), n))
  {
    hide LowerParams, LowerSmt, Exec, Check;
    var m := Compiled(f, ctx.sigs, args, ctx.calls);
    var fin := LowerFunction(f, ctx.sigs);
    var st := LowerParams(f.params, ctx.sigs, f.ret);
    ParamsTouch(f.params, ctx.sigs, f.ret);
    SmtExtends(st, f.body);
    n := RunParams(m, fin, ctx, f.params, args);
    var c := Run(m, Start(), n);
    var n2 := RunSmt(m, fin, ctx, st, f.body, ParamEnv(f.params), Bind(f.params, args), fuel, c);
    RunPlus(m, Start(), n, n2);
    n := n + n2;
  }

  lemma RunFunction(f: Function, args: seq<int>, ctx: Context, fuel: nat) returns (n: nat)
    requires Callable(f, args, ctx)
    ensures var c := Run(Compiled(f, ctx.sigs, args, ctx.calls), Start(), n);
      match RunSource(f, args, fuel, ctx)
      case Normal(_) => c == if Deleted(LowerFunction(f, ctx.sigs)).Some? then Lost else Stuck
      case Returned(v) => c == Halted(v)
      case Trapping => c == Trapped
      case Hanging => c == Hung
      case Failing => false
      case OutOfFuel => c.Running? && n >= fuel
  {
    var m := Compiled(f, ctx.sigs, args, ctx.calls);
    n := RunBody(f, args, ctx, fuel);
    if RunSource(f, args, fuel, ctx).Normal? {
      RunPlus(m, Start(), n, 1);
      assert Run(m, Run(m, Start(), n), 1) == Run(m, Step(m, Run(m, Start(), n)), 0);
      n := n + 1;
    }
  }

  lemma Forward(f: Function, args: seq<int>, ctx: Context, b: Behaviour)
    requires Callable(f, args, ctx) && SourceDoes(f, args, ctx, b)
    ensures TargetDoes(Compiled(f, ctx.sigs, args, ctx.calls), b)
  {
    var m := Compiled(f, ctx.sigs, args, ctx.calls);
    if b.Diverges? {
      forall n: nat ensures Run(m, Start(), n).Running? {
        var k := RunFunction(f, args, ctx, n);
        if !Run(m, Start(), n).Running? {
          RunMonotone(m, Start(), n, k);
        }
      }
    } else {
      var fuel: nat :| match b
        case Result(v) => RunSource(f, args, fuel, ctx) == Returned(v)
        case FallsOff => RunSource(f, args, fuel, ctx).Normal?
        case Undefined => RunSource(f, args, fuel, ctx) == Trapping
        case Waits => RunSource(f, args, fuel, ctx) == Hanging
        case Diverges => true;
      var n := RunFunction(f, args, ctx, fuel);
    }
  }

  /** The source always does something: no accepted function goes wrong. */
  lemma SomeBehaviour(f: Function, args: seq<int>, ctx: Context) returns (b: Behaviour)
    requires Callable(f, args, ctx)
    ensures SourceDoes(f, args, ctx, b)
  {
    if fuel: nat :| RunSource(f, args, fuel, ctx) != OutOfFuel {
      var n := RunFunction(f, args, ctx, fuel);
      b := match RunSource(f, args, fuel, ctx)
        case Normal(_) => FallsOff
        case Returned(v) => Result(v)
        case Trapping => Undefined
        case Hanging => Waits
        case _ => Diverges;
    } else {
      b := Diverges;
    }
  }

  /** The machine is deterministic. */
  lemma OneBehaviour(m: Machine, a: Behaviour, b: Behaviour)
    requires TargetDoes(m, a) && TargetDoes(m, b)
    ensures a == b
  {
    var i := StopsAt(m, a);
    var j := StopsAt(m, b);
    if i <= j && !a.Diverges? {
      RunMonotone(m, Start(), i, j);
    } else if j <= i && !b.Diverges? {
      RunMonotone(m, Start(), j, i);
    }
  }

  lemma StopsAt(m: Machine, b: Behaviour) returns (n: nat)
    requires TargetDoes(m, b)
    ensures match b
      case Result(v) => Run(m, Start(), n) == Halted(v)
      case FallsOff => FellOff(Run(m, Start(), n))
      case Undefined => Run(m, Start(), n) == Trapped
      case Waits => Run(m, Start(), n) == Hung
      case Diverges => n == 0
  {
    match b
    case Result(v) => n :| Run(m, Start(), n) == Halted(v);
    case FallsOff => n :| FellOff(Run(m, Start(), n));
    case Undefined => n :| Run(m, Start(), n) == Trapped;
    case Waits => n :| Run(m, Start(), n) == Hung;
    case Diverges => n := 0;
  }

  /** Semantic preservation: an accepted function and its block graph do the same
      thing, whatever that is, for the same arguments and the same callees. */
  lemma FunctionPreserved(f: Function, args: seq<int>, ctx: Context, b: Behaviour)
    requires Callable(f, args, ctx)
    ensures SourceDoes(f, args, ctx, b) <==> TargetDoes(Compiled(f, ctx.sigs, args, ctx.calls), b)
  {
    if SourceDoes(f, args, ctx, b) {
      Forward(f, args, ctx, b);
    }
    if TargetDoes(Compiled(f, ctx.sigs, args, ctx.calls), b) {
      var a := SomeBehaviour(f, args, ctx);
      Forward(f, args, ctx, a);
      OneBehaviour(Compiled(f, ctx.sigs, args, ctx.calls), a, b);
    }
  }

  ghost predicate Gets(m: Machine, c: Config) { exists n: nat :: Run(m, Start(), n) == c }

  /** How the blocks fall off: at the open end of the last block, or by a branch to it
      when it has been deleted. */
  lemma FallsWhere(f: Function, args: seq<int>, ctx: Context)
    requires Callable(f, args, ctx)
    ensures var m := Compiled(f, ctx.sigs, args, ctx.calls);
      var deleted := Deleted(LowerFunction(f, ctx.sigs)).Some?;
      && (Gets(m, Lost) <==> deleted && SourceDoes(f, args, ctx, FallsOff))
      && (Gets(m, Stuck) <==> !deleted && SourceDoes(f, args, ctx, FallsOff))
  {
    var m := Compiled(f, ctx.sigs, args, ctx.calls);
    if SourceDoes(f, args, ctx, FallsOff) {
      var fuel :| RunSource(f, args, fuel, ctx).Normal?;
      var n := RunFunction(f, args, ctx, fuel);
      forall k: nat ensures FellOff(Run(m, Start(), k)) ==> Run(m, Start(), k) == Run(m, Start(), n) {
        if FellOff(Run(m, Start(), k)) {
          if k <= n { RunMonotone(m, Start(), k, n); } else { RunMonotone(m, Start(), n, k); }
        }
      }
    } else {
      FunctionPreserved(f, args, ctx, FallsOff);
    }
  }
}
