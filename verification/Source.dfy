/** The resolved syntax tree that the IR generator walks, its static rules and a
    fuelled big-step evaluator. Every identifier carries the declaration it was
    resolved to; a declaration is known by its identity (the AST node). */
module Source {
  import opened Wrappers
  import opened Ints
  import opened Ir

  type Dcl = nat

  datatype Signature = Signature(params: seq<Width>, ret: Width)

  datatype UnOp = Plus | Minus

  datatype Exp =
    | Literal(number: int)
    | BoolLit(truth: bool)
    | Ident(dcl: Dcl)
    | Unary(uop: UnOp, right: Exp)
    | Binary(left: Exp, op: BinOp, rhs: Exp)
    | CallExp(function_: nat, args: seq<Exp>)

  datatype VarDcl = VarDcl(dcl: Dcl, ty: Option<Width>, value: Exp)

  /** As in the C tree, a final `else` is an `If` node without a condition, and
      bodies are statements that must be blocks. */
  datatype Smt =
    | Declare(variable: VarDcl)
    | Assign(target: Dcl, value: Exp)
    | Return(result: Exp)
    | Block(smts: seq<Smt>)
    | If(cond: Option<Exp>, body: Smt, elses: Option<Smt>)
    | For(index: VarDcl, test: Exp, inc: Smt, loop: Smt)

  // ---------- static rules ----------

  type Env = map<Dcl, Width>

  function ExpType(e: Exp, env: Env, sigs: seq<Signature>): Option<Width>
    decreases e
  {
    match e
    case Literal(_) => Some(I64)
    case BoolLit(_) => Some(I1)
    case Ident(d) => if d in env then Some(env[d]) else None
    case Unary(_, x) => ExpType(x, env, sigs)
    case Binary(l, op, r) =>
      var a := ExpType(l, env, sigs);
      var b := ExpType(r, env, sigs);
      if a.None? || b.None? then None
      else Some(ResultWidth(op, Promote(a.value, b.value)))
    case CallExp(f, args) =>
      if f < |sigs| && ArgsMatch(args, sigs[f].params, env, sigs) then Some(sigs[f].ret) else None
  }

  /** Arguments are passed as they are: each must already have the parameter's width. */
  predicate ArgsMatch(args: seq<Exp>, params: seq<Width>, env: Env, sigs: seq<Signature>)
    decreases args
  {
    if args == [] || params == [] then args == [] && params == []
    else
      && ExpType(args[0], env, sigs) == Some(params[0])
      && ArgsMatch(args[1..], params[1..], env, sigs)
  }

  function DeclareType(v: VarDcl, env: Env, sigs: seq<Signature>): Option<Width> {
    var t := ExpType(v.value, env, sigs);
    if t.None? then None else Some(if v.ty.Some? then v.ty.value else t.value)
  }

  /** The declarations in scope after `s`, or None when `s` is outside what the
      generator accepts: an identifier without a compiled declaration, a store or
      a condition of the wrong width, or a body that is not a block. */
  function Check(s: Smt, env: Env, sigs: seq<Signature>): Option<Env>
    decreases s, 0
  {
    match s
    case Declare(v) =>
      var t := DeclareType(v, env, sigs);
      if t.None? then None else Some(env[v.dcl := t.value])
    case Assign(d, e) =>
      if d in env && ExpType(e, env, sigs) == Some(env[d]) then Some(env) else None
    case Return(e) =>
      if ExpType(e, env, sigs).Some? then Some(env) else None
    case Block(smts) =>
      if CheckSeq(smts, env, sigs).Some? then Some(env) else None
    case If(cond, body, elses) =>
      if cond.Some? && ExpType(cond.value, env, sigs) == Some(I1)
         && body.Block? && Check(body, env, sigs).Some?
         && (elses.Some? ==> CheckElse(elses.value, env, sigs))
      then Some(env) else None
    case For(index, test, inc, loop) =>
      var t := DeclareType(index, env, sigs);
      if t.None? then None else
      var inner := env[index.dcl := t.value];
      if ExpType(test, inner, sigs) == Some(I1)
         && loop.Block? && Check(loop, inner, sigs).Some?
         && Check(inc, inner, sigs).Some?
      then Some(inner) else None
  }

  /** What may stand after `else`: another `if`, or a bare block. */
  predicate CheckElse(s: Smt, env: Env, sigs: seq<Signature>)
    decreases s, 1
  {
    s.If? &&
    if s.cond.None? then s.body.Block? && Check(s.body, env, sigs).Some?
    else Check(s, env, sigs).Some?
  }

  function CheckSeq(smts: seq<Smt>, env: Env, sigs: seq<Signature>): Option<Env>
    decreases smts, 0
  {
    if smts == [] then Some(env)
    else
      var first := Check(smts[0], env, sigs);
      if first.None? then None else CheckSeq(smts[1..], first.value, sigs)
  }

  /** Every declaration made inside `s`. */
  function Dcls(s: Smt): set<Dcl>
    decreases s, 0
  {
    match s
    case Declare(v) => {v.dcl}
    case Assign(_, _) => {}
    case Return(_) => {}
    case Block(smts) => DclsSeq(smts)
    case If(_, body, elses) => Dcls(body) + (if elses.Some? then Dcls(elses.value) else {})
    case For(index, _, inc, loop) => {index.dcl} + Dcls(loop) + Dcls(inc)
  }

  function DclsSeq(smts: seq<Smt>): set<Dcl>
    decreases smts, 0
  {
    if smts == [] then {} else Dcls(smts[0]) + DclsSeq(smts[1..])
  }

  /** A proper tree: each declaration node occurs once and not among `used`, what
      follows an `else` is an `if` node, and one without a condition ends the chain. */
  predicate Tree(s: Smt, used: set<Dcl>)
    decreases s, 0
  {
    match s
    case Declare(v) => v.dcl !in used
    case Assign(_, _) => true
    case Return(_) => true
    case Block(smts) => TreeSeq(smts, used)
    case If(cond, body, elses) =>
      && Tree(body, used)
      && (cond.None? ==> elses.None?)
      && (elses.Some? ==> elses.value.If? && Tree(elses.value, used + Dcls(body)))
    case For(index, _, inc, loop) =>
      && index.dcl !in used
      && Tree(loop, used + {index.dcl})
      && Tree(inc, used + {index.dcl} + Dcls(loop))
  }

  predicate TreeSeq(smts: seq<Smt>, used: set<Dcl>)
    decreases smts, 0
  {
    smts == [] || (Tree(smts[0], used) && TreeSeq(smts[1..], used + Dcls(smts[0])))
  }

  // ---------- evaluation ----------

  datatype Val = Val(w: Width, v: int)
  type Store = map<Dcl, Val>

  datatype Context = Context(sigs: seq<Signature>, ret: Width, calls: Oracle)

  /** `Wrong` is a program outside the static rules. */
  datatype EvalResult = Gives(val: Val) | Trap | Hang | Wrong
  datatype ArgsResult = Args(vals: seq<Val>) | ArgsTrap | ArgsHang | ArgsWrong

  function Eval(e: Exp, store: Store, ctx: Context): EvalResult
    decreases e
  {
    match e
    case Literal(n) => Gives(Val(I64, Wrap(I64, n)))
    case BoolLit(b) => Gives(Val(I1, Truth(b)))
    case Ident(d) => if d in store then Gives(store[d]) else Wrong
    case Unary(op, x) =>
      var a := Eval(x, store, ctx);
      if !a.Gives? || op.Plus? then a else Gives(Val(a.val.w, Wrap(a.val.w, -a.val.v)))
    case Binary(l, op, r) =>
      var a := Eval(l, store, ctx);
      if !a.Gives? then a else
      var b := Eval(r, store, ctx);
      if !b.Gives? then b else
      // operands of different widths meet as signed 64-bit numbers
      var w := Promote(a.val.w, b.val.w);
      var v := Arith(op, w, a.val.v, b.val.v);
      if v.None? then Trap else Gives(Val(ResultWidth(op, w), v.value))
    case CallExp(f, args) =>
      match EvalArgs(args, store, ctx)
      case ArgsTrap => Trap
      case ArgsHang => Hang
      case ArgsWrong => Wrong
      case Args(vs) =>
        if f >= |ctx.sigs| || Widths(vs) != ctx.sigs[f].params then Wrong
        else if Invocation(f, Numbers(vs)) !in ctx.calls then Hang
        else match ctx.calls[Invocation(f, Numbers(vs))]
          case Traps => Trap
          case Returns(v) => Gives(Val(ctx.sigs[f].ret, v))
  }

  function Widths(vs: seq<Val>): seq<Width> { seq(|vs|, i requires 0 <= i < |vs| => vs[i].w) }
  function Numbers(vs: seq<Val>): seq<int> { seq(|vs|, i requires 0 <= i < |vs| => vs[i].v) }

  /** Arguments are evaluated from left to right. */
  function EvalArgs(args: seq<Exp>, store: Store, ctx: Context): ArgsResult
    decreases args
  {
    if args == [] then Args([])
    else match Eval(args[0], store, ctx)
      case Trap => ArgsTrap
      case Hang => ArgsHang
      case Wrong => ArgsWrong
      case Gives(v) =>
        var rest := EvalArgs(args[1..], store, ctx);
        if rest.Args? then Args([v] + rest.vals) else rest
  }

  datatype Outcome =
    | Normal(store: Store)
    | Returned(result: int)
    | Trapping
    | Hanging
    | Failing
    | OutOfFuel

  function Abort(r: EvalResult): Outcome
    requires !r.Gives?
  {
    match r
    case Trap => Trapping
    case Hang => Hanging
    case Wrong => Failing
  }

  function ExecDeclare(v: VarDcl, store: Store, ctx: Context): Outcome {
    var r := Eval(v.value, store, ctx);
    if !r.Gives? then Abort(r)
    else if v.ty.None? then Normal(store[v.dcl := r.val])
    else Normal(store[v.dcl := Val(v.ty.value, Wrap(v.ty.value, r.val.v))])
  }

  /** Runs `s`; fuel bounds the number of loop iterations started. */
  function Exec(s: Smt, store: Store, fuel: nat, ctx: Context): Outcome
    decreases fuel, s, 2
  {
    match s
    case Declare(v) => ExecDeclare(v, store, ctx)
    case Assign(d, e) =>
      var r := Eval(e, store, ctx);
      if !r.Gives? then Abort(r)
      else if d !in store || store[d].w != r.val.w then Failing
      else Normal(store[d := r.val])
    case Return(e) =>
      var r := Eval(e, store, ctx);
      if !r.Gives? then Abort(r) else Returned(Wrap(ctx.ret, r.val.v))
    case Block(smts) => ExecSeq(smts, store, fuel, ctx)
    case If(cond, body, elses) =>
      if cond.None? then Exec(body, store, fuel, ctx)
      else
        var r := Eval(cond.value, store, ctx);
        if !r.Gives? then Abort(r)
        else if r.val.w != I1 then Failing
        else if r.val.v != 0 then Exec(body, store, fuel, ctx)
        else if elses.Some? then Exec(elses.value, store, fuel, ctx)
        else Normal(store)
    case For(index, test, inc, loop) =>
      var first := ExecDeclare(index, store, ctx);
      if !first.Normal? then first else Iterate(s, first.store, fuel, ctx)
  }

  function ExecSeq(smts: seq<Smt>, store: Store, fuel: nat, ctx: Context): Outcome
    decreases fuel, smts, 0
  {
    if smts == [] then Normal(store)
    else
      var first := Exec(smts[0], store, fuel, ctx);
      if first.Normal? then ExecSeq(smts[1..], first.store, fuel, ctx) else first
  }

  /** `while test { loop; inc }`, from the test. */
  function Iterate(s: Smt, store: Store, fuel: nat, ctx: Context): Outcome
    requires s.For?
    decreases fuel, s, 1
  {
    var r := Eval(s.test, store, ctx);
    if !r.Gives? then Abort(r)
    else if r.val.w != I1 then Failing
    else if r.val.v == 0 then Normal(store)
    else Again(s, store, fuel, ctx)
  }

  /** The same loop from the start of its body. */
  function Again(s: Smt, store: Store, fuel: nat, ctx: Context): Outcome
    requires s.For?
    decreases fuel, s, 0
  {
    if fuel == 0 then OutOfFuel
    else
      var once := Exec(s.loop, store, fuel - 1, ctx);
      if !once.Normal? then once else
      var step := Exec(s.inc, once.store, fuel - 1, ctx);
      if !step.Normal? then step else Iterate(s, step.store, fuel - 1, ctx)
  }

  // ---------- functions and programs ----------

  datatype Parameter = Parameter(dcl: Dcl, ty: Width)
  datatype Function = Function(params: seq<Parameter>, ret: Width, body: Smt)

  function SignatureOf(f: Function): Signature {
    Signature(seq(|f.params|, i requires 0 <= i < |f.params| => f.params[i].ty), f.ret)
  }

  /** Binds the parameters in order. */
  function Bind(params: seq<Parameter>, args: seq<int>): Store
    requires |params| == |args|
  {
    if params == [] then map[]
    else
      var n := |params| - 1;
      Bind(params[..n], args[..n])[params[n].dcl := Val(params[n].ty, args[n])]
  }

  function ParamEnv(params: seq<Parameter>): Env {
    if params == [] then map[]
    else
      var n := |params| - 1;
      ParamEnv(params[..n])[params[n].dcl := params[n].ty]
  }

  predicate Accepts(f: Function, args: seq<int>) {
    |args| == |f.params| && forall i :: 0 <= i < |args| ==> InRange(f.params[i].ty, args[i])
  }

  /** A function the generator accepts, when it may call the functions of `sigs`. */
  predicate CheckFunction(f: Function, sigs: seq<Signature>) {
    && (forall i, j :: 0 <= i < j < |f.params| ==> f.params[i].dcl != f.params[j].dcl)
    && f.body.Block?
    && Tree(f.body, ParamEnv(f.params).Keys)
    && Check(f.body, ParamEnv(f.params), sigs).Some?
  }

  /** A function may call itself and the functions declared before it. */
  predicate CheckProgram(prog: seq<Function>) {
    forall i :: 0 <= i < |prog| ==> CheckNth(prog, i)
  }

  predicate CheckNth(prog: seq<Function>, i: nat) {
    i < |prog| && CheckFunction(prog[i], Signatures(prog, i))
  }

  function Signatures(prog: seq<Function>, i: nat): seq<Signature>
    requires i < |prog|
  {
    seq(i + 1, k requires 0 <= k <= i => SignatureOf(prog[k]))
  }
}
