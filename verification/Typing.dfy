/** The types of the code that is emitted. The static rules accept a function exactly when its
    instructions have the types that LLVM asks of them. */
module Typing {
  import opened Wrappers
  import opened Ints
  import opened Ir
  import opened Source
  import opened Lowering
  import opened Growth
  import opened Parameters
  import opened Simulation

  // ---------- typed instructions ----------

  /** Some declaration has its cell at register `r`. */
  ghost predicate HasCell(fin: State, r: nat, w: Width) { exists d :: CellOf(fin, d, r, w) }

  predicate CellOf(fin: State, d: Dcl, r: nat, w: Width) { d in fin.slots && fin.slots[d] == Slot(r, w) }

  function WidthsOf(os: seq<Operand>): seq<Width> { seq(|os|, i requires 0 <= i < |os| => os[i].width) }

  /** A cell is read and written at its own width, operands meet at one width, a condition has
      one bit, and calls and returns have the widths of the functions. */
  ghost predicate Typed(i: Instr, fin: State) {
    match i
    case Alloca(dst, w) => HasCell(fin, dst, w)
    case Load(_, w, addr) => HasCell(fin, addr, w)
    case Store(src, addr) => HasCell(fin, addr, src.width)
    case Bin(_, _, l, r) => l.width == r.width
    case IntCast(_, _, _) => true
    case Call(_, fn, args) => fn < |fin.sigs| && WidthsOf(args) == fin.sigs[fn].params
    case Br(_) => true
    case CondBr(c, _, _) => c.width == I1
    case Ret(o) => o.width == fin.ret
  }

  function Length(st: State, k: nat): nat { if k < |st.blocks| then |st.blocks[k]| else 0 }

  /** What `b` has beyond `a` is typed. */
  ghost predicate NewTyped(a: State, b: State, fin: State) {
    forall k, i :: 0 <= k < |b.blocks| && Length(a, k) <= i < |b.blocks[k]| ==> Typed(b.blocks[k][i], fin)
  }

  lemma NewMore(a: State, b: State, c: State, fin: State)
    requires Later(a, b) && Later(b, c)
    ensures NewTyped(a, c, fin) <==> NewTyped(a, b, fin) && NewTyped(b, c, fin)
  {
    hide Typed;
    forall k | 0 <= k < |b.blocks| ensures Prefix(b.blocks[k], c.blocks[k]) && (k < |a.blocks| ==> Prefix(a.blocks[k], b.blocks[k])) {}
    if NewTyped(a, c, fin) {
      forall k, i | 0 <= k < |b.blocks| && Length(a, k) <= i < |b.blocks[k]| ensures Typed(b.blocks[k][i], fin) {
        assert Prefix(b.blocks[k], c.blocks[k]) && c.blocks[k][i] == b.blocks[k][i];
      }
    }
    if NewTyped(a, b, fin) && NewTyped(b, c, fin) {
      forall k, i | 0 <= k < |c.blocks| && Length(a, k) <= i < |c.blocks[k]| ensures Typed(c.blocks[k][i], fin) {
        if k < |b.blocks| && i < |b.blocks[k]| {
          assert Prefix(b.blocks[k], c.blocks[k]) && c.blocks[k][i] == b.blocks[k][i];
        }
      }
    }
  }

  lemma NewOne(st: State, i: Instr, fin: State)
    requires Ok(st)
    ensures NewTyped(st, Emit(st, i), fin) <==> Typed(i, fin)
    ensures NewTyped(st, Define(st, i), fin) <==> Typed(i, fin)
  {
    hide Typed;
    var b := Emit(st, i).blocks;
    assert b[st.cur][|st.blocks[st.cur]|] == i;
  }

  lemma NewNone(st: State, r: State, fin: State)
    requires r.blocks == st.blocks || r.blocks == st.blocks + [[]] || r.blocks == st.blocks + [[]] + [[]]
    ensures NewTyped(st, r, fin) && Grown(st, r)
  {
  }

  // ---------- what the cells are ----------

  /** No two declarations have one cell. */
  ghost predicate Apart(st: State) {
    forall d, e :: d in st.slots && e in st.slots && d != e ==> st.slots[d].reg != st.slots[e].reg
  }

  lemma CellIs(st: State, fin: State, d: Dcl, w: Width)
    requires Apart(fin) && LaterSlots(st, fin) && d in st.slots
    ensures HasCell(fin, st.slots[d].reg, w) <==> w == st.slots[d].width
  {
    assert fin.slots[d] == st.slots[d];
    if w == st.slots[d].width { assert CellOf(fin, d, st.slots[d].reg, w); }
  }

  ghost predicate EnvIs(st: State, env: Env) {
    forall d :: d in env ==> d in st.slots && st.slots[d].width == env[d]
  }

  lemma EnvLater(st: State, r: State, env: Env)
    requires EnvIs(st, env) && Later(st, r)
    ensures EnvIs(r, env)
  {
  }

  // ---------- expressions ----------

  /** Every name is one of `names`. */
  predicate Resolved(e: Source.Exp, names: set<Dcl>)
    decreases e
  {
    match e
    case Literal(_) => true
    case BoolLit(_) => true
    case Ident(d) => d in names
    case Unary(_, x) => Resolved(x, names)
    case Binary(l, _, r) => Resolved(l, names) && Resolved(r, names)
    case CallExp(_, args) => AllResolved(args, names)
  }

  predicate AllResolved(es: seq<Source.Exp>, names: set<Dcl>)
    decreases es
  {
    es == [] || (Resolved(es[0], names) && AllResolved(es[1..], names))
  }

  lemma CastTyped(st: State, o: Operand, w: Width, fin: State)
    requires Ok(st)
    ensures var (r, o') := LowerCast(st, o, w); NewTyped(st, r, fin) && o'.width == w
  {
    NewNone(st, st, fin);
    if o.width != w {
      NewOne(st, IntCast(st.next, o, w), fin);
    }
  }

  lemma OperateTyped(st: State, op: BinOp, a: Operand, b: Operand, fin: State)
    requires Ok(st) && SlotsBelow(st)
    ensures var (r, o) := Operate(st, op, a, b);
      NewTyped(st, r, fin) && o.width == ResultWidth(op, Promote(a.width, b.width))
  {
    hide NewTyped;
    var w := Promote(a.width, b.width);
    var (s1, a') := LowerCast(st, a, w);
    CastTyped(st, a, w, fin);
    CastTouches(st, a, w);
    var (s2, b') := LowerCast(s1, b, w);
    CastTyped(s1, b, w, fin);
    CastTouches(s1, b, w);
    NewMore(st, s1, s2, fin);
    var i := Bin(s2.next, op, a', b');
    NewOne(s2, i, fin);
    EmitTouches(s2, i);
    LaterTransitive(st, s1, s2);
    NewMore(st, s2, Define(s2, i), fin);
  }

  /** New code is typed exactly when the expression has a type, and then that is its operand's. */
  ghost predicate ExpJudged(st: State, e: Source.Exp, env: Env, fin: State)
    requires Ok(st)
  {
    var (r, o) := LowerExp(st, e);
    var t := ExpType(e, env, fin.sigs);
    (NewTyped(st, r, fin) <==> t.Some?) && (t.Some? ==> o.width == t.value)
  }

  ghost predicate Placed(st: State, env: Env, fin: State) {
    Ok(st) && SlotsBelow(st) && EnvIs(st, env) && Apart(fin)
  }

  lemma {:induction false} ExpTyped(st: State, e: Source.Exp, env: Env, fin: State)
    requires Placed(st, env, fin) && Resolved(e, env.Keys) && Later(LowerExp(st, e).0, fin)
    ensures ExpJudged(st, e, env, fin)
    decreases e
  {
    hide Typed, NewTyped;
    ExpTouches(st, e);
    LaterTransitive(st, LowerExp(st, e).0, fin);
    match e
    case Literal(_) => NewNone(st, st, fin);
    case BoolLit(_) => NewNone(st, st, fin);
    case Ident(d) => IdentTyped(st, d, env, fin);
    case Unary(op, x) => UnaryTyped(st, op, x, env, fin);
    case Binary(l, op, r) => BinaryTyped(st, l, op, r, env, fin);
    case CallExp(f, args) => CallTyped(st, f, args, env, fin);
  }

  lemma IdentTyped(st: State, d: Dcl, env: Env, fin: State)
    requires Placed(st, env, fin) && d in env && Later(st, fin)
    ensures ExpJudged(st, Source.Ident(d), env, fin)
  {
    var s := SlotOf(st, d);
    NewOne(st, Load(st.next, s.width, s.reg), fin);
    CellIs(st, fin, d, s.width);
    assert ExpType(Source.Ident(d), env, fin.sigs) == Some(env[d]);
  }

  lemma {:induction false} UnaryTyped(st: State, op: UnOp, x: Source.Exp, env: Env, fin: State)
    requires Placed(st, env, fin) && Resolved(x, env.Keys) && Later(LowerExp(st, Source.Unary(op, x)).0, fin)
    ensures ExpJudged(st, Source.Unary(op, x), env, fin)
    decreases Source.Unary(op, x), 0
  {
    hide NewTyped;
    ExpTouches(st, x);
    var (s1, o) := LowerExp(st, x);
    if op.Minus? {
      var i := Bin(s1.next, Mul, Const(o.width, -1), o);
      EmitTouches(s1, i);
      LaterTransitive(s1, Define(s1, i), fin);
      NewOne(s1, i, fin);
      NewMore(st, s1, Define(s1, i), fin);
    }
    ExpTyped(st, x, env, fin);
    assert ExpType(Source.Unary(op, x), env, fin.sigs) == ExpType(x, env, fin.sigs);
  }

  lemma {:induction false} BinaryTyped(st: State, l: Source.Exp, op: BinOp, r: Source.Exp, env: Env, fin: State)
    requires Placed(st, env, fin) && Resolved(l, env.Keys) && Resolved(r, env.Keys) && Later(LowerExp(st, Source.Binary(l, op, r)).0, fin)
    ensures ExpJudged(st, Source.Binary(l, op, r), env, fin)
    decreases Source.Binary(l, op, r), 0
  {
    hide NewTyped, Typed, Operate, Apart, Grown, LaterSlots;
    ExpTouches(st, l);
    var (s1, a) := LowerExp(st, l);
    ExpTouches(s1, r);
    var (s2, b) := LowerExp(s1, r);
    OperateTouches(s2, op, a, b);
    var (s3, o) := Operate(s2, op, a, b);
    LaterTransitive(s2, s3, fin);
    LaterTransitive(s1, s2, fin);
    EnvLater(st, s1, env);
    ExpTyped(st, l, env, fin);
    ExpTyped(s1, r, env, fin);
    OperateTyped(s2, op, a, b, fin);
    NewMore(st, s1, s2, fin);
    LaterTransitive(st, s1, s2);
    NewMore(st, s2, s3, fin);
  }

  /** As many arguments as parameters, each of its width. */
  ghost predicate ArgsJudged(st: State, args: seq<Source.Exp>, env: Env, fin: State)
    requires Ok(st)
  {
    var (r, os) := LowerArgs(st, args);
    && |os| == |args|
    && (NewTyped(st, r, fin) <==> forall i :: 0 <= i < |args| ==> ExpType(args[i], env, fin.sigs).Some?)
    && forall i :: 0 <= i < |args| && ExpType(args[i], env, fin.sigs).Some? ==> os[i].width == ExpType(args[i], env, fin.sigs).value
  }

  lemma {:induction false} CallTyped(st: State, f: nat, args: seq<Source.Exp>, env: Env, fin: State)
    requires Placed(st, env, fin) && AllResolved(args, env.Keys) && Later(LowerExp(st, Source.CallExp(f, args)).0, fin)
    ensures ExpJudged(st, Source.CallExp(f, args), env, fin)
    decreases args, 1
  {
    hide NewTyped;
    ArgsTouches(st, args);
    var (s1, os) := LowerArgs(st, args);
    var i := Call(s1.next, f, os);
    EmitTouches(s1, i);
    LaterTransitive(s1, Define(s1, i), fin);
    ArgsTyped(st, args, env, fin);
    NewOne(s1, i, fin);
    NewMore(st, s1, Define(s1, i), fin);
    if f < |fin.sigs| {
      MatchExactly(args, fin.sigs[f].params, env, fin.sigs);
    }
  }

  lemma {:induction false} MatchExactly(args: seq<Source.Exp>, params: seq<Width>, env: Env, sigs: seq<Signature>)
    ensures ArgsMatch(args, params, env, sigs) <==> |args| == |params| && forall i :: 0 <= i < |args| ==> ExpType(args[i], env, sigs) == Some(params[i])
    decreases |args|
  {
    hide ExpType;
    if args != [] && params != [] {
      MatchExactly(args[1..], params[1..], env, sigs);
      assert forall i :: 0 < i < |args| ==> args[i] == args[1..][i - 1];
      assert forall i :: 0 < i < |params| ==> params[i] == params[1..][i - 1];
    }
  }

  lemma {:induction false} ArgsTyped(st: State, args: seq<Source.Exp>, env: Env, fin: State)
    requires Placed(st, env, fin) && AllResolved(args, env.Keys) && Later(LowerArgs(st, args).0, fin)
    ensures ArgsJudged(st, args, env, fin)
    decreases args, 0
  {
    hide NewTyped, Typed, ExpType;
    if args == [] {
      NewNone(st, st, fin);
    } else {
      ExpTouches(st, args[0]);
      var (s1, o) := LowerExp(st, args[0]);
      ArgsTouches(s1, args[1..]);
      var (s2, os) := LowerArgs(s1, args[1..]);
      LaterTransitive(s1, s2, fin);
      EnvLater(st, s1, env);
      ExpTyped(st, args[0], env, fin);
      ArgsTyped(s1, args[1..], env, fin);
      NewMore(st, s1, s2, fin);
      assert forall i :: 0 < i < |args| ==> args[i] == args[1..][i - 1];
    }
  }

  // ---------- statements ----------

  function NamesAfter(s: Source.Smt, names: set<Dcl>): set<Dcl> {
    match s
    case Declare(v) => names + {v.dcl}
    case For(index, _, _, _) => names + {index.dcl}
    case _ => names
  }

  /** Every name stands for a declaration that was compiled before, and bodies are blocks. */
  predicate Scoped(s: Source.Smt, names: set<Dcl>)
    decreases s, 0
  {
    match s
    case Declare(v) => Resolved(v.value, names)
    case Assign(d, e) => d in names && Resolved(e, names)
    case Return(e) => Resolved(e, names)
    case Block(smts) => AllScoped(smts, names)
    case If(cond, body, elses) =>
      && cond.Some? && Resolved(cond.value, names) && body.Block? && Scoped(body, names)
      && (elses.Some? ==> ElseScoped(elses.value, names))
    case For(index, test, inc, loop) =>
      var inner := names + {index.dcl};
      && Resolved(index.value, names) && Resolved(test, inner)
      && loop.Block? && Scoped(loop, inner) && Scoped(inc, inner)
  }

  predicate ElseScoped(s: Source.Smt, names: set<Dcl>)
    decreases s, 1
  {
    s.If? && if s.cond.None? then s.body.Block? && Scoped(s.body, names) else Scoped(s, names)
  }

  predicate AllScoped(smts: seq<Source.Smt>, names: set<Dcl>)
    decreases smts, 0
  {
    smts == [] || (Scoped(smts[0], names) && AllScoped(smts[1..], NamesAfter(smts[0], names)))
  }

  /** New code is typed exactly when the statement is accepted. */
  ghost predicate Judged(st: State, s: Source.Smt, r: State, env: Env, fin: State) {
    var t := Check(s, env, fin.sigs);
    (NewTyped(st, r, fin) <==> t.Some?) && (t.Some? ==> EnvIs(r, t.value) && t.value.Keys == NamesAfter(s, env.Keys))
  }

  /** A new cell and a store to it. */
  lemma AllottedTyped(st: State, d: Dcl, w: Width, o: Operand, fin: State)
    requires Ok(st) && SlotsBelow(st) && d !in st.slots && Apart(fin) && o.width == w && Later(Allocate(st, d, w, o), fin)
    ensures NewTyped(st, Allocate(st, d, w, o), fin)
  {
    hide NewTyped;
    var s1 := Define(st, Alloca(st.next, w));
    var s2 := Emit(s1, Store(o, st.next));
    var r := Allocate(st, d, w, o);
    EmitTouches(st, Alloca(st.next, w));
    EmitTouches(s1, Store(o, st.next));
    NewOne(st, Alloca(st.next, w), fin);
    NewOne(s1, Store(o, st.next), fin);
    CellIs(r, fin, d, w);
    NewMore(st, s1, s2, fin);
    SameBlocks(st, s2, st, r, fin);
  }

  lemma VariableTyped(st: State, v: VarDcl, env: Env, fin: State)
    requires Placed(st, env, fin) && v.dcl !in st.slots && Resolved(v.value, env.Keys) && Later(LowerVariable(st, v), fin)
    ensures var r, t := LowerVariable(st, v), DeclareType(v, env, fin.sigs);
      (NewTyped(st, r, fin) <==> t.Some?) && (t.Some? ==> EnvIs(r, env[v.dcl := t.value]))
  {
    hide NewTyped, Grown, Apart;
    ExpTouches(st, v.value);
    var (s1, o) := LowerExp(st, v.value);
    var w := if v.ty.Some? then v.ty.value else o.width;
    CastTouches(s1, o, w);
    CastTyped(s1, o, w, fin);
    var (s2, o') := LowerCast(s1, o, w);
    var r := LowerVariable(st, v);
    assert r == Allocate(s2, v.dcl, w, o');
    AllocateTouches(s2, v.dcl, w, o');
    AllottedTyped(s2, v.dcl, w, o', fin);
    LaterTransitive(s1, s2, r);
    LaterTransitive(s1, r, fin);
    ExpTyped(st, v.value, env, fin);
    NewMore(s1, s2, r, fin);
    NewMore(st, s1, r, fin);
    LaterTransitive(st, s1, r);
    EnvLater(st, r, env);
    assert r.slots[v.dcl] == Slot(s2.next, w);
  }

  lemma SameBlocks(a: State, b: State, a': State, b': State, fin: State)
    requires a.blocks == a'.blocks && b.blocks == b'.blocks
    ensures NewTyped(a, b, fin) <==> NewTyped(a', b', fin)
  {
  }

  lemma AssignTyped(st: State, d: Dcl, e: Source.Exp, env: Env, fin: State)
    requires Placed(st, env, fin) && d in env && Resolved(e, env.Keys) && Later(LowerSmt(st, Source.Assign(d, e)), fin)
    ensures Judged(st, Source.Assign(d, e), LowerSmt(st, Source.Assign(d, e)), env, fin)
  {
    hide NewTyped;
    ExpTouches(st, e);
    var (s1, o) := LowerExp(st, e);
    var i := Store(o, SlotOf(st, d).reg);
    EmitTouches(s1, i);
    LaterTransitive(s1, Emit(s1, i), fin);
    ExpTyped(st, e, env, fin);
    NewOne(s1, i, fin);
    CellIs(s1, fin, d, o.width);
    NewMore(st, s1, Emit(s1, i), fin);
    LaterTransitive(st, s1, Emit(s1, i));
    EnvLater(st, Emit(s1, i), env);
  }

  lemma ReturnTyped(st: State, e: Source.Exp, env: Env, fin: State)
    requires Placed(st, env, fin) && Resolved(e, env.Keys) && Later(LowerSmt(st, Source.Return(e)), fin)
    ensures Judged(st, Source.Return(e), LowerSmt(st, Source.Return(e)), env, fin)
  {
    hide NewTyped;
    ExpTouches(st, e);
    var (s1, o) := LowerExp(st, e);
    CastTouches(s1, o, st.ret);
    CastTyped(s1, o, st.ret, fin);
    var (s2, o') := LowerCast(s1, o, st.ret);
    EmitTouches(s2, Ret(o'));
    LaterTransitive(s1, s2, Emit(s2, Ret(o')));
    LaterTransitive(s1, Emit(s2, Ret(o')), fin);
    ExpTyped(st, e, env, fin);
    NewOne(s2, Ret(o'), fin);
    NewMore(s1, s2, Emit(s2, Ret(o')), fin);
    NewMore(st, s1, Emit(s2, Ret(o')), fin);
    LaterTransitive(st, s1, Emit(s2, Ret(o')));
    EnvLater(st, Emit(s2, Ret(o')), env);
  }

  lemma {:induction false} SmtTyped(st: State, s: Source.Smt, env: Env, fin: State)
    requires Placed(st, env, fin) && Ready(st, s) && Scoped(s, env.Keys) && Later(LowerSmt(st, s), fin)
    ensures Judged(st, s, LowerSmt(st, s), env, fin)
    decreases s, 4
  {
    hide NewTyped, Apart, Later;
    match s
    case Declare(v) => VariableTyped(st, v, env, fin);
    case Assign(d, e) => AssignTyped(st, d, e, env, fin);
    case Return(e) => ReturnTyped(st, e, env, fin);
    case Block(smts) =>
      SmtsExtends(st, smts);
      SmtsTyped(st, smts, env, fin);
      EnvLater(st, LowerSmts(st, smts), env);
    case If(_, _, _) => IfTyped(st, s, env, fin);
    case For(_, _, _, _) => LoopTyped(st, s, env, fin);
  }

  lemma {:induction false} SmtsTyped(st: State, smts: seq<Source.Smt>, env: Env, fin: State)
    requires Placed(st, env, fin) && TreeSeq(smts, st.slots.Keys) && AllScoped(smts, env.Keys) && Later(LowerSmts(st, smts), fin)
    ensures NewTyped(st, LowerSmts(st, smts), fin) <==> CheckSeq(smts, env, fin.sigs).Some?
    decreases smts, 0
  {
    hide NewTyped, Apart, Later;
    if smts == [] {
      NewNone(st, st, fin);
    } else {
      SmtExtends(st, smts[0]);
      var s1 := LowerSmt(st, smts[0]);
      SmtsExtends(s1, smts[1..]);
      var r := LowerSmts(s1, smts[1..]);
      LaterTransitive(s1, r, fin);
      SmtTyped(st, smts[0], env, fin);
      NewMore(st, s1, r, fin);
      if Check(smts[0], env, fin.sigs).Some? {
        SmtsTyped(s1, smts[1..], Check(smts[0], env, fin.sigs).value, fin);
      }
    }
  }

  // ---------- branches and loops ----------

  /** But for where the builder is. */
  predicate Same(a: State, b: State) { b == a.(cur := b.cur) }

  lemma LaterMoved(a: State, b: State, a': State, b': State)
    requires Same(a, a') && Same(b, b')
    ensures Later(a, b) <==> Later(a', b')
  {
  }

  lemma {:induction false} BlockAtTyped(st: State, s: Source.Smt, b: nat, env: Env, fin: State)
    requires Placed(st, env, fin) && Ready(st, s) && s.Block? && Scoped(s, env.Keys)
    requires b < |st.blocks| && Later(BlockAt(st, s, b).0, fin)
    ensures var r := BlockAt(st, s, b).0;
      (NewTyped(st, r, fin) <==> Check(s, env, fin.sigs).Some?) && EnvIs(r, env)
    decreases s, 5
  {
    hide NewTyped, Apart, Grown;
    var before, after := SetBlock(st, b), LowerSmt(SetBlock(st, b), s);
    BlockAtTouches(st, s, b);
    LaterMoved(after, fin, BlockAt(st, s, b).0, fin);
    SmtTyped(before, s, env, fin);
    SameBlocks(before, after, st, BlockAt(st, s, b).0, fin);
    EnvLater(st, BlockAt(st, s, b).0, env);
  }

  lemma JoinTyped(st: State, out: nat, end: nat, fin: State)
    requires Ok(st) && out < |st.blocks|
    ensures NewTyped(st, Join(st, out, end), fin)
  {
    hide NewTyped;
    NewNone(st, st, fin);
    if !Terminated(st.blocks[out]) {
      var before := SetBlock(st, out);
      NewOne(before, Br(end), fin);
      SameBlocks(before, Emit(before, Br(end)), st, Join(st, out, end), fin);
    }
  }

  lemma {:induction false} BodyTyped(st: State, s: Source.Smt, end: nat, env: Env, fin: State)
    requires Placed(st, env, fin) && Ready(st, s) && s.If? && s.body.Block? && Scoped(s.body, env.Keys)
    requires end < |st.blocks| && Later(Guarded(st, s, end), fin)
    ensures var r := Guarded(st, s, end);
      (NewTyped(st, r, fin) <==> Check(s.body, env, fin.sigs).Some?) && Later(st, r)
    decreases s.body, 6
  {
    hide NewTyped, Apart, Grown;
    OpenedTouches(st, s, st.cur);
    var s2 := Opened(st, s);
    NewNone(st, s2, fin);
    BlockAtTouches(s2, s.body, |st.blocks|);
    var (s3, out) := BlockAt(s2, s.body, |st.blocks|);
    JoinTouches(s3, out, end);
    var s4 := Join(s3, out, end);
    LaterTransitive(s3, s4, fin);
    EnvLater(st, s2, env);
    BlockAtTyped(s2, s.body, |st.blocks|, env, fin);
    JoinTyped(s3, out, end, fin);
    NewMore(st, s2, s3, fin);
    LaterTransitive(st, s2, s3);
    NewMore(st, s3, s4, fin);
    LaterTransitive(st, s3, s4);
  }

  /** A condition has one bit. */
  lemma ConditionTyped(st: State, cond: Source.Exp, ifTrue: nat, ifFalse: nat, env: Env, fin: State)
    requires Placed(st, env, fin) && Resolved(cond, env.Keys)
    requires var (s1, c) := LowerExp(st, cond); Later(Emit(s1, CondBr(c, ifTrue, ifFalse)), fin)
    ensures var (s1, c) := LowerExp(st, cond);
      NewTyped(st, Emit(s1, CondBr(c, ifTrue, ifFalse)), fin) <==> ExpType(cond, env, fin.sigs) == Some(I1)
  {
    hide NewTyped;
    ExpTouches(st, cond);
    var (s1, c) := LowerExp(st, cond);
    var i := CondBr(c, ifTrue, ifFalse);
    EmitTouches(s1, i);
    LaterTransitive(s1, Emit(s1, i), fin);
    ExpTyped(st, cond, env, fin);
    NewOne(s1, i, fin);
    NewMore(st, s1, Emit(s1, i), fin);
  }

  lemma {:induction false} TestTyped(st: State, s: Source.Smt, end: nat, env: Env, fin: State)
    requires Placed(st, env, fin) && Ready(st, s) && s.If? && s.cond.Some? && s.body.Block?
    requires Resolved(s.cond.value, env.Keys) && Scoped(s.body, env.Keys)
    requires end < |st.blocks| && end != st.cur && Later(Test(st, s, st.cur, end).0, fin)
    ensures NewTyped(st, Test(st, s, st.cur, end).0, fin) <==>
      Check(s.body, env, fin.sigs).Some? && ExpType(s.cond.value, env, fin.sigs) == Some(I1)
    decreases s, 0
  {
    hide NewTyped, Apart, Grown;
    BodyTouches(st, s, end);
    var s4 := Guarded(st, s, end);
    var ifFalse := if s.elses.Some? then |st.blocks| + 1 else end;
    ConditionTouches(s4, s.cond.value, |st.blocks|, ifFalse);
    var r := Test(st, s, st.cur, end).0;
    LaterTransitive(s4, r, fin);
    BodyTyped(st, s, end, env, fin);
    EnvLater(st, s4, env);
    ConditionTyped(s4, s.cond.value, |st.blocks|, ifFalse, env, fin);
    NewMore(st, s4, r, fin);
  }

  lemma {:induction false} LastTyped(st: State, s: Source.Smt, at: Option<nat>, end: nat, env: Env, fin: State)
    requires Placed(st, env, fin) && Ready(st, s) && s.If? && s.cond.None? && s.body.Block? && Scoped(s.body, env.Keys)
    requires end < |st.blocks| && (at.Some? ==> at.value == st.cur) && Later(LowerBranch(st, s, at, end), fin)
    ensures NewTyped(st, LowerBranch(st, s, at, end), fin) <==> Check(s.body, env, fin.sigs).Some?
    decreases s, 0
  {
    hide NewTyped, Apart, Grown;
    BlockAtTouches(st, s.body, st.cur);
    var (s1, out) := BlockAt(st, s.body, st.cur);
    var s2, r := Join(s1, out, end), LowerBranch(st, s, at, end);
    JoinTouches(s1, out, end);
    JoinTyped(s1, out, end, fin);
    LaterMoved(s2, fin, r, fin);
    LaterTransitive(s1, s2, fin);
    BlockAtTyped(st, s.body, st.cur, env, fin);
    NewMore(st, s1, s2, fin);
    SameBlocks(st, s2, st, r, fin);
  }

  /** A chain, from any link on. */
  lemma {:induction false} BranchTyped(st: State, s: Source.Smt, at: Option<nat>, end: nat, env: Env, fin: State)
    requires Placed(st, env, fin) && Ready(st, s) && ElseScoped(s, env.Keys) && end < |st.blocks| && end != st.cur
    requires (at.Some? ==> at.value == st.cur) && Later(LowerBranch(st, s, at, end), fin)
    ensures NewTyped(st, LowerBranch(st, s, at, end), fin) <==> CheckElse(s, env, fin.sigs)
    decreases s, 2
  {
    hide NewTyped, Apart, Grown, Test, LaterSlots;
    if s.cond.None? {
      LastTyped(st, s, at, end, env, fin);
    } else {
      TestTouches(st, s, st.cur, end);
      var (s1, ifFalse) := Test(st, s, st.cur, end);
      var s2 := SetBlock(s1, ifFalse);
      var r := LowerBranch(st, s, at, end);
      if s.elses.Some? {
        var s3 := LowerBranch(s2, s.elses.value, Some(ifFalse), end);
        BranchTouches(s2, s.elses.value, Some(ifFalse), end);
        LaterMoved(s3, fin, r, fin);
        LaterTransitive(s2, s3, fin);
        LaterMoved(s1, fin, s2, fin);
        LaterMoved(st, s1, st, s2);
        TestTyped(st, s, end, env, fin);
        EnvLater(st, s2, env);
        BranchTyped(s2, s.elses.value, Some(ifFalse), end, env, fin);
        SameBlocks(st, s1, st, s2, fin);
        NewMore(st, s2, s3, fin);
        SameBlocks(st, s3, st, r, fin);
      } else {
        LaterMoved(s1, fin, r, fin);
        TestTyped(st, s, end, env, fin);
        SameBlocks(st, s1, st, r, fin);
      }
    }
  }

  lemma {:induction false} IfTyped(st: State, s: Source.Smt, env: Env, fin: State)
    requires Placed(st, env, fin) && Ready(st, s) && s.If? && Scoped(s, env.Keys) && Later(LowerSmt(st, s), fin)
    ensures Judged(st, s, LowerSmt(st, s), env, fin)
    decreases s, 3
  {
    hide NewTyped, Apart, Grown;
    AppendTouches(st, st.cur);
    var s1, r := Append(st), LowerSmt(st, s);
    NewNone(st, s1, fin);
    BranchTouches(s1, s, None, |st.blocks|);
    EnvLater(st, s1, env);
    BranchTyped(s1, s, None, |st.blocks|, env, fin);
    NewMore(st, s1, r, fin);
    LaterTransitive(st, s1, r);
    EnvLater(st, r, env);
  }

  /** The loop and the test, after the variable. */
  function Guard(st: State, s: Source.Smt): (r: State)
    requires Ok(st) && s.For?
  {
    var s2 := BlockAt(Append(st), s.loop, |st.blocks|).0;
    Tested(s2, s.test, |st.blocks|)
  }

  lemma {:induction false} GuardTyped(st: State, s: Source.Smt, env: Env, fin: State)
    requires Placed(st, env, fin) && s.For? && Tree(s.loop, st.slots.Keys) && Resolved(s.test, env.Keys)
    requires s.loop.Block? && Scoped(s.loop, env.Keys) && Later(Guard(st, s), fin)
    ensures var r := Guard(st, s);
      && Later(st, r) && EnvIs(r, env)
      && (NewTyped(st, r, fin) <==> Check(s.loop, env, fin.sigs).Some? && ExpType(s.test, env, fin.sigs) == Some(I1))
    decreases s.loop, 6
  {
    hide NewTyped, Apart, Grown;
    var s1, header := Append(st), |st.blocks|;
    AppendTouches(st, st.cur);
    NewNone(st, s1, fin);
    BlockAtTouches(s1, s.loop, header);
    var s2 := BlockAt(s1, s.loop, header).0;
    TestedTouches(s2, s.test, header);
    var r := Tested(s2, s.test, header);
    LaterTransitive(s2, r, fin);
    LaterTransitive(st, s1, s2);
    LaterTransitive(st, s2, r);
    EnvLater(st, s1, env);
    BlockAtTyped(s1, s.loop, header, env, fin);
    TestedTyped(s2, s.test, header, env, fin);
    NewMore(st, s1, s2, fin);
    NewMore(st, s2, r, fin);
    EnvLater(st, r, env);
  }

  lemma {:induction false} EntryTyped(st: State, s: Source.Smt, env: Env, fin: State)
    requires Placed(st, env, fin) && Ready(st, s) && s.For? && Scoped(s, env.Keys) && Later(Entry(st, s).0, fin)
    ensures var r, t := Entry(st, s).0, DeclareType(s.index, env, fin.sigs);
      && (t.Some? ==> EnvIs(r, env[s.index.dcl := t.value]))
      && (NewTyped(st, r, fin) <==> t.Some? && var inner := env[s.index.dcl := t.value];
          Check(s.loop, inner, fin.sigs).Some? && ExpType(s.test, inner, fin.sigs) == Some(I1))
    decreases s, 0
  {
    hide NewTyped, Apart, Grown, LowerVariable, LowerExp;
    VariableTouches(st, s.index);
    var s1, r := LowerVariable(st, s.index), Entry(st, s).0;
    GuardIs(st, s);
    GuardTouches(s1, s);
    LaterTransitive(s1, r, fin);
    VariableTyped(st, s.index, env, fin);
    NewMore(st, s1, r, fin);
    var t := DeclareType(s.index, env, fin.sigs);
    if t.Some? {
      var inner := env[s.index.dcl := t.value];
      assert inner.Keys == env.Keys + {s.index.dcl};
      GuardTyped(s1, s, inner, fin);
    }
  }

  lemma GuardIs(st: State, s: Source.Smt)
    requires Ok(st) && s.For?
    ensures Entry(st, s).0 == Guard(LowerVariable(st, s.index), s)
  {
  }

  lemma GuardTouches(st: State, s: Source.Smt)
    requires Ok(st) && SlotsBelow(st) && s.For? && Tree(s.loop, st.slots.Keys)
    ensures Later(st, Guard(st, s))
  {
    var s1, header := Append(st), |st.blocks|;
    AppendTouches(st, st.cur);
    BlockAtTouches(s1, s.loop, header);
    var s2 := BlockAt(s1, s.loop, header).0;
    TestedTouches(s2, s.test, header);
    LaterTransitive(st, s1, s2);
    LaterTransitive(st, s2, Tested(s2, s.test, header));
  }

  /** The test in front of the loop, whose exit is appended before the branch is emitted. */
  function Tested(st: State, test: Source.Exp, header: nat): (r: State)
    requires Ok(st)
  {
    var (s1, first) := LowerExp(st, test);
    Emit(Append(s1), CondBr(first, header, |s1.blocks|))
  }

  lemma TestedTouches(st: State, test: Source.Exp, header: nat)
    requires Ok(st) && SlotsBelow(st)
    ensures Touches(st, st.cur, Tested(st, test, header))
  {
    ExpTouches(st, test);
    var (s1, first) := LowerExp(st, test);
    AppendTouches(s1, st.cur);
    TouchesTransitive(st, st.cur, s1, st.cur, Append(s1));
    EmitTouches(Append(s1), CondBr(first, header, |s1.blocks|));
    TouchesTransitive(st, st.cur, Append(s1), st.cur, Tested(st, test, header));
  }

  lemma TestedTyped(st: State, test: Source.Exp, header: nat, env: Env, fin: State)
    requires Placed(st, env, fin) && Resolved(test, env.Keys) && Later(Tested(st, test, header), fin)
    ensures NewTyped(st, Tested(st, test, header), fin) <==> ExpType(test, env, fin.sigs) == Some(I1)
  {
    hide NewTyped;
    ExpTouches(st, test);
    var (s1, first) := LowerExp(st, test);
    var i, r := CondBr(first, header, |s1.blocks|), Tested(st, test, header);
    AppendTouches(s1, st.cur);
    NewNone(s1, Append(s1), fin);
    EmitTouches(Append(s1), i);
    LaterTransitive(s1, Append(s1), r);
    LaterTransitive(s1, r, fin);
    ExpTyped(st, test, env, fin);
    NewOne(Append(s1), i, fin);
    NewMore(s1, Append(s1), r, fin);
    NewMore(st, s1, r, fin);
  }

  /** The increment and the test after it. */
  function Again(st: State, s: Source.Smt, header: nat, exit: nat): (r: State)
    requires Ok(st) && s.For?
  {
    var s2 := LowerSmt(st, s.inc);
    var (s3, again) := LowerExp(s2, s.test);
    Emit(s3, CondBr(again, header, exit))
  }

  lemma {:induction false} AgainTyped(st: State, s: Source.Smt, header: nat, exit: nat, env: Env, fin: State)
    requires Placed(st, env, fin) && s.For? && Ready(st, s.inc) && Scoped(s.inc, env.Keys) && Resolved(s.test, env.Keys)
    requires Later(Again(st, s, header, exit), fin)
    ensures var r := Again(st, s, header, exit);
      && Later(st, r) && EnvIs(r, env)
      && (ExpType(s.test, env, fin.sigs) == Some(I1) ==> (NewTyped(st, r, fin) <==> Check(s.inc, env, fin.sigs).Some?))
    decreases s.inc, 6
  {
    hide NewTyped, Apart, Grown, LowerExp;
    SmtExtends(st, s.inc);
    var s2, r := LowerSmt(st, s.inc), Again(st, s, header, exit);
    ConditionTouches(s2, s.test, header, exit);
    LaterTransitive(s2, r, fin);
    LaterTransitive(st, s2, r);
    SmtTyped(st, s.inc, env, fin);
    EnvLater(st, s2, env);
    ConditionTyped(s2, s.test, header, exit, env, fin);
    NewMore(st, s2, r, fin);
    EnvLater(st, r, env);
  }

  lemma {:induction false} LoopTyped(st: State, s: Source.Smt, env: Env, fin: State)
    requires Placed(st, env, fin) && Ready(st, s) && s.For? && Scoped(s, env.Keys) && Later(LowerSmt(st, s), fin)
    ensures Judged(st, s, LowerSmt(st, s), env, fin)
    decreases s, 2
  {
    hide NewTyped, Apart, Grown, LowerExp, LowerVariable, Entry, Again;
    EntryTouches(st, s);
    var (s1, header, out, exit) := Entry(st, s);
    var at, r := SetBlock(s1, out), LowerSmt(st, s);
    var s4 := Again(at, s, header, exit);
    AgainIs(st, s);
    AgainTouches(at, s, header, exit);
    LaterMoved(s4, fin, r, fin);
    LaterTransitive(at, s4, fin);
    LaterMoved(s1, fin, at, fin);
    EntryTyped(st, s, env, fin);
    LaterMoved(st, s1, st, at);
    SameBlocks(st, s1, st, at, fin);
    NewMore(st, at, s4, fin);
    SameBlocks(st, s4, st, r, fin);
    var t := DeclareType(s.index, env, fin.sigs);
    if t.Some? {
      var inner := env[s.index.dcl := t.value];
      assert inner.Keys == env.Keys + {s.index.dcl};
      AgainTyped(at, s, header, exit, inner, fin);
    }
  }

  lemma AgainIs(st: State, s: Source.Smt)
    requires Ok(st) && s.For?
    ensures var (s1, header, out, exit) := Entry(st, s); LowerSmt(st, s) == SetBlock(Again(SetBlock(s1, out), s, header, exit), exit)
  {
    hide Entry;
  }

  lemma AgainTouches(st: State, s: Source.Smt, header: nat, exit: nat)
    requires Ok(st) && s.For? && Ready(st, s.inc)
    ensures Later(st, Again(st, s, header, exit))
  {
    SmtExtends(st, s.inc);
    var s2 := LowerSmt(st, s.inc);
    ConditionTouches(s2, s.test, header, exit);
    LaterTransitive(st, s2, Again(st, s, header, exit));
  }

  // ---------- every declaration has a cell of its own ----------

  ghost predicate HasAlloca(st: State, r: nat, w: Width) {
    exists k, i :: 0 <= k < |st.blocks| && 0 <= i < |st.blocks[k]| && st.blocks[k][i] == Alloca(r, w)
  }

  /** Each declaration has a register of its own, where a cell of its width is made. */
  ghost predicate Made(st: State) {
    Apart(st) && forall d :: d in st.slots ==> HasAlloca(st, st.slots[d].reg, st.slots[d].width)
  }

  lemma AllocaLater(st: State, fin: State, r: nat, w: Width)
    requires HasAlloca(st, r, w) && Later(st, fin)
    ensures HasAlloca(fin, r, w)
  {
    var k, i :| 0 <= k < |st.blocks| && 0 <= i < |st.blocks[k]| && st.blocks[k][i] == Alloca(r, w);
    assert Prefix(st.blocks[k], fin.blocks[k]);
    assert fin.blocks[k][i] == Alloca(r, w);
  }

  lemma MadeLater(st: State, r: State)
    requires Made(st) && Later(st, r) && r.slots == st.slots
    ensures Made(r)
  {
    forall d | d in r.slots ensures HasAlloca(r, r.slots[d].reg, r.slots[d].width) {
      AllocaLater(st, r, st.slots[d].reg, st.slots[d].width);
    }
  }

  lemma AllottedMade(st: State, d: Dcl, w: Width, o: Operand)
    requires Ok(st) && SlotsBelow(st) && Made(st) && d !in st.slots
    ensures Made(Allocate(st, d, w, o))
  {
    hide HasAlloca;
    var s1 := Define(st, Alloca(st.next, w));
    var s2 := Emit(s1, Store(o, st.next));
    EmitTouches(st, Alloca(st.next, w));
    EmitTouches(s1, Store(o, st.next));
    MadeLater(st, s1);
    NewAlloca(st, w);
    AllocaLater(s1, s2, st.next, w);
    MadeLater(s1, s2);
    var r := Allocate(st, d, w, o);
    forall e | e in r.slots ensures HasAlloca(r, r.slots[e].reg, r.slots[e].width) {
      AllocaBlocks(s2, r, r.slots[e].reg, r.slots[e].width);
    }
  }

  lemma AllocaBlocks(a: State, b: State, r: nat, w: Width)
    requires a.blocks == b.blocks
    ensures HasAlloca(a, r, w) <==> HasAlloca(b, r, w)
  {
  }

  lemma NewAlloca(st: State, w: Width)
    requires Ok(st)
    ensures HasAlloca(Define(st, Alloca(st.next, w)), st.next, w)
  {
    var b := Define(st, Alloca(st.next, w)).blocks;
    assert b[st.cur][|st.blocks[st.cur]|] == Alloca(st.next, w);
  }

  lemma VariableMade(st: State, v: VarDcl)
    requires Ok(st) && SlotsBelow(st) && Made(st) && v.dcl !in st.slots
    ensures Made(LowerVariable(st, v))
  {
    hide Made;
    ExpTouches(st, v.value);
    var (s1, o) := LowerExp(st, v.value);
    MadeLater(st, s1);
    var w := if v.ty.Some? then v.ty.value else o.width;
    CastTouches(s1, o, w);
    var (s2, o') := LowerCast(s1, o, w);
    MadeLater(s1, s2);
    AllottedMade(s2, v.dcl, w, o');
    assert LowerVariable(st, v) == Allocate(s2, v.dcl, w, o');
  }

  lemma MadeMoved(a: State, b: State)
    requires Same(a, b)
    ensures Made(a) <==> Made(b)
  {
  }

  lemma {:induction false} SmtMade(st: State, s: Source.Smt)
    requires Ready(st, s) && Made(st)
    ensures Made(LowerSmt(st, s))
    decreases s, 4
  {
    hide Made;
    match s
    case Declare(v) => VariableMade(st, v);
    case Assign(d, e) => AssignMade(st, d, e);
    case Return(e) =>
      ReturnTouches(st, e);
      ReturnSlots(st, e);
      MadeLater(st, LowerSmt(st, s));
    case Block(smts) => SmtsMade(st, smts);
    case If(_, _, _) =>
      AppendTouches(st, st.cur);
      MadeLater(st, Append(st));
      BranchMade(Append(st), s, None, |st.blocks|);
    case For(_, _, _, _) => LoopMade(st, s);
  }

  lemma AssignMade(st: State, d: Dcl, e: Source.Exp)
    requires Ok(st) && SlotsBelow(st) && Made(st)
    ensures Made(LowerSmt(st, Source.Assign(d, e)))
  {
    hide Made;
    ExpTouches(st, e);
    var (s1, o) := LowerExp(st, e);
    MadeLater(st, s1);
    EmitTouches(s1, Store(o, SlotOf(st, d).reg));
    MadeLater(s1, Emit(s1, Store(o, SlotOf(st, d).reg)));
  }

  lemma ReturnSlots(st: State, e: Source.Exp)
    requires Ok(st) && SlotsBelow(st)
    ensures LowerSmt(st, Source.Return(e)).slots == st.slots
  {
    ExpTouches(st, e);
    CastTouches(LowerExp(st, e).0, LowerExp(st, e).1, st.ret);
  }

  lemma {:induction false} SmtsMade(st: State, smts: seq<Source.Smt>)
    requires Ok(st) && SlotsBelow(st) && TreeSeq(smts, st.slots.Keys) && Made(st)
    ensures Made(LowerSmts(st, smts))
    decreases smts, 0
  {
    hide Made;
    if smts != [] {
      SmtExtends(st, smts[0]);
      SmtMade(st, smts[0]);
      SmtsMade(LowerSmt(st, smts[0]), smts[1..]);
    }
  }

  lemma {:induction false} BlockAtMade(st: State, s: Source.Smt, b: nat)
    requires Ready(st, s) && b < |st.blocks| && Made(st)
    ensures Made(BlockAt(st, s, b).0)
    decreases s, 5
  {
    hide Made;
    MadeMoved(st, SetBlock(st, b));
    SmtMade(SetBlock(st, b), s);
    MadeMoved(LowerSmt(SetBlock(st, b), s), BlockAt(st, s, b).0);
  }

  lemma {:induction false} TestMade(st: State, s: Source.Smt, end: nat)
    requires Ready(st, s) && s.If? && s.cond.Some? && end < |st.blocks| && end != st.cur && Made(st)
    ensures Made(Test(st, s, st.cur, end).0)
    decreases s, 0
  {
    hide Made, Touches, Later;
    OpenedTouches(st, s, st.cur);
    var s2 := Opened(st, s);
    MadeLater(st, s2);
    BlockAtMade(s2, s.body, |st.blocks|);
    BlockAtTouches(s2, s.body, |st.blocks|);
    var (s3, out) := BlockAt(s2, s.body, |st.blocks|);
    JoinTouches(s3, out, end);
    MadeLater(s3, Join(s3, out, end));
    var s4 := Guarded(st, s, end);
    BodyTouches(st, s, end);
    var ifFalse := if s.elses.Some? then |st.blocks| + 1 else end;
    ConditionTouches(s4, s.cond.value, |st.blocks|, ifFalse);
    MadeLater(s4, Test(st, s, st.cur, end).0);
  }

  lemma {:induction false} BranchMade(st: State, s: Source.Smt, at: Option<nat>, end: nat)
    requires Ready(st, s) && s.If? && end < |st.blocks| && end != st.cur && (at.Some? ==> at.value == st.cur) && Made(st)
    ensures Made(LowerBranch(st, s, at, end))
    decreases s, 2
  {
    hide Made;
    var r := LowerBranch(st, s, at, end);
    if s.cond.None? {
      BlockAtMade(st, s.body, st.cur);
      BlockAtTouches(st, s.body, st.cur);
      var (s1, out) := BlockAt(st, s.body, st.cur);
      JoinTouches(s1, out, end);
      MadeLater(s1, Join(s1, out, end));
      MadeMoved(Join(s1, out, end), r);
    } else {
      TestMade(st, s, end);
      TestTouches(st, s, st.cur, end);
      var (s1, ifFalse) := Test(st, s, st.cur, end);
      var s2 := SetBlock(s1, ifFalse);
      MadeMoved(s1, s2);
      if s.elses.Some? {
        BranchMade(s2, s.elses.value, Some(ifFalse), end);
        MadeMoved(LowerBranch(s2, s.elses.value, Some(ifFalse), end), r);
      } else {
        MadeMoved(s1, r);
      }
    }
  }

  lemma {:induction false} LoopMade(st: State, s: Source.Smt)
    requires Ready(st, s) && s.For? && Made(st)
    ensures Made(LowerSmt(st, s))
    decreases s, 2
  {
    hide Made, Entry, LowerVariable, LowerExp;
    EntryTouches(st, s);
    EntryMade(st, s);
    var (s1, header, out, exit) := Entry(st, s);
    var at := SetBlock(s1, out);
    MadeMoved(s1, at);
    SmtExtends(at, s.inc);
    SmtMade(at, s.inc);
    var s2 := LowerSmt(at, s.inc);
    ConditionTouches(s2, s.test, header, exit);
    MadeLater(s2, Again(at, s, header, exit));
    AgainIs(st, s);
    MadeMoved(Again(at, s, header, exit), LowerSmt(st, s));
  }

  lemma {:induction false} EntryMade(st: State, s: Source.Smt)
    requires Ready(st, s) && s.For? && Made(st)
    ensures Made(Entry(st, s).0)
    decreases s, 0
  {
    hide Made, LowerVariable, LowerExp;
    VariableTouches(st, s.index);
    VariableMade(st, s.index);
    var s1 := LowerVariable(st, s.index);
    AppendTouches(s1, st.cur);
    MadeLater(s1, Append(s1));
    BlockAtTouches(Append(s1), s.loop, |s1.blocks|);
    BlockAtMade(Append(s1), s.loop, |s1.blocks|);
    var s2 := BlockAt(Append(s1), s.loop, |s1.blocks|).0;
    TestedTouches(s2, s.test, |s1.blocks|);
    TestedSlots(s2, s.test, |s1.blocks|);
    MadeLater(s2, Tested(s2, s.test, |s1.blocks|));
    GuardIs(st, s);
  }

  lemma TestedSlots(st: State, test: Source.Exp, header: nat)
    requires Ok(st) && SlotsBelow(st)
    ensures Tested(st, test, header).slots == st.slots
  {
    ExpTouches(st, test);
  }

  // ---------- a function ----------

  /** All its code. */
  ghost predicate CodeTyped(r: State) {
    forall k, i :: 0 <= k < |r.blocks| && 0 <= i < |r.blocks[k]| ==> Typed(r.blocks[k][i], r)
  }

  function Empty(sigs: seq<Signature>, ret: Width): State { State([[]], 0, 0, map[], sigs, ret) }

  lemma {:induction false} ParamsTyped(params: seq<Parameter>, sigs: seq<Signature>, ret: Width, fin: State)
    requires Distinct(params) && Apart(fin) && Later(LowerParams(params, sigs, ret), fin)
    ensures var r := LowerParams(params, sigs, ret);
      && NewTyped(Empty(sigs, ret), r, fin) && Later(Empty(sigs, ret), r) && EnvIs(r, ParamEnv(params))
  {
    hide NewTyped, Apart;
    var st := Empty(sigs, ret);
    if params == [] {
      NewNone(st, st, fin);
    } else {
      var i := |params| - 1;
      var p := params[i];
      LastIsNew(params);
      ParamsTouch(params[..i], sigs, ret);
      var s1 := LowerParams(params[..i], sigs, ret);
      var r := LowerParam(s1, p, i);
      ParamGrows(s1, p, i);
      LaterTransitive(s1, r, fin);
      ParamsTyped(params[..i], sigs, ret, fin);
      assert r == Allocate(s1, p.dcl, p.ty, Param(p.ty, i));
      AllottedTyped(s1, p.dcl, p.ty, Param(p.ty, i), fin);
      NewMore(st, s1, r, fin);
      LaterTransitive(st, s1, r);
      EnvLater(s1, r, ParamEnv(params[..i]));
      assert r.slots[p.dcl].width == p.ty;
    }
  }

  lemma NothingMade(st: State)
    requires st.slots == map[]
    ensures Made(st)
  {
  }

  lemma {:induction false} ParamsMade(params: seq<Parameter>, sigs: seq<Signature>, ret: Width)
    requires Distinct(params)
    ensures Made(LowerParams(params, sigs, ret))
  {
    hide Made;
    if params == [] {
      NothingMade(Empty(sigs, ret));
    } else {
      var i := |params| - 1;
      LastIsNew(params);
      ParamsTouch(params[..i], sigs, ret);
      ParamsMade(params[..i], sigs, ret);
      AllottedMade(LowerParams(params[..i], sigs, ret), params[i].dcl, params[i].ty, Param(params[i].ty, i));
    }
  }

  /** For a function whose names are in scope: each declaration has a register of its own with
      a cell of its width, and the code is typed exactly when the static rules accept the body. */
  lemma FunctionTyped(f: Function, sigs: seq<Signature>)
    requires Distinct(f.params) && Tree(f.body, ParamEnv(f.params).Keys) && Scoped(f.body, ParamEnv(f.params).Keys)
    ensures var r := LowerFunction(f, sigs);
      Made(r) && (CodeTyped(r) <==> Check(f.body, ParamEnv(f.params), sigs).Some?)
  {
    hide NewTyped, LowerParams, LowerSmt, Made, Typed;
    var st, r := LowerParams(f.params, sigs, f.ret), LowerFunction(f, sigs);
    ParamsTouch(f.params, sigs, f.ret);
    ParamsMade(f.params, sigs, f.ret);
    SmtExtends(st, f.body);
    SmtMade(st, f.body);
    MadeApart(r);
    ParamsTyped(f.params, sigs, f.ret, r);
    LaterSelf(r);
    SmtTyped(st, f.body, ParamEnv(f.params), r);
    NewMore(Empty(sigs, f.ret), st, r, r);
    AllNew(r, sigs, f.ret);
  }

  lemma MadeApart(r: State)
    requires Made(r)
    ensures Apart(r)
  {
  }

  lemma LaterSelf(r: State)
    ensures Later(r, r)
  {
  }

  lemma AllNew(r: State, sigs: seq<Signature>, ret: Width)
    ensures CodeTyped(r) <==> NewTyped(Empty(sigs, ret), r, r)
  {
    assert forall k :: Length(Empty(sigs, ret), k) == 0;
  }

  // ---------- the static rules, exactly ----------

  lemma {:induction false} TypeResolved(e: Source.Exp, env: Env, sigs: seq<Signature>)
    requires ExpType(e, env, sigs).Some?
    ensures Resolved(e, env.Keys)
    decreases e
  {
    match e
    case Literal(_) =>
    case BoolLit(_) =>
    case Ident(_) =>
    case Unary(_, x) => TypeResolved(x, env, sigs);
    case Binary(l, _, r) =>
      TypeResolved(l, env, sigs);
      TypeResolved(r, env, sigs);
    case CallExp(f, args) => MatchResolved(args, sigs[f].params, env, sigs);
  }

  lemma {:induction false} MatchResolved(args: seq<Source.Exp>, params: seq<Width>, env: Env, sigs: seq<Signature>)
    requires ArgsMatch(args, params, env, sigs)
    ensures AllResolved(args, env.Keys)
    decreases args
  {
    if args != [] {
      TypeResolved(args[0], env, sigs);
      MatchResolved(args[1..], params[1..], env, sigs);
    }
  }

  lemma {:induction false} CheckScoped(s: Source.Smt, env: Env, sigs: seq<Signature>)
    requires Check(s, env, sigs).Some?
    ensures Scoped(s, env.Keys) && Check(s, env, sigs).value.Keys == NamesAfter(s, env.Keys)
    decreases s, 0
  {
    match s
    case Declare(v) => TypeResolved(v.value, env, sigs);
    case Assign(d, e) => TypeResolved(e, env, sigs);
    case Return(e) => TypeResolved(e, env, sigs);
    case Block(smts) => SeqScoped(smts, env, sigs);
    case If(cond, body, elses) =>
      TypeResolved(cond.value, env, sigs);
      CheckScoped(body, env, sigs);
      if elses.Some? {
        CheckElseScoped(elses.value, env, sigs);
      }
    case For(index, test, inc, loop) =>
      var inner := env[index.dcl := DeclareType(index, env, sigs).value];
      assert inner.Keys == env.Keys + {index.dcl};
      TypeResolved(index.value, env, sigs);
      TypeResolved(test, inner, sigs);
      CheckScoped(loop, inner, sigs);
      CheckScoped(inc, inner, sigs);
  }

  lemma {:induction false} CheckElseScoped(s: Source.Smt, env: Env, sigs: seq<Signature>)
    requires CheckElse(s, env, sigs)
    ensures ElseScoped(s, env.Keys)
    decreases s, 1
  {
    if s.cond.None? {
      CheckScoped(s.body, env, sigs);
    } else {
      CheckScoped(s, env, sigs);
    }
  }

  lemma {:induction false} SeqScoped(smts: seq<Source.Smt>, env: Env, sigs: seq<Signature>)
    requires CheckSeq(smts, env, sigs).Some?
    ensures AllScoped(smts, env.Keys)
    decreases smts, 0
  {
    if smts != [] {
      CheckScoped(smts[0], env, sigs);
      SeqScoped(smts[1..], Check(smts[0], env, sigs).value, sigs);
    }
  }

  /** A function is accepted exactly when it is a proper tree whose names are in scope and its
      code is typed. */
  lemma AcceptedExactly(f: Function, sigs: seq<Signature>)
    requires Distinct(f.params) && f.body.Block? && Tree(f.body, ParamEnv(f.params).Keys)
    ensures CheckFunction(f, sigs) <==> Scoped(f.body, ParamEnv(f.params).Keys) && CodeTyped(LowerFunction(f, sigs))
  {
    hide CodeTyped, Made, LowerFunction, Check, Tree;
    if Check(f.body, ParamEnv(f.params), sigs).Some? {
      CheckScoped(f.body, ParamEnv(f.params), sigs);
    }
    if Scoped(f.body, ParamEnv(f.params).Keys) {
      FunctionTyped(f, sigs);
    }
  }
}
