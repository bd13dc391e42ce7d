/** Which statements leave the blocks they write closed: exactly the supported ones. */
module GraphShape {
  import opened Wrappers
  import opened Ints
  import opened Ir
  import opened Source
  import opened Lowering
  import opened Growth
  import opened Layout
  import opened Parameters

  /** No terminator has code after it. */
  predicate Neat(b: Ir.Block) {
    forall i :: 0 <= i < |b| - 1 ==> !IsTerminator(b[i])
  }

  /** Exactly one terminator, and it is last. */
  predicate Closed(b: Ir.Block) {
    Neat(b) && Terminated(b)
  }

  // ---------- the supported statements ----------

  /** Whether the current block ends in a terminator after `s`, if `t` says whether
      it did before. Only a return leaves it so. */
  function After(s: Source.Smt, t: bool): bool
    decreases s, 0
  {
    match s
    case Return(_) => true
    case Block(smts) => AfterSeq(smts, t)
    case _ => false
  }

  function AfterSeq(smts: seq<Source.Smt>, t: bool): bool
    decreases smts, 0
  {
    if smts == [] then t else AfterSeq(smts[1..], After(smts[0], t))
  }

  /** No code follows a return inside its block, and neither the body nor the
      increment of a loop ends in one. */
  predicate Supported(s: Source.Smt, t: bool)
    decreases s, 0
  {
    match s
    case Declare(_) => !t
    case Assign(_, _) => !t
    case Return(_) => !t
    case Block(smts) => SupportedSeq(smts, t)
    case If(cond, body, elses) =>
      if cond.None? then Supported(body, t)
      else !t && Supported(body, false) && (elses.Some? ==> Supported(elses.value, false))
    case For(_, _, inc, loop) =>
      && !t
      && Supported(loop, false)
      && Supported(inc, After(loop, false))
      && !After(inc, After(loop, false))
  }

  predicate SupportedSeq(smts: seq<Source.Smt>, t: bool)
    decreases smts, 0
  {
    smts == [] || (Supported(smts[0], t) && SupportedSeq(smts[1..], After(smts[0], t)))
  }

  // ---------- what compiling does to the blocks ----------

  /** The blocks that compiling from `st` may have written to. */
  predicate Mine(st: State, k: nat) {
    k == st.cur || k >= |st.blocks|
  }

  /** All blocks written are closed, except that block `cur` may still be open. */
  ghost predicate Finished(st: State, r: State, cur: nat) {
    forall k :: 0 <= k < |r.blocks| && Mine(st, k) && k != cur ==> Closed(r.blocks[k])
  }

  ghost predicate Spoilt(st: State, r: State) {
    exists k :: 0 <= k < |r.blocks| && Mine(st, k) && !Neat(r.blocks[k])
  }

  /** The verdict on one statement. */
  ghost predicate Judged(st: State, r: State, ok: bool, after: bool)
    requires Ok(r)
  {
    if ok then Finished(st, r, r.cur) && Neat(r.blocks[r.cur]) && Terminated(r.blocks[r.cur]) == after
    else Spoilt(st, r)
  }

  lemma SpoiltLater(st: State, a: State, b: State, r: State)
    requires Spoilt(a, b) && Later(b, r)
    requires |st.blocks| <= |a.blocks| && Mine(st, a.cur)
    ensures Spoilt(st, r)
  {
    var k :| 0 <= k < |b.blocks| && Mine(a, k) && !Neat(b.blocks[k]);
    assert Prefix(b.blocks[k], r.blocks[k]);
    var i :| 0 <= i < |b.blocks[k]| - 1 && IsTerminator(b.blocks[k][i]);
    assert r.blocks[k][i] == b.blocks[k][i];
  }

  // ---------- expressions add no terminator ----------

  /** `b` is `a` and then instructions that are not terminators. */
  predicate Plain(a: Ir.Block, b: Ir.Block) {
    a <= b && forall i :: |a| <= i < |b| ==> !IsTerminator(b[i])
  }

  lemma PlainEmit(st: State, i: Instr)
    requires Ok(st) && !IsTerminator(i)
    ensures Plain(st.blocks[st.cur], Emit(st, i).blocks[st.cur]) && Plain(st.blocks[st.cur], Define(st, i).blocks[st.cur])
  {
  }

  lemma PlainCast(st: State, o: Operand, w: Width)
    requires Ok(st)
    ensures Plain(st.blocks[st.cur], LowerCast(st, o, w).0.blocks[st.cur])
  {
  }

  lemma PlainOperate(st: State, op: BinOp, a: Operand, b: Operand)
    requires Ok(st)
    ensures Plain(st.blocks[st.cur], Operate(st, op, a, b).0.blocks[st.cur])
  {
    var w := Promote(a.width, b.width);
    var (s1, a') := LowerCast(st, a, w);
    var (s2, b') := LowerCast(s1, b, w);
    PlainCast(st, a, w);
    PlainCast(s1, b, w);
    PlainEmit(s2, Bin(s2.next, op, a', b'));
  }

  lemma {:induction false} PlainExp(st: State, e: Source.Exp)
    requires Ok(st)
    ensures Plain(st.blocks[st.cur], LowerExp(st, e).0.blocks[st.cur])
    decreases e
  {
    match e
    case Literal(_) =>
    case BoolLit(_) =>
    case Ident(d) => PlainEmit(st, Load(st.next, SlotOf(st, d).width, SlotOf(st, d).reg));
    case Unary(op, x) =>
      PlainExp(st, x);
      var (s1, o) := LowerExp(st, x);
      PlainEmit(s1, Bin(s1.next, Mul, Const(o.width, -1), o));
    case Binary(l, op, r) =>
      PlainExp(st, l);
      var (s1, a) := LowerExp(st, l);
      PlainExp(s1, r);
      var (s2, b) := LowerExp(s1, r);
      PlainOperate(s2, op, a, b);
    case CallExp(f, args) =>
      PlainArgs(st, args);
      var (s1, os) := LowerArgs(st, args);
      PlainEmit(s1, Call(s1.next, f, os));
  }

  lemma {:induction false} PlainArgs(st: State, args: seq<Source.Exp>)
    requires Ok(st)
    ensures Plain(st.blocks[st.cur], LowerArgs(st, args).0.blocks[st.cur])
    decreases args
  {
    if args != [] {
      PlainExp(st, args[0]);
      PlainArgs(LowerExp(st, args[0]).0, args[1..]);
    }
  }

  lemma PlainVariable(st: State, v: VarDcl)
    requires Ok(st)
    ensures var r := LowerVariable(st, v);
      Plain(st.blocks[st.cur], r.blocks[st.cur]) && |r.blocks[st.cur]| > |st.blocks[st.cur]|
  {
    var (s1, o) := LowerExp(st, v.value);
    var w := if v.ty.Some? then v.ty.value else o.width;
    var (s2, o') := LowerCast(s1, o, w);
    PlainExp(st, v.value);
    PlainCast(s1, o, w);
    PlainEmit(s2, Alloca(s2.next, w));
    PlainEmit(Define(s2, Alloca(s2.next, w)), Store(o', s2.next));
  }

  /** Code that only grows the current block by plain instructions. */
  lemma JudgePlain(st: State, r: State)
    requires Ok(st) && Ok(r) && r.cur == st.cur && |r.blocks| == |st.blocks| && Neat(st.blocks[st.cur])
    requires Plain(st.blocks[st.cur], r.blocks[st.cur]) && |r.blocks[st.cur]| > |st.blocks[st.cur]|
    ensures Judged(st, r, !Terminated(st.blocks[st.cur]), false)
  {
    var a, b := st.blocks[st.cur], r.blocks[st.cur];
    if Terminated(a) {
      assert IsTerminator(b[|a| - 1]);
    } else {
      forall i | 0 <= i < |b| ensures !IsTerminator(b[i]) {
        if i < |a| { assert b[i] == a[i]; }
      }
    }
  }

  /** Plain code and then one terminator in the current block. */
  lemma JudgeClosing(st: State, mid: State, i: Instr)
    requires Ok(st) && Ok(mid) && mid.cur == st.cur && |mid.blocks| >= |st.blocks| && Neat(st.blocks[st.cur])
    requires Plain(st.blocks[st.cur], mid.blocks[st.cur]) && IsTerminator(i)
    ensures if Terminated(st.blocks[st.cur]) then !Neat(Emit(mid, i).blocks[st.cur]) else Closed(Emit(mid, i).blocks[st.cur])
  {
    var a, b := st.blocks[st.cur], mid.blocks[st.cur];
    var c := Emit(mid, i).blocks[st.cur];
    if Terminated(a) {
      assert IsTerminator(c[|a| - 1]);
    } else {
      forall j | 0 <= j < |b| ensures !IsTerminator(c[j]) {
        if j < |a| { assert b[j] == a[j]; }
      }
    }
  }

  // ---------- statements ----------

  /** Only inside a chain may an if lack a condition. The static rules ensure it. */
  predicate Headed(s: Source.Smt)
    decreases s, 0
  {
    match s
    case Block(smts) => HeadedSeq(smts)
    case If(cond, body, elses) => cond.Some? && Headed(body) && (elses.Some? ==> HeadedElse(elses.value))
    case For(_, _, inc, loop) => Headed(inc) && Headed(loop)
    case _ => true
  }

  predicate HeadedElse(s: Source.Smt)
    decreases s, 1
  {
    s.If? && if s.cond.None? then Headed(s.body) else Headed(s)
  }

  predicate HeadedSeq(smts: seq<Source.Smt>)
    decreases smts, 0
  {
    smts == [] || (Headed(smts[0]) && HeadedSeq(smts[1..]))
  }

  lemma {:induction false} CheckHeaded(s: Source.Smt, env: Env, sigs: seq<Signature>)
    requires Check(s, env, sigs).Some?
    ensures Headed(s)
    decreases s, 0
  {
    match s
    case Block(smts) => CheckHeadedSeq(smts, env, sigs);
    case If(_, body, elses) =>
      CheckHeaded(body, env, sigs);
      if elses.Some? {
        CheckHeadedElse(elses.value, env, sigs);
      }
    case For(index, _, inc, loop) =>
      var inner := env[index.dcl := DeclareType(index, env, sigs).value];
      CheckHeaded(loop, inner, sigs);
      CheckHeaded(inc, inner, sigs);
    case _ =>
  }

  lemma {:induction false} CheckHeadedElse(s: Source.Smt, env: Env, sigs: seq<Signature>)
    requires CheckElse(s, env, sigs)
    ensures HeadedElse(s)
    decreases s, 1
  {
    if s.cond.None? {
      CheckHeaded(s.body, env, sigs);
    } else {
      CheckHeaded(s, env, sigs);
    }
  }

  lemma {:induction false} CheckHeadedSeq(smts: seq<Source.Smt>, env: Env, sigs: seq<Signature>)
    requires CheckSeq(smts, env, sigs).Some?
    ensures HeadedSeq(smts)
    decreases smts, 0
  {
    if smts != [] {
      CheckHeaded(smts[0], env, sigs);
      CheckHeadedSeq(smts[1..], Check(smts[0], env, sigs).value, sigs);
    }
  }

  predicate T(st: State)
    requires Ok(st)
  {
    Terminated(st.blocks[st.cur])
  }

  lemma {:induction false} JudgeSmt(st: State, s: Source.Smt)
    requires Ready(st, s) && Headed(s) && Neat(st.blocks[st.cur])
    ensures Judged(st, LowerSmt(st, s), Supported(s, T(st)), After(s, T(st)))
    decreases s, 3
  {
    match s
    case Declare(v) =>
      PlainVariable(st, v);
      JudgePlain(st, LowerSmt(st, s));
    case Assign(d, e) =>
      PlainExp(st, e);
      var (s1, o) := LowerExp(st, e);
      PlainEmit(s1, Store(o, SlotOf(st, d).reg));
      JudgePlain(st, LowerSmt(st, s));
    case Return(e) =>
      PlainExp(st, e);
      var (s1, o) := LowerExp(st, e);
      var (s2, o') := LowerCast(s1, o, st.ret);
      PlainCast(s1, o, st.ret);
      JudgeClosing(st, s2, Ret(o'));
    case Block(smts) => JudgeSmts(st, smts);
    case If(_, _, _) => JudgeIf(st, s);
    case For(_, _, _, _) => JudgeLoop(st, s);
  }

  lemma {:induction false} JudgeSmts(st: State, smts: seq<Source.Smt>)
    requires Ok(st) && SlotsBelow(st) && TreeSeq(smts, st.slots.Keys) && HeadedSeq(smts) && Neat(st.blocks[st.cur])
    ensures Judged(st, LowerSmts(st, smts), SupportedSeq(smts, T(st)), AfterSeq(smts, T(st)))
    decreases smts, 0
  {
    if smts != [] {
      var s1 := LowerSmt(st, smts[0]);
      var r := LowerSmts(s1, smts[1..]);
      SmtExtends(st, smts[0]);
      JudgeSmt(st, smts[0]);
      SmtsExtends(s1, smts[1..]);
      if Supported(smts[0], T(st)) {
        JudgeSmts(s1, smts[1..]);
        JudgeThen(st, s1, r, SupportedSeq(smts[1..], T(s1)), AfterSeq(smts[1..], T(s1)));
      } else {
        SpoiltLater(st, st, s1, r);
      }
    }
  }

  /** A good piece followed by another piece. */
  lemma JudgeThen(st: State, s1: State, r: State, ok: bool, after: bool)
    requires Ok(st) && Ok(s1) && Ok(r) && Mine(st, s1.cur) && |st.blocks| <= |s1.blocks|
    requires Finished(st, s1, s1.cur) && Touches(s1, s1.cur, r) && (r.cur == s1.cur || r.cur >= |s1.blocks|)
    requires Judged(s1, r, ok, after)
    ensures Judged(st, r, ok, after)
  {
    if ok {
      forall k | 0 <= k < |r.blocks| && Mine(st, k) && k != r.cur ensures Closed(r.blocks[k]) {
        if !Mine(s1, k) { assert r.blocks[k] == s1.blocks[k]; }
      }
    } else {
      var k :| 0 <= k < |r.blocks| && Mine(s1, k) && !Neat(r.blocks[k]);
      assert Mine(st, k);
    }
  }

  lemma {:induction false} JudgeIf(st: State, s: Source.Smt)
    requires Ready(st, s) && Headed(s) && s.If? && Neat(st.blocks[st.cur])
    ensures Judged(st, LowerSmt(st, s), Supported(s, T(st)), false)
    decreases s, 2
  {
    var s1 := Append(st);
    AppendTouches(st, st.cur);
    BranchTouches(s1, s, None, |st.blocks|);
    JudgeBranch(s1, s, None, |st.blocks|);
  }

  /** A chain that continues at the still empty block `end`. */
  ghost predicate ChainReady(st: State, s: Source.Smt, at: Option<nat>, end: nat) {
    && Ready(st, s) && HeadedElse(s) && Neat(st.blocks[st.cur])
    && end < |st.blocks| && end != st.cur && st.blocks[end] == [] && (at.Some? ==> at.value == st.cur)
  }

  /** The verdict on code whose only open block, if all is well, is `end`. */
  ghost predicate JudgedChain(st: State, r: State, end: nat, ok: bool) {
    if ok then Finished(st, r, end) else Spoilt(st, r)
  }

  lemma {:induction false} JudgeBranch(st: State, s: Source.Smt, at: Option<nat>, end: nat)
    requires ChainReady(st, s, at, end)
    ensures JudgedChain(st, LowerBranch(st, s, at, end), end, Supported(s, T(st)))
    decreases s, 1
  {
    if s.cond.None? {
      assert SetBlock(st, st.cur) == st;
      JudgeSmt(st, s.body);
      SmtExtends(st, s.body);
      var inner := LowerSmt(st, s.body);
      assert SetBlock(SetBlock(inner, st.cur), inner.cur) == inner;
      assert LowerBranch(st, s, at, end).blocks == Joined(inner, end).blocks;
      JudgeJoined(st, inner, end, Supported(s.body, T(st)), After(s.body, T(st)));
    } else {
      JudgeTest(st, s, end);
      TestTouches(st, s, st.cur, end);
      if s.elses.Some? {
        JudgeElse(st, s, end);
      }
    }
  }

  /** A body and, when it falls through, the branch to `end`. */
  lemma JudgeJoined(st: State, inner: State, end: nat, ok: bool, after: bool)
    requires Ok(st) && Ok(inner) && Mine(st, inner.cur) && Touches(st, st.cur, inner)
    requires Judged(st, inner, ok, after)
    ensures JudgedChain(st, Joined(inner, end), end, ok)
  {
    if ok {
      var r := Joined(inner, end);
      forall k | 0 <= k < |r.blocks| && Mine(st, k) && k != end ensures Closed(r.blocks[k]) {
        if k == inner.cur && Open(inner) {
          JudgeClosing(inner, inner, Br(end));
        }
      }
    } else if Open(inner) {
      EmitTouches(inner, Br(end));
      SpoiltLater(st, st, inner, Emit(inner, Br(end)));
    }
  }

  /** The body, the join and the test of one link. */
  lemma {:induction false} JudgeTest(st: State, s: Source.Smt, end: nat)
    requires ChainReady(st, s, None, end) && s.cond.Some?
    ensures var (r, ifFalse) := Test(st, s, st.cur, end);
      if !T(st) && Supported(s.body, false)
      then forall k :: 0 <= k < |r.blocks| && Mine(st, k) && k != ifFalse ==> Closed(r.blocks[k])
      else Spoilt(st, r)
    decreases s, 0
  {
    hide LowerSmt, LowerExp, Test;
    var s2 := SetBlock(Opened(st, s), |st.blocks|);
    var inner := LowerSmt(s2, s.body);
    BodyShape(st, s, end);
    TestShape(st, s, end);
    SmtExtends(s2, s.body);
    assert Headed(s);
    JudgeSmt(s2, s.body);
    JudgeJoined(s2, inner, end, Supported(s.body, false), After(s.body, false));
    var joined := Joined(inner, end);
    var s4 := SetBlock(joined, st.cur);
    var (r, ifFalse) := Test(st, s, st.cur, end);
    JudgeCondition(s4, s.cond.value, |st.blocks|, ifFalse);
    if T(st) {
      assert !Neat(r.blocks[st.cur]);
    } else if !Supported(s.body, false) {
      SpoiltLater(st, s2, joined, r);
    } else {
      forall k | 0 <= k < |r.blocks| && Mine(st, k) && k != ifFalse ensures Closed(r.blocks[k]) {
        if k != st.cur { assert Mine(s2, k) && r.blocks[k] == joined.blocks[k]; }
      }
    }
  }

  lemma JudgeCondition(st: State, e: Source.Exp, t: nat, f: nat)
    requires Ok(st) && Neat(st.blocks[st.cur])
    ensures var (s1, o) := LowerExp(st, e);
      var r := Emit(s1, CondBr(o, t, f));
      && (if T(st) then !Neat(r.blocks[st.cur]) else Closed(r.blocks[st.cur]))
      && |r.blocks| == |st.blocks|
  {
    var (s1, o) := LowerExp(st, e);
    PlainExp(st, e);
    JudgeClosing(st, s1, CondBr(o, t, f));
  }

  lemma {:induction false} JudgeElse(st: State, s: Source.Smt, end: nat)
    requires ChainReady(st, s, None, end) && s.cond.Some? && s.elses.Some?
    requires var (r, ifFalse) := Test(st, s, st.cur, end);
      if !T(st) && Supported(s.body, false)
      then forall k :: 0 <= k < |r.blocks| && Mine(st, k) && k != ifFalse ==> Closed(r.blocks[k])
      else Spoilt(st, r)
    ensures var (r, ifFalse) := Test(st, s, st.cur, end);
      JudgedChain(st, LowerBranch(SetBlock(r, ifFalse), s.elses.value, Some(ifFalse), end), end, Supported(s, T(st)))
    decreases s, 0
  {
    var (s1, ifFalse) := Test(st, s, st.cur, end);
    var s2 := SetBlock(s1, ifFalse);
    TestShape(st, s, end);
    TestTouches(st, s, st.cur, end);
    BranchTouches(s2, s.elses.value, Some(ifFalse), end);
    var r := LowerBranch(s2, s.elses.value, Some(ifFalse), end);
    assert Headed(s);
    JudgeBranch(s2, s.elses.value, Some(ifFalse), end);
    if !(!T(st) && Supported(s.body, false)) {
      SpoiltLater(st, st, s2, r);
    } else if Supported(s.elses.value, false) {
      forall k | 0 <= k < |r.blocks| && Mine(st, k) && k != end ensures Closed(r.blocks[k]) {
        if !Mine(s2, k) { assert r.blocks[k] == s1.blocks[k]; }
      }
    } else {
      var k :| 0 <= k < |r.blocks| && Mine(s2, k) && !Neat(r.blocks[k]);
      assert Mine(st, k);
    }
  }

  // ---------- loops ----------

  lemma {:induction false} JudgeLoop(st: State, s: Source.Smt)
    requires Ready(st, s) && Headed(s) && s.For? && Neat(st.blocks[st.cur])
    ensures Judged(st, LowerSmt(st, s), Supported(s, T(st)), false)
    decreases s, 2
  {
    var r := LowerLoop(st, s);
    var i := IncStart(st, s);
    LoopPieces(st, s);
    ExitPlace(st, s);
    EntryPlace(st, s);
    EntryTouches(st, s);
    JudgeEntry(st, s);
    if T(st) || !Supported(s.loop, false) {
      SpoiltLater(st, st, i, r);
    } else {
      JudgeInc(st, s);
      if Supported(s, false) {
        forall k | 0 <= k < |r.blocks| && Mine(st, k) && k != r.cur ensures Closed(r.blocks[k]) {
          if !Mine(i, k) { assert r.blocks[k] == i.blocks[k]; }
        }
      } else {
        var k :| 0 <= k < |r.blocks| && Mine(i, k) && !Neat(r.blocks[k]);
        assert Mine(st, k);
      }
    }
  }

  /** The loop variable, the body and the guarded entry: what stays open is the
      block the body ends in, and the exit. */
  lemma {:induction false} JudgeEntry(st: State, s: Source.Smt)
    requires Ready(st, s) && Headed(s) && s.For? && Neat(st.blocks[st.cur])
    ensures var i := IncStart(st, s);
      if !T(st) && Supported(s.loop, false) then
        && (forall k :: 0 <= k < |i.blocks| && Mine(st, k) && k != i.cur && k != Entry(st, s).3 ==> Closed(i.blocks[k]))
        && Neat(i.blocks[i.cur]) && T(i) == After(s.loop, false)
      else Spoilt(st, i)
    decreases s, 1
  {
    var s1 := LowerVariable(st, s.index);
    var b, e, f, i := BodyStart(st, s), BodyEnd(st, s), FirstTest(st, s), IncStart(st, s);
    LoopPieces(st, s);
    BodyPlace(st, s);
    EntryPlace(st, s);
    SmtExtends(b, s.loop);
    JudgeSmt(b, s.loop);
    PlainVariable(st, s.index);
    JudgePlain(st, s1);
    if T(st) {
      SpoiltLater(st, st, s1, f);
      SpoiltLater(st, st, f, i);
    } else if !Supported(s.loop, false) {
      SpoiltLater(st, b, e, i);
    } else {
      JudgeGuard(f, s.test, |st.blocks|);
      forall k | 0 <= k < |i.blocks| && Mine(st, k) && k != i.cur && k != Entry(st, s).3 ensures Closed(i.blocks[k]) {
        if k != st.cur { assert i.blocks[k] == e.blocks[k] && Mine(b, k); }
      }
    }
  }

  /** The first test, with the exit block appended just before its branch. */
  lemma JudgeGuard(st: State, e: Source.Exp, header: nat)
    requires Ok(st) && Neat(st.blocks[st.cur]) && !T(st)
    ensures var (s1, o) := LowerExp(st, e);
      Closed(Emit(Append(s1), CondBr(o, header, |s1.blocks|)).blocks[st.cur])
  {
    var (s1, o) := LowerExp(st, e);
    PlainExp(st, e);
    JudgeClosing(st, Append(s1), CondBr(o, header, |s1.blocks|));
  }

  lemma {:induction false} JudgeInc(st: State, s: Source.Smt)
    requires Ready(st, s) && Headed(s) && s.For? && Neat(IncStart(st, s).blocks[IncStart(st, s).cur])
    requires T(IncStart(st, s)) == After(s.loop, false)
    ensures var i := IncStart(st, s);
      var r := LowerLoop(st, s);
      if Supported(s.inc, After(s.loop, false)) && !After(s.inc, After(s.loop, false))
      then forall k :: 0 <= k < |r.blocks| && Mine(i, k) ==> Closed(r.blocks[k])
      else Spoilt(i, r)
    decreases s, 1
  {
    var i, e, r := IncStart(st, s), IncEnd(st, s), LowerLoop(st, s);
    LoopPieces(st, s);
    EntryPlace(st, s);
    ExitPlace(st, s);
    SmtExtends(i, s.inc);
    JudgeSmt(i, s.inc);
    if Supported(s.inc, T(i)) {
      JudgeCondition(e, s.test, |st.blocks|, Entry(st, s).3);
      ConditionTouches(e, s.test, |st.blocks|, Entry(st, s).3);
      if !After(s.inc, T(i)) {
        forall k | 0 <= k < |r.blocks| && Mine(i, k) ensures Closed(r.blocks[k]) {
          if k != e.cur { assert r.blocks[k] == e.blocks[k]; }
        }
      }
    } else {
      SpoiltLater(i, i, e, r);
    }
  }

  // ---------- functions ----------

  /** Every block is closed, except that the last current one may still be open. */
  ghost predicate NearlyClosed(r: State)
    requires Ok(r)
  {
    (forall k :: 0 <= k < |r.blocks| && k != r.cur ==> Closed(r.blocks[k])) && Neat(r.blocks[r.cur])
  }

  lemma {:induction false} EntryPlain(params: seq<Parameter>, sigs: seq<Signature>, ret: Width)
    ensures Plain([], LowerParams(params, sigs, ret).blocks[0])
  {
    if params != [] {
      var i := |params| - 1;
      EntryPlain(params[..i], sigs, ret);
      var st := LowerParams(params[..i], sigs, ret);
      var s1 := Define(st, Alloca(st.next, params[i].ty));
      PlainEmit(st, Alloca(st.next, params[i].ty));
      PlainEmit(s1, Store(Param(params[i].ty, i), st.next));
    }
  }

  /** All blocks but the last current one are closed exactly when the body is supported. */
  lemma FunctionJudged(f: Function, sigs: seq<Signature>)
    requires CheckFunction(f, sigs)
    ensures NearlyClosed(LowerFunction(f, sigs)) <==> Supported(f.body, false)
    ensures Supported(f.body, false) ==>
      Terminated(LowerFunction(f, sigs).blocks[LowerFunction(f, sigs).cur]) == After(f.body, false)
  {
    var st := LowerParams(f.params, sigs, f.ret);
    ParamsTouch(f.params, sigs, f.ret);
    EntryPlain(f.params, sigs, f.ret);
    CheckHeaded(f.body, ParamEnv(f.params), sigs);
    JudgeSmt(st, f.body);
  }
}
