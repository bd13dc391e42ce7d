/** What is left of a function when the block that code generation ended in has been
    deleted: which branches still go to it, and when the rest is well formed. */
module Deletion {
  import opened Wrappers
  import opened Ints
  import opened Ir
  import opened Source
  import opened Lowering
  import opened Growth
  import opened Layout
  import opened Parameters
  import opened GraphShape
  import opened Liveness

  /** Some block branches to `t`. */
  ghost predicate Targeted(g: seq<Ir.Block>, t: nat) {
    exists k :: 0 <= k < |g| && Jumps(g[k], t)
  }

  // ---------- new code branches to new blocks ----------

  /** What `b` branches to and `a` does not is new or in `also`. */
  ghost predicate Onward(a: seq<Ir.Block>, b: seq<Ir.Block>, also: set<nat>) {
    forall t: nat :: Targeted(b, t) ==> Targeted(a, t) || |a| <= t < |b| || t in also
  }

  lemma OnwardThen(a: seq<Ir.Block>, b: seq<Ir.Block>, c: seq<Ir.Block>, x: set<nat>, y: set<nat>)
    requires Onward(a, b, x) && Onward(b, c, y) && |a| <= |b| <= |c|
    requires forall t :: t in y ==> t in x || |a| <= t < |c|
    ensures Onward(a, c, x)
  {
  }

  /** One block is longer, and blocks without code are appended. */
  lemma OnwardBlock(a: seq<Ir.Block>, b: seq<Ir.Block>, cur: nat, also: set<nat>)
    requires cur < |a| <= |b|
    requires forall k :: 0 <= k < |a| && k != cur ==> b[k] == a[k]
    requires forall k :: |a| <= k < |b| ==> b[k] == []
    requires forall t: nat :: Jumps(b[cur], t) ==> Jumps(a[cur], t) || t in also
    ensures Onward(a, b, also)
  {
    forall t: nat | Targeted(b, t) ensures Targeted(a, t) || t in also {
      var k :| 0 <= k < |b| && Jumps(b[k], t);
      assert k < |a| && (Jumps(a[k], t) || t in also);
    }
  }

  lemma PlainKeeps(a: Ir.Block, b: Ir.Block)
    requires Plain(a, b)
    ensures forall t :: Jumps(b, t) ==> Jumps(a, t)
  {
    forall t: nat | Jumps(b, t) ensures Jumps(a, t) {
      var i :| 0 <= i < |b| && Goes(b[i], t);
      assert b[i] == a[i];
    }
  }

  lemma OnwardCondition(st: State, e: Source.Exp, t: nat, f: nat)
    requires Ok(st) && SlotsBelow(st)
    ensures Onward(st.blocks, Emit(LowerExp(st, e).0, CondBr(LowerExp(st, e).1, t, f)).blocks, {t, f})
  {
    ConditionTouches(st, e, t, f);
    LiveCondition(st, e, t, f);
    OnwardBlock(st.blocks, Emit(LowerExp(st, e).0, CondBr(LowerExp(st, e).1, t, f)).blocks, st.cur, {t, f});
  }

  lemma OnwardJoined(inner: State, end: nat)
    requires Ok(inner)
    ensures Onward(inner.blocks, Joined(inner, end).blocks, {end})
  {
    if Open(inner) {
      forall t: nat | Jumps(Emit(inner, Br(end)).blocks[inner.cur], t) ensures Jumps(inner.blocks[inner.cur], t) || t == end {
        AddedJumps(inner.blocks[inner.cur], Br(end), t);
      }
      OnwardBlock(inner.blocks, Joined(inner, end).blocks, inner.cur, {end});
    }
  }

  lemma {:induction false} OnwardSmt(st: State, s: Source.Smt)
    requires Ready(st, s)
    ensures Onward(st.blocks, LowerSmt(st, s).blocks, {})
    decreases s, 3
  {
    match s
    case Declare(v) =>
      VariableTouches(st, v);
      PlainVariable(st, v);
      PlainKeeps(st.blocks[st.cur], LowerSmt(st, s).blocks[st.cur]);
      OnwardBlock(st.blocks, LowerSmt(st, s).blocks, st.cur, {});
    case Assign(d, e) =>
      var (s1, o) := LowerExp(st, e);
      SmtExtends(st, s);
      PlainExp(st, e);
      PlainEmit(s1, Store(o, SlotOf(st, d).reg));
      PlainKeeps(st.blocks[st.cur], LowerSmt(st, s).blocks[st.cur]);
      OnwardBlock(st.blocks, LowerSmt(st, s).blocks, st.cur, {});
    case Return(e) => OnwardReturn(st, e);
    case Block(smts) => OnwardSmts(st, smts);
    case If(_, _, _) => OnwardIf(st, s);
    case For(_, _, _, _) => OnwardLoop(st, s);
  }

  lemma OnwardReturn(st: State, e: Source.Exp)
    requires Ok(st) && SlotsBelow(st)
    ensures Onward(st.blocks, LowerSmt(st, Return(e)).blocks, {})
  {
    var (s1, o) := LowerExp(st, e);
    var (s2, o') := LowerCast(s1, o, st.ret);
    ReturnTouches(st, e);
    PlainExp(st, e);
    PlainCast(s1, o, st.ret);
    PlainKeeps(st.blocks[st.cur], s1.blocks[st.cur]);
    PlainKeeps(s1.blocks[st.cur], s2.blocks[st.cur]);
    forall t: nat | Jumps(s2.blocks[st.cur] + [Ret(o')], t) ensures Jumps(st.blocks[st.cur], t) {
      AddedJumps(s2.blocks[st.cur], Ret(o'), t);
    }
    OnwardBlock(st.blocks, LowerSmt(st, Return(e)).blocks, st.cur, {});
  }

  lemma {:induction false} OnwardSmts(st: State, smts: seq<Source.Smt>)
    requires Ok(st) && SlotsBelow(st) && TreeSeq(smts, st.slots.Keys)
    ensures Onward(st.blocks, LowerSmts(st, smts).blocks, {})
    decreases smts, 0
  {
    if smts != [] {
      var s1 := LowerSmt(st, smts[0]);
      SmtExtends(st, smts[0]);
      OnwardSmt(st, smts[0]);
      OnwardSmts(s1, smts[1..]);
      OnwardThen(st.blocks, s1.blocks, LowerSmts(s1, smts[1..]).blocks, {}, {});
    }
  }

  lemma {:induction false} OnwardIf(st: State, s: Source.Smt)
    requires Ready(st, s) && s.If?
    ensures Onward(st.blocks, LowerSmt(st, s).blocks, {})
    decreases s, 2
  {
    AppendTouches(st, st.cur);
    OnwardBlock(st.blocks, Append(st).blocks, st.cur, {});
    OnwardBranch(Append(st), s, None, |st.blocks|);
    OnwardThen(st.blocks, Append(st).blocks, LowerSmt(st, s).blocks, {}, {|st.blocks|});
  }

  lemma {:induction false} OnwardBranch(st: State, s: Source.Smt, at: Option<nat>, end: nat)
    requires Ready(st, s) && s.If? && end < |st.blocks| && end != st.cur && st.blocks[end] == [] && (at.Some? ==> at.value == st.cur)
    ensures Onward(st.blocks, LowerBranch(st, s, at, end).blocks, {end})
    decreases s, 1
  {
    if s.cond.None? {
      LastJoined(st, s, at, end);
      var inner := LowerSmt(st, s.body);
      OnwardSmt(st, s.body);
      OnwardJoined(inner, end);
      OnwardThen(st.blocks, inner.blocks, Joined(inner, end).blocks, {end}, {end});
    } else {
      OnwardTest(st, s, end);
      if s.elses.Some? {
        TestTouches(st, s, st.cur, end);
        TestShape(st, s, end);
        var (r, ifFalse) := Test(st, s, st.cur, end);
        OnwardBranch(SetBlock(r, ifFalse), s.elses.value, Some(ifFalse), end);
        OnwardThen(st.blocks, r.blocks, LowerBranch(st, s, at, end).blocks, {end}, {end});
      }
    }
  }

  /** The bare `else` of a chain leaves the blocks of its body, joined. */
  lemma LastJoined(st: State, s: Source.Smt, at: Option<nat>, end: nat)
    requires Ok(st) && s.If? && s.cond.None? && end < |st.blocks| && (at.Some? ==> at.value == st.cur)
    ensures LowerBranch(st, s, at, end).blocks == Joined(LowerSmt(st, s.body), end).blocks
  {
    assert SetBlock(st, st.cur) == st;
    var inner := LowerSmt(st, s.body);
    assert SetBlock(SetBlock(inner, st.cur), inner.cur) == inner;
  }

  lemma {:induction false} OnwardTest(st: State, s: Source.Smt, end: nat)
    requires Ready(st, s) && s.If? && s.cond.Some?
    requires end < |st.blocks| && end != st.cur && st.blocks[end] == []
    ensures Onward(st.blocks, Test(st, s, st.cur, end).0.blocks, {end})
    decreases s, 0
  {
    hide Onward, LowerSmt, LowerExp, Test;
    var s2 := SetBlock(Opened(st, s), |st.blocks|);
    var inner := LowerSmt(s2, s.body);
    var s4 := SetBlock(Joined(inner, end), st.cur);
    var (r, ifFalse) := Test(st, s, st.cur, end);
    BodyShape(st, s, end);
    TestShape(st, s, end);
    OnwardBlock(st.blocks, s2.blocks, st.cur, {end});
    OnwardSmt(s2, s.body);
    OnwardThen(st.blocks, s2.blocks, inner.blocks, {end}, {});
    OnwardJoined(inner, end);
    OnwardThen(st.blocks, inner.blocks, s4.blocks, {end}, {end});
    OnwardCondition(s4, s.cond.value, |st.blocks|, ifFalse);
    OnwardThen(st.blocks, s4.blocks, r.blocks, {end}, {|st.blocks|, ifFalse});
  }

  lemma {:induction false} OnwardLoop(st: State, s: Source.Smt)
    requires Ready(st, s) && s.For?
    ensures Onward(st.blocks, LowerLoop(st, s).blocks, {})
    decreases s, 2
  {
    hide Onward, LowerSmt, LowerExp;
    var i, e := IncStart(st, s), IncEnd(st, s);
    OnwardEntry(st, s);
    LoopPieces(st, s);
    EntryPlace(st, s);
    SmtExtends(i, s.inc);
    OnwardSmt(i, s.inc);
    OnwardThen(st.blocks, i.blocks, e.blocks, {}, {});
    OnwardCondition(e, s.test, |st.blocks|, Entry(st, s).3);
    OnwardThen(st.blocks, e.blocks, LowerLoop(st, s).blocks, {}, {|st.blocks|, Entry(st, s).3});
  }

  lemma {:induction false} OnwardEntry(st: State, s: Source.Smt)
    requires Ready(st, s) && s.For?
    ensures Onward(st.blocks, IncStart(st, s).blocks, {}) && |st.blocks| < |BodyEnd(st, s).blocks| < |IncStart(st, s).blocks|
    decreases s, 1
  {
    hide Onward, LowerSmt, LowerExp;
    var s1 := LowerVariable(st, s.index);
    var b, e, f := BodyStart(st, s), BodyEnd(st, s), FirstTest(st, s);
    BodyPlace(st, s);
    PlainVariable(st, s.index);
    PlainKeeps(st.blocks[st.cur], s1.blocks[st.cur]);
    OnwardBlock(st.blocks, b.blocks, st.cur, {});
    OnwardSmt(b, s.loop);
    OnwardThen(st.blocks, b.blocks, e.blocks, {}, {});
    LoopPieces(st, s);
    EntryPlace(st, s);
    LiveCondition(f, s.test, |st.blocks|, |e.blocks|);
    OnwardBlock(f.blocks, Entry(st, s).0.blocks, st.cur, {|st.blocks|, |e.blocks|});
    OnwardThen(st.blocks, e.blocks, Entry(st, s).0.blocks, {}, {|st.blocks|, |e.blocks|});
  }

  // ---------- what the current block is after a statement ----------

  /** Whether the current block ends in a terminator, for every statement. */
  lemma {:induction false} AfterSmt(st: State, s: Source.Smt)
    requires Ready(st, s) && Headed(s)
    ensures T(LowerSmt(st, s)) == After(s, T(st))
    decreases s, 1
  {
    match s
    case Block(smts) => AfterSmts(st, smts);
    case If(_, _, _) => IfPlace(st, s);
    case For(_, _, _, _) => ExitPlace(st, s);
    case _ =>
  }

  lemma {:induction false} AfterSmts(st: State, smts: seq<Source.Smt>)
    requires Ok(st) && SlotsBelow(st) && TreeSeq(smts, st.slots.Keys) && HeadedSeq(smts)
    ensures T(LowerSmts(st, smts)) == AfterSeq(smts, T(st))
    decreases smts, 0
  {
    if smts != [] {
      SmtExtends(st, smts[0]);
      AfterSmt(st, smts[0]);
      AfterSmts(LowerSmt(st, smts[0]), smts[1..]);
    }
  }

  /** An if ends in its end block, which is still empty. */
  lemma IfPlace(st: State, s: Source.Smt)
    requires Ready(st, s) && s.If? && s.cond.Some?
    ensures var r := LowerSmt(st, s);
      r == LowerBranch(Append(st), s, None, |st.blocks|) && r.cur == |st.blocks| && r.blocks[r.cur] == []
  {
    AppendTouches(st, st.cur);
    BranchTouches(Append(st), s, None, |st.blocks|);
  }

  /** Some body of a chain does not end in a return, or there is no last else: then the
      end block of the chain is branched to. */
  predicate Exits(s: Source.Smt)
    decreases s
  {
    && s.If?
    && (!After(s.body, false) || (s.cond.Some? && (s.elses.None? || Exits(s.elses.value))))
  }

  /** A link that may still be the first one of its chain. */
  ghost predicate Link(st: State, s: Source.Smt, at: Option<nat>, end: nat) {
    && Ready(st, s) && HeadedElse(s) && (s.cond.None? ==> !T(st))
    && end < |st.blocks| && end != st.cur && st.blocks[end] == [] && (at.Some? ==> at.value == st.cur)
    && !Targeted(st.blocks, end)
  }

  lemma TargetedLater(a: State, b: State, t: nat)
    requires Grown(a, b) && Targeted(a.blocks, t)
    ensures Targeted(b.blocks, t)
  {
    var k :| 0 <= k < |a.blocks| && Jumps(a.blocks[k], t);
    var i :| 0 <= i < |a.blocks[k]| && Goes(a.blocks[k][i], t);
    assert Prefix(a.blocks[k], b.blocks[k]);
    assert Goes(b.blocks[k][i], t);
  }

  lemma JoinedTargets(inner: State, end: nat)
    requires Ok(inner) && !Targeted(inner.blocks, end)
    ensures Targeted(Joined(inner, end).blocks, end) <==> Open(inner)
  {
    if Open(inner) {
      AddedJumps(inner.blocks[inner.cur], Br(end), end);
      assert Jumps(Joined(inner, end).blocks[inner.cur], end);
    }
  }

  lemma ConditionTargets(st: State, e: Source.Exp, t: nat, f: nat, end: nat)
    requires Ok(st) && SlotsBelow(st)
    ensures Targeted(Emit(LowerExp(st, e).0, CondBr(LowerExp(st, e).1, t, f)).blocks, end)
      <==> Targeted(st.blocks, end) || end == t || end == f
  {
    var (s1, o) := LowerExp(st, e);
    var r := Emit(s1, CondBr(o, t, f));
    ConditionTouches(st, e, t, f);
    if Targeted(st.blocks, end) {
      TargetedLater(st, r, end);
    } else if end == t || end == f {
      AddedJumps(s1.blocks[st.cur], CondBr(o, t, f), end);
      assert Jumps(r.blocks[st.cur], end);
    } else if Targeted(r.blocks, end) {
      OnwardCondition(st, e, t, f);
    }
  }

  /** The end block of a chain is branched to exactly when some link gets there. */
  lemma {:induction false} BranchTargets(st: State, s: Source.Smt, at: Option<nat>, end: nat)
    requires Link(st, s, at, end)
    ensures Targeted(LowerBranch(st, s, at, end).blocks, end) <==> Exits(s)
    decreases s
  {
    hide Targeted, LowerSmt, LowerExp;
    if s.cond.None? {
      LastJoined(st, s, at, end);
      AfterSmt(st, s.body);
      OnwardSmt(st, s.body);
      JoinedTargets(LowerSmt(st, s.body), end);
    } else {
      assert Headed(s);
      TestTargets(st, s, end);
      TestTouches(st, s, st.cur, end);
      TestShape(st, s, end);
      if s.elses.Some? {
        var (r, ifFalse) := Test(st, s, st.cur, end);
        var s2 := SetBlock(r, ifFalse);
        if Targeted(r.blocks, end) {
          BranchTouches(s2, s.elses.value, Some(ifFalse), end);
          TargetedLater(r, LowerBranch(st, s, at, end), end);
        } else {
          BranchTargets(s2, s.elses.value, Some(ifFalse), end);
        }
      }
    }
  }

  lemma TestTargets(st: State, s: Source.Smt, end: nat)
    requires Link(st, s, None, end) && s.cond.Some?
    ensures Targeted(Test(st, s, st.cur, end).0.blocks, end) <==> !After(s.body, false) || s.elses.None?
  {
    hide Targeted, LowerSmt, LowerExp, Test;
    var s2 := SetBlock(Opened(st, s), |st.blocks|);
    var inner := LowerSmt(s2, s.body);
    var s4 := SetBlock(Joined(inner, end), st.cur);
    BodyShape(st, s, end);
    TestShape(st, s, end);
    assert Headed(s);
    OnwardBlock(st.blocks, s2.blocks, st.cur, {});
    OnwardSmt(s2, s.body);
    AfterSmt(s2, s.body);
    JoinedTargets(inner, end);
    ConditionTargets(s4, s.cond.value, |st.blocks|, Test(st, s, st.cur, end).1, end);
  }

  /** What the current block is: it has code, or none and some or no branch to it. */
  datatype Landing = Filled | Awaited | Alone

  /** What it is after `s`, if it was `l` before. */
  function Lands(s: Source.Smt, l: Landing): Landing
    decreases s, 0
  {
    match s
    case Block(smts) => LandsSeq(smts, l)
    case If(_, _, _) => if Exits(s) then Awaited else Alone
    case For(_, _, _, _) => Awaited
    case _ => Filled
  }

  function LandsSeq(smts: seq<Source.Smt>, l: Landing): Landing
    decreases smts, 0
  {
    if smts == [] then l else LandsSeq(smts[1..], Lands(smts[0], l))
  }

  ghost predicate Landed(r: State, l: Landing)
    requires Ok(r)
  {
    if l.Filled? then r.blocks[r.cur] != []
    else r.blocks[r.cur] == [] && (Targeted(r.blocks, r.cur) <==> l.Awaited?)
  }

  ghost predicate Bounded(g: seq<Ir.Block>) { forall t: nat :: Targeted(g, t) ==> t < |g| }

  lemma {:induction false} LandsSmt(st: State, s: Source.Smt, l: Landing)
    requires Ready(st, s) && Headed(s) && Bounded(st.blocks) && Landed(st, l)
    ensures Landed(LowerSmt(st, s), Lands(s, l))
    decreases s, 1
  {
    match s
    case Declare(v) => PlainVariable(st, v);
    case Assign(_, _) =>
    case Return(_) =>
    case Block(smts) => LandsSmts(st, smts, l);
    case If(_, _, _) => LandsIf(st, s);
    case For(_, _, _, _) => LandsLoop(st, s);
  }

  lemma {:induction false} LandsSmts(st: State, smts: seq<Source.Smt>, l: Landing)
    requires Ok(st) && SlotsBelow(st) && TreeSeq(smts, st.slots.Keys) && HeadedSeq(smts) && Bounded(st.blocks) && Landed(st, l)
    ensures Landed(LowerSmts(st, smts), LandsSeq(smts, l))
    decreases smts, 0
  {
    if smts != [] {
      SmtExtends(st, smts[0]);
      OnwardSmt(st, smts[0]);
      LandsSmt(st, smts[0], l);
      LandsSmts(LowerSmt(st, smts[0]), smts[1..], Lands(smts[0], l));
    }
  }

  lemma NewTargets(g: seq<Ir.Block>, t: nat)
    ensures Targeted(g + [[]], t) ==> Targeted(g, t)
  {
    if k :| 0 <= k < |g| + 1 && Jumps((g + [[]])[k], t) {
      assert k < |g| && Jumps(g[k], t);
    }
  }

  lemma LandsIf(st: State, s: Source.Smt)
    requires Ready(st, s) && s.If? && Headed(s) && Bounded(st.blocks)
    ensures Landed(LowerSmt(st, s), if Exits(s) then Awaited else Alone)
  {
    hide Targeted, LowerSmt, LowerBranch, Exits;
    assert HeadedElse(s);
    IfPlace(st, s);
    AppendTouches(st, st.cur);
    NewTargets(st.blocks, |st.blocks|);
    BranchTargets(Append(st), s, None, |st.blocks|);
  }

  lemma LandsLoop(st: State, s: Source.Smt)
    requires Ready(st, s) && s.For?
    ensures Landed(LowerSmt(st, s), Awaited)
  {
    var r, e := LowerLoop(st, s), IncEnd(st, s);
    ExitPlace(st, s);
    LoopPieces(st, s);
    EntryPlace(st, s);
    SmtExtends(IncStart(st, s), s.inc);
    ConditionTargets(e, s.test, |st.blocks|, r.cur, r.cur);
  }

  // ---------- statements without code ----------

  predicate Silent(s: Source.Smt)
    decreases s, 0
  {
    s.Block? && SilentSeq(s.smts)
  }

  predicate SilentSeq(smts: seq<Source.Smt>)
    decreases smts, 0
  {
    smts == [] || (Silent(smts[0]) && SilentSeq(smts[1..]))
  }

  lemma {:induction false} SilentSmt(st: State, s: Source.Smt, l: Landing)
    requires Ok(st) && Silent(s)
    ensures LowerSmt(st, s) == st && Lands(s, l) == l && !After(s, false)
    decreases s, 0
  {
    SilentSmts(st, s.smts, l);
  }

  lemma {:induction false} SilentSmts(st: State, smts: seq<Source.Smt>, l: Landing)
    requires Ok(st) && SilentSeq(smts)
    ensures LowerSmts(st, smts) == st && LandsSeq(smts, l) == l && !AfterSeq(smts, false)
    decreases smts, 0
  {
    if smts != [] {
      SilentSmt(st, smts[0], l);
      SilentSmts(st, smts[1..], l);
    }
  }

  /** After all others the block is what it is whatever it was before. */
  lemma {:induction false} LoudSmt(s: Source.Smt, l: Landing)
    requires !Silent(s)
    ensures Lands(s, l) == Lands(s, Filled)
    decreases s, 0
  {
    if s.Block? {
      LoudSmts(s.smts, l);
    }
  }

  lemma {:induction false} LoudSmts(smts: seq<Source.Smt>, l: Landing)
    requires !SilentSeq(smts)
    ensures LandsSeq(smts, l) == LandsSeq(smts, Filled)
    decreases smts, 0
  {
    if Silent(smts[0]) {
      var st := State([[]], 0, 0, map[], [], I64);
      SilentSmt(st, smts[0], l);
      SilentSmt(st, smts[0], Filled);
      LoudSmts(smts[1..], l);
    } else {
      LoudSmt(smts[0], l);
    }
  }

  /** Code that ends in the block it started in leaves something there. */
  lemma {:induction false} SamePlace(st: State, s: Source.Smt)
    requires Ready(st, s) && Headed(s) && LowerSmt(st, s).cur == st.cur
    ensures Lands(s, Filled) == Filled
    decreases s, 0
  {
    match s
    case Block(smts) => SamePlaces(st, smts);
    case If(_, _, _) => IfPlace(st, s);
    case For(_, _, _, _) =>
      EntryTouches(st, s);
      ExitPlace(st, s);
    case _ =>
  }

  lemma {:induction false} SamePlaces(st: State, smts: seq<Source.Smt>)
    requires Ok(st) && SlotsBelow(st) && TreeSeq(smts, st.slots.Keys) && HeadedSeq(smts) && LowerSmts(st, smts).cur == st.cur
    ensures LandsSeq(smts, Filled) == Filled
    decreases smts, 0
  {
    if smts != [] {
      var s1 := LowerSmt(st, smts[0]);
      SmtExtends(st, smts[0]);
      SmtsExtends(s1, smts[1..]);
      SamePlace(st, smts[0]);
      SamePlaces(s1, smts[1..]);
    }
  }

  // ---------- functions ----------

  /** Every branch goes to a block that is there. */
  ghost predicate Intact(code: Code) {
    forall k, t: nat :: k in code && Jumps(code[k], t) ==> t in code
  }

  /** What LLVM asks of the blocks of a function: an entry, one terminator in each,
      at the end, and branches to its own blocks. */
  ghost predicate WellFormed(code: Code) {
    0 in code && Intact(code) && forall k :: k in code ==> Closed(code[k])
  }

  /** The body ends in a loop, or in a chain that has no last else or a body that does not
      end in a return: then the empty block it ends in has a branch to it. */
  predicate Dangles(body: Source.Smt) { Lands(body, Filled).Awaited? }

  /** The body ends in a return, or in a chain with a last else all of whose bodies do. */
  predicate Ends(body: Source.Smt) { After(body, false) || Lands(body, Filled).Alone? }

  lemma IntactExactly(r: State)
    requires Ok(r) && Bounded(r.blocks)
    ensures Intact(Remaining(r)) <==> !(Deleted(r).Some? && Targeted(r.blocks, r.cur))
  {
    var code := Remaining(r);
    if Deleted(r).Some? && Targeted(r.blocks, r.cur) {
      var k :| 0 <= k < |r.blocks| && Jumps(r.blocks[k], r.cur);
      assert r.blocks[r.cur] == [] && k != r.cur;
      assert k in code && Jumps(code[k], r.cur) && r.cur !in code;
    } else {
      forall k, t: nat | k in code && Jumps(code[k], t) ensures t in code {
        assert Targeted(r.blocks, t);
      }
    }
  }

  lemma EntryLands(params: seq<Parameter>, sigs: seq<Signature>, ret: Width)
    ensures var r := LowerParams(params, sigs, ret);
      Bounded(r.blocks) && Landed(r, if params == [] then Alone else Filled)
  {
    EntryPlain(params, sigs, ret);
    PlainKeeps([], LowerParams(params, sigs, ret).blocks[0]);
  }

  lemma FunctionLands(f: Function, sigs: seq<Signature>)
    requires CheckFunction(f, sigs)
    ensures var r := LowerFunction(f, sigs);
      Bounded(r.blocks) && Landed(r, Lands(f.body, if f.params == [] then Alone else Filled))
  {
    var st := LowerParams(f.params, sigs, f.ret);
    ParamsTouch(f.params, sigs, f.ret);
    EntryLands(f.params, sigs, f.ret);
    CheckHeaded(f.body, ParamEnv(f.params), sigs);
    OnwardSmt(st, f.body);
    SmtExtends(st, f.body);
    LandsSmt(st, f.body, if f.params == [] then Alone else Filled);
  }

  /** The last block is deleted although another block branches to it, exactly for
      the bodies that dangle. So in all others every branch goes to a block that is left. */
  lemma FunctionBounded(f: Function, sigs: seq<Signature>)
    requires CheckFunction(f, sigs)
    ensures var r := LowerFunction(f, sigs);
      && (Dangles(f.body) <==> Deleted(r).Some? && Targeted(r.blocks, Deleted(r).value))
      && (Dangles(f.body) <==> !Intact(Remaining(r)))
  {
    var l := if f.params == [] then Alone else Filled;
    FunctionLands(f, sigs);
    IntactExactly(LowerFunction(f, sigs));
    if Silent(f.body) {
      SilentSmt(LowerParams(f.params, sigs, f.ret), f.body, l);
      SilentSmt(LowerParams(f.params, sigs, f.ret), f.body, Filled);
    } else {
      LoudSmt(f.body, l);
    }
  }

  /** A block is left to enter, unless there is no code at all. */
  lemma EntryLeft(f: Function, sigs: seq<Signature>)
    requires CheckFunction(f, sigs)
    ensures 0 in Remaining(LowerFunction(f, sigs)) <==> !(Silent(f.body) && f.params == [])
    ensures Silent(f.body) ==> !Ends(f.body) && T(LowerFunction(f, sigs)) == false
  {
    var st := LowerParams(f.params, sigs, f.ret);
    var r := LowerFunction(f, sigs);
    ParamsTouch(f.params, sigs, f.ret);
    CheckHeaded(f.body, ParamEnv(f.params), sigs);
    EntryLands(f.params, sigs, f.ret);
    FunctionLands(f, sigs);
    if Silent(f.body) {
      SilentSmt(st, f.body, Filled);
    } else {
      LoudSmt(f.body, if f.params == [] then Alone else Filled);
      if r.cur == 0 {
        SamePlace(st, f.body);
      }
    }
  }

  /** What is left is well formed exactly when the body is supported and ends. */
  lemma FunctionShape(f: Function, sigs: seq<Signature>)
    requires CheckFunction(f, sigs)
    ensures WellFormed(Remaining(LowerFunction(f, sigs))) <==> Supported(f.body, false) && Ends(f.body)
  {
    var r := LowerFunction(f, sigs);
    var code := Remaining(r);
    FunctionJudged(f, sigs);
    FunctionLands(f, sigs);
    FunctionBounded(f, sigs);
    EntryLeft(f, sigs);
    if !Silent(f.body) {
      LoudSmt(f.body, if f.params == [] then Alone else Filled);
    }
    assert (forall k :: k in code ==> Closed(code[k])) <==> NearlyClosed(r) && (Deleted(r).Some? || T(r)) by {
      if forall k :: k in code ==> Closed(code[k]) {
        forall k | 0 <= k < |r.blocks| && k != r.cur ensures Closed(r.blocks[k]) {
          assert k in code;
        }
        if Deleted(r).None? {
          assert r.cur in code;
        }
      }
    }
  }

  // ---------- what deleting does to control ----------

  lemma {:induction false} ExitsCompletes(s: Source.Smt)
    requires HeadedElse(s)
    ensures Completes(s) ==> Exits(s)
    decreases s
  {
    CompletesOpen(s.body);
    if s.cond.Some? && s.elses.Some? {
      assert Headed(s);
      ExitsCompletes(s.elses.value);
    }
  }

  lemma {:induction false} AloneReturns(s: Source.Smt, l: Landing)
    requires Headed(s) && Lands(s, l).Alone? && !l.Alone?
    ensures !Completes(s)
    decreases s, 0
  {
    if s.Block? {
      AloneReturnsSeq(s.smts, l);
    } else {
      ExitsCompletes(s);
    }
  }

  lemma {:induction false} AloneReturnsSeq(smts: seq<Source.Smt>, l: Landing)
    requires HeadedSeq(smts) && LandsSeq(smts, l).Alone? && !l.Alone?
    ensures !CompletesSeq(smts)
    decreases smts, 0
  {
    if Lands(smts[0], l).Alone? {
      AloneReturns(smts[0], l);
    } else {
      AloneReturnsSeq(smts[1..], Lands(smts[0], l));
    }
  }

  /** A body that ends returns on all paths. The converse does not hold. */
  lemma EndsReturns(s: Source.Smt)
    requires Headed(s) && Ends(s)
    ensures !Completes(s)
  {
    if After(s, false) {
      CompletesOpen(s);
    } else {
      AloneReturns(s, Filled);
    }
  }

  /** In a supported function that returns on all paths the deleted block was not
      reachable. When the body dangles, it is unreachable blocks that branch to it. */
  lemma DeadBranches(f: Function, sigs: seq<Signature>)
    requires CheckFunction(f, sigs) && Supported(f.body, false) && !Completes(f.body)
    ensures var r := LowerFunction(f, sigs);
      Dangles(f.body) <==>
        Deleted(r).Some? && exists a: nat :: a < |r.blocks| && !Reachable(r.blocks, a) && Steps(r.blocks, a, Deleted(r).value)
  {
    var r := LowerFunction(f, sigs);
    LastBlockDead(f, sigs);
    FunctionBounded(f, sigs);
    if Dangles(f.body) {
      var a :| 0 <= a < |r.blocks| && Jumps(r.blocks[a], Deleted(r).value);
      assert Steps(r.blocks, a, Deleted(r).value);
    }
  }

  // ---------- a body that dangles ----------

  function Returning(n: int): Source.Smt { Block([Return(Literal(n))]) }

  function OneLessTwo(): Source.Exp { Binary(Literal(1), Lss, Literal(2)) }

  /** `if 1 < 2 { return 1 } else { return 2 }` */
  function InnerReturns(): Source.Smt {
    If(Some(OneLessTwo()), Returning(1), Some(If(None, Returning(2), None)))
  }

  /** `{ if 1 < 2 { if 1 < 2 { return 1 } else { return 2 } } else { return 3 } }` */
  function NestedReturns(): Source.Smt {
    Block([If(Some(OneLessTwo()), Block([InnerReturns()]), Some(If(None, Returning(3), None)))])
  }

  ghost predicate Accepted(s: Source.Smt, sigs: seq<Signature>) {
    Check(s, map[], sigs).Some? && Supported(s, false) && !Completes(s) && !After(s, false) && Dcls(s) == {} && Tree(s, {})
  }

  lemma OneInBlock(s: Source.Smt, sigs: seq<Signature>)
    requires Accepted(s, sigs)
    ensures Accepted(Block([s]), sigs) && Lands(Block([s]), Filled) == Lands(s, Filled)
  {
    var b := [s];
    assert b[0] == s && b[1..] == [];
    assert CheckSeq(b, map[], sigs) == CheckSeq([], Check(s, map[], sigs).value, sigs);
    assert DclsSeq(b) == Dcls(s) + DclsSeq([]);
    assert SupportedSeq(b, false) && TreeSeq(b, {});
    assert AfterSeq(b, false) == AfterSeq([], After(s, false)) && LandsSeq(b, Filled) == LandsSeq([], Lands(s, Filled));
  }

  lemma InnerAccepted(sigs: seq<Signature>)
    ensures Accepted(InnerReturns(), sigs)
  {
    assert [Return(Literal(1))][1..] == [] && [Return(Literal(2))][1..] == [];
  }

  lemma NestedAccepted(sigs: seq<Signature>)
    ensures Accepted(NestedReturns(), sigs) && Dangles(NestedReturns())
  {
    var inner := Block([InnerReturns()]);
    InnerAccepted(sigs);
    OneInBlock(InnerReturns(), sigs);
    var outer := If(Some(OneLessTwo()), inner, Some(If(None, Returning(3), None)));
    assert [Return(Literal(3))][1..] == [];
    assert Accepted(outer, sigs) && Exits(outer);
    OneInBlock(outer, sigs);
  }

  lemma AcceptedDangles(s: Source.Smt, sigs: seq<Signature>)
    requires s.Block? && Accepted(s, sigs) && Dangles(s)
    ensures var f := Function([], I64, s);
      CheckFunction(f, sigs) && !Intact(Remaining(LowerFunction(f, sigs)))
  {
    assert ParamEnv([]).Keys == {};
    FunctionBounded(Function([], I64, s), sigs);
  }

  /** Every path returns, and still the deleted block is branched to: what is left has
      a branch to no block. */
  lemma NestedReturnsDangle(sigs: seq<Signature>)
    ensures var f := Function([], I64, NestedReturns());
      var code := Remaining(LowerFunction(f, sigs));
      && CheckFunction(f, sigs) && Supported(f.body, false) && !Completes(f.body)
      && !Intact(code) && !WellFormed(code)
  {
    hide LowerSmt, LowerFunction, Check, Supported, Completes, Tree, Lands;
    NestedAccepted(sigs);
    AcceptedDangles(NestedReturns(), sigs);
  }

  // ---------- a loop body that ends in a return ----------

  /** `for i := 0; i < 2; i = i + 1 { return 1 }` */
  function LoopOnce(): Source.Smt {
    For(VarDcl(0, None, Literal(0)), Binary(Ident(0), Lss, Literal(2)), Assign(0, Binary(Ident(0), Add, Literal(1))), Returning(1))
  }

  /** The loop, and `return 2` behind it. */
  function LoopReturns(): Source.Smt { Block([LoopOnce(), Return(Literal(2))]) }

  lemma LoopOnceIs(sigs: seq<Signature>)
    ensures Check(LoopOnce(), map[], sigs) == Some(map[0 := I64]) && Tree(LoopOnce(), {})
    ensures !Supported(LoopOnce(), false) && After(LoopOnce(), false) == false
  {
    var env: Env := map[0 := I64];
    assert [Return(Literal(1))][1..] == [];
    assert ExpType(Ident(0), env, sigs) == Some(I64);
    assert After(Returning(1), false);
    assert !Supported(LoopOnce().inc, true);
  }

  lemma LoopReturnsChecks(sigs: seq<Signature>)
    ensures CheckFunction(Function([], I64, LoopReturns()), sigs)
  {
    hide LoopOnce, CheckSeq, TreeSeq;
    LoopOnceIs(sigs);
    TwoCheck(LoopOnce(), map[0 := I64], sigs);
    var f := Function([], I64, LoopReturns());
    assert ParamEnv(f.params) == map[] && ParamEnv(f.params).Keys == {};
    assert f.body.smts == [LoopOnce(), Return(Literal(2))];
    assert Check(f.body, map[], sigs).Some? && Tree(f.body, {});
  }

  lemma TwoCheck(s: Source.Smt, env: Env, sigs: seq<Signature>)
    requires Check(s, map[], sigs) == Some(env) && Tree(s, {})
    ensures CheckSeq([s, Return(Literal(2))], map[], sigs).Some? && TreeSeq([s, Return(Literal(2))], {})
  {
    var b, r := [s, Return(Literal(2))], [Return(Literal(2))];
    assert b[1..] == r && r[1..] == [];
    assert CheckSeq(r, env, sigs) == CheckSeq([], env, sigs);
    assert CheckSeq(b, map[], sigs) == CheckSeq(r, env, sigs);
    assert TreeSeq(r, {} + Dcls(s));
  }

  lemma LoopReturnsEnds(sigs: seq<Signature>)
    ensures !Supported(LoopReturns(), false) && After(LoopReturns(), false) && !Dangles(LoopReturns())
  {
    hide LoopOnce;
    LoopOnceIs(sigs);
    var b := LoopReturns().smts;
    assert b[1..] == [Return(Literal(2))] && b[1..][1..] == [];
    assert AfterSeq(b, false) == AfterSeq(b[1..], false) && AfterSeq(b[1..], false) == AfterSeq([], true);
    assert LandsSeq(b, Filled) == LandsSeq(b[1..], Lands(b[0], Filled));
    assert LandsSeq(b[1..], Lands(b[0], Filled)) == LandsSeq([], Filled);
    assert !SupportedSeq(b, false);
  }

  /** The branches of the loop go behind the return of its body: the block is left with
      more than one terminator, although the function ends and every branch has a target. */
  lemma LoopReturnsSpoilt(sigs: seq<Signature>)
    ensures var f := Function([], I64, LoopReturns());
      var code := Remaining(LowerFunction(f, sigs));
      CheckFunction(f, sigs) && Ends(f.body) && Intact(code) && !WellFormed(code)
  {
    hide LowerFunction, Check, Supported, Tree, Lands, After, LoopReturns, CheckFunction;
    LoopReturnsChecks(sigs);
    LoopReturnsEnds(sigs);
    FunctionBounded(Function([], I64, LoopReturns()), sigs);
    FunctionShape(Function([], I64, LoopReturns()), sigs);
  }
}
