/** Which blocks control can reach, and why the block that is deleted at the end of
    a function is not one of them. */
module Liveness {
  import opened Wrappers
  import opened Ints
  import opened Ir
  import opened Source
  import opened Lowering
  import opened Growth
  import opened Layout
  import opened Parameters
  import opened GraphShape

  predicate Goes(i: Instr, t: nat) {
    (i.Br? && i.target == t) || (i.CondBr? && (i.ifTrue == t || i.ifFalse == t))
  }

  ghost predicate Jumps(b: Ir.Block, t: nat) {
    exists i :: 0 <= i < |b| && Goes(b[i], t)
  }

  ghost predicate IsPath(g: seq<Ir.Block>, p: seq<nat>) {
    |p| > 0 && p[0] == 0 && forall i :: 0 <= i < |p| - 1 ==> Steps(g, p[i], p[i + 1])
  }

  ghost predicate Steps(g: seq<Ir.Block>, a: nat, b: nat) {
    a < |g| && Jumps(g[a], b)
  }

  /** Some chain of branches leads from the entry block to `b`. */
  ghost predicate Reachable(g: seq<Ir.Block>, b: nat) {
    exists p :: IsPath(g, p) && p[|p| - 1] == b
  }

  lemma {:induction false} PathStays(g: seq<Ir.Block>, live: set<nat>, p: seq<nat>)
    requires 0 in live && (forall a, b :: a in live && Steps(g, a, b) ==> b in live)
    requires IsPath(g, p)
    ensures p[|p| - 1] in live
  {
    if |p| > 1 {
      var q := p[..|p| - 1];
      PathStays(g, live, q);
      assert Steps(g, p[|p| - 2], p[|p| - 1]);
    }
  }

  // ---------- which statements can complete ----------

  /** Some path through `s` gets past it without returning. */
  predicate Completes(s: Source.Smt)
    decreases s, 0
  {
    match s
    case Declare(_) => true
    case Assign(_, _) => true
    case Return(_) => false
    case Block(smts) => CompletesSeq(smts)
    case If(cond, body, elses) =>
      Completes(body) || (cond.Some? && (elses.None? || Completes(elses.value)))
    case For(_, _, _, _) => true
  }

  predicate CompletesSeq(smts: seq<Source.Smt>)
    decreases smts, 0
  {
    smts == [] || (Completes(smts[0]) && CompletesSeq(smts[1..]))
  }

  lemma {:induction false} CompletesOpen(s: Source.Smt)
    ensures Completes(s) ==> !After(s, false)
    decreases s, 0
  {
    if s.Block? {
      CompletesOpenSeq(s.smts);
    }
  }

  lemma {:induction false} CompletesOpenSeq(smts: seq<Source.Smt>)
    ensures CompletesSeq(smts) ==> !AfterSeq(smts, false)
    decreases smts, 0
  {
    if smts != [] {
      CompletesOpen(smts[0]);
      CompletesOpenSeq(smts[1..]);
    }
  }

  /** Once the current block is terminated, supported code adds nothing at all. */
  lemma {:induction false} QuietSmt(st: State, s: Source.Smt)
    requires Ok(st) && Supported(s, true) && Headed(s)
    ensures LowerSmt(st, s) == st && After(s, true)
    decreases s, 0
  {
    if s.Block? {
      QuietSmts(st, s.smts);
    }
  }

  lemma {:induction false} QuietSmts(st: State, smts: seq<Source.Smt>)
    requires Ok(st) && SupportedSeq(smts, true) && HeadedSeq(smts)
    ensures LowerSmts(st, smts) == st && AfterSeq(smts, true)
    decreases smts, 0
  {
    if smts != [] {
      QuietSmt(st, smts[0]);
      QuietSmts(st, smts[1..]);
    }
  }

  // ---------- the blocks control can get to ----------

  /** The new blocks that can be reached when the current block can. */
  function Live(st: State, s: Source.Smt): set<nat>
    requires Ok(st)
    decreases s, 2
  {
    match s
    case Declare(_) => {}
    case Assign(_, _) => {}
    case Return(_) => {}
    case Block(smts) => LiveSeq(st, smts)
    case If(_, _, _) => LiveChain(Append(st), s, |st.blocks|)
    case For(_, _, inc, loop) =>
      {|st.blocks|, |BodyEnd(st, s).blocks|} + Live(BodyStart(st, s), loop)
      + if Completes(loop) then Live(IncStart(st, s), inc) else {}
  }

  function LiveSeq(st: State, smts: seq<Source.Smt>): set<nat>
    requires Ok(st)
    decreases smts, 0
  {
    if smts == [] then {}
    else if Completes(smts[0]) then Live(st, smts[0]) + LiveSeq(LowerSmt(st, smts[0]), smts[1..])
    else Live(st, smts[0])
  }

  function LiveChain(st: State, s: Source.Smt, end: nat): set<nat>
    requires Ok(st) && end < |st.blocks|
    decreases s, 1
  {
    if !s.If? then {}
    else if s.cond.None? then Live(st, s.body) + Exit(s.body, end)
    else
      var (r, ifFalse) := Test(st, s, st.cur, end);
      {|st.blocks|, ifFalse} + Live(SetBlock(Opened(st, s), |st.blocks|), s.body) + Exit(s.body, end)
      + if s.elses.Some? then LiveChain(SetBlock(r, ifFalse), s.elses.value, end) else {}
  }

  function Exit(body: Source.Smt, end: nat): set<nat> {
    if Completes(body) then {end} else {}
  }

  ghost predicate JumpsInto(b: Ir.Block, live: set<nat>) {
    forall t :: Jumps(b, t) ==> t in live
  }

  /** Control that enters at the current block of `st` stays in `live`, and is at the
      current block of `r`, still open, only if the code can complete. */
  ghost predicate Confined(st: State, r: State, live: set<nat>, completes: bool)
    requires Ok(r)
  {
    && (forall k :: k in live ==> |st.blocks| <= k < |r.blocks|)
    && (forall k :: 0 <= k < |r.blocks| && (k in live || k == st.cur) ==> JumpsInto(r.blocks[k], live))
    && (!completes ==> T(r) || (r.cur !in live && r.cur != st.cur))
  }

  lemma NoJumps(b: Ir.Block)
    requires Neat(b) && !Terminated(b)
    ensures forall t :: !Jumps(b, t)
  {
    forall i | 0 <= i < |b| ensures !IsTerminator(b[i]) {
    }
  }

  lemma PlainJumps(a: Ir.Block, b: Ir.Block)
    requires Plain(a, b) && forall t :: !Jumps(a, t)
    ensures forall t :: !Jumps(b, t)
  {
    forall i, t: nat | 0 <= i < |b| ensures !Goes(b[i], t) {
      if i < |a| { assert b[i] == a[i]; assert !Jumps(a, t); }
    }
  }

  lemma AddedJumps(a: Ir.Block, i: Instr, t: nat)
    ensures Jumps(a + [i], t) <==> Jumps(a, t) || Goes(i, t)
  {
    var b := a + [i];
    if k :| 0 <= k < |a| && Goes(a[k], t) { assert b[k] == a[k]; }
    if Goes(i, t) { assert b[|a|] == i; }
    if k :| 0 <= k < |b| && Goes(b[k], t) { if k < |a| { assert b[k] == a[k]; } }
  }

  /** Where the code of a supported statement may be entered. */
  ghost predicate Enterable(st: State, s: Source.Smt) {
    Ready(st, s) && Headed(s) && Supported(s, false) && Neat(st.blocks[st.cur]) && !T(st)
  }

  lemma {:induction false} LiveSmt(st: State, s: Source.Smt)
    requires Enterable(st, s)
    ensures Confined(st, LowerSmt(st, s), Live(st, s), Completes(s))
    decreases s, 5
  {
    match s
    case Declare(v) =>
      PlainVariable(st, v);
      NoJumps(st.blocks[st.cur]);
      PlainJumps(st.blocks[st.cur], LowerSmt(st, s).blocks[st.cur]);
    case Assign(d, e) =>
      var (s1, o) := LowerExp(st, e);
      PlainExp(st, e);
      PlainEmit(s1, Store(o, SlotOf(st, d).reg));
      NoJumps(st.blocks[st.cur]);
      PlainJumps(st.blocks[st.cur], LowerSmt(st, s).blocks[st.cur]);
    case Return(e) => LiveReturn(st, e);
    case Block(smts) => LiveSmts(st, smts);
    case If(_, _, _) => LiveIf(st, s);
    case For(_, _, _, _) => LiveLoop(st, s);
  }

  lemma LiveReturn(st: State, e: Source.Exp)
    requires Enterable(st, Return(e))
    ensures Confined(st, LowerSmt(st, Return(e)), {}, false)
  {
    var (s1, o) := LowerExp(st, e);
    var (s2, o') := LowerCast(s1, o, st.ret);
    PlainExp(st, e);
    PlainCast(s1, o, st.ret);
    NoJumps(st.blocks[st.cur]);
    PlainJumps(st.blocks[st.cur], s1.blocks[st.cur]);
    PlainJumps(s1.blocks[st.cur], s2.blocks[st.cur]);
    forall t: nat ensures !Jumps(s2.blocks[st.cur] + [Ret(o')], t) {
      AddedJumps(s2.blocks[st.cur], Ret(o'), t);
    }
  }

  lemma {:induction false} LiveSmts(st: State, smts: seq<Source.Smt>)
    requires Enterable(st, Block(smts))
    ensures Confined(st, LowerSmts(st, smts), LiveSeq(st, smts), CompletesSeq(smts))
    decreases smts, 0
  {
    if smts == [] {
      NoJumps(st.blocks[st.cur]);
    } else {
      var s1 := LowerSmt(st, smts[0]);
      assert HeadedSeq(smts) && TreeSeq(smts, st.slots.Keys) && SupportedSeq(smts, false);
      LiveSmt(st, smts[0]);
      JudgeSmt(st, smts[0]);
      CompletesOpen(smts[0]);
      SmtExtends(st, smts[0]);
      SmtsExtends(s1, smts[1..]);
      if Completes(smts[0]) {
        LiveSmts(s1, smts[1..]);
        ConfinedThen(st, s1, LowerSmts(s1, smts[1..]), Live(st, smts[0]), LiveSeq(s1, smts[1..]), CompletesSeq(smts[1..]));
      } else if After(smts[0], false) {
        QuietSmts(s1, smts[1..]);
      } else {
        ConfinedDead(st, s1, LowerSmts(s1, smts[1..]), Live(st, smts[0]));
      }
    }
  }

  lemma ConfinedThen(st: State, s1: State, r: State, a: set<nat>, b: set<nat>, completes: bool)
    requires Ok(st) && Ok(s1) && Ok(r) && |st.blocks| <= |s1.blocks|
    requires Confined(st, s1, a, true) && Touches(s1, s1.cur, r) && (r.cur == s1.cur || r.cur >= |s1.blocks|)
    requires s1.cur == st.cur || s1.cur >= |st.blocks|
    requires Confined(s1, r, b, completes)
    ensures Confined(st, r, a + b, completes)
  {
    forall k | 0 <= k < |r.blocks| && (k in a + b || k == st.cur) ensures JumpsInto(r.blocks[k], a + b) {
      if k == s1.cur || k in b {
        assert JumpsInto(r.blocks[k], b);
      } else {
        assert r.blocks[k] == s1.blocks[k] && JumpsInto(s1.blocks[k], a);
      }
    }
  }

  /** What follows code that cannot complete lands in blocks nothing leads to. */
  lemma ConfinedDead(st: State, s1: State, r: State, a: set<nat>)
    requires Ok(st) && Ok(s1) && Ok(r) && |st.blocks| <= |s1.blocks|
    requires Confined(st, s1, a, false) && !T(s1)
    requires Touches(s1, s1.cur, r) && (r.cur == s1.cur || r.cur >= |s1.blocks|)
    ensures Confined(st, r, a, false)
  {
    forall k | 0 <= k < |r.blocks| && (k in a || k == st.cur) ensures JumpsInto(r.blocks[k], a) {
      assert r.blocks[k] == s1.blocks[k];
    }
  }

  lemma {:induction false} LiveIf(st: State, s: Source.Smt)
    requires Enterable(st, s) && s.If?
    ensures Confined(st, LowerSmt(st, s), Live(st, s), Completes(s))
    decreases s, 4
  {
    var s1 := Append(st);
    AppendTouches(st, st.cur);
    BranchTouches(s1, s, None, |st.blocks|);
    LiveBranch(s1, s, None, |st.blocks|);
  }

  /** Control that enters a chain stays in `live` and leaves only for `end`. */
  ghost predicate ConfinedChain(st: State, r: State, live: set<nat>, end: nat, completes: bool) {
    && (forall k :: k in live ==> (|st.blocks| <= k < |r.blocks|) || k == end)
    && (forall k :: 0 <= k < |r.blocks| && (k in live || k == st.cur) ==> JumpsInto(r.blocks[k], live))
    && (end in live ==> completes)
  }

  lemma {:induction false} LiveBranch(st: State, s: Source.Smt, at: Option<nat>, end: nat)
    requires ChainReady(st, s, at, end) && Supported(s, false) && !T(st)
    ensures ConfinedChain(st, LowerBranch(st, s, at, end), LiveChain(st, s, end), end, Completes(s))
    ensures LowerBranch(st, s, at, end).blocks[end] == []
    decreases s, 3
  {
    BranchTouches(st, s, at, end);
    if s.cond.None? {
      LiveLast(st, s, at, end);
    } else if s.elses.None? {
      LiveAlone(st, s, at, end);
    } else {
      LiveElse(st, s, end);
    }
  }

  /** A link that nothing follows. */
  lemma {:induction false} LiveAlone(st: State, s: Source.Smt, at: Option<nat>, end: nat)
    requires ChainReady(st, s, at, end) && Supported(s, false) && !T(st) && s.cond.Some? && s.elses.None?
    ensures ConfinedChain(st, LowerBranch(st, s, at, end), LiveChain(st, s, end), end, Completes(s))
    decreases s, 2
  {
    hide LowerSmt, LowerExp, Test, Live;
    LiveTest(st, s, end);
    TestShape(st, s, end);
    assert LiveChain(st, s, end) == LiveHere(st, s, end);
  }

  lemma {:induction false} LiveLast(st: State, s: Source.Smt, at: Option<nat>, end: nat)
    requires ChainReady(st, s, at, end) && Supported(s, false) && !T(st) && s.cond.None?
    ensures ConfinedChain(st, LowerBranch(st, s, at, end), LiveChain(st, s, end), end, Completes(s))
    decreases s, 0
  {
    hide LowerSmt, LowerExp;
    assert SetBlock(st, st.cur) == st;
    var inner := LowerSmt(st, s.body);
    assert SetBlock(SetBlock(inner, st.cur), inner.cur) == inner;
    assert LowerBranch(st, s, at, end).blocks == Joined(inner, end).blocks;
    LiveSmt(st, s.body);
    SmtExtends(st, s.body);
    LiveJoined(st, inner, Live(st, s.body), s.body, end);
    EmitTouches(inner, Br(end));
  }

  lemma LiveJoined(st: State, inner: State, live: set<nat>, body: Source.Smt, end: nat)
    requires Ok(st) && Ok(inner) && Confined(st, inner, live, Completes(body)) && |st.blocks| <= |inner.blocks|
    ensures forall k :: 0 <= k < |inner.blocks| && (k in live || k == st.cur) ==> JumpsInto(Joined(inner, end).blocks[k], live + Exit(body, end))
  {
    forall k | 0 <= k < |inner.blocks| && (k in live || k == st.cur) ensures JumpsInto(Joined(inner, end).blocks[k], live + Exit(body, end)) {
      forall t: nat | Jumps(Joined(inner, end).blocks[k], t) ensures t in live + Exit(body, end) {
        assert JumpsInto(inner.blocks[k], live);
        if k == inner.cur && Open(inner) {
          AddedJumps(inner.blocks[k], Br(end), t);
        }
      }
    }
  }

  /** The part of a chain's live blocks that its first test accounts for. */
  function LiveHere(st: State, s: Source.Smt, end: nat): set<nat>
    requires Ok(st) && end < |st.blocks| && s.If? && s.cond.Some?
  {
    {|st.blocks|, Test(st, s, st.cur, end).1} + Live(SetBlock(Opened(st, s), |st.blocks|), s.body) + Exit(s.body, end)
  }

  lemma {:induction false} LiveTest(st: State, s: Source.Smt, end: nat)
    requires ChainReady(st, s, None, end) && s.cond.Some? && Supported(s, false) && !T(st)
    ensures var (r, ifFalse) := Test(st, s, st.cur, end);
      var live := LiveHere(st, s, end);
      && (forall k :: k in live ==> (|st.blocks| <= k < |r.blocks|) || k == end)
      && (forall k :: 0 <= k < |r.blocks| && (k in live || k == st.cur) && k != ifFalse && k != end ==> JumpsInto(r.blocks[k], live))
      && (end in live ==> s.elses.None? || Completes(s.body))
    decreases s, 1
  {
    hide Test, LowerSmt, LowerExp, Live;
    var s2 := SetBlock(Opened(st, s), |st.blocks|);
    var joined := Joined(LowerSmt(s2, s.body), end);
    var (r, ifFalse) := Test(st, s, st.cur, end);
    TestShape(st, s, end);
    LiveThen(st, s, end);
    LiveCondition(SetBlock(joined, st.cur), s.cond.value, |st.blocks|, ifFalse);
    var below := Live(s2, s.body) + Exit(s.body, end);
    assert LiveHere(st, s, end) == {|st.blocks|, ifFalse} + below;
    TestJumps(r.blocks, joined.blocks, st.cur, below, |st.blocks|, ifFalse, end);
  }

  /** The body of a link, entered at its own new block. */
  lemma {:induction false} LiveThen(st: State, s: Source.Smt, end: nat)
    requires ChainReady(st, s, None, end) && s.cond.Some? && Supported(s, false)
    ensures var s2 := SetBlock(Opened(st, s), |st.blocks|);
      var joined := Joined(LowerSmt(s2, s.body), end);
      var below := Live(s2, s.body) + Exit(s.body, end);
      && (forall k :: k in Live(s2, s.body) ==> |s2.blocks| <= k < |joined.blocks|)
      && (forall k :: 0 <= k < |joined.blocks| && (k in below || k == |st.blocks|) && k != end ==> JumpsInto(joined.blocks[k], below))
    decreases s, 0
  {
    var s2 := SetBlock(Opened(st, s), |st.blocks|);
    BodyShape(st, s, end);
    assert Headed(s);
    LiveSmt(s2, s.body);
    SmtExtends(s2, s.body);
    LiveJoined(s2, LowerSmt(s2, s.body), Live(s2, s.body), s.body, end);
  }

  /** Blocks `r` are blocks `j` with a test appended to block `cur`. */
  lemma TestJumps(r: seq<Ir.Block>, j: seq<Ir.Block>, cur: nat, inner: set<nat>, block: nat, ifFalse: nat, end: nat)
    requires |r| == |j| && cur < |r|
    requires JumpsInto(r[cur], {block, ifFalse})
    requires forall k :: 0 <= k < |r| && k != cur ==> r[k] == j[k]
    requires forall k :: 0 <= k < |r| && (k in inner || k == block) && k != end ==> JumpsInto(j[k], inner)
    ensures var live := {block, ifFalse} + inner;
      forall k :: 0 <= k < |r| && (k in live || k == cur) && k != ifFalse && k != end ==> JumpsInto(r[k], live)
  {
    var live := {block, ifFalse} + inner;
    forall k | 0 <= k < |r| && (k in live || k == cur) && k != ifFalse && k != end ensures JumpsInto(r[k], live) {
      if k != cur { assert JumpsInto(j[k], inner); }
    }
  }

  /** A condition jumps to its two targets and nowhere else. */
  lemma LiveCondition(st: State, e: Source.Exp, t: nat, f: nat)
    requires Ok(st)
    ensures var (s1, o) := LowerExp(st, e);
      forall u :: Jumps(Emit(s1, CondBr(o, t, f)).blocks[st.cur], u) ==> Jumps(st.blocks[st.cur], u) || u == t || u == f
    ensures Neat(st.blocks[st.cur]) && !T(st) ==> JumpsInto(Emit(LowerExp(st, e).0, CondBr(LowerExp(st, e).1, t, f)).blocks[st.cur], {t, f})
  {
    var (s1, o) := LowerExp(st, e);
    PlainExp(st, e);
    var a, b := st.blocks[st.cur], s1.blocks[st.cur];
    forall u: nat | Jumps(b + [CondBr(o, t, f)], u) ensures Jumps(a, u) || u == t || u == f {
      AddedJumps(b, CondBr(o, t, f), u);
      if Jumps(b, u) {
        var i :| 0 <= i < |b| && Goes(b[i], u);
        assert b[i] == a[i];
      }
    }
    if Neat(a) && !T(st) {
      NoJumps(a);
    }
  }

  lemma {:induction false} LiveElse(st: State, s: Source.Smt, end: nat)
    requires ChainReady(st, s, None, end) && s.cond.Some? && s.elses.Some? && Supported(s, false) && !T(st)
    ensures var (r, ifFalse) := Test(st, s, st.cur, end);
      ConfinedChain(st, LowerBranch(SetBlock(r, ifFalse), s.elses.value, Some(ifFalse), end), LiveChain(st, s, end), end, Completes(s))
    decreases s, 2
  {
    hide LowerSmt, LowerExp, LowerBranch, Test, Live;
    var (s1, ifFalse) := Test(st, s, st.cur, end);
    var s2 := SetBlock(s1, ifFalse);
    ElseShape(st, s, end);
    LiveTest(st, s, end);
    LiveBranch(s2, s.elses.value, Some(ifFalse), end);
    var r := LowerBranch(s2, s.elses.value, Some(ifFalse), end);
    var here, there := LiveHere(st, s, end), LiveChain(s2, s.elses.value, end);
    assert LiveChain(st, s, end) == here + there;
    ElseJumps(s1.blocks, r.blocks, st.cur, ifFalse, end, here, there);
  }

  /** What follows the else of a link is entered at a block of its own. */
  lemma ElseShape(st: State, s: Source.Smt, end: nat)
    requires ChainReady(st, s, None, end) && s.cond.Some? && s.elses.Some?
    ensures var (s1, ifFalse) := Test(st, s, st.cur, end);
      var s2 := SetBlock(s1, ifFalse);
      var r := LowerBranch(s2, s.elses.value, Some(ifFalse), end);
      && ChainReady(s2, s.elses.value, Some(ifFalse), end) && !T(s2)
      && |st.blocks| < ifFalse < |s1.blocks| && end < |st.blocks| && st.cur < |st.blocks|
      && |s1.blocks| <= |r.blocks| && forall k :: 0 <= k < |s1.blocks| && k != ifFalse ==> r.blocks[k] == s1.blocks[k]
  {
    hide LowerSmt, LowerExp, Test;
    var (s1, ifFalse) := Test(st, s, st.cur, end);
    TestShape(st, s, end);
    TestTouches(st, s, st.cur, end);
    assert Headed(s);
    BranchTouches(SetBlock(s1, ifFalse), s.elses.value, Some(ifFalse), end);
  }

  /** Blocks `r` are blocks `t` with the rest of a chain written from block `ifFalse` on. */
  lemma ElseJumps(t: seq<Ir.Block>, r: seq<Ir.Block>, cur: nat, ifFalse: nat, end: nat, here: set<nat>, there: set<nat>)
    requires |t| <= |r| && forall k :: 0 <= k < |t| && k != ifFalse ==> r[k] == t[k]
    requires end < |t| && r[end] == [] && cur < |t|
    requires forall k :: k in here ==> k < |t|
    requires forall k :: 0 <= k < |t| && (k in here || k == cur) && k != ifFalse && k != end ==> JumpsInto(t[k], here)
    requires forall k :: 0 <= k < |r| && (k in there || k == ifFalse) ==> JumpsInto(r[k], there)
    ensures forall k :: 0 <= k < |r| && (k in here + there || k == cur) ==> JumpsInto(r[k], here + there)
  {
    forall k | 0 <= k < |r| && (k in here + there || k == cur) ensures JumpsInto(r[k], here + there) {
      if k == ifFalse || k in there {
        assert JumpsInto(r[k], there);
      } else if k == end {
        assert r[k] == [];
      } else {
        assert r[k] == t[k] && JumpsInto(t[k], here);
      }
    }
  }

  // ---------- loops ----------

  lemma {:induction false} LiveLoop(st: State, s: Source.Smt)
    requires Enterable(st, s) && s.For?
    ensures Confined(st, LowerLoop(st, s), Live(st, s), true)
    decreases s, 3
  {
    hide LowerSmt, LowerExp, LowerLoop;
    var b, e, i, r := BodyStart(st, s), BodyEnd(st, s), IncStart(st, s), LowerLoop(st, s);
    LoopShape(st, s);
    LiveSmt(b, s.loop);
    LiveGuard(st, s);
    if Completes(s.loop) {
      EnterableInc(st, s);
      LiveInc(st, s);
    } else {
      DeadBody(st, s);
    }
    LoopJumps(e.blocks, i.blocks, r.blocks, st.cur, i.cur, |st.blocks|, Live(b, s.loop), if Completes(s.loop) then Live(i, s.inc) else {});
  }

  /** Which blocks the pieces of a loop write. */
  lemma LoopShape(st: State, s: Source.Smt)
    requires Enterable(st, s) && s.For?
    ensures var b, e, i, r := BodyStart(st, s), BodyEnd(st, s), IncStart(st, s), LowerLoop(st, s);
      && Enterable(b, s.loop) && b.cur == |st.blocks| && |b.blocks| == |st.blocks| + 1
      && |b.blocks| <= |e.blocks| < |i.blocks| <= |r.blocks| && st.cur < |st.blocks| <= i.cur < |e.blocks|
      && i.cur == e.cur && r.cur == |e.blocks| && i.blocks[|e.blocks|] == []
      && (forall k :: 0 <= k < |i.blocks| && k != i.cur ==> r.blocks[k] == i.blocks[k])
      && (forall k :: 0 <= k < |e.blocks| && k != st.cur ==> i.blocks[k] == e.blocks[k])
  {
    hide LowerSmt, LowerExp, LowerLoop;
    LoopPieces(st, s);
    BodyPlace(st, s);
    EntryPlace(st, s);
    ExitPlace(st, s);
    SmtExtends(BodyStart(st, s), s.loop);
  }

  /** A body that completes leaves its last block open for the increment. */
  lemma EnterableInc(st: State, s: Source.Smt)
    requires Enterable(st, s) && s.For? && Completes(s.loop)
    ensures Enterable(IncStart(st, s), s.inc)
  {
    hide LowerSmt, LowerExp, LowerLoop;
    BodyPlace(st, s);
    EntryPlace(st, s);
    CompletesOpen(s.loop);
    JudgeSmt(BodyStart(st, s), s.loop);
  }

  /** A loop body that cannot complete ends in a block control does not reach. */
  lemma DeadBody(st: State, s: Source.Smt)
    requires Enterable(st, s) && s.For? && !Completes(s.loop)
    requires Confined(BodyStart(st, s), BodyEnd(st, s), Live(BodyStart(st, s), s.loop), false)
    ensures BodyEnd(st, s).cur !in Live(BodyStart(st, s), s.loop) && BodyEnd(st, s).cur != |st.blocks|
  {
    BodyPlace(st, s);
    JudgeSmt(BodyStart(st, s), s.loop);
    if T(BodyEnd(st, s)) {
      QuietSmt(BodyEnd(st, s), s.inc);
    }
  }

  /** Blocks `e` after the body, `i` after the guarded entry in block `cur`, and `r`
      after the increment and second test in block `out`. */
  lemma LoopJumps(e: seq<Ir.Block>, i: seq<Ir.Block>, r: seq<Ir.Block>, cur: nat, out: nat, header: nat, body: set<nat>, inc: set<nat>)
    requires |e| < |i| <= |r| && cur < header <= out < |e|
    requires forall k :: 0 <= k < |i| && k != out ==> r[k] == i[k]
    requires forall k :: 0 <= k < |e| && k != cur ==> i[k] == e[k]
    requires i[|e|] == [] && JumpsInto(i[cur], {header, |e|})
    requires forall k :: k in body ==> header < k < |e|
    requires forall k :: 0 <= k < |e| && (k in body || k == header) ==> JumpsInto(e[k], body)
    requires out in body || out == header ==> JumpsInto(r[out], inc + {header, |e|})
    requires forall k :: k in inc ==> |i| <= k < |r| && JumpsInto(r[k], inc + {header, |e|})
    ensures var live := {header, |e|} + body + inc;
      && (forall k :: k in live ==> header <= k < |r|)
      && (forall k :: 0 <= k < |r| && (k in live || k == cur) ==> JumpsInto(r[k], live))
  {
    var live := {header, |e|} + body + inc;
    forall k | 0 <= k < |r| && (k in live || k == cur) ensures JumpsInto(r[k], live) {
      if k == |e| {
        assert r[k] == [];
      } else if k < |e| && k != out && k != cur {
        assert r[k] == e[k] && JumpsInto(e[k], body);
      }
    }
  }

  lemma LiveGuard(st: State, s: Source.Smt)
    requires Enterable(st, s) && s.For?
    ensures JumpsInto(IncStart(st, s).blocks[st.cur], {|st.blocks|, |BodyEnd(st, s).blocks|})
  {
    hide LowerExp, LowerVariable;
    var f := FirstTest(st, s);
    LoopPieces(st, s);
    BodyPlace(st, s);
    PlainVariable(st, s.index);
    NoJumps(st.blocks[st.cur]);
    PlainJumps(st.blocks[st.cur], LowerVariable(st, s.index).blocks[st.cur]);
    LiveCondition(f, s.test, |st.blocks|, |BodyEnd(st, s).blocks|);
  }

  lemma {:induction false} LiveInc(st: State, s: Source.Smt)
    requires Enterable(st, s) && s.For? && Completes(s.loop)
    requires Enterable(IncStart(st, s), s.inc)
    ensures var i, r := IncStart(st, s), LowerLoop(st, s);
      && (forall k :: k in Live(i, s.inc) ==> |i.blocks| <= k < |r.blocks|)
      && (forall k :: 0 <= k < |r.blocks| && (k in Live(i, s.inc) || k == i.cur)
           ==> JumpsInto(r.blocks[k], Live(i, s.inc) + {|st.blocks|, |BodyEnd(st, s).blocks|}))
    decreases s, 1
  {
    hide LowerExp, LowerSmt, Live;
    var i, e, r := IncStart(st, s), IncEnd(st, s), LowerLoop(st, s);
    LoopPieces(st, s);
    SmtExtends(i, s.inc);
    LiveSmt(i, s.inc);
    ConditionTouches(e, s.test, |st.blocks|, Entry(st, s).3);
    LiveCondition(e, s.test, |st.blocks|, |BodyEnd(st, s).blocks|);
    forall k | 0 <= k < |r.blocks| && (k in Live(i, s.inc) || k == i.cur)
      ensures JumpsInto(r.blocks[k], Live(i, s.inc) + {|st.blocks|, |BodyEnd(st, s).blocks|})
    {
      assert JumpsInto(e.blocks[k], Live(i, s.inc));
      if k != e.cur { assert r.blocks[k] == e.blocks[k]; }
    }
  }

  // ---------- functions ----------

  /** In a supported function whose body cannot complete, code generation ends in a
      block that is terminated or that control never reaches. So deleting that block
      when it is empty takes away nothing reachable, and no branch to it is reachable. */
  lemma LastBlockDead(f: Function, sigs: seq<Signature>)
    requires CheckFunction(f, sigs) && Supported(f.body, false) && !Completes(f.body)
    ensures var r := LowerFunction(f, sigs);
      && (Terminated(r.blocks[r.cur]) || !Reachable(r.blocks, r.cur))
      && (Deleted(r).Some? ==>
            !Reachable(r.blocks, Deleted(r).value) &&
            forall a :: Reachable(r.blocks, a) ==> !Steps(r.blocks, a, Deleted(r).value))
  {
    var st := LowerParams(f.params, sigs, f.ret);
    var r := LowerFunction(f, sigs);
    ParamsTouch(f.params, sigs, f.ret);
    EntryPlain(f.params, sigs, f.ret);
    CheckHeaded(f.body, ParamEnv(f.params), sigs);
    LiveSmt(st, f.body);
    SmtExtends(st, f.body);
    var live := Live(st, f.body) + {0};
    forall a, b | a in live && Steps(r.blocks, a, b) ensures b in live {
      assert JumpsInto(r.blocks[a], Live(st, f.body));
    }
    forall b | Reachable(r.blocks, b) ensures b in live {
      var p :| IsPath(r.blocks, p) && p[|p| - 1] == b;
      PathStays(r.blocks, live, p);
    }
  }
}
