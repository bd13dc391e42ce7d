/** Code generation only ever appends: to the current block and to new blocks. */
module Growth {
  import opened Wrappers
  import opened Ints
  import opened Ir
  import opened Source
  import opened Lowering

  predicate Prefix(a: Ir.Block, b: Ir.Block) { a <= b }

  ghost predicate SlotsBelow(st: State) {
    forall d :: d in st.slots ==> st.slots[d].reg < st.next
  }

  /** `fin` is `st` with instructions appended to blocks and blocks appended to the
      function; slots handed out since then use registers handed out since then. */
  ghost predicate Later(st: State, fin: State) {
    Grown(st, fin) && LaterSlots(st, fin)
  }

  ghost predicate Grown(st: State, fin: State) {
    && |st.blocks| <= |fin.blocks|
    && (forall k :: 0 <= k < |st.blocks| ==> Prefix(st.blocks[k], fin.blocks[k]))
  }

  ghost predicate LaterSlots(st: State, fin: State) {
    && st.next <= fin.next
    && (forall d :: d in st.slots ==> d in fin.slots && fin.slots[d] == st.slots[d])
    && (forall d :: d in fin.slots && d !in st.slots ==> fin.slots[d].reg >= st.next)
    && fin.sigs == st.sigs && fin.ret == st.ret
  }

  /** Of the blocks of `st`, at most `b` was written to. */
  ghost predicate Touches(st: State, b: nat, r: State) {
    && Later(st, r)
    && SlotsBelow(r)
    && (forall k :: 0 <= k < |st.blocks| && k != b ==> r.blocks[k] == st.blocks[k])
  }

  lemma LaterTransitive(a: State, b: State, c: State)
    requires Later(a, b) && Later(b, c)
    ensures Later(a, c)
  {
    forall k | 0 <= k < |a.blocks| ensures Prefix(a.blocks[k], c.blocks[k]) {
      assert Prefix(a.blocks[k], b.blocks[k]) && Prefix(b.blocks[k], c.blocks[k]);
    }
  }

  lemma TouchesTransitive(a: State, x: nat, b: State, y: nat, c: State)
    requires Touches(a, x, b) && Touches(b, y, c)
    requires y == x || y >= |a.blocks|
    ensures Touches(a, x, c)
  {
    LaterTransitive(a, b, c);
  }

  lemma EmitTouches(st: State, i: Instr)
    requires Ok(st) && SlotsBelow(st)
    ensures Touches(st, st.cur, Emit(st, i))
    ensures Touches(st, st.cur, Define(st, i))
  {
  }

  lemma AppendTouches(st: State, b: nat)
    requires SlotsBelow(st)
    ensures Touches(st, b, Append(st))
  {
  }

  /** Moving the builder is not a change. */
  lemma MoveTouches(st: State, b: nat, r: State, x: nat, y: nat)
    requires Touches(SetBlock(st, x), b, r)
    ensures Touches(st, b, SetBlock(r, y))
  {
  }

  lemma CastTouches(st: State, o: Operand, w: Width)
    requires Ok(st) && SlotsBelow(st)
    ensures var r := LowerCast(st, o, w).0; Touches(st, st.cur, r) && r.slots == st.slots
  {
  }

  lemma OperateTouches(st: State, op: BinOp, a: Operand, b: Operand)
    requires Ok(st) && SlotsBelow(st)
    ensures var r := Operate(st, op, a, b).0; Touches(st, st.cur, r) && r.slots == st.slots
  {
    var w := Promote(a.width, b.width);
    var (s1, a') := LowerCast(st, a, w);
    CastTouches(st, a, w);
    var (s2, b') := LowerCast(s1, b, w);
    CastTouches(s1, b, w);
    TouchesTransitive(st, st.cur, s1, st.cur, s2);
    var i := Bin(s2.next, op, a', b');
    EmitTouches(s2, i);
    TouchesTransitive(st, st.cur, s2, st.cur, Define(s2, i));
  }

  lemma {:induction false} ExpTouches(st: State, e: Source.Exp)
    requires Ok(st) && SlotsBelow(st)
    ensures var r := LowerExp(st, e).0; Touches(st, st.cur, r) && r.slots == st.slots
    decreases e
  {
    match e
    case Literal(_) =>
    case BoolLit(_) =>
    case Ident(d) =>
      var s := SlotOf(st, d);
      EmitTouches(st, Load(st.next, s.width, s.reg));
    case Unary(op, x) =>
      ExpTouches(st, x);
      if op.Minus? {
        var (s1, o) := LowerExp(st, x);
        var i := Bin(s1.next, Mul, Const(o.width, -1), o);
        EmitTouches(s1, i);
        TouchesTransitive(st, st.cur, s1, st.cur, Define(s1, i));
      }
    case Binary(l, op, r) =>
      ExpTouches(st, l);
      var (s1, a) := LowerExp(st, l);
      ExpTouches(s1, r);
      var (s2, b) := LowerExp(s1, r);
      TouchesTransitive(st, st.cur, s1, st.cur, s2);
      OperateTouches(s2, op, a, b);
      TouchesTransitive(st, st.cur, s2, st.cur, Operate(s2, op, a, b).0);
    case CallExp(f, args) =>
      ArgsTouches(st, args);
      var (s1, os) := LowerArgs(st, args);
      EmitTouches(s1, Call(s1.next, f, os));
      TouchesTransitive(st, st.cur, s1, st.cur, Define(s1, Call(s1.next, f, os)));
  }

  lemma {:induction false} ArgsTouches(st: State, args: seq<Source.Exp>)
    requires Ok(st) && SlotsBelow(st)
    ensures var r := LowerArgs(st, args).0; Touches(st, st.cur, r) && r.slots == st.slots
    decreases args
  {
    if args != [] {
      ExpTouches(st, args[0]);
      var s1 := LowerExp(st, args[0]).0;
      ArgsTouches(s1, args[1..]);
      TouchesTransitive(st, st.cur, s1, st.cur, LowerArgs(s1, args[1..]).0);
    }
  }

  lemma VariableTouches(st: State, v: VarDcl)
    requires Ok(st) && SlotsBelow(st) && v.dcl !in st.slots
    ensures var r := LowerVariable(st, v); Touches(st, st.cur, r) && r.slots.Keys == st.slots.Keys + {v.dcl}
  {
    ExpTouches(st, v.value);
    var (s1, o) := LowerExp(st, v.value);
    var w := if v.ty.Some? then v.ty.value else o.width;
    CastTouches(s1, o, w);
    var (s2, o') := LowerCast(s1, o, w);
    TouchesTransitive(st, st.cur, s1, st.cur, s2);
    EmitTouches(s2, Alloca(s2.next, w));
    var s3 := Define(s2, Alloca(s2.next, w));
    TouchesTransitive(st, st.cur, s2, st.cur, s3);
    EmitTouches(s3, Store(o', s2.next));
    var s4 := Emit(s3, Store(o', s2.next));
    TouchesTransitive(st, st.cur, s3, st.cur, s4);
    SlotAdded(st, s2, s4, v.dcl, w);
  }

  lemma SlotAdded(st: State, s2: State, s4: State, d: Dcl, w: Width)
    requires Touches(st, st.cur, s4) && s4.slots == st.slots && d !in st.slots
    requires st.next <= s2.next < s4.next
    ensures Touches(st, st.cur, s4.(slots := s4.slots[d := Slot(s2.next, w)]))
  {
  }

  /** What one compile routine may do: write to the current block and to blocks it
      appends, end in one of those, and give a slot to each declaration it contains. */
  ghost predicate Extends(st: State, r: State, dcls: set<Dcl>) {
    && Touches(st, st.cur, r)
    && (r.cur == st.cur || r.cur >= |st.blocks|)
    && r.slots.Keys == st.slots.Keys + dcls
  }

  ghost predicate Ready(st: State, s: Source.Smt) {
    Ok(st) && SlotsBelow(st) && Tree(s, st.slots.Keys)
  }

  lemma {:induction false} SmtExtends(st: State, s: Source.Smt)
    requires Ready(st, s)
    ensures Extends(st, LowerSmt(st, s), Dcls(s))
    decreases s, 3
  {
    match s
    case Declare(v) => VariableTouches(st, v);
    case Assign(d, e) =>
      var (s1, o) := LowerExp(st, e);
      ExpTouches(st, e);
      EmitTouches(s1, Store(o, SlotOf(st, d).reg));
      TouchesTransitive(st, st.cur, s1, st.cur, LowerSmt(st, s));
    case Return(e) =>
      ReturnTouches(st, e);
    case Block(smts) => SmtsExtends(st, smts);
    case If(_, _, _) =>
      AppendTouches(st, st.cur);
      BranchTouches(Append(st), s, None, |st.blocks|);
      TouchesTransitive(st, st.cur, Append(st), st.cur, LowerSmt(st, s));
    case For(_, _, _, _) => LoopExtends(st, s);
  }

  lemma ReturnTouches(st: State, e: Source.Exp)
    requires Ok(st) && SlotsBelow(st)
    ensures Extends(st, LowerSmt(st, Return(e)), {})
  {
    ExpTouches(st, e);
    var (s1, o) := LowerExp(st, e);
    CastTouches(s1, o, st.ret);
    var (s2, o') := LowerCast(s1, o, st.ret);
    TouchesTransitive(st, st.cur, s1, st.cur, s2);
    EmitTouches(s2, Ret(o'));
    TouchesTransitive(st, st.cur, s2, st.cur, Emit(s2, Ret(o')));
  }

  lemma {:induction false} SmtsExtends(st: State, smts: seq<Source.Smt>)
    requires Ok(st) && SlotsBelow(st) && TreeSeq(smts, st.slots.Keys)
    ensures Extends(st, LowerSmts(st, smts), DclsSeq(smts))
    decreases smts, 0
  {
    if smts != [] {
      SmtExtends(st, smts[0]);
      var s1 := LowerSmt(st, smts[0]);
      SmtsExtends(s1, smts[1..]);
      TouchesTransitive(st, st.cur, s1, s1.cur, LowerSmts(s1, smts[1..]));
    }
  }

  /** `CompileBlockAt` restores the caller's block, and writes to no block that
      existed before it except the one it was given. */
  lemma {:induction false} BlockAtTouches(st: State, s: Source.Smt, b: nat)
    requires Ready(st, s) && b < |st.blocks|
    ensures var (r, out) := BlockAt(st, s, b);
      && Touches(st, b, r) && r.cur == st.cur
      && (out == b || out >= |st.blocks|)
      && r.slots.Keys == st.slots.Keys + Dcls(s)
    decreases s, 4
  {
    SmtExtends(SetBlock(st, b), s);
    MoveTouches(st, b, LowerSmt(SetBlock(st, b), s), b, st.cur);
  }

  lemma JoinTouches(st: State, out: nat, end: nat)
    requires Ok(st) && SlotsBelow(st) && out < |st.blocks|
    ensures var r := Join(st, out, end); Touches(st, out, r) && r.slots == st.slots
  {
    if !Terminated(st.blocks[out]) {
      EmitTouches(SetBlock(st, out), Br(end));
      MoveTouches(st, out, Emit(SetBlock(st, out), Br(end)), out, st.cur);
    }
  }

  lemma {:induction false} BranchTouches(st: State, s: Source.Smt, at: Option<nat>, end: nat)
    requires Ready(st, s) && s.If? && end < |st.blocks| && end != st.cur
    requires at.Some? ==> at.value == st.cur
    ensures var r := LowerBranch(st, s, at, end);
      && Touches(st, st.cur, r)
      && (r.cur == end || (s.cond.None? && (r.cur == st.cur || r.cur >= |st.blocks|)))
      && r.slots.Keys == st.slots.Keys + Dcls(s)
    decreases s, 2
  {
    if s.cond.None? {
      LastTouches(st, s, at, end);
    } else {
      TestTouches(st, s, st.cur, end);
      if s.elses.Some? {
        ElseTouches(st, s, end);
      }
    }
  }

  lemma {:induction false} ElseTouches(st: State, s: Source.Smt, end: nat)
    requires Ready(st, s) && s.If? && s.cond.Some? && s.elses.Some? && end < |st.blocks| && end != st.cur
    ensures var (s1, ifFalse) := Test(st, s, st.cur, end);
      var r := LowerBranch(SetBlock(s1, ifFalse), s.elses.value, Some(ifFalse), end);
      Touches(st, st.cur, r) && r.slots.Keys == st.slots.Keys + Dcls(s)
    decreases s, 1
  {
    TestTouches(st, s, st.cur, end);
    var (s1, ifFalse) := Test(st, s, st.cur, end);
    var s2 := SetBlock(s1, ifFalse);
    BranchTouches(s2, s.elses.value, Some(ifFalse), end);
    TouchesTransitive(st, st.cur, s2, ifFalse, LowerBranch(s2, s.elses.value, Some(ifFalse), end));
  }

  lemma {:induction false} LastTouches(st: State, s: Source.Smt, at: Option<nat>, end: nat)
    requires Ready(st, s) && s.If? && s.cond.None? && end < |st.blocks|
    requires at.Some? ==> at.value == st.cur
    ensures var r := LowerBranch(st, s, at, end);
      && Touches(st, st.cur, r)
      && (r.cur == end || r.cur == st.cur || r.cur >= |st.blocks|)
      && r.slots.Keys == st.slots.Keys + Dcls(s)
    decreases s, 0
  {
    BlockAtTouches(st, s.body, st.cur);
    var (s1, out) := BlockAt(st, s.body, st.cur);
    if !Terminated(s1.blocks[out]) {
      JoinTouches(s1, out, end);
      TouchesTransitive(st, st.cur, s1, out, Join(s1, out, end));
    }
  }

  /** The branch of an if with its body compiled, and not yet its test. */
  function Guarded(st: State, s: Source.Smt, end: nat): (r: State)
    requires Ok(st) && s.If? && end < |st.blocks|
    ensures Ok(r)
  {
    var (s3, out) := BlockAt(Opened(st, s), s.body, |st.blocks|);
    Join(s3, out, end)
  }

  lemma {:induction false} BodyTouches(st: State, s: Source.Smt, end: nat)
    requires Ready(st, s) && s.If? && end < |st.blocks|
    ensures var r := Guarded(st, s, end);
      Touches(st, st.cur, r) && r.cur == st.cur && r.slots.Keys == st.slots.Keys + Dcls(s.body)
    decreases s.body, 5
  {
    OpenedTouches(st, s, st.cur);
    var s2 := Opened(st, s);
    BlockAtTouches(s2, s.body, |st.blocks|);
    var (s3, out) := BlockAt(s2, s.body, |st.blocks|);
    TouchesTransitive(st, st.cur, s2, |st.blocks|, s3);
    JoinTouches(s3, out, end);
    var s4 := Join(s3, out, end);
    TouchesTransitive(st, st.cur, s3, out, s4);
  }

  lemma {:induction false} TestTouches(st: State, s: Source.Smt, parent: nat, end: nat)
    requires Ready(st, s) && s.If? && s.cond.Some?
    requires parent == st.cur && end < |st.blocks| && end != st.cur
    ensures var (r, ifFalse) := Test(st, s, parent, end);
      && Touches(st, st.cur, r) && r.cur == st.cur
      && (if s.elses.Some? then ifFalse >= |st.blocks| else ifFalse == end)
      && r.slots.Keys == st.slots.Keys + Dcls(s.body)
    decreases s, 0
  {
    BodyTouches(st, s, end);
    var s4 := Guarded(st, s, end);
    var ifFalse := if s.elses.Some? then |st.blocks| + 1 else end;
    ConditionTouches(s4, s.cond.value, |st.blocks|, ifFalse);
    TouchesTransitive(st, st.cur, s4, st.cur, Test(st, s, parent, end).0);
  }

  lemma OpenedTouches(st: State, s: Source.Smt, b: nat)
    requires SlotsBelow(st) && s.If?
    ensures Touches(st, b, Opened(st, s))
  {
    AppendTouches(st, b);
    AppendTouches(Append(st), b);
    TouchesTransitive(st, b, Append(st), b, Append(Append(st)));
  }

  /** A condition and the branch on it, appended to the current block. */
  lemma ConditionTouches(st: State, cond: Source.Exp, ifTrue: nat, ifFalse: nat)
    requires Ok(st) && SlotsBelow(st)
    ensures var (s1, c) := LowerExp(st, cond);
      var s2 := Emit(s1, CondBr(c, ifTrue, ifFalse));
      Touches(st, st.cur, s2) && s2.slots == st.slots
  {
    ExpTouches(st, cond);
    var (s1, c) := LowerExp(st, cond);
    EmitTouches(s1, CondBr(c, ifTrue, ifFalse));
    TouchesTransitive(st, st.cur, s1, st.cur, Emit(s1, CondBr(c, ifTrue, ifFalse)));
  }

  lemma {:induction false} EntryTouches(st: State, s: Source.Smt)
    requires Ready(st, s) && s.For?
    ensures var (r, header, out, exit) := Entry(st, s);
      && Touches(st, st.cur, r)
      && |st.blocks| <= header && |st.blocks| <= out && |st.blocks| <= exit
      && r.slots.Keys == st.slots.Keys + {s.index.dcl} + Dcls(s.loop)
    decreases s, 0
  {
    VariableTouches(st, s.index);
    var s1 := LowerVariable(st, s.index);
    AppendTouches(s1, st.cur);
    TouchesTransitive(st, st.cur, s1, st.cur, Append(s1));
    BlockAtTouches(Append(s1), s.loop, |s1.blocks|);
    var (s2, out) := BlockAt(Append(s1), s.loop, |s1.blocks|);
    TouchesTransitive(st, st.cur, Append(s1), |s1.blocks|, s2);
    ExpTouches(s2, s.test);
    var (s3, first) := LowerExp(s2, s.test);
    TouchesTransitive(st, st.cur, s2, st.cur, s3);
    AppendTouches(s3, st.cur);
    TouchesTransitive(st, st.cur, s3, st.cur, Append(s3));
    EmitTouches(Append(s3), CondBr(first, |s1.blocks|, |s3.blocks|));
    TouchesTransitive(st, st.cur, Append(s3), st.cur, Entry(st, s).0);
  }

  lemma {:induction false} LoopExtends(st: State, s: Source.Smt)
    requires Ready(st, s) && s.For?
    ensures Extends(st, LowerLoop(st, s), Dcls(s))
    decreases s, 2
  {
    hide LowerExp, LowerVariable;
    EntryTouches(st, s);
    var (s1, header, out, exit) := Entry(st, s);
    SmtExtends(SetBlock(s1, out), s.inc);
    var s2 := LowerSmt(SetBlock(s1, out), s.inc);
    TouchesTransitive(st, st.cur, SetBlock(s1, out), out, s2);
    ConditionTouches(s2, s.test, header, exit);
    var (s3, again) := LowerExp(s2, s.test);
    TouchesTransitive(st, st.cur, s2, s2.cur, Emit(s3, CondBr(again, header, exit)));
  }
}
