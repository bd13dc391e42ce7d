/** Where the pieces of an if and of a loop sit in the blocks, and that each piece
    stays part of the finished function. */
module Layout {
  import opened Wrappers
  import opened Ints
  import opened Ir
  import opened Source
  import opened Lowering
  import opened Growth

  predicate Open(st: State)
    requires Ok(st)
  {
    !Terminated(st.blocks[st.cur])
  }

  /** The joined body of an if. */
  function Joined(inner: State, end: nat): State
    requires Ok(inner)
  {
    if Open(inner) then Emit(inner, Br(end)) else inner
  }

  /** The pieces of a test's code and where they sit: first the body, ... */
  lemma BodyShape(st: State, s: Source.Smt, end: nat)
    requires Ready(st, s) && s.If? && s.cond.Some?
    requires end < |st.blocks| && end != st.cur && st.blocks[end] == []
    ensures var s2 := SetBlock(Opened(st, s), |st.blocks|);
      var joined := Joined(LowerSmt(s2, s.body), end);
      && Ready(s2, s.body) && s2.slots == st.slots && s2.blocks[s2.cur] == [] && s2.blocks[end] == []
      && Touches(s2, s2.cur, joined) && Touches(st, st.cur, joined) && joined.blocks[st.cur] == st.blocks[st.cur]
  {
    hide LowerSmt;
    var s2 := SetBlock(Opened(st, s), |st.blocks|);
    OpenedTouches(st, s, st.cur);
    var inner := LowerSmt(s2, s.body);
    SmtExtends(s2, s.body);
    EmitTouches(inner, Br(end));
    if Open(inner) {
      TouchesTransitive(s2, s2.cur, inner, inner.cur, Joined(inner, end));
    }
    TouchesTransitive(st, st.cur, s2, s2.cur, Joined(inner, end));
  }

  /** ... then the condition, back in the block that was current. */
  lemma TestShape(st: State, s: Source.Smt, end: nat)
    requires Ready(st, s) && s.If? && s.cond.Some?
    requires end < |st.blocks| && end != st.cur && st.blocks[end] == []
    ensures var s4 := SetBlock(Joined(LowerSmt(SetBlock(Opened(st, s), |st.blocks|), s.body), end), st.cur);
      var (r, ifFalse) := Test(st, s, st.cur, end);
      && SlotsBelow(s4) && Later(st, s4) && s4.blocks[st.cur] == st.blocks[st.cur]
      && r == Emit(LowerExp(s4, s.cond.value).0, CondBr(LowerExp(s4, s.cond.value).1, |st.blocks|, ifFalse))
      && Touches(s4, st.cur, r) && r.blocks[end] == [] && r.blocks[ifFalse] == []
      && (if s.elses.Some? then ifFalse == |st.blocks| + 1 else ifFalse == end)
  {
    BodyShape(st, s, end);
    var s4 := SetBlock(Joined(LowerSmt(SetBlock(Opened(st, s), |st.blocks|), s.body), end), st.cur);
    ConditionTouches(s4, s.cond.value, |st.blocks|, Test(st, s, st.cur, end).1);
  }

  lemma TestLater(st: State, s: Source.Smt, at: Option<nat>, end: nat, fin: State)
    requires Ready(st, s) && s.If? && s.cond.Some? && end < |st.blocks| && end != st.cur
    requires at.Some? ==> at.value == st.cur
    requires Later(LowerBranch(st, s, at, end), fin)
    ensures var (r, ifFalse) := Test(st, s, st.cur, end);
      && Later(r, fin)
      && (s.elses.Some? ==>
           Ready(SetBlock(r, ifFalse), s.elses.value) &&
           Later(LowerBranch(SetBlock(r, ifFalse), s.elses.value, Some(ifFalse), end), fin))
  {
    TestTouches(st, s, st.cur, end);
    var (r, ifFalse) := Test(st, s, st.cur, end);
    if s.elses.Some? {
      var s2 := SetBlock(r, ifFalse);
      BranchTouches(s2, s.elses.value, Some(ifFalse), end);
      LaterTransitive(s2, LowerBranch(s2, s.elses.value, Some(ifFalse), end), fin);
    }
  }

  lemma ThenLater(st: State, s: Source.Smt, at: Option<nat>, end: nat, fin: State)
    requires Ready(st, s) && s.If? && s.cond.Some?
    requires end < |st.blocks| && end != st.cur && st.blocks[end] == [] && (at.Some? ==> at.value == st.cur)
    requires Later(LowerBranch(st, s, at, end), fin)
    ensures var joined := Joined(LowerSmt(SetBlock(Opened(st, s), |st.blocks|), s.body), end);
      && Later(joined, fin) && LaterSlots(joined, LowerBranch(st, s, at, end))
  {
    TestShape(st, s, end);
    TestLater(st, s, at, end, LowerBranch(st, s, at, end));
    var joined := Joined(LowerSmt(SetBlock(Opened(st, s), |st.blocks|), s.body), end);
    var (r, ifFalse) := Test(st, s, st.cur, end);
    LaterTransitive(SetBlock(joined, st.cur), r, LowerBranch(st, s, at, end));
    LaterTransitive(SetBlock(joined, st.cur), LowerBranch(st, s, at, end), fin);
  }

  // ---------- loops ----------

  /** The states in which the body, the increment and the two tests are compiled. */
  function BodyStart(st: State, s: Source.Smt): State
    requires Ok(st) && s.For?
  {
    SetBlock(Append(LowerVariable(st, s.index)), |st.blocks|)
  }

  function BodyEnd(st: State, s: Source.Smt): (r: State)
    requires Ok(st) && s.For?
    ensures Ok(r)
  {
    LowerSmt(BodyStart(st, s), s.loop)
  }

  function FirstTest(st: State, s: Source.Smt): (r: State)
    requires Ok(st) && s.For?
  {
    SetBlock(BodyEnd(st, s), st.cur)
  }

  function IncStart(st: State, s: Source.Smt): State
    requires Ok(st) && s.For?
  {
    SetBlock(Entry(st, s).0, Entry(st, s).2)
  }

  function IncEnd(st: State, s: Source.Smt): (r: State)
    requires Ok(st) && s.For?
    ensures Ok(r)
  {
    LowerSmt(IncStart(st, s), s.inc)
  }

  /** `LowerLoop` is made of these pieces. */
  lemma LoopPieces(st: State, s: Source.Smt)
    requires Ok(st) && s.For?
    ensures Entry(st, s).1 == |st.blocks| && Entry(st, s).2 == BodyEnd(st, s).cur
    ensures st.cur < |BodyEnd(st, s).blocks| && Entry(st, s).3 == |BodyEnd(st, s).blocks|
    ensures var (s3, o) := LowerExp(FirstTest(st, s), s.test);
      Entry(st, s).0 == Emit(Append(s3), CondBr(o, |st.blocks|, |s3.blocks|))
    ensures var (s4, o) := LowerExp(IncEnd(st, s), s.test);
      LowerLoop(st, s) == SetBlock(Emit(s4, CondBr(o, |st.blocks|, Entry(st, s).3)), Entry(st, s).3)
  {
  }

  lemma BodyPlace(st: State, s: Source.Smt)
    requires Ready(st, s) && s.For?
    ensures var b := BodyStart(st, s);
      && Ready(b, s.loop) && b.blocks[b.cur] == [] && Touches(b, b.cur, BodyEnd(st, s))
      && BodyEnd(st, s).cur >= |st.blocks|
    ensures var s1 := LowerVariable(st, s.index);
      && Touches(st, st.cur, s1) && BodyStart(st, s).slots == s1.slots && s1.cur == st.cur
      && Touches(s1, |st.blocks|, FirstTest(st, s)) && FirstTest(st, s).blocks[st.cur] == s1.blocks[st.cur]
  {
    var s1 := LowerVariable(st, s.index);
    VariableTouches(st, s.index);
    AppendTouches(s1, |st.blocks|);
    var b := BodyStart(st, s);
    SmtExtends(b, s.loop);
    TouchesTransitive(s1, |st.blocks|, Append(s1), |st.blocks|, FirstTest(st, s));
  }

  lemma EntryPlace(st: State, s: Source.Smt)
    requires Ready(st, s) && s.For?
    ensures var e := Entry(st, s).0;
      var (s3, o) := LowerExp(FirstTest(st, s), s.test);
      && Touches(FirstTest(st, s), st.cur, e)
      && Later(Emit(s3, CondBr(o, |st.blocks|, |BodyEnd(st, s).blocks|)), e)
      && IncStart(st, s).blocks[IncStart(st, s).cur] == BodyEnd(st, s).blocks[BodyEnd(st, s).cur]
      && e.blocks[Entry(st, s).3] == [] && e.slots == BodyEnd(st, s).slots
      && Ready(IncStart(st, s), s.inc)
  {
    hide LowerSmt, LowerExp, LowerLoop;
    LoopPieces(st, s);
    BodyPlace(st, s);
    EntryTouches(st, s);
    var f := FirstTest(st, s);
    ExpTouches(f, s.test);
    var (s3, o) := LowerExp(f, s.test);
    AppendTouches(s3, st.cur);
    EmitTouches(Append(s3), CondBr(o, |st.blocks|, |s3.blocks|));
    TouchesTransitive(f, st.cur, s3, st.cur, Append(s3));
    TouchesTransitive(f, st.cur, Append(s3), st.cur, Entry(st, s).0);
  }

  lemma ExitPlace(st: State, s: Source.Smt)
    requires Ready(st, s) && s.For?
    ensures var r := LowerLoop(st, s);
      && r.blocks[r.cur] == [] && r.cur == Entry(st, s).3
      && Touches(IncStart(st, s), IncStart(st, s).cur, r)
      && Later(IncEnd(st, s), r)
  {
    LoopPieces(st, s);
    EntryPlace(st, s);
    SmtExtends(IncStart(st, s), s.inc);
    var i := IncEnd(st, s);
    ConditionTouches(i, s.test, |st.blocks|, Entry(st, s).3);
    TouchesTransitive(IncStart(st, s), IncStart(st, s).cur, i, i.cur, LowerLoop(st, s));
  }

  /** Every piece is part of the finished graph. */
  lemma LoopLater(st: State, s: Source.Smt, fin: State)
    requires Ready(st, s) && s.For? && Later(LowerLoop(st, s), fin)
    ensures Later(LowerVariable(st, s.index), fin) && Later(BodyEnd(st, s), fin) && Later(IncEnd(st, s), fin)
    ensures var (s3, o) := LowerExp(FirstTest(st, s), s.test);
      Later(Emit(s3, CondBr(o, |st.blocks|, |BodyEnd(st, s).blocks|)), fin)
  {
    BodyPlace(st, s);
    EntryPlace(st, s);
    ExitPlace(st, s);
    LaterTransitive(IncEnd(st, s), LowerLoop(st, s), fin);
    LaterTransitive(IncStart(st, s), LowerLoop(st, s), fin);
    LaterTransitive(FirstTest(st, s), IncStart(st, s), fin);
    LaterTransitive(LowerVariable(st, s.index), FirstTest(st, s), fin);
    var (s3, o) := LowerExp(FirstTest(st, s), s.test);
    LaterTransitive(Emit(s3, CondBr(o, |st.blocks|, |BodyEnd(st, s).blocks|)), IncStart(st, s), fin);
  }

  lemma BottomPlace(st: State, s: Source.Smt, fin: State)
    requires Ready(st, s) && s.For? && Later(LowerLoop(st, s), fin)
    ensures var (r, o) := LowerExp(IncEnd(st, s), s.test);
      && Later(Emit(r, CondBr(o, |st.blocks|, |BodyEnd(st, s).blocks|)), fin)
      && IncEnd(st, s).sigs == st.sigs
  {
    LoopPieces(st, s);
    LoopLater(st, s, fin);
    LoopExtends(st, s);
  }

  lemma IncPlace(st: State, s: Source.Smt, fin: State)
    requires Ready(st, s) && s.For? && Later(LowerLoop(st, s), fin)
    ensures Ready(IncStart(st, s), s.inc) && IncStart(st, s).sigs == st.sigs && Later(IncEnd(st, s), fin)
  {
    LoopLater(st, s, fin);
    EntryPlace(st, s);
    EntryTouches(st, s);
  }
}

/** The entry block. */
module Parameters {
  import opened Wrappers
  import opened Ints
  import opened Ir
  import opened Source
  import opened Lowering
  import opened Growth

  lemma ParamGrows(st: State, p: Parameter, i: nat)
    requires Ok(st) && SlotsBelow(st) && p.dcl !in st.slots
    ensures Touches(st, st.cur, LowerParam(st, p, i)) && LowerParam(st, p, i).slots.Keys == st.slots.Keys + {p.dcl}
  {
    var s1 := Define(st, Alloca(st.next, p.ty));
    var s2 := Emit(s1, Store(Param(p.ty, i), st.next));
    EmitTouches(st, Alloca(st.next, p.ty));
    EmitTouches(s1, Store(Param(p.ty, i), st.next));
    TouchesTransitive(st, st.cur, s1, st.cur, s2);
    SlotAdded(st, st, s2, p.dcl, p.ty);
  }

  lemma {:induction false} ParamNames(params: seq<Parameter>)
    ensures forall d :: d in ParamEnv(params) ==> exists i :: 0 <= i < |params| && params[i].dcl == d
  {
    if params != [] {
      ParamNames(params[..|params| - 1]);
    }
  }

  ghost predicate Distinct(params: seq<Parameter>) {
    forall i, j :: 0 <= i < j < |params| ==> params[i].dcl != params[j].dcl
  }

  lemma LastIsNew(params: seq<Parameter>)
    requires Distinct(params) && params != []
    ensures params[|params| - 1].dcl !in ParamEnv(params[..|params| - 1]) && Distinct(params[..|params| - 1])
  {
    ParamNames(params[..|params| - 1]);
  }

  lemma {:induction false} ParamsTouch(params: seq<Parameter>, sigs: seq<Signature>, ret: Width)
    requires Distinct(params)
    ensures var r := LowerParams(params, sigs, ret);
      && SlotsBelow(r) && r.slots.Keys == ParamEnv(params).Keys && r.sigs == sigs && r.ret == ret
      && !Terminated(r.blocks[0])
  {
    if params != [] {
      var i := |params| - 1;
      LastIsNew(params);
      ParamsTouch(params[..i], sigs, ret);
      ParamGrows(LowerParams(params[..i], sigs, ret), params[i], i);
    }
  }
}
