/** The pools of nodes over a parse: each is made with 128 slots, and when that is enough. */
module NodeRoom {
  import opened Wrappers
  import opened Tokens
  import opened Pratt
  import opened Statements
  import opened Files
  import opened Nodes
  import opened NodeSizes
  import opened NodePools

  const SLOTS := 128

  // ---------- the three pools ----------

  /** The calls on the pool of expressions. */
  function OnExps(log: seq<Call>): seq<Event>
    decreases |log|
  {
    if log == [] then []
    else
      var rest := OnExps(log[1..]);
      match log[0]
      case NewExp => [Take] + rest
      case OldExp(age) => [Back(age)] + rest
      case _ => rest
  }

  function Count(log: seq<Call>, c: Call): nat
    decreases |log|
  {
    if log == [] then 0 else (if log[0] == c then 1 else 0) + Count(log[1..], c)
  }

  /** The calls on the other two: nothing comes back there. */
  function Takes(n: nat): (r: seq<Event>)
    ensures |r| == n
  {
    seq(n, _ => Take)
  }

  /** Wherever they are made, the pools need no more memory and never hand out a node that
      is in use. */
  ghost predicate Held(log: seq<Call>) {
    forall base: int ::
      && Serves(base, SLOTS, OnExps(log)) && Serves(base, SLOTS, Takes(Count(log, NewSmt)))
      && Serves(base, SLOTS, Takes(Count(log, NewDcl)))
  }

  /** The same, counted: at most 128 statements and 128 declarations, and room for the
      expressions. */
  predicate Fits(log: seq<Call>) {
    Roomy(SLOTS, 0, false, OnExps(log)) && Count(log, NewSmt) <= SLOTS && Count(log, NewDcl) <= SLOTS
  }

  /** As the parser does it: what comes back is one of the last two expressions. */
  predicate Proper(log: seq<Call>) { Shaped(OnExps(log), 0) }

  lemma {:induction false} TakesRoomy(count: nat, live: nat, n: nat)
    requires live <= count
    ensures Roomy(count, live, false, Takes(n)) <==> live + n <= count
    decreases n
  {
    if n > 0 {
      assert Takes(n)[1..] == Takes(n - 1);
      if live < count {
        TakesRoomy(count, live + 1, n - 1);
      }
    }
  }

  lemma {:induction false} TakesShaped(n: nat, since: nat)
    ensures Shaped(Takes(n), since)
    decreases n
  {
    if n > 0 {
      assert Takes(n)[1..] == Takes(n - 1);
      TakesShaped(n - 1, since + 1);
    }
  }

  /** The count decides whether the pools hold. */
  lemma HeldExactly(log: seq<Call>)
    requires Proper(log)
    ensures Held(log) <==> Fits(log)
  {
    hide Serves, Roomy, Shaped;
    forall n: nat ensures Shaped(Takes(n), 0) && (Roomy(SLOTS, 0, false, Takes(n)) <==> n <= SLOTS) {
      TakesShaped(n, 0);
      TakesRoomy(SLOTS, 0, n);
    }
    forall base: int
      ensures Serves(base, SLOTS, OnExps(log)) <==> Roomy(SLOTS, 0, false, OnExps(log))
      ensures Serves(base, SLOTS, Takes(Count(log, NewSmt))) <==> Count(log, NewSmt) <= SLOTS
      ensures Serves(base, SLOTS, Takes(Count(log, NewDcl))) <==> Count(log, NewDcl) <= SLOTS
    {
      ServesExactly(base, SLOTS, OnExps(log));
      ServesExactly(base, SLOTS, Takes(Count(log, NewSmt)));
      ServesExactly(base, SLOTS, Takes(Count(log, NewDcl)));
    }
    if Held(log) {
      assert Serves(0, SLOTS, OnExps(log)) && Serves(0, SLOTS, Takes(Count(log, NewSmt))) && Serves(0, SLOTS, Takes(Count(log, NewDcl)));
    }
  }

  // ---------- every parse is proper ----------

  lemma {:induction false} OnExpsJoin(a: seq<Call>, b: seq<Call>)
    ensures OnExps(a + b) == OnExps(a) + OnExps(b)
    decreases |a|
  {
    if a == [] {
      assert a + b == b;
    } else {
      assert (a + b)[1..] == a[1..] + b;
      OnExpsJoin(a[1..], b);
    }
  }

  lemma {:induction false} OnExpsOnly(n: nat)
    ensures OnExps(Exps(n)) == Takes(n)
    decreases n
  {
    if n > 0 {
      assert Exps(n)[1..] == Exps(n - 1);
      OnExpsOnly(n - 1);
      assert [Take] + Takes(n - 1) == Takes(n);
    }
  }

  lemma {:induction false} ShapedMore(events: seq<Event>, a: nat, b: nat)
    requires Shaped(events, a) && a <= b
    ensures Shaped(events, b)
    decreases |events|
  {
    if events != [] && events[0].Take? {
      ShapedMore(events[1..], a + 1, b + 1);
    }
  }

  lemma {:induction false} ShapedJoin(a: seq<Event>, b: seq<Event>, since: nat)
    requires Shaped(a, since) && Shaped(b, 0)
    ensures Shaped(a + b, since)
    decreases |a|
  {
    if a == [] {
      assert a + b == b;
      ShapedMore(b, 0, since);
    } else {
      assert (a + b)[1..] == a[1..] + b;
      ShapedJoin(a[1..], b, if a[0].Take? then since + 1 else 0);
    }
  }

  lemma ProperJoin(a: seq<Call>, b: seq<Call>)
    requires Proper(a) && Proper(b)
    ensures Proper(a + b)
  {
    OnExpsJoin(a, b);
    ShapedJoin(OnExps(a), OnExps(b), 0);
  }

  lemma ProperExps(n: nat)
    ensures Proper(Exps(n))
  {
    OnExpsOnly(n);
    TakesShaped(n, 0);
  }

  /** Calls without a return. */
  lemma {:induction false} ProperNew(log: seq<Call>)
    requires forall c :: c in log ==> !c.OldExp?
    ensures Proper(log)
    decreases |log|
  {
    hide Shaped;
    if log == [] {
      TakesShaped(0, 0);
      assert Takes(0) == [];
    } else {
      ProperNew(log[1..]);
      forall c | c in log[1..] ensures c in log { }
      ProperOne(log[0]);
      assert log == [log[0]] + log[1..];
      ProperJoin([log[0]], log[1..]);
    }
  }

  lemma ProperOne(c: Call)
    requires !c.OldExp?
    ensures Proper([c])
  {
    assert [c][1..] == [];
    assert [Take][1..] == [];
  }

  lemma {:induction false} ShapedTakes(n: nat, rest: seq<Event>, since: nat)
    requires Shaped(rest, since + n)
    ensures Shaped(Takes(n) + rest, since)
    decreases n
  {
    if n == 0 {
      assert Takes(0) + rest == rest;
    } else {
      var all := Takes(n) + rest;
      assert all[0] == Take && all[1..] == Takes(n - 1) + rest;
      ShapedTakes(n - 1, rest, since + 1);
      assert Shaped(all[1..], since + 1);
    }
  }

  lemma ConvertedShaped(e: Exp)
    ensures Shaped(OnExps(ConvertedLog(e)), if e.Binary? then 2 else 0)
  {
    assert OnExps([OldExp(1)]) == [Back(1)] + OnExps([]);
    assert [NewSmt, OldExp(1)][1..] == [OldExp(1)] && [NewDcl, NewSmt, OldExp(1)][1..] == [NewSmt, OldExp(1)];
    assert [NewSmt, NewExp, OldExp(2)][1..] == [NewExp, OldExp(2)] && [NewExp, OldExp(2)][1..] == [OldExp(2)];
    assert OnExps([OldExp(2)]) == [Back(2)] + OnExps([]);
    assert OnExps([NewExp, OldExp(2)]) == [Take] + ([Back(2)] + []);
    assert Shaped([Back(1)], 2) && Shaped([Back(2)], 3);
    assert ([Take] + [Back(2)])[1..] == [Back(2)];
  }

  /** The binary node of an assignment comes back after two nodes at least. */
  lemma ProperConverted(n: nat, e: Exp)
    requires e.Binary? ==> n >= 2
    ensures Proper(Exps(n) + ConvertedLog(e))
  {
    hide Shaped, ConvertedLog;
    OnExpsJoin(Exps(n), ConvertedLog(e));
    OnExpsOnly(n);
    ConvertedShaped(e);
    ShapedMore(OnExps(ConvertedLog(e)), if e.Binary? then 2 else 0, n);
    ShapedTakes(n, OnExps(ConvertedLog(e)), 0);
  }

  // ---------- the logs of the parser ----------

  lemma ProperType(ts: seq<Token>, st: State)
    ensures Proper(TypeLog(ts, st))
  {
    hide Proper;
    ProperNew(TypeLog(ts, st));
  }

  lemma ProperValue(ts: seq<Token>, st: State, op: TokenType)
    ensures Proper(ValueLog(ts, st, op))
  {
    hide Proper, ParseExp;
    ProperNew(ValueLog(ts, st, op));
  }

  lemma ProperVariable(ts: seq<Token>, st: State)
    ensures Proper(VariableLog(ts, st))
  {
    hide Proper, ParseType, TypeLog, ValueLog;
    ProperNew([]);
    if st.pos < |ts| && ts[st.pos].ty.Var? {
      var st1 := st.(pos := st.pos + 1);
      var t := ParseType(ts, st1);
      ProperType(ts, st1);
      if t.DidType? {
        ProperValue(ts, t.st.(pos := t.st.pos + 1), Assign);
      }
      ProperJoin(TypeLog(ts, st1), TypedLog(ts, t));
    } else {
      ProperValue(ts, st.(pos := st.pos + 1), Define);
    }
  }

  lemma {:induction false} ProperKnown(ts: seq<Token>, st: State)
    requires st.scope != [] && st.pos < |ts|
    ensures Proper(KnownLog(ts, st))
    decreases |ts| - st.pos, 2
  {
    hide Proper, VariableLog, ForLog, IfLog, BlockLog;
    var t := ts[st.pos].ty;
    if t.LBrace? {
      ProperBlock(ts, st);
    } else if t.If? {
      ProperIf(ts, st);
    } else if t.For? {
      ProperFor(ts, st);
    } else if t.Var? {
      ProperVariable(ts, st);
      ProperNew([NewSmt]);
      ProperJoin(VariableLog(ts, st), [NewSmt]);
    } else {
      ProperNew(KnownLog(ts, st));
    }
  }

  lemma {:induction false} ProperStatement(ts: seq<Token>, st: State)
    requires st.scope != []
    ensures Proper(StatementLog(ts, st))
    decreases |ts| - st.pos, 3
  {
    hide Proper, KnownLog, ConvertedLog, ParseKnown;
    if st.pos >= |ts| {
      ProperNew([]);
    } else {
      ProperKnown(ts, st);
      var e := ParseExp(ts, st.pos, 0, st.errors);
      ProperOther(ts, st, e);
      ProperJoin(KnownLog(ts, st), ExpLog(ts, st.pos, st.errors) + if e.Fault? then [] else ConvertedLog(e.node));
    }
  }

  lemma ProperOther(ts: seq<Token>, st: State, e: Parsed)
    requires e == ParseExp(ts, st.pos, 0, st.errors)
    ensures Proper(ExpLog(ts, st.pos, st.errors) + if e.Fault? then [] else ConvertedLog(e.node))
  {
    hide Proper, ConvertedLog;
    var n := ExpNodes(ts, st.pos, 0, st.errors);
    if e.Fault? {
      ProperExps(n);
      assert Exps(n) + [] == Exps(n);
    } else {
      if e.node.Binary? { BinaryNodes(ts, st.pos, 0, st.errors); }
      ProperConverted(n, e.node);
    }
  }

  lemma {:induction false} ProperIf(ts: seq<Token>, st: State)
    requires st.scope != [] && st.pos < |ts|
    ensures Proper(IfLog(ts, st))
    decreases |ts| - st.pos, 1
  {
    hide Proper, CondLog;
    ProperCond(ts, st.(pos := st.pos + 1));
    ProperNew([NewSmt]);
    ProperJoin(CondLog(ts, st.(pos := st.pos + 1)), [NewSmt]);
  }

  lemma {:induction false} ProperCond(ts: seq<Token>, st: State)
    requires st.scope != []
    ensures Proper(CondLog(ts, st))
    decreases |ts| - st.pos, 1
  {
    hide Proper, BodyLog;
    var c := ParseExp(ts, st.pos, 0, st.errors);
    ProperExps(ExpNodes(ts, st.pos, 0, st.errors));
    if c.Fault? {
      assert CondLog(ts, st) == ExpLog(ts, st.pos, st.errors);
    } else {
      var st1 := st.(pos := c.pos, errors := c.errors);
      ProperBody(ts, st1);
      ProperJoin(ExpLog(ts, st.pos, st.errors), BodyLog(ts, st1));
    }
  }

  lemma {:induction false} ProperBody(ts: seq<Token>, st: State)
    requires st.scope != []
    ensures Proper(BodyLog(ts, st))
    decreases |ts| - st.pos, 6
  {
    hide Proper, BlockLog, ElseLog;
    var b := ParseBlock(ts, st);
    ProperBlock(ts, st);
    if b.Crash? {
      assert BodyLog(ts, st) == BlockLog(ts, st);
    } else {
      ProperElse(ts, b.st);
      ProperJoin(BlockLog(ts, st), ElseLog(ts, b.st));
    }
  }

  lemma {:induction false} ProperElse(ts: seq<Token>, st: State)
    requires st.scope != []
    ensures Proper(ElseLog(ts, st))
    decreases |ts| - st.pos, 1
  {
    hide Proper, StatementLog;
    ProperNew([]);
    ProperNew([NewSmt]);
    if st.pos < |ts| && ts[st.pos].ty.Else? {
      var st1 := st.(pos := st.pos + 1);
      ProperStatement(ts, st1);
      ProperJoin(StatementLog(ts, st1), []);
      ProperJoin(StatementLog(ts, st1), [NewSmt]);
    }
  }

  lemma {:induction false} ProperFor(ts: seq<Token>, st: State)
    requires st.scope != [] && st.pos < |ts|
    ensures Proper(ForLog(ts, st))
    decreases |ts| - st.pos, 1
  {
    hide Proper, VariableLog, TestLog, ParseVariable;
    var st0 := st.(pos := st.pos + 1);
    var v := ParseVariable(ts, st0);
    ProperVariable(ts, st0);
    if v.VarCrash? || v.st.pos >= |ts| {
      assert ForLog(ts, st) == VariableLog(ts, st0);
    } else {
      ProperTest(ts, ExpectSemi(ts, v.st));
      ProperJoin(VariableLog(ts, st0), TestLog(ts, ExpectSemi(ts, v.st)));
    }
  }

  lemma {:induction false} ProperTest(ts: seq<Token>, st: State)
    requires st.scope != []
    ensures Proper(TestLog(ts, st))
    decreases |ts| - st.pos, 1
  {
    hide Proper, RoundsLog;
    var c := ParseExp(ts, st.pos, 0, st.errors);
    ProperExps(ExpNodes(ts, st.pos, 0, st.errors));
    if c.Fault? || c.pos >= |ts| {
      assert TestLog(ts, st) == ExpLog(ts, st.pos, st.errors);
    } else {
      var st1 := ExpectSemi(ts, st.(pos := c.pos, errors := c.errors));
      ProperRounds(ts, st1);
      ProperJoin(ExpLog(ts, st.pos, st.errors), RoundsLog(ts, st1));
    }
  }

  lemma {:induction false} ProperRounds(ts: seq<Token>, st: State)
    requires st.scope != []
    ensures Proper(RoundsLog(ts, st))
    decreases |ts| - st.pos, 6
  {
    hide Proper, StatementLog, BlockLog;
    var inc := ParseStatement(ts, st);
    ProperStatement(ts, st);
    if inc.Crash? {
      assert RoundsLog(ts, st) == StatementLog(ts, st);
    } else {
      ProperBlock(ts, inc.st);
      ProperNew([NewSmt]);
      ProperJoin(BlockLog(ts, inc.st), [NewSmt]);
      ProperJoin(StatementLog(ts, st), BlockLog(ts, inc.st) + [NewSmt]);
    }
  }

  lemma {:induction false} ProperBlock(ts: seq<Token>, st: State)
    requires st.scope != []
    ensures Proper(BlockLog(ts, st))
    decreases |ts| - st.pos, if st.pos < |ts| && ts[st.pos].ty.LBrace? then 1 else 5
  {
    hide Proper, ListLog;
    if st.pos >= |ts| {
      ProperNew([]);
    } else {
      var (p, es) := Expect(ts, st.pos, LBrace, st.errors);
      var inner := State(p, es, [map[]] + st.scope, st.next);
      ProperList(ts, inner);
      ProperNew([NewSmt]);
      ProperJoin(ListLog(ts, inner), [NewSmt]);
    }
  }

  lemma {:induction false} ProperList(ts: seq<Token>, st: State)
    requires st.scope != []
    ensures Proper(ListLog(ts, st))
    decreases |ts| - st.pos, 4
  {
    hide Proper, StatementLog, ParseStatement;
    if st.pos >= |ts| || ts[st.pos].ty.RBrace? {
      ProperNew([]);
    } else {
      var s := ParseStatement(ts, st);
      ProperStatement(ts, st);
      if s.Crash? || s.smt.Nothing? || s.st.pos >= |ts| {
        assert ListLog(ts, st) == StatementLog(ts, st);
      } else {
        var next := if ts[s.st.pos].ty.RBrace? then s.st else ExpectSemi(ts, s.st);
        ProperList(ts, next);
        ProperJoin(StatementLog(ts, st), ListLog(ts, next));
      }
    }
  }

  // ---------- files ----------

  lemma {:induction false} ProperParams(ts: seq<Token>, st: State, first: bool)
    ensures Proper(ParamsLog(ts, st, first))
    decreases |ts| - st.pos
  {
    hide Proper, ParseType, TypeLog;
    ProperNew([]);
    if st.pos < |ts| && !ts[st.pos].ty.Arrow? && !ts[st.pos].ty.LBrace? {
      var (p, es) := if first then (st.pos, st.errors) else Expect(ts, st.pos, Comma, st.errors);
      var st1 := st.(pos := p, errors := es);
      var t := ParseType(ts, st1);
      ProperType(ts, st1);
      ProperJoin(TypeLog(ts, st1), []);
      if t.DidType? && t.ty.Some? && t.st.pos < |ts| && ts[t.st.pos].ty.Ident? {
        var more := ParamsLog(ts, t.st.(pos := t.st.pos + 1), false);
        ProperParams(ts, t.st.(pos := t.st.pos + 1), false);
        ProperNew([NewDcl]);
        ProperJoin([NewDcl], more);
        ProperJoin(TypeLog(ts, st1), [NewDcl] + more);
      }
    }
  }

  lemma ProperRest(ts: seq<Token>, name: string, a: ArgsParse)
    requires a.DidArgs? ==> a.st.scope != [] && a.st.pos <= |ts|
    ensures Proper(RestLog(ts, name, a))
  {
    hide Proper, TypeLog, BlockLog, ParseType, InsertAll;
    ProperNew([]);
    if a.DidArgs? && a.args.Some? && a.st.pos < |ts| && ts[a.st.pos].ty.Arrow? {
      var st1 := a.st.(pos := a.st.pos + 1);
      var t := ParseType(ts, st1);
      ProperType(ts, st1);
      ProperJoin(TypeLog(ts, st1), []);
      if t.DidType? && t.ty.Some? {
        var inner := BoundAll(t.st, InOrder(a.args.value, name));
        ProperBlock(ts, inner);
        ProperNew([NewDcl]);
        ProperJoin([NewDcl], BlockLog(ts, inner));
        ProperJoin(TypeLog(ts, st1), [NewDcl] + BlockLog(ts, inner));
      }
    }
  }

  lemma ProperFunction(ts: seq<Token>, st: State)
    requires st.scope != []
    ensures Proper(FunctionLog(ts, st))
  {
    hide Proper, ParamsLog, RestLog, ParseParams;
    ProperNew([]);
    if st.pos + 2 < |ts| && ts[st.pos].ty.Proc? && ts[st.pos + 1].ty.Ident? {
      var (p, es) := Expect(ts, st.pos + 2, DoubleColon, st.errors);
      var st1 := st.(pos := p, errors := es);
      ProperParams(ts, st1, true);
      ProperRest(ts, ts[st.pos + 1].value, ParseParams(ts, st1, []));
      ProperJoin(ParamsLog(ts, st1, true), RestLog(ts, ts[st.pos + 1].value, ParseParams(ts, st1, [])));
    }
  }

  lemma {:induction false} ProperFile(ts: seq<Token>, st: State)
    requires st.scope != []
    ensures Proper(FileLog(ts, st))
    decreases |ts| - st.pos
  {
    hide Proper, FunctionLog, VariableLog, ParseTop;
    ProperNew([]);
    if st.pos < |ts| && StartsTop(ts[st.pos].ty) {
      ProperFunction(ts, st);
      ProperVariable(ts, st);
      ProperJoin(TopLog(ts, st), []);
      var d := ParseTop(ts, st);
      if d.DidTop? {
        ProperFile(ts, d.st);
        ProperJoin(TopLog(ts, st), FileLog(ts, d.st));
      }
    }
  }

  // ---------- little fits ----------

  lemma {:induction false} FewRoomy(count: nat, live: nat, given: bool, events: seq<Event>, since: nat)
    requires Shaped(events, since) && (if since > 2 then 2 else since) <= live && live + |events| < count
    ensures Roomy(count, live, given, events)
    decreases |events|
  {
    if events != [] {
      match events[0]
      case Take => FewRoomy(count, live + 1, given, events[1..], since + 1);
      case Back(_) => FewRoomy(count, live - 1, given || live < count, events[1..], 0);
    }
  }

  lemma {:induction false} Shorter(log: seq<Call>)
    ensures |OnExps(log)| <= |log| && Count(log, NewSmt) <= |log| && Count(log, NewDcl) <= |log|
    decreases |log|
  {
    if log != [] {
      Shorter(log[1..]);
    }
  }

  /** Fewer calls than slots fit in any case. */
  lemma FewFit(log: seq<Call>)
    requires Proper(log) && |log| < SLOTS
    ensures Fits(log)
  {
    Shorter(log);
    FewRoomy(SLOTS, 0, false, OnExps(log), 0);
  }

  // ---------- the theorems ----------

  /** Whatever the parser reads as a file: its pools hold if and only if the count says so. */
  lemma FileRoom(ts: seq<Token>, st: State)
    requires st.scope != []
    ensures Held(FileLog(ts, st)) <==> Fits(FileLog(ts, st))
  {
    ProperFile(ts, st);
    HeldExactly(FileLog(ts, st));
  }

  /** The same for a block that is read after the calls of `before`. */
  lemma BlockRoom(before: seq<Call>, ts: seq<Token>, st: State)
    requires st.scope != [] && Proper(before)
    ensures Held(before + BlockLog(ts, st)) <==> Fits(before + BlockLog(ts, st))
  {
    ProperBlock(ts, st);
    ProperJoin(before, BlockLog(ts, st));
    HeldExactly(before + BlockLog(ts, st));
  }
}
