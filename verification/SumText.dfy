/** Sums of more and more terms: `{ a := 1; return a + a + ... + a }`. Up to 62 terms the
    program does what the text says; with 63 it writes over its own tree. */
module SumText {
  import opened Wrappers
  import opened Tokens
  import Lexing
  import Printing
  import Ints
  import Source
  import Pratt
  import Grammar
  import Scopes
  import Statements
  import opened StatementGrammar
  import Frontend
  import ExpSimulation
  import Preservation
  import Compiler
  import LoopText
  import opened NodePools
  import opened Nodes
  import opened NodeSizes
  import opened NodeGrammar
  import opened NodeRoom

  function A(): Pratt.Exp { Pratt.IdentExp("a") }

  /** A sum of `k` terms. */
  function Chain(k: nat): Pratt.Exp
    requires k > 0
  {
    if k == 1 then A() else Pratt.Binary(Chain(k - 1), Grammar.Mark(Add), A())
  }

  function One(): Pratt.Exp { Pratt.Literal(Token(Int, "1")) }

  function First(): Src { SSet(A(), Grammar.Mark(Define), One()) }

  function Sum(k: nat): Body
    requires k > 0
  {
    Body([First(), SReturn(Chain(k))], true)
  }

  predicate Good(e: Pratt.Exp) {
    Grammar.Respects(e, 0) && Grammar.CanFollow(e, Semi) && Grammar.CanFollow(e, Add)
  }

  lemma OneMore(e: Pratt.Exp)
    requires Good(e)
    ensures Good(Pratt.Binary(e, Grammar.Mark(Add), A()))
  {
    hide BindingPower;
    Powers();
    assert Grammar.RightPower(Add) == 40;
    assert Grammar.Respects(A(), 40) && Grammar.CanFollow(A(), Add) && Grammar.CanFollow(A(), Semi);
    var sum := Pratt.Binary(e, Grammar.Mark(Add), A());
    assert Grammar.Respects(sum, 0);
    assert Grammar.CanFollow(sum, Add) && Grammar.CanFollow(sum, Semi);
  }

  lemma Powers()
    ensures BindingPower(Add) == 40 && BindingPower(Semi) == 0
  {
  }

  lemma {:induction false} ChainGood(k: nat)
    requires k > 0
    ensures Good(Chain(k)) && Size(Chain(k)) == 2 * k - 1
  {
    hide Good;
    if k > 1 {
      ChainGood(k - 1);
      OneMore(Chain(k - 1));
    } else {
      AGood();
    }
  }

  lemma AGood()
    ensures Good(A())
  {
  }

  lemma ReturnReadable(e: Pratt.Exp)
    requires Good(e)
    ensures Readable(SReturn(e), Semi)
  {
  }

  lemma SumReadable(k: nat)
    requires k > 0
    ensures BodyReadable(Sum(k))
  {
    hide Readable, Good;
    ChainGood(k);
    ReturnReadable(Chain(k));
    LoopText.SetFits(A(), Define, One());
    LoopText.ListOf(Sum(k).smts);
  }

  // ---------- its nodes ----------

  /** Five nodes, the binary one comes back, and then those of the sum. */
  function SumEvents(n: nat): seq<Event> { Takes(5) + ([Back(1)] + Takes(n)) }

  lemma SumCalls(k: nat)
    requires k > 0
    ensures BodyCalls(Sum(k)) == (Exps(5) + [NewDcl, NewSmt, OldExp(1)]) + (Exps(2 * k - 1) + [NewSmt, NewSmt])
  {
    hide Calls, Chain;
    FirstCalls();
    ReturnCalls(k);
    var smts := Sum(k).smts;
    assert smts[1..] == [SReturn(Chain(k))] && smts[1..][1..] == [];
    assert ListCalls(smts[1..]) == Calls(smts[1]) + ListCalls([]);
    assert ListCalls(smts) == Calls(smts[0]) + ListCalls(smts[1..]);
  }

  lemma FirstCalls()
    ensures Calls(First()) == Exps(5) + [NewDcl, NewSmt, OldExp(1)]
  {
    assert Size(Pratt.Binary(A(), Grammar.Mark(Define), One())) == 3;
    assert [NewExp, NewExp] + Exps(3) == Exps(5);
  }

  lemma ReturnCalls(k: nat)
    requires k > 0
    ensures Calls(SReturn(Chain(k))) == Exps(2 * k - 1) + [NewSmt]
  {
    ChainGood(k);
  }

  lemma {:induction false} CountExps(n: nat, c: Call)
    requires c != NewExp
    ensures Count(Exps(n), c) == 0
  {
    if n > 0 {
      assert Exps(n)[1..] == Exps(n - 1);
      CountExps(n - 1, c);
    }
  }

  lemma {:induction false} CountJoin(a: seq<Call>, b: seq<Call>, c: Call)
    ensures Count(a + b, c) == Count(a, c) + Count(b, c)
    decreases |a|
  {
    if a == [] {
      assert a + b == b;
    } else {
      assert (a + b)[1..] == a[1..] + b;
      CountJoin(a[1..], b, c);
    }
  }

  lemma SumCounts(k: nat, c: Call)
    requires k > 0 && c != NewExp
    ensures Count(BodyCalls(Sum(k)), c) == Count([NewDcl, NewSmt, OldExp(1)], c) + Count([NewSmt, NewSmt], c)
  {
    SumCalls(k);
    CountJoin(Exps(5) + [NewDcl, NewSmt, OldExp(1)], Exps(2 * k - 1) + [NewSmt, NewSmt], c);
    CountJoin(Exps(5), [NewDcl, NewSmt, OldExp(1)], c);
    CountJoin(Exps(2 * k - 1), [NewSmt, NewSmt], c);
    CountExps(5, c);
    CountExps(2 * k - 1, c);
  }

  lemma FewCounts()
    ensures Count([NewDcl, NewSmt, OldExp(1)], NewSmt) == 1 && Count([NewSmt, NewSmt], NewSmt) == 2
    ensures Count([NewDcl, NewSmt, OldExp(1)], NewDcl) == 1 && Count([NewSmt, NewSmt], NewDcl) == 0
    ensures OnExps([NewDcl, NewSmt, OldExp(1)]) == [Back(1)] && OnExps([NewSmt, NewSmt]) == []
  {
    assert [NewDcl, NewSmt, OldExp(1)][1..] == [NewSmt, OldExp(1)] && [NewSmt, OldExp(1)][1..] == [OldExp(1)] && [OldExp(1)][1..] == [];
    assert [NewSmt, NewSmt][1..] == [NewSmt] && [NewSmt][1..] == [];
    assert OnExps([OldExp(1)]) == [Back(1)] + OnExps([]);
  }

  lemma SumOnExps(k: nat)
    requires k > 0
    ensures OnExps(BodyCalls(Sum(k))) == SumEvents(2 * k - 1)
  {
    hide BodyCalls, Count;
    SumCalls(k);
    FewCounts();
    OnExpsJoin(Exps(5) + [NewDcl, NewSmt, OldExp(1)], Exps(2 * k - 1) + [NewSmt, NewSmt]);
    OnExpsJoin(Exps(5), [NewDcl, NewSmt, OldExp(1)]);
    OnExpsJoin(Exps(2 * k - 1), [NewSmt, NewSmt]);
    OnExpsOnly(5);
    OnExpsOnly(2 * k - 1);
    assert Takes(2 * k - 1) + [] == Takes(2 * k - 1);
  }

  lemma {:induction false} RoomyTakes(count: nat, live: nat, given: bool, n: nat, rest: seq<Event>)
    requires live < count
    ensures Roomy(count, live, given, Takes(n) + rest) <==>
      (n == 0 || (live + n <= count && (given ==> live + n < count))) && Roomy(count, live + n, given, rest)
    decreases n
  {
    if n == 0 {
      assert Takes(0) + rest == rest;
    } else {
      assert (Takes(n) + rest)[1..] == Takes(n - 1) + rest;
      if live + 1 < count {
        RoomyTakes(count, live + 1, given, n - 1, rest);
      } else {
        Overfull(count, live + 1, given, n - 1, rest);
      }
    }
  }

  lemma {:induction false} Overfull(count: nat, live: nat, given: bool, n: nat, rest: seq<Event>)
    requires live >= count
    ensures n > 0 ==> !Roomy(count, live, given, Takes(n) + rest)
    ensures n == 0 ==> Takes(n) + rest == rest
    decreases n
  {
    if n == 0 {
      assert Takes(0) + rest == rest;
    } else {
      assert (Takes(n) + rest)[1..] == Takes(n - 1) + rest;
      Overfull(count, live + 1, given, n - 1, rest);
    }
  }

  lemma SumRoomy(n: nat)
    requires n > 0
    ensures Roomy(SLOTS, 0, false, SumEvents(n)) <==> n < 124
    ensures Shaped(SumEvents(n), 0)
  {
    var rest := [Back(1)] + Takes(n);
    RoomyTakes(SLOTS, 0, false, 5, rest);
    assert rest[1..] == Takes(n) && Takes(n) + [] == Takes(n);
    RoomyTakes(SLOTS, 4, true, n, []);
    TakesShaped(n, 0);
    ShapedTakes(5, rest, 0);
  }

  /** There is room for 62 terms and no more. */
  lemma SumFits(k: nat)
    requires k > 0
    ensures NodeRoom.Fits(BodyCalls(Sum(k))) <==> k <= 62
  {
    hide Roomy, BodyCalls;
    SumOnExps(k);
    SumRoomy(2 * k - 1);
    SumCounts(k, NewSmt);
    SumCounts(k, NewDcl);
    FewCounts();
  }

  /** Slots that follow one another are handed out so. */
  lemma {:induction false} TakesRun(m: Memory, k: nat, n: nat) returns (r: Memory)
    requires n > 0 && k + n <= |m.pool.next| && m.pool.head == Pools.At(m.pool.base, k)
    requires forall i :: k <= i < k + n - 1 ==> m.pool.next[i] == Pools.At(m.pool.base, i + 1)
    ensures Run(m, Takes(n)) == Some(r) && r.pool == m.pool.(head := m.pool.next[k + n - 1])
    ensures r.at == m.at + Pools.Numbers(k, n) && m.used <= r.used && forall j :: |m.at| <= j < |m.at| + n ==> j in r.used
    ensures forall i :: k <= i < k + n ==> i in r.held && r.held[i] == |m.at| + (i - k)
    ensures forall i :: i in m.held && !(k <= i < k + n) ==> i in r.held && r.held[i] == m.held[i]
    decreases n
  {
    var m1 := Step(m, Take).value;
    assert Takes(n)[0] == Take && Takes(n)[1..] == Takes(n - 1);
    assert Pools.Numbers(k, n) == [k] + Pools.Numbers(k + 1, n - 1);
    if n == 1 {
      r := m1;
    } else {
      r := TakesRun(m1, k + 1, n - 1);
    }
  }

  /** With 63 terms, the node of the last `+`, which is the 130th, is written over that of the
      first term, the 6th, and that one is in use. */
  lemma SumWrittenOver(base: int) returns (m: Memory)
    ensures Run(New(base, SLOTS), OnExps(BodyCalls(Sum(63)))) == Some(m) && |m.at| == 130
    ensures 5 in m.used && m.at[5] == m.at[129] && m.at[5] in m.held && m.held[m.at[5]] == 129 && !InPlace(m)
  {
    hide Run, BodyCalls;
    SumOnExps(63);
    var m0 := New(base, SLOTS);
    var m1 := TakesRun(m0, 0, 5);
    RunBack(m1);
    var m2 := Step(m1, Back(1)).value;
    var m3 := TakesRun(m2, 5, 123);
    m := TakesRun(m3, 4, 2);
    RunSplit(m3, Takes(2), []);
    RunSplit(m2, Takes(123), Takes(2));
    assert Takes(123) + Takes(2) == Takes(125);
    RunSplit(m1, [Back(1)], Takes(125));
    RunSplit(m0, Takes(5), [Back(1)] + Takes(125));
    assert m.at[5] == 5 && m.at[129] == 5;
  }

  lemma RunBack(m: Memory)
    requires Step(m, Back(1)).Some?
    ensures Run(m, [Back(1)]) == Step(m, Back(1))
  {
    assert [Back(1)][1..] == [];
  }

  // ---------- what it means ----------

  function SumExp(k: nat): Source.Exp
    requires k > 0
  {
    if k == 1 then Source.Ident(0) else Source.Binary(SumExp(k - 1), Ints.Add, Source.Ident(0))
  }

  function SumTree(k: nat): Source.Smt
    requires k > 0
  {
    Source.Block([Source.Declare(Source.VarDcl(0, None, Source.Literal(1))), Source.Return(SumExp(k))])
  }

  lemma {:induction false} ChainMeans(k: nat, scope: Scopes.Stack)
    requires k > 0 && Frontend.DclOf("a", scope) == Some(0)
    ensures Frontend.ExpOf(Chain(k), scope, map[]) == Some(SumExp(k))
  {
    if k > 1 {
      ChainMeans(k - 1, scope);
    }
  }

  lemma FirstMeans()
    ensures var m := Means(First(), [map[], map[]], 0);
      && m.scope == [map["a" := 0], map[]] && m.next == 1
      && Frontend.SmtOf(m.smt, map[]) == Some(Source.Declare(Source.VarDcl(0, None, Source.Literal(1))))
  {
    LoopText.Numbers();
  }

  lemma ReturnMeans(k: nat)
    requires k > 0
    ensures Frontend.SmtOf(Means(SReturn(Chain(k)), [map["a" := 0], map[]], 1).smt, map[]) == Some(Source.Return(SumExp(k)))
  {
    var scope: Scopes.Stack := [map["a" := 0], map[]];
    assert Scopes.Found(scope, "a") == Some(0);
    ChainMeans(k, scope);
  }

  lemma SumMeans(k: nat)
    requires k > 0
    ensures Frontend.SmtOf(Statements.Blk(BodyMeans(Sum(k), [map[]], 0).smts), map[]) == Some(SumTree(k))
  {
    hide Means, ListMeans, Frontend.SmtsOf, Chain, SumExp;
    var smts, ret := Sum(k).smts, Source.Return(SumExp(k));
    FirstMeans();
    ReturnMeans(k);
    NothingMeans();
    assert smts[1..] == [SReturn(Chain(k))] && [SReturn(Chain(k))][1..] == [] && [ret] + [] == [ret];
    LoopText.MoreMeans([SReturn(Chain(k))], [map["a" := 0], map[]], 1, map[], ret, []);
    LoopText.MoreMeans(smts, [map[], map[]], 0, map[], SumTree(k).smts[0], [ret]);
    assert [SumTree(k).smts[0]] + [ret] == SumTree(k).smts;
    var s0: Scopes.Stack := [map[]];
    assert [map[]] + s0 == [map[], map[]];
  }

  lemma NothingMeans()
    ensures forall scope: Scopes.Stack, next :: scope != [] ==> Frontend.SmtsOf(ListMeans([], scope, next).smts, map[]) == Some([])
  {
  }

  /** 1 in an `int`. */
  function Start(): Source.Store { map[0 := Source.Val(Ints.I64, 1)] }

  lemma {:induction false} SumRuns(k: nat, ctx: Source.Context)
    requires 0 < k <= 62
    ensures Source.Eval(SumExp(k), Start(), ctx) == Source.Gives(Source.Val(Ints.I64, k))
  {
    if k > 1 {
      SumRuns(k - 1, ctx);
      Ints.WrapIdentity(Ints.I64, k);
    }
  }

  lemma SumSource(k: nat, ctx: Source.Context)
    requires 0 < k <= 62 && ctx.ret == Ints.I64
    ensures Preservation.SourceDoes(Source.Function([], Ints.I64, SumTree(k)), [], ctx, Preservation.Result(k))
  {
    hide SumExp;
    var smts := SumTree(k).smts;
    var empty: Source.Store := map[];
    SumRuns(k, ctx);
    Ints.WrapIdentity(Ints.I64, k);
    assert Source.Eval(Source.Literal(1), empty, ctx) == Source.Gives(Source.Val(Ints.I64, 1));
    assert empty[0 := Source.Val(Ints.I64, 1)] == Start();
    LoopText.SeqRuns(smts, empty, Start(), 0, ctx);
    assert smts[1..] == [Source.Return(SumExp(k))];
    assert Source.ExecSeq(smts[1..], Start(), 0, ctx) == Source.Returned(k);
    assert Preservation.RunSource(Source.Function([], Ints.I64, SumTree(k)), [], 0, ctx) == Source.Returned(k);
  }

  lemma {:induction false} SumTyped(k: nat, env: Source.Env, sigs: seq<Source.Signature>)
    requires k > 0 && env == map[0 := Ints.I64]
    ensures Source.ExpType(SumExp(k), env, sigs) == Some(Ints.I64)
  {
    if k > 1 {
      SumTyped(k - 1, env, sigs);
    }
  }

  lemma SumChecks(k: nat, sigs: seq<Source.Signature>)
    requires k > 0
    ensures Source.Check(SumTree(k), Source.ParamEnv([]), sigs).Some?
  {
    hide SumExp;
    var smts := SumTree(k).smts;
    var env: Source.Env := map[0 := Ints.I64];
    assert smts[1..] == [Source.Return(SumExp(k))] && smts[1..][1..] == [];
    assert Source.ParamEnv([])[0 := Ints.I64] == env;
    SumTyped(k, env, sigs);
    assert Source.Check(smts[0], Source.ParamEnv([]), sigs) == Some(env);
    assert Source.CheckSeq(smts[1..], env, sigs).Some?;
  }

  /** Any text of a sum of up to 62 terms becomes blocks that return the number of terms. */
  lemma SumReturns(k: nat, items: seq<Printing.Item>, tail: string, ctx: Source.Context)
    requires 0 < k <= 62 && Compiler.LaysOut(items, tail, Sum(k)) && ctx.ret == Ints.I64 && ExpSimulation.OracleOk(ctx)
    ensures var o := Lexing.LexAll(Printing.Layout(items, tail), false);
      && o.Tokens? && Statements.ParseBlock(o.ts, Compiler.Entered([map[]], 0)).Did?
      && Held(BlockLog(o.ts, Compiler.Entered([map[]], 0)))
      && var f := Compiler.FunctionOf([], ctx.ret, Statements.ParseBlock(o.ts, Compiler.Entered([map[]], 0)).smt, map[]);
      f.Some? && Preservation.TargetDoes(Preservation.Compiled(f.value, ctx.sigs, [], ctx.calls), Preservation.Result(k))
  {
    hide Sum, SumTree, BodyMeans, Frontend.SmtOf, Compiler.LaysOut, Preservation.SourceDoes, Preservation.TargetDoes;
    hide Lexing.LexAll, Printing.Layout, Statements.ParseBlock, Held, NodeRoom.Fits, BodyCalls, BlockLog;
    SumReadable(k);
    SumMeans(k);
    SumChecks(k, ctx.sigs);
    SumSource(k, ctx);
    SumFits(k);
    LoopText.NoCalls(BodyCalls(Sum(k)));
    Compiler.TextPreserved([], Sum(k), items, tail, [map[]], 0, [], map[], [], ctx, Preservation.Result(k));
    LoopText.NoCalls(BlockLog(Lexing.LexAll(Printing.Layout(items, tail), false).ts, Compiler.Entered([map[]], 0)));
  }
}
