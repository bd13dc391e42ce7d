/** The text of a loop, all the way: the body of `tests/tests/for.acl` in any layout
    becomes blocks that return 123, as `tests/integration_test.cpp` expects. */
module LoopText {
  import opened Wrappers
  import opened Tokens
  import Lexing
  import Printing
  import LexTheorems
  import Ints
  import Ir
  import Source
  import Pratt
  import Grammar
  import Scopes
  import Statements
  import opened StatementGrammar
  import Frontend
  import ExpSimulation
  import Preservation
  import Compiler
  import Nodes
  import opened NodeSizes
  import opened NodeGrammar
  import NodeRoom

  // ---------- the text ----------

  function Zero(): Pratt.Exp { Pratt.Literal(Token(Octal, "")) }

  function Name(n: string): Pratt.Exp { Pratt.IdentExp(n) }

  function Digits(v: string): Pratt.Exp { Pratt.Literal(Token(Int, v)) }

  /** `a := 0` */
  function First(): Src { SSet(Name("a"), Grammar.Mark(Define), Zero()) }

  /** `a += 1` */
  function Add1(): Src { SSet(Name("a"), Grammar.Mark(AddAssign), Digits("1")) }

  function Below(): Pratt.Exp { Pratt.Binary(Name("i"), Grammar.Mark(Lss), Digits("123")) }

  /** `for i := 0; i < 123; i++ { a += 1 }` */
  function Second(): Src { SFor(StatementGrammar.Decl(None, "i", Zero()), Below(), SStep("i", true), Body([Add1()], true)) }

  function Third(): Src { SReturn(Name("a")) }

  function ForBody(): Body { Body([First(), Second(), Third()], true) }

  predicate Leaf(e: Pratt.Exp) { e.IdentExp? || (e.Literal? && IsLiteral(e.token.ty)) }

  lemma LeafFits(e: Pratt.Exp, t: TokenType)
    requires Leaf(e) && BindingPower(t) <= 0
    ensures Fits(e, t) && Size(e) == 1
  {
  }

  lemma PairRespects(l: Pratt.Exp, op: Token, r: Pratt.Exp)
    requires Leaf(l) && Leaf(r)
    requires 10 <= BindingPower(op.ty) && (Pratt.IsLeftOperator(op.ty) || Pratt.IsRightOperator(op.ty))
    ensures Grammar.Respects(Pratt.Binary(l, op, r), 0)
  {
    hide BindingPower, Pratt.IsLeftOperator, Pratt.IsRightOperator;
  }

  lemma PairFits(l: Pratt.Exp, op: Token, r: Pratt.Exp, t: TokenType)
    requires Leaf(l) && Leaf(r) && BindingPower(t) <= 0
    requires 10 <= BindingPower(op.ty) && (Pratt.IsLeftOperator(op.ty) || Pratt.IsRightOperator(op.ty))
    ensures Fits(Pratt.Binary(l, op, r), t) && Size(Pratt.Binary(l, op, r)) == 3
  {
    hide BindingPower, Pratt.IsLeftOperator, Pratt.IsRightOperator;
    PairRespects(l, op, r);
    assert Grammar.CanFollow(r, t);
    assert BindingPower(t) <= Grammar.RightPower(op.ty);
    assert Grammar.CanFollow(Pratt.Binary(l, op, r), t);
  }

  lemma SetFits(l: Pratt.Exp, op: TokenType, r: Pratt.Exp)
    requires l.IdentExp? && Leaf(r) && (op.Define? || op.AddAssign?)
    ensures Readable(SSet(l, Grammar.Mark(op), r), Semi)
  {
    PairFits(l, Grammar.Mark(op), r, Semi);
  }

  /** Each readable before a semicolon. */
  lemma {:induction false} ListOf(smts: seq<Src>)
    requires forall i :: 0 <= i < |smts| ==> Readable(smts[i], Semi)
    ensures ListReadable(smts, true)
  {
    hide Readable;
    if smts != [] {
      ListOf(smts[1..]);
    }
  }

  lemma SecondReadable()
    ensures Readable(Second(), Semi)
  {
    hide Fits;
    LeafFits(Zero(), Semi);
    PairFits(Name("i"), Grammar.Mark(Lss), Digits("123"), Semi);
    SetFits(Name("a"), AddAssign, Digits("1"));
    ListOf([Add1()]);
  }

  lemma ThirdReadable()
    ensures Readable(Third(), Semi)
  {
    LeafFits(Name("a"), Semi);
  }

  lemma ForReadable()
    ensures BodyReadable(ForBody())
  {
    hide Readable;
    SetFits(Name("a"), Define, Zero());
    SecondReadable();
    ThirdReadable();
    ListOf(ForBody().smts);
  }

  // ---------- its nodes ----------

  lemma SetCalls(n: string, op: TokenType, r: Pratt.Exp)
    requires r.Literal? && (op.Define? || op.AddAssign?)
    ensures |Calls(SSet(Name(n), Grammar.Mark(op), r))| == 8
  {
    assert Size(Pratt.Binary(Name(n), Grammar.Mark(op), r)) == 3;
  }

  lemma ListCallsMore(s: Src, smts: seq<Src>)
    ensures |ListCalls([s] + smts)| == |Calls(s)| + |ListCalls(smts)|
  {
    assert ([s] + smts)[1..] == smts;
  }

  lemma SecondCalls()
    ensures |Calls(Second())| == 19
  {
    hide Calls;
    SetCalls("a", AddAssign, Digits("1"));
    ListCallsMore(Add1(), []);
    assert [Add1()] + [] == [Add1()] && ListCalls([]) == [];
    assert |BodyCalls(Body([Add1()], true))| == 9;
    assert Size(Below()) == 3 && |DeclCalls(Second().index)| == 2;
    ForCalls(Second());
    StepCalls();
  }

  lemma ForCalls(s: Src)
    requires s.SFor?
    ensures |Calls(s)| == |DeclCalls(s.index)| + Size(s.test) + |Calls(s.inc)| + |BodyCalls(s.rounds)| + 1
  {
  }

  lemma StepCalls()
    ensures |Calls(SStep("i", true))| == 4
  {
  }

  lemma ThirdCalls()
    ensures |Calls(Third())| == 2
  {
    assert Size(Name("a")) == 1;
  }

  /** There is room for the body in new pools. */
  lemma ForFits()
    ensures NodeRoom.Fits(BodyCalls(ForBody()))
  {
    hide Calls, NodeRoom.Fits, Second, NodeRoom.Proper;
    SetCalls("a", Define, Zero());
    SecondCalls();
    ThirdCalls();
    ListCallsMore(First(), [Second(), Third()]);
    ListCallsMore(Second(), [Third()]);
    ListCallsMore(Third(), []);
    assert [First()] + [Second(), Third()] == ForBody().smts;
    assert [Second()] + [Third()] == [Second(), Third()] && [Third()] + [] == [Third()] && ListCalls([]) == [];
    assert |BodyCalls(ForBody())| == 30;
    ForReadable();
    BodyProper(ForBody());
    NodeRoom.FewFit(BodyCalls(ForBody()));
  }

  // ---------- its meaning ----------

  lemma Numbers()
    ensures Frontend.Number("", 8) == Some(0) && Frontend.Number("1", 10) == Some(1) && Frontend.Number("123", 10) == Some(123)
  {
    assert "1"[..0] == "" && "12"[..1] == "1" && "123"[..2] == "12";
    assert Frontend.Number("1", 10) == Some(1);
    assert Frontend.Number("12", 10) == Some(12);
  }

  function Step(d: Source.Dcl): Source.Smt {
    Source.Assign(d, Source.Binary(Source.Ident(d), Ints.Add, Source.Literal(1)))
  }

  function ForLoop(): Source.Smt {
    Source.For(Source.VarDcl(1, None, Source.Literal(0)), Source.Binary(Source.Ident(1), Ints.Lss, Source.Literal(123)),
               Step(1), Source.Block([Step(0)]))
  }

  function ForTree(): Source.Smt {
    Source.Block([Source.Declare(Source.VarDcl(0, None, Source.Literal(0))), ForLoop(), Source.Return(Source.Ident(0))])
  }

  /** The scopes once `a` is declared, and once `i` is too. */
  function Outer(): Scopes.Stack { [map["a" := 0], map[]] }

  function Inner(): Scopes.Stack { [map["a" := 0, "i" := 1], map[]] }

  lemma FirstMeans()
    ensures var m := Means(First(), [map[], map[]], 0);
      m.scope == Outer() && m.next == 1 && Frontend.SmtOf(m.smt, map[]) == Some(ForTree().smts[0])
  {
    Numbers();
  }

  /** `n += 1`, also spelled `n++`. */
  lemma AddMeans(n: string, d: Source.Dcl, scope: Scopes.Stack, op: TokenType)
    requires Frontend.DclOf(n, scope) == Some(d) && n != "true" && n != "false" && op.AddAssign?
    ensures Frontend.SmtOf(Statements.Set(Statements.Seen(Name(n), scope), op, Statements.Seen(Digits("1"), scope)), map[]) == Some(Step(d))
  {
    Numbers();
  }

  lemma OneMeans(s: Statements.Stm, r: Source.Smt)
    requires Frontend.SmtOf(s, map[]) == Some(r)
    ensures Frontend.SmtOf(Statements.Blk([s]), map[]) == Some(Source.Block([r]))
  {
    assert [s][1..] == [] && [r] + [] == [r];
    assert Frontend.SmtsOf([], map[]) == Some([]);
  }

  lemma RoundsMean()
    ensures var m := BodyMeans(Body([Add1()], true), Inner(), 2);
      m.next == 2 && Frontend.SmtOf(Statements.Blk(m.smts), map[]) == Some(Source.Block([Step(0)]))
  {
    var scope := [map[]] + Inner();
    var set_ := Statements.Set(Statements.Seen(Name("a"), scope), AddAssign, Statements.Seen(Digits("1"), scope));
    assert [Add1()][1..] == [];
    assert Means(Add1(), scope, 2) == Meaning(set_, scope, 2);
    assert ListMeans([Add1()], scope, 2).smts == [set_];
    assert scope[1..] == Inner() && Scopes.Found(Inner(), "a") == Some(0);
    AddMeans("a", 0, scope, AddAssign);
    OneMeans(set_, Step(0));
  }

  lemma TestMeans()
    ensures Frontend.ExpOf(Below(), Inner(), map[]) == Some(ForLoop().test)
  {
    Numbers();
    assert Frontend.ExpOf(Name("i"), Inner(), map[]) == Some(Source.Ident(1));
    assert Frontend.ExpOf(Digits("123"), Inner(), map[]) == Some(Source.Literal(123));
  }

  lemma SecondMeans()
    ensures var m := Means(Second(), Outer(), 1);
      m.scope == Inner() && m.next == 2 && Frontend.SmtOf(m.smt, map[]) == Some(ForLoop())
  {
    Numbers();
    assert Bind(Outer(), "i", 1) == Inner();
    TestMeans();
    RoundsMean();
    AddMeans("i", 1, Inner(), AddAssign);
  }

  /** A list of statements, read from its first one. */
  lemma MoreMeans(smts: seq<Src>, scope: Scopes.Stack, next: int, funs: map<Source.Dcl, nat>, r: Source.Smt, rs: seq<Source.Smt>)
    requires smts != [] && scope != []
    requires Frontend.SmtOf(Means(smts[0], scope, next).smt, funs) == Some(r)
    requires Frontend.SmtsOf(ListMeans(smts[1..], Means(smts[0], scope, next).scope, Means(smts[0], scope, next).next).smts, funs) == Some(rs)
    ensures Frontend.SmtsOf(ListMeans(smts, scope, next).smts, funs) == Some([r] + rs)
  {
    hide Means, Frontend.SmtOf;
    var m := Means(smts[0], scope, next);
    var rest := ListMeans(smts[1..], m.scope, m.next).smts;
    assert ([m.smt] + rest)[1..] == rest;
  }

  lemma ThirdMeans()
    ensures Frontend.SmtsOf(ListMeans([Third()], Inner(), 2).smts, map[]) == Some([Source.Return(Source.Ident(0))])
  {
    assert Scopes.Found(Inner(), "a") == Some(0);
    assert [Third()][1..] == [] && Frontend.SmtsOf([], map[]) == Some([]);
    MoreMeans([Third()], Inner(), 2, map[], Source.Return(Source.Ident(0)), []);
    assert [Source.Return(Source.Ident(0))] + [] == [Source.Return(Source.Ident(0))];
  }

  lemma ForMeans()
    ensures Frontend.SmtOf(Statements.Blk(BodyMeans(ForBody(), [map[]], 0).smts), map[]) == Some(ForTree())
  {
    hide Means, ListMeans, Frontend.SmtsOf;
    var last := [Source.Return(Source.Ident(0))];
    ThirdMeans();
    SecondMeans();
    FirstMeans();
    assert [Second(), Third()][1..] == [Third()];
    MoreMeans([Second(), Third()], Outer(), 1, map[], ForLoop(), last);
    var l := ForBody().smts;
    var empty: Scopes.Stack := [map[]];
    assert l[1..] == [Second(), Third()] && empty + empty == [map[], map[]];
    MoreMeans(l, [map[], map[]], 0, map[], ForTree().smts[0], [ForLoop()] + last);
    assert [ForTree().smts[0]] + ([ForLoop()] + last) == ForTree().smts;
  }

  // ---------- what it does ----------

  function ForFunction(): Source.Function { Source.Function([], Ints.I64, ForTree()) }

  /** After `k` rounds. */
  function Rounds(k: int): Source.Store { map[0 := Source.Val(Ints.I64, k), 1 := Source.Val(Ints.I64, k)] }

  lemma StepRuns(d: Source.Dcl, store: Source.Store, k: int, fuel: nat, ctx: Source.Context)
    requires d in store && store[d] == Source.Val(Ints.I64, k) && 0 <= k < 123
    ensures Source.Exec(Step(d), store, fuel, ctx) == Source.Normal(store[d := Source.Val(Ints.I64, k + 1)])
  {
    assert Source.Eval(Source.Ident(d), store, ctx) == Source.Gives(store[d]);
    assert Source.Eval(Source.Literal(1), store, ctx) == Source.Gives(Source.Val(Ints.I64, 1));
  }

  lemma RoundRuns(k: int, fuel: nat, ctx: Source.Context)
    requires 0 <= k < 123
    ensures Source.Exec(ForLoop().loop, Rounds(k), fuel, ctx) == Source.Normal(Rounds(k)[0 := Source.Val(Ints.I64, k + 1)])
    ensures Source.Exec(ForLoop().inc, Rounds(k)[0 := Source.Val(Ints.I64, k + 1)], fuel, ctx) == Source.Normal(Rounds(k + 1))
  {
    var once := Rounds(k)[0 := Source.Val(Ints.I64, k + 1)];
    StepRuns(0, Rounds(k), k, fuel, ctx);
    assert [Step(0)][1..] == [];
    assert Source.ExecSeq([], once, fuel, ctx) == Source.Normal(once);
    StepRuns(1, once, k, fuel, ctx);
    assert once[1 := Source.Val(Ints.I64, k + 1)] == Rounds(k + 1);
  }

  lemma TestRuns(k: int, ctx: Source.Context)
    ensures Source.Eval(ForLoop().test, Rounds(k), ctx) == Source.Gives(Source.Val(Ints.I1, Ints.Truth(k < 123)))
  {
    assert Source.Eval(Source.Ident(1), Rounds(k), ctx) == Source.Gives(Source.Val(Ints.I64, k));
    assert Source.Eval(Source.Literal(123), Rounds(k), ctx) == Source.Gives(Source.Val(Ints.I64, 123));
  }

  lemma {:induction false} LoopRuns(k: int, fuel: nat, ctx: Source.Context)
    requires 0 <= k <= 123 && fuel + k >= 123
    ensures Source.Iterate(ForLoop(), Rounds(k), fuel, ctx) == Source.Normal(Rounds(123))
    decreases 123 - k
  {
    TestRuns(k, ctx);
    if k < 123 {
      RoundRuns(k, fuel - 1, ctx);
      LoopRuns(k + 1, fuel - 1, ctx);
    }
  }

  lemma SeqRuns(smts: seq<Source.Smt>, store: Source.Store, next: Source.Store, fuel: nat, ctx: Source.Context)
    requires smts != [] && Source.Exec(smts[0], store, fuel, ctx) == Source.Normal(next)
    ensures Source.ExecSeq(smts, store, fuel, ctx) == Source.ExecSeq(smts[1..], next, fuel, ctx)
  {
    hide Source.Exec;
  }

  lemma DeclareRuns(d: Source.Dcl, store: Source.Store, ctx: Source.Context)
    ensures Source.ExecDeclare(Source.VarDcl(d, None, Source.Literal(0)), store, ctx) == Source.Normal(store[d := Source.Val(Ints.I64, 0)])
  {
    assert Source.Eval(Source.Literal(0), store, ctx) == Source.Gives(Source.Val(Ints.I64, 0));
  }

  lemma ForLoopRuns(ctx: Source.Context)
    ensures Source.Exec(ForLoop(), map[0 := Source.Val(Ints.I64, 0)], 123, ctx) == Source.Normal(Rounds(123))
  {
    hide Source.ExecSeq;
    var one: Source.Store := map[0 := Source.Val(Ints.I64, 0)];
    DeclareRuns(1, one, ctx);
    assert one[1 := Source.Val(Ints.I64, 0)] == Rounds(0);
    LoopRuns(0, 123, ctx);
  }

  lemma ReturnRuns(ctx: Source.Context)
    ensures Source.ExecSeq([Source.Return(Source.Ident(0))], Rounds(123), 123, ctx) == Source.Returned(Ints.Wrap(ctx.ret, 123))
  {
    assert Source.Eval(Source.Ident(0), Rounds(123), ctx) == Source.Gives(Source.Val(Ints.I64, 123));
  }

  lemma ForRuns(ctx: Source.Context)
    ensures Preservation.RunSource(ForFunction(), [], 123, ctx) == Source.Returned(Ints.Wrap(ctx.ret, 123))
  {
    hide ForLoop, Source.Iterate, Source.ExecSeq;
    var l := ForTree().smts;
    var start: Source.Store := map[];
    var one: Source.Store := map[0 := Source.Val(Ints.I64, 0)];
    DeclareRuns(0, start, ctx);
    assert start[0 := Source.Val(Ints.I64, 0)] == one;
    SeqRuns(l, start, one, 123, ctx);
    assert l[1..] == [ForLoop(), Source.Return(Source.Ident(0))];
    ForLoopRuns(ctx);
    SeqRuns(l[1..], one, Rounds(123), 123, ctx);
    assert l[1..][1..] == [Source.Return(Source.Ident(0))];
    ReturnRuns(ctx);
  }

  lemma ForChecks(sigs: seq<Source.Signature>)
    ensures Source.Check(ForTree(), Source.ParamEnv([]), sigs).Some?
  {
    var l := ForTree().smts;
    var e := Source.ParamEnv([])[0 := Ints.I64];
    var inner := e[1 := Ints.I64];
    assert l[1..] == [ForLoop(), Source.Return(Source.Ident(0))] && l[1..][1..] == [Source.Return(Source.Ident(0))];
    StepChecks(0, inner, sigs);
    StepChecks(1, inner, sigs);
    assert [Step(0)][1..] == [];
    assert Source.Check(l[0], Source.ParamEnv([]), sigs) == Some(e);
    assert Source.Check(ForLoop(), e, sigs) == Some(inner);
  }

  lemma StepChecks(d: Source.Dcl, env: Source.Env, sigs: seq<Source.Signature>)
    requires d in env && env[d] == Ints.I64
    ensures Source.Check(Step(d), env, sigs) == Some(env)
  {
    assert Source.ExpType(Source.Ident(d), env, sigs) == Some(Ints.I64);
    assert Source.ExpType(Source.Literal(1), env, sigs) == Some(Ints.I64);
  }

  lemma ForSource(ctx: Source.Context)
    requires ctx.ret == Ints.I64
    ensures Preservation.SourceDoes(ForFunction(), [], ctx, Preservation.Result(123))
  {
    hide Preservation.RunSource;
    ForRuns(ctx);
  }

  lemma ForFunctionOf()
    ensures Compiler.FunctionOf([], Ints.I64, Statements.Blk(BodyMeans(ForBody(), [map[]], 0).smts), map[]) == Some(ForFunction())
  {
    hide ForBody, ForTree, Frontend.SmtOf, BodyMeans;
    ForMeans();
  }

  /** Any text that lays out this body becomes blocks that return 123. */
  lemma ForReturns(items: seq<Printing.Item>, tail: string, ctx: Source.Context)
    requires Compiler.LaysOut(items, tail, ForBody()) && ctx.ret == Ints.I64 && ExpSimulation.OracleOk(ctx)
    ensures var o := Lexing.LexAll(Printing.Layout(items, tail), false);
      && o.Tokens? && Statements.ParseBlock(o.ts, Compiler.Entered([map[]], 0)).Did?
      && var f := Compiler.FunctionOf([], ctx.ret, Statements.ParseBlock(o.ts, Compiler.Entered([map[]], 0)).smt, map[]);
      f.Some? && Preservation.TargetDoes(Preservation.Compiled(f.value, ctx.sigs, [], ctx.calls), Preservation.Result(123))
  {
    hide ForBody, ForTree, BodyMeans, Frontend.SmtOf, Compiler.FunctionOf, Compiler.LaysOut, Preservation.SourceDoes, Preservation.TargetDoes;
    hide Lexing.LexAll, Printing.Layout, Statements.ParseBlock;
    ForReadable();
    ForFunctionOf();
    ForChecks(ctx.sigs);
    ForSource(ctx);
    ForFits();
    NoCalls(BodyCalls(ForBody()));
    Compiler.TextPreserved([], ForBody(), items, tail, [map[]], 0, [], map[], [], ctx, Preservation.Result(123));
  }

  /** New pools. */
  lemma NoCalls(log: seq<Nodes.Call>)
    ensures NodeRoom.Proper([]) && [] + log == log
  {
  }

  // ---------- there are such texts ----------

  ghost predicate Prints(ts: seq<Token>) { forall i :: 0 <= i < |ts| ==> Printing.Printable(ts[i]) }

  lemma Glued(a: seq<Token>, b: seq<Token>)
    requires Prints(a) && Prints(b)
    ensures Prints(a + b)
  {
  }

  lemma MarkPrints(t: TokenType)
    requires IsSymbol(t) || IsKeyword(t)
    ensures IsSymbol(t) && !IsKeyword(t) ==> Prints([Grammar.Mark(t)])
    ensures IsKeyword(t) ==> Prints([Key(t)])
  {
  }

  lemma NamePrints(n: string)
    requires n == "a" || n == "i"
    ensures Prints([Token(Ident, n)]) && Prints(Grammar.Flatten(Name(n)))
  {
  }

  lemma NumbersPrint()
    ensures Prints(Grammar.Flatten(Zero())) && Prints(Grammar.Flatten(Digits("1"))) && Prints(Grammar.Flatten(Digits("123")))
  {
  }

  lemma PairPrints(l: Pratt.Exp, op: TokenType, r: Pratt.Exp)
    requires Prints(Grammar.Flatten(l)) && Prints(Grammar.Flatten(r)) && IsSymbol(op)
    ensures Prints(Grammar.Flatten(Pratt.Binary(l, Grammar.Mark(op), r)))
  {
    hide Printing.Printable;
    assert Prints([Grammar.Mark(op)]) by { MarkPrints(op); }
    Glued([Grammar.Mark(op)], Grammar.Flatten(r));
    Glued(Grammar.Flatten(l), [Grammar.Mark(op)] + Grammar.Flatten(r));
  }

  /** A list with a semicolon after each statement. */
  lemma {:induction false} ListPrints(smts: seq<Src>)
    requires forall i :: 0 <= i < |smts| ==> Prints(Spelling(smts[i]))
    ensures Prints(SpellList(smts, true))
  {
    hide Prints, Spelling;
    if smts == [] {
      NothingPrints();
    } else {
      MarkPrints(Semi);
      ListPrints(smts[1..]);
      Glued([Grammar.Mark(Semi)], SpellList(smts[1..], true));
      Glued(Spelling(smts[0]), [Grammar.Mark(Semi)] + SpellList(smts[1..], true));
    }
  }

  lemma NothingPrints()
    ensures Prints([])
  {
  }

  lemma BodyTokens(smts: seq<Src>)
    requires forall i :: 0 <= i < |smts| ==> Prints(Spelling(smts[i]))
    ensures Prints(SpellBody(Body(smts, true)))
  {
    hide Prints, Spelling, SpellList;
    MarkPrints(LBrace);
    MarkPrints(RBrace);
    ListPrints(smts);
    Glued(SpellList(smts, true), [Grammar.Mark(RBrace)]);
    Glued([Grammar.Mark(LBrace)], SpellList(smts, true) + [Grammar.Mark(RBrace)]);
  }

  lemma LeavesPrint()
    ensures Prints(Spelling(First())) && Prints(Spelling(Third())) && Prints(Spelling(Add1())) && Prints(Grammar.Flatten(Below()))
    ensures Prints(Spelling(SStep("i", true)))
  {
    hide Prints;
    NamePrints("a");
    NamePrints("i");
    NumbersPrint();
    PairPrints(Name("a"), Define, Zero());
    PairPrints(Name("a"), AddAssign, Digits("1"));
    PairPrints(Name("i"), Lss, Digits("123"));
    MarkPrints(Return);
    Glued([Key(Return)], Grammar.Flatten(Name("a")));
    MarkPrints(Inc);
    Glued([Token(Ident, "i")], [Grammar.Mark(Inc)]);
  }

  lemma DeclPrints()
    ensures Prints(FlattenDecl(StatementGrammar.Decl(None, "i", Zero())))
  {
    hide Prints;
    NamePrints("i");
    NumbersPrint();
    MarkPrints(Define);
    Glued([Grammar.Mark(Define)], Grammar.Flatten(Zero()));
    Glued([Token(Ident, "i")], [Grammar.Mark(Define)] + Grammar.Flatten(Zero()));
  }

  lemma SecondPrints()
    ensures Prints(Spelling(Second()))
  {
    hide Prints, FlattenDecl, Grammar.Flatten;
    LeavesPrint();
    DeclPrints();
    BodyTokens([Add1()]);
    MarkPrints(Semi);
    MarkPrints(TokenType.For);
    var step, rounds := Spelling(SStep("i", true)), SpellBody(Body([Add1()], true));
    Glued(step, rounds);
    Glued([Grammar.Mark(Semi)], step + rounds);
    Glued(Grammar.Flatten(Below()), [Grammar.Mark(Semi)] + (step + rounds));
    Glued([Grammar.Mark(Semi)], SpellTest(Second()));
    Glued(FlattenDecl(Second().index), [Grammar.Mark(Semi)] + SpellTest(Second()));
    Glued([Key(TokenType.For)], FlattenDecl(Second().index) + ([Grammar.Mark(Semi)] + SpellTest(Second())));
  }

  lemma ForHasText()
    ensures Compiler.LaysOut(LexTheorems.Spaced(SpellBody(ForBody()), ""), "", ForBody())
  {
    hide Spelling, SpellBody, Compiler.LaysOut;
    LeavesPrint();
    SecondPrints();
    BodyTokens(ForBody().smts);
    Compiler.BodyPrints(ForBody());
  }
}
