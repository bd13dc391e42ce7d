/** The text of a block in a block that declares the name of the outer one again. */
module ShadowText {
  import opened Wrappers
  import opened Tokens
  import Lexing
  import Printing
  import LexTheorems
  import Ints
  import Ir
  import Source
  import Pratt
  import Grammar
  import Scopes
  import opened Statements
  import opened StatementGrammar
  import opened Frontend
  import ExpSimulation
  import Preservation
  import Compiler
  import opened NodeSizes
  import opened NodeGrammar
  import NodeRoom
  import opened LoopText
  import FileText
  import ProgramTexts

  /** `n := v` */
  function Sets(n: string, v: string): Src { SSet(Name(n), Grammar.Mark(Define), Digits(v)) }

  /** `{ n := 2 return n }` */
  function Inside(n: string): Src { SBlock(Body([Sets(n, "2"), SReturn(Name(n))], true)) }

  /** `{ n := 1 { n := 2 return n } }` */
  function Shadowing(n: string): Body { Body([Sets(n, "1"), Inside(n)], true) }

  lemma InsideReadable(n: string)
    ensures Readable(Inside(n), Semi) && |Calls(Inside(n))| == 11
  {
    hide Readable, Calls;
    var l := [Sets(n, "2"), SReturn(Name(n))];
    SetFits(Name(n), Define, Digits("2"));
    SetCalls(n, Define, Digits("2"));
    LeafFits(Name(n), Semi);
    ProgramTexts.ReturnFits(Name(n));
    ListOf(l);
    ListCallsMore(l[0], [l[1]]);
    ListCallsMore(l[1], []);
    assert [l[0]] + [l[1]] == l && [l[1]] + [] == [l[1]] && ListCalls([]) == [];
    BlockOf(Body(l, true));
  }

  lemma BlockOf(b: Body)
    ensures Readable(SBlock(b), Semi) <==> BodyReadable(b)
    ensures Calls(SBlock(b)) == BodyCalls(b)
  {
  }

  lemma ShadowingReadable(n: string)
    ensures BodyReadable(Shadowing(n)) && NodeRoom.Fits(BodyCalls(Shadowing(n)))
  {
    hide Readable, Calls, Inside, NodeRoom.Fits, NodeRoom.Proper;
    var l := [Sets(n, "1"), Inside(n)];
    SetFits(Name(n), Define, Digits("1"));
    SetCalls(n, Define, Digits("1"));
    InsideReadable(n);
    ListOf(l);
    ListCallsMore(l[0], [l[1]]);
    ListCallsMore(l[1], []);
    assert [l[0]] + [l[1]] == l && [l[1]] + [] == [l[1]] && ListCalls([]) == [];
    BodyProper(Shadowing(n));
    NodeRoom.FewFit(BodyCalls(Shadowing(n)));
  }

  // ---------- its meaning ----------

  function Declared(d: Source.Dcl, v: int): Source.Smt { Source.Declare(Source.VarDcl(d, None, Source.Literal(v))) }

  function InnerTree(): Source.Smt { Source.Block([Declared(1, 2), Source.Return(Source.Ident(1))]) }

  function Tree(): Source.Smt { Source.Block([Declared(0, 1), InnerTree()]) }

  lemma SetsMeans(n: string, v: string, number: int, scope: Scopes.Stack, next: nat)
    requires scope != [] && n !in scope[0] && Frontend.Number(v, 10) == Some(number)
    ensures var m := Means(Sets(n, v), scope, next);
      && m.scope == [scope[0][n := next]] + scope[1..] && m.next == next + 1
      && SmtOf(m.smt, map[]) == Some(Declared(next, number))
  {
  }

  lemma InsideMeans(n: string)
    requires n != "true" && n != "false"
    ensures SmtOf(Means(Inside(n), [map[n := 0], map[]], 1).smt, map[]) == Some(InnerTree())
  {
    hide SmtOf, SmtsOf, ListMeans, Means, ExpOf, Sets;
    var scope: Scopes.Stack := [map[n := 0], map[]];
    var inner: Scopes.Stack := [map[]] + scope;
    var after: Scopes.Stack := [map[n := 1]] + scope;
    var l := [Sets(n, "2"), SReturn(Name(n))];
    var none: map<string, int> := map[];
    Two();
    assert inner[0] == none && none[n := 1] == map[n := 1] && inner[1..] == scope;
    SetsMeans(n, "2", 2, inner, 1);
    assert Scopes.Found(after, n) == Some(1);
    ProgramTexts.NameMeans(n, 1, after, map[]);
    ProgramTexts.ReturnMeans(Name(n), after, 2, map[], Source.Ident(1));
    ProgramTexts.LastMeans(l[1], after, 2, map[], Source.Return(Source.Ident(1)));
    ProgramTexts.HeadMeans(l[0], [l[1]], inner, 1, map[], Declared(1, 2), [Source.Return(Source.Ident(1))]);
    assert [l[0]] + [l[1]] == l && [Declared(1, 2)] + [Source.Return(Source.Ident(1))] == InnerTree().smts;
    ProgramTexts.BlockMeans(Body(l, true), scope, 1, map[], InnerTree().smts);
    BlockMeansOf(Body(l, true), scope, 1);
  }

  lemma BlockMeansOf(b: Body, scope: Scopes.Stack, next: int)
    requires scope != []
    ensures Means(SBlock(b), scope, next).smt == Blk(BodyMeans(b, scope, next).smts)
  {
  }

  lemma Two()
    ensures Frontend.Number("1", 10) == Some(1) && Frontend.Number("2", 10) == Some(2)
  {
    assert "1"[..0] == "" && "2"[..0] == "";
  }

  lemma ShadowingMeans(n: string)
    requires n != "true" && n != "false"
    ensures SmtOf(Blk(BodyMeans(Shadowing(n), [map[]], 0).smts), map[]) == Some(Tree())
  {
    hide SmtOf, SmtsOf, ListMeans, Means, Inside, Sets, InnerTree;
    var empty: Scopes.Stack := [map[]];
    var two: Scopes.Stack := [map[]] + empty;
    var l := [Sets(n, "1"), Inside(n)];
    var none: map<string, int> := map[];
    Two();
    assert two[0] == none && none[n := 0] == map[n := 0] && two[1..] == empty;
    SetsMeans(n, "1", 1, two, 0);
    assert [map[n := 0]] + empty == [map[n := 0], map[]];
    InsideMeans(n);
    ProgramTexts.LastMeans(l[1], [map[n := 0], map[]], 1, map[], InnerTree());
    ProgramTexts.HeadMeans(l[0], [l[1]], two, 0, map[], Declared(0, 1), [InnerTree()]);
    assert [l[0]] + [l[1]] == l && [Declared(0, 1)] + [InnerTree()] == Tree().smts;
    ProgramTexts.BlockMeans(Shadowing(n), empty, 0, map[], Tree().smts);
  }

  // ---------- what it does ----------

  function Shadowed(): Source.Function { Source.Function([], Ints.I64, Tree()) }

  lemma DeclaredRuns(d: Source.Dcl, v: int, store: Source.Store, ctx: Source.Context)
    requires Ints.InRange(Ints.I64, v)
    ensures Source.Exec(Declared(d, v), store, 0, ctx) == Source.Normal(store[d := Source.Val(Ints.I64, v)])
  {
    Ints.WrapIdentity(Ints.I64, v);
    assert Source.Eval(Source.Literal(v), store, ctx) == Source.Gives(Source.Val(Ints.I64, v));
  }

  lemma Runs(ctx: Source.Context)
    requires ctx.ret == Ints.I64
    ensures Preservation.RunSource(Shadowed(), [], 0, ctx) == Source.Returned(2)
  {
    hide Declared;
    var none: Source.Store := map[];
    var one: Source.Store := none[0 := Source.Val(Ints.I64, 1)];
    var two: Source.Store := one[1 := Source.Val(Ints.I64, 2)];
    var l, t := InnerTree().smts, Tree().smts;
    DeclaredRuns(0, 1, none, ctx);
    DeclaredRuns(1, 2, one, ctx);
    Ints.WrapIdentity(Ints.I64, 2);
    assert Source.Eval(Source.Ident(1), two, ctx) == Source.Gives(Source.Val(Ints.I64, 2));
    assert Source.Exec(l[1], two, 0, ctx) == Source.Returned(2);
    assert l[1..] == [l[1]] && Source.ExecSeq(l[1..], two, 0, ctx) == Source.Returned(2);
    SeqRuns(l, one, two, 0, ctx);
    assert Source.Exec(t[1], one, 0, ctx) == Source.Returned(2);
    assert t[1..] == [t[1]] && Source.ExecSeq(t[1..], one, 0, ctx) == Source.Returned(2);
    SeqRuns(t, none, one, 0, ctx);
  }

  lemma Checks(sigs: seq<Source.Signature>)
    ensures Source.Check(Tree(), Source.ParamEnv([]), sigs).Some?
  {
    var none: Source.Env := map[];
    var one := none[0 := Ints.I64];
    var two := one[1 := Ints.I64];
    var l, t := InnerTree().smts, Tree().smts;
    assert Source.Check(l[0], one, sigs) == Some(two) && Source.Check(l[1], two, sigs) == Some(two);
    assert l[1..] == [l[1]] && l[1..][1..] == [] && t[1..] == [t[1]] && t[1..][1..] == [];
    assert Source.CheckSeq(l[1..], two, sigs) == Some(two);
    assert Source.Check(t[1], one, sigs) == Some(one);
    assert Source.Check(t[0], none, sigs) == Some(one);
    assert Source.CheckSeq(t[1..], one, sigs) == Some(one);
  }

  lemma FunctionIs(n: string)
    requires n != "true" && n != "false"
    ensures Compiler.FunctionOf([], Ints.I64, Blk(BodyMeans(Shadowing(n), [map[]], 0).smts), map[]) == Some(Shadowed())
  {
    hide Shadowing, Tree, SmtOf, BodyMeans;
    ShadowingMeans(n);
  }

  lemma Does(ctx: Source.Context)
    requires ctx.ret == Ints.I64
    ensures Preservation.SourceDoes(Shadowed(), [], ctx, Preservation.Result(2))
  {
    hide Preservation.RunSource;
    Runs(ctx);
  }

  /** Whatever its name is, the inner variable is the one returned. */
  lemma InnerReturned(n: string, items: seq<Printing.Item>, tail: string, ctx: Source.Context)
    requires n != "true" && n != "false"
    requires Compiler.LaysOut(items, tail, Shadowing(n)) && ctx.ret == Ints.I64 && ExpSimulation.OracleOk(ctx)
    ensures var o := Lexing.LexAll(Printing.Layout(items, tail), false);
      && o.Tokens? && ParseBlock(o.ts, Compiler.Entered([map[]], 0)).Did?
      && var f := Compiler.FunctionOf([], ctx.ret, ParseBlock(o.ts, Compiler.Entered([map[]], 0)).smt, map[]);
      f.Some? && Preservation.TargetDoes(Preservation.Compiled(f.value, ctx.sigs, [], ctx.calls), Preservation.Result(2))
  {
    hide Shadowing, Tree, BodyMeans, SmtOf, Compiler.FunctionOf, Compiler.LaysOut, Preservation.SourceDoes, Preservation.TargetDoes;
    hide Lexing.LexAll, Printing.Layout, ParseBlock;
    ShadowingReadable(n);
    FunctionIs(n);
    Checks(ctx.sigs);
    Does(ctx);
    NoCalls(BodyCalls(Shadowing(n)));
    Compiler.TextPreserved([], Shadowing(n), items, tail, [map[]], 0, [], map[], [], ctx, Preservation.Result(2));
  }

  lemma ShadowHasText(n: string)
    requires Printing.Printable(Token(Ident, n))
    ensures Compiler.LaysOut(LexTheorems.Spaced(SpellBody(Shadowing(n)), ""), "", Shadowing(n))
  {
    hide Spelling, SpellBody, Compiler.LaysOut, Printing.Printable, Prints;
    SetsPrints(n, "1");
    SetsPrints(n, "2");
    ProgramTexts.LeafPrints(Token(Ident, n));
    assert Grammar.Flatten(Name(n)) == [Token(Ident, n)];
    ProgramTexts.ReturnPrints(Name(n));
    BodyTokens([Sets(n, "2"), SReturn(Name(n))]);
    ProgramTexts.BlockSpells(Body([Sets(n, "2"), SReturn(Name(n))], true));
    BodyTokens([Sets(n, "1"), Inside(n)]);
    FileText.AllPrint(SpellBody(Shadowing(n)));
    Compiler.BodyPrints(Shadowing(n));
  }

  lemma SetsPrints(n: string, v: string)
    requires Printing.Printable(Token(Ident, n)) && (v == "1" || v == "2")
    ensures Prints(Spelling(Sets(n, v)))
  {
    hide Prints, Printing.Printable;
    ProgramTexts.LeafPrints(Token(Ident, n));
    DigitPrints(v);
    assert Grammar.Flatten(Name(n)) == [Token(Ident, n)] && Grammar.Flatten(Digits(v)) == [Token(Int, v)];
    PairPrints(Name(n), Define, Digits(v));
  }

  lemma DigitPrints(v: string)
    requires v == "1" || v == "2"
    ensures Prints([Token(Int, v)])
  {
  }
}
