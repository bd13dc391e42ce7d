/** The text of `tests/tests/ifElseIfElse.acl`, with any of the two truth values in each test. */
module ElseText {
  import opened Wrappers
  import opened Tokens
  import Printing
  import Pratt
  import Grammar
  import NodeSizes
  import LexTheorems
  import opened LoopText
  import Scopes
  import Ints
  import Ir
  import Source
  import Preservation
  import Programs
  import opened Statements
  import opened StatementGrammar
  import opened Files
  import opened FileGrammar
  import opened FileCompiler
  import opened Frontend
  import opened NodeGrammar
  import opened ProgramTexts

  function Truth(b: bool): Pratt.Exp { Name(if b then "true" else "false") }

  function Lone(e: Pratt.Exp): Body { Lines([SReturn(e)]) }

  /** `else { return 0 }` */
  function Third(): Src { SBlock(Lone(Zero())) }

  /** `else if c { return 123 } else { return 0 }` */
  function Second(c: bool): Src { SIf(Truth(c), Lone(Digits("123")), Some(Third())) }

  function Chain(b: bool, c: bool): Src { SIf(Truth(b), Lone(Digits("321")), Some(Second(c))) }

  function MainFun(b: bool, c: bool): Fun { Fun("main", [], Named("int"), Lines([Chain(b, c)]), false) }

  function File(b: bool, c: bool): seq<Item> { [FunItem(MainFun(b, c))] }

  // ---------- it can be read ----------

  lemma LoneReadable(e: Pratt.Exp)
    requires Leaf(e)
    ensures BodyReadable(Lone(e)) && |BodyCalls(Lone(e))| == 3
  {
    LeafFits(e, Semi);
    ReturnFits(e);
    LastReadable(SReturn(e));
  }

  lemma ChainReadable(b: bool, c: bool)
    ensures Readable(Chain(b, c), Semi) && |Calls(Chain(b, c))| < 20
  {
    hide BodyReadable, BodyCalls, Lone, Fits;
    LoneReadable(Zero());
    LoneReadable(Digits("123"));
    LoneReadable(Digits("321"));
    LeafFits(Truth(b), LBrace);
    LeafFits(Truth(c), LBrace);
    assert Readable(Third(), Semi) && |Calls(Third())| == 3;
    assert Readable(Second(c), Semi) && |Calls(Second(c))| == 1 + 3 + 3 + 1 + 1;
  }

  lemma FileFits(b: bool, c: bool)
    ensures FileReadable(File(b, c)) && |FileCalls(File(b, c))| < 128
  {
    hide Chain, Readable, Calls, BodyReadable, BodyCalls;
    ChainReadable(b, c);
    LastReadable(Chain(b, c));
    OneReadable(MainFun(b, c), []);
    assert [FunItem(MainFun(b, c))] + [] == File(b, c);
  }

  // ---------- what it means ----------

  function Returned(v: int): Source.Smt { Source.Block([Source.Return(Source.Literal(v))]) }

  function Tree(b: bool, c: bool): Source.Smt {
    Source.If(Some(Source.BoolLit(b)), Returned(321), Some(
      Source.If(Some(Source.BoolLit(c)), Returned(123), Some(Source.If(None, Returned(0), None)))))
  }

  function Main(b: bool, c: bool): Source.Function { Source.Function([], Ints.I64, Source.Block([Tree(b, c)])) }

  lemma LoneMeans(e: Pratt.Exp, v: int, scope: Scopes.Stack, funs: map<Source.Dcl, nat>)
    requires scope != [] && e.Literal? && LiteralOf(e.token) == Some(v)
    ensures SmtOf(Blk(BodyMeans(Lone(e), scope, 1).smts), funs) == Some(Returned(v)) && BodyMeans(Lone(e), scope, 1).next == 1
  {
    hide SmtOf, SmtsOf, ListMeans, Means, LiteralOf, BodyMeans;
    var inner: Scopes.Stack := [map[]] + scope;
    ReturnMeans(e, inner, 1, funs, Source.Literal(v));
    LastMeans(SReturn(e), inner, 1, funs, Source.Return(Source.Literal(v)));
    BlockMeans(Lone(e), scope, 1, funs, [Source.Return(Source.Literal(v))]);
  }

  lemma Values()
    ensures LiteralOf(Token(Octal, "")) == Some(0) && LiteralOf(Token(Int, "123")) == Some(123) && LiteralOf(Token(Int, "321")) == Some(321)
  {
    assert "1"[..0] == "" && "12"[..1] == "1" && "123"[..2] == "12";
    assert "3"[..0] == "" && "32"[..1] == "3" && "321"[..2] == "32";
  }

  lemma TruthMeans(b: bool, scope: Scopes.Stack, funs: map<Source.Dcl, nat>)
    ensures ExpOf(Truth(b), scope, funs) == Some(Source.BoolLit(b))
  {
  }

  lemma ChainMeans(b: bool, c: bool, scope: Scopes.Stack, funs: map<Source.Dcl, nat>)
    requires scope != []
    ensures var m := Means(Chain(b, c), scope, 1); SmtOf(m.smt, funs) == Some(Tree(b, c)) && m.next == 1
  {
    hide SmtOf, Means, LiteralOf, BodyMeans, ExpOf, Lone, Truth, Returned;
    Values();
    LoneMeans(Zero(), 0, scope, funs);
    LoneMeans(Digits("123"), 123, scope, funs);
    LoneMeans(Digits("321"), 321, scope, funs);
    TruthMeans(b, scope, funs);
    TruthMeans(c, scope, funs);
    LastElse(Lone(Zero()), scope, 1, funs, Returned(0));
    var e := Source.If(None, Returned(0), None);
    ElseMeans(Truth(c), Lone(Digits("123")), Third(), scope, 1, funs, Source.BoolLit(c), Returned(123), e);
    var more := Source.If(Some(Source.BoolLit(c)), Returned(123), Some(e));
    MeansBranch(Second(c), scope);
    ElseMeans(Truth(b), Lone(Digits("321")), Second(c), scope, 1, funs, Source.BoolLit(b), Returned(321), more);
  }

  lemma MeansBranch(s: Src, scope: Scopes.Stack)
    requires scope != [] && s.SIf?
    ensures Elses(s, scope, 1) == Means(s, scope, 1).smt && Means(s, scope, 1).smt.Branch?
  {
  }

  function Ended(): map<string, int> { map["main" := 0] }

  lemma MainBody(b: bool, c: bool, funs: map<Source.Dcl, nat>)
    ensures var body := Lines([Chain(b, c)]);
      SmtOf(Blk(BodyMeans(body, [Ended()], 1).smts), funs) == Some(Main(b, c).body) && BodyMeans(body, [Ended()], 1).next == 1
  {
    hide SmtOf, SmtsOf, ListMeans, Means, BodyMeans, Chain, Tree;
    var outer: Scopes.Stack := [map[]] + [Ended()];
    ChainMeans(b, c, outer, funs);
    LastMeans(Chain(b, c), outer, 1, funs, Tree(b, c));
    BlockMeans(Lines([Chain(b, c)]), [Ended()], 1, funs, [Tree(b, c)]);
  }

  lemma MainHead(b: bool, c: bool)
    ensures var f := MainFun(b, c);
      Inside(f, [map[]], 0) == [Ended()] && ParametersOf(f.args, 0) == Some([]) && WidthOf(f.ret) == Some(Ints.I64)
  {
    hide Chain;
    assert InOrder([], "main") == ["main"] && ["main"][1..] == [];
    var s := Scopes.Inserted([map[]], "main", 0).0;
    assert s == [Ended()] && InsertAll(s, [], 1) == s;
  }

  lemma FileMeansProgram(b: bool, c: bool)
    ensures ProgramOf(FileMeans(File(b, c), [map[]], 0).tops) == Some([Main(b, c)])
  {
    hide ProgramOf, FileMeans, BodyMeans, SmtOf, ParametersOf, WidthOf, Inside, Chain, Tree;
    NoFunction();
    MainHead(b, c);
    var none: map<Source.Dcl, nat> := map[];
    MainBody(b, c, none[0 := 0]);
    NextFunction([], [], none, [map[]], 0, MainFun(b, c), [Ended()], Main(b, c));
    assert [] + [FunItem(MainFun(b, c))] == File(b, c) && [] + [Main(b, c)] == [Main(b, c)];
  }

  // ---------- what it answers ----------

  function Chosen(b: bool, c: bool): int { if b then 321 else if c then 123 else 0 }

  lemma ReturnedRuns(v: int, ctx: Source.Context)
    requires Ints.InRange(Ints.I64, v) && ctx.ret == Ints.I64
    ensures Source.Exec(Returned(v), map[], 0, ctx) == Source.Returned(v)
  {
    Ints.WrapIdentity(Ints.I64, v);
    var s := Source.Return(Source.Literal(v));
    assert Source.Exec(s, map[], 0, ctx) == Source.Returned(v);
  }

  lemma TreeRuns(b: bool, c: bool, ctx: Source.Context)
    requires ctx.ret == Ints.I64
    ensures Source.Exec(Tree(b, c), map[], 0, ctx) == Source.Returned(Chosen(b, c))
  {
    hide Returned;
    ReturnedRuns(321, ctx);
    ReturnedRuns(123, ctx);
    ReturnedRuns(0, ctx);
    var t := Tree(b, c);
    assert Source.Exec(t.elses.value.elses.value, map[], 0, ctx) == Source.Returned(0);
    assert Source.Exec(t.elses.value, map[], 0, ctx) == Source.Returned(if c then 123 else 0);
  }

  lemma ReturnedChecks(v: int, sigs: seq<Source.Signature>)
    ensures Source.Check(Returned(v), map[], sigs) == Some(map[])
    ensures Returned(v).Block? && forall used :: Source.Tree(Returned(v), used)
    ensures Source.Dcls(Returned(v)) == {}
  {
    var s, none: Source.Env := Source.Return(Source.Literal(v)), map[];
    assert [s][1..] == [] && Source.CheckSeq([], none, sigs) == Some(none);
    assert Source.CheckSeq([s], none, sigs) == Some(none);
    assert Source.DclsSeq([]) == {} && Source.DclsSeq([s]) == {};
    forall used: set<Source.Dcl> ensures Source.Tree(Returned(v), used) {
      assert Source.TreeSeq([], used + Source.Dcls(s)) && Source.TreeSeq([s], used);
    }
  }

  lemma Checked(b: bool, c: bool)
    ensures Source.CheckProgram([Main(b, c)])
  {
    var prog := [Main(b, c)];
    var sigs := Source.Signatures(prog, 0);
    TreeChecks(b, c, sigs);
    OneChecks(Tree(b, c), sigs);
    assert Source.CheckNth(prog, 0);
  }

  lemma OneChecks(s: Source.Smt, sigs: seq<Source.Signature>)
    requires Source.Check(s, map[], sigs) == Some(map[]) && Source.Tree(s, {})
    ensures Source.CheckFunction(Source.Function([], Ints.I64, Source.Block([s])), sigs)
  {
    var none: Source.Env := map[];
    assert [s][1..] == [] && Source.ParamEnv([]) == none && none.Keys == {};
    assert Source.CheckSeq([], none, sigs) == Some(none) && Source.CheckSeq([s], none, sigs) == Some(none);
    assert Source.TreeSeq([], {} + Source.Dcls(s)) && Source.TreeSeq([s], {});
  }

  lemma TreeChecks(b: bool, c: bool, sigs: seq<Source.Signature>)
    ensures Source.Check(Tree(b, c), map[], sigs) == Some(map[]) && Source.Tree(Tree(b, c), {})
  {
    hide Returned;
    ReturnedChecks(321, sigs);
    ReturnedChecks(123, sigs);
    ReturnedChecks(0, sigs);
    var t := Tree(b, c);
    assert Source.CheckElse(t.elses.value.elses.value, map[], sigs);
    assert Source.Check(t.elses.value, map[], sigs) == Some(map[]);
    assert Source.CheckElse(t.elses.value, map[], sigs);
  }

  /** Any text of the file answers what stands in the first branch whose test is true. */
  lemma ChainAnswers(items: seq<Printing.Item>, tail: string, b: bool, c: bool)
    requires LaysOut(items, tail, File(b, c))
    ensures Answers(items, tail, 0, [], Ir.Returns(if b then 321 else if c then 123 else 0))
  {
    hide LaysOut, FileReadable, FileCalls, FileMeans, ProgramOf, Answers, Programs.SourceProgram, File, Tree, Source.CheckProgram;
    FileFits(b, c);
    FileMeansProgram(b, c);
    Checked(b, c);
    MainAnswers(b, c);
    FromSource(File(b, c), [Main(b, c)], items, tail, 0, [], Ir.Returns(Chosen(b, c)));
  }

  lemma MainAnswers(b: bool, c: bool)
    ensures Programs.SourceProgram([Main(b, c)], 0, [], Ir.Returns(Chosen(b, c)))
  {
    hide Tree, Programs.SourceProgram, Source.CheckProgram;
    var prog := [Main(b, c)];
    var ctx := Programs.ContextOf(prog, 0, imap[]);
    var none: Source.Store := map[];
    TreeRuns(b, c, ctx);
    Checked(b, c);
    assert Source.Bind([], []) == none;
    assert Source.ExecSeq([Tree(b, c)], none, 0, ctx) == Source.Returned(Chosen(b, c));
    assert Preservation.RunSource(Main(b, c), [], 0, ctx) == Source.Returned(Chosen(b, c));
    assert Programs.SourceAnswers(prog, imap[], Ir.Invocation(0, []), Ir.Returns(Chosen(b, c)));
    Programs.AnswersAlone(prog, Ir.Invocation(0, []), Ir.Returns(Chosen(b, c)));
  }

  // ---------- there are such texts ----------

  /** The truth values are names to the lexer. */
  lemma TruthPrints(b: bool)
    ensures Prints(Grammar.Flatten(Truth(b)))
  {
    if b { TruePrints(); } else { FalsePrints(); }
  }

  lemma TruePrints()
    ensures Prints([Token(Ident, "true")])
  {
  }

  lemma FalsePrints()
    ensures Prints([Token(Ident, "false")])
  {
  }

  lemma ValuesPrint()
    ensures Prints([Token(Int, "123")]) && Prints([Token(Int, "321")]) && Prints([Token(Octal, "")])
  {
  }

  lemma LonePrints(e: Pratt.Exp)
    requires Prints(Grammar.Flatten(e))
    ensures Prints(SpellBody(Lone(e)))
  {
    hide Prints, Spelling, SpellBody;
    ReturnPrints(e);
    BodyTokens([SReturn(e)]);
  }

  lemma ChainHasText(b: bool, c: bool)
    ensures LaysOut(LexTheorems.Spaced(SpellFile(File(b, c)), ""), "", File(b, c))
  {
    hide Prints, Spelling, SpellBody, Printing.Printable, TokenName, Lone, Truth, LaysOut;
    ValuesPrint();
    TruthPrints(b);
    TruthPrints(c);
    LonePrints(Zero());
    LonePrints(Digits("123"));
    LonePrints(Digits("321"));
    BlockSpells(Lone(Zero()));
    IfPrints(Truth(c), Lone(Digits("123")), Some(Third()));
    IfPrints(Truth(b), Lone(Digits("321")), Some(Second(c)));
    BodyTokens([Chain(b, c)]);
    MainPrint();
    TypePrints();
    FunPrints(MainFun(b, c));
    HaveText(File(b, c));
  }
}
