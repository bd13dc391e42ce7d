/** The text of a typed variable and a minus, with any types and any decimal number:
    `tests/tests/longVar.acl` and `tests/tests/unary.acl` in one. */
module TypedText {
  import opened Wrappers
  import opened Tokens
  import Printing
  import Pratt
  import Grammar
  import NodeSizes
  import LexTheorems
  import opened LoopText
  import Scopes
  import Ints
  import IntLaws
  import Ir
  import Source
  import Preservation
  import Programs
  import opened Statements
  import opened StatementGrammar
  import opened Files
  import opened FileGrammar
  import opened FileCompiler
  import opened Frontend
  import opened NodeGrammar
  import opened ProgramTexts

  /** `var t x = k` */
  function Typed(t: string, k: string): Src { SVar(StatementGrammar.Decl(Some(Named(t)), "x", Digits(k))) }

  function Minus(): Pratt.Exp { Pratt.Unary(Grammar.Mark(Sub), Name("x")) }

  /** `proc main :: -> u { var t x = k return -x }` */
  function MainFun(u: string, t: string, k: string): Fun { Fun("main", [], Named(u), Lines([Typed(t, k), SReturn(Minus())]), false) }

  function File(u: string, t: string, k: string): seq<Item> { [FunItem(MainFun(u, t, k))] }

  // ---------- it can be read ----------

  lemma MinusReadable()
    ensures Fits(Minus(), Semi) && NodeSizes.Size(Minus()) == 2
  {
    assert Grammar.Respects(Name("x"), Pratt.UNARY_POWER) && Grammar.CanFollow(Name("x"), Semi);
  }

  lemma TypedReadable(t: string, k: string)
    ensures Readable(Typed(t, k), Semi) && |Calls(Typed(t, k))| == 4
  {
    hide Fits, NodeSizes.Size;
    LeafFits(Digits(k), Semi);
  }

  lemma FileFits(u: string, t: string, k: string)
    ensures FileReadable(File(u, t, k)) && |FileCalls(File(u, t, k))| < 128
  {
    hide Readable, Calls, Fits, ListCalls, Typed, Minus;
    MinusReadable();
    TypedReadable(t, k);
    ReturnFits(Minus());
    LastReadable(SReturn(Minus()));
    FirstReadable(Typed(t, k), [SReturn(Minus())]);
    assert [Typed(t, k)] + [SReturn(Minus())] == MainFun(u, t, k).body.smts;
    OneReadable(MainFun(u, t, k), []);
    assert [FunItem(MainFun(u, t, k))] + [] == File(u, t, k);
  }

  // ---------- what it means ----------

  function Declared(w: Ints.Width, k: int): Source.Smt { Source.Declare(Source.VarDcl(1, Some(w), Source.Literal(k))) }

  function Negated(): Source.Smt { Source.Return(Source.Unary(Source.Minus, Source.Ident(1))) }

  function Main(v: Ints.Width, w: Ints.Width, k: int): Source.Function { Source.Function([], v, Source.Block([Declared(w, k), Negated()])) }

  /** The scope of the file, and that of the body in it. */
  function Ended(): map<string, int> { map["main" := 0] }

  lemma TypedMeans(t: string, k: string, w: Ints.Width, number: int, funs: map<Source.Dcl, nat>)
    requires WidthOf(Named(t)) == Some(w) && Frontend.Number(k, 10) == Some(number)
    ensures var m := Means(Typed(t, k), [map[], Ended()], 1);
      m.scope == [map["x" := 1], Ended()] && m.next == 2 && SmtOf(m.smt, funs) == Some(Declared(w, number))
  {
    hide WidthOf;
    var scope: Scopes.Stack := [map[], Ended()];
    var none: map<string, int> := map[];
    assert scope[0] == none && none["x" := 1] == map["x" := 1] && scope[1..] == [Ended()];
    assert StatementGrammar.Bind(scope, "x", 1) == [map["x" := 1], Ended()];
    var v := StatementGrammar.Declared(StatementGrammar.Decl(Some(Named(t)), "x", Digits(k)), scope, 1);
    assert ExpOf(Digits(k), scope, funs) == Some(Source.Literal(number));
    assert VariableOf(Some(v), funs) == Some(Source.VarDcl(1, Some(w), Source.Literal(number)));
  }

  lemma MinusMeans(scope: Scopes.Stack, funs: map<Source.Dcl, nat>)
    requires Scopes.Found(scope, "x") == Some(1)
    ensures ExpOf(Minus(), scope, funs) == Some(Source.Unary(Source.Minus, Source.Ident(1)))
  {
    assert ExpOf(Name("x"), scope, funs) == Some(Source.Ident(1));
  }

  lemma MainBody(u: string, t: string, k: string, v: Ints.Width, w: Ints.Width, number: int, funs: map<Source.Dcl, nat>)
    requires WidthOf(Named(t)) == Some(w) && Frontend.Number(k, 10) == Some(number)
    ensures SmtOf(Blk(BodyMeans(MainFun(u, t, k).body, [Ended()], 1).smts), funs) == Some(Main(v, w, number).body)
  {
    hide SmtOf, SmtsOf, ListMeans, Means, BodyMeans, ExpOf, Typed, Minus, WidthOf, Frontend.Number;
    var outer: Scopes.Stack := [map[]] + [Ended()];
    var inner: Scopes.Stack := [map["x" := 1], Ended()];
    assert outer == [map[], Ended()] && Scopes.Found(inner, "x") == Some(1);
    TypedMeans(t, k, w, number, funs);
    MinusMeans(inner, funs);
    ReturnMeans(Minus(), inner, 2, funs, Source.Unary(Source.Minus, Source.Ident(1)));
    LastMeans(SReturn(Minus()), inner, 2, funs, Negated());
    HeadMeans(Typed(t, k), [SReturn(Minus())], outer, 1, funs, Declared(w, number), [Negated()]);
    assert [Typed(t, k)] + [SReturn(Minus())] == MainFun(u, t, k).body.smts && [Declared(w, number)] + [Negated()] == Main(v, w, number).body.smts;
    BlockMeans(MainFun(u, t, k).body, [Ended()], 1, funs, Main(v, w, number).body.smts);
  }

  lemma MainHead(u: string, t: string, k: string)
    ensures var f := MainFun(u, t, k);
      Inside(f, [map[]], 0) == [Ended()] && ParametersOf(f.args, 0) == Some([]) && f.ret == Named(u)
  {
    assert InOrder([], "main") == ["main"] && ["main"][1..] == [];
    var s := Scopes.Inserted([map[]], "main", 0).0;
    assert s == [Ended()] && InsertAll(s, [], 1) == s;
  }

  lemma FileMeansProgram(u: string, t: string, k: string, v: Ints.Width, w: Ints.Width, number: int)
    requires WidthOf(Named(u)) == Some(v) && WidthOf(Named(t)) == Some(w) && Frontend.Number(k, 10) == Some(number)
    ensures ProgramOf(FileMeans(File(u, t, k), [map[]], 0).tops) == Some([Main(v, w, number)])
  {
    hide ProgramOf, FileMeans, BodyMeans, SmtOf, ParametersOf, WidthOf, Inside, Frontend.Number;
    NoFunction();
    MainHead(u, t, k);
    var none: map<Source.Dcl, nat> := map[];
    MainBody(u, t, k, v, w, number, none[0 := 0]);
    NextFunction([], [], none, [map[]], 0, MainFun(u, t, k), [Ended()], Main(v, w, number));
    assert [] + [FunItem(MainFun(u, t, k))] == File(u, t, k) && [] + [Main(v, w, number)] == [Main(v, w, number)];
  }

  // ---------- what it answers ----------

  lemma Checked(v: Ints.Width, w: Ints.Width, k: int)
    ensures Source.CheckProgram([Main(v, w, k)])
  {
    var prog := [Main(v, w, k)];
    var sigs := Source.Signatures(prog, 0);
    var l, none: Source.Env := Main(v, w, k).body.smts, map[];
    var env := none[1 := w];
    assert Source.ParamEnv([]) == none && none.Keys == {};
    assert Source.ExpType(Source.Literal(k), none, sigs) == Some(Ints.I64);
    assert Source.Check(l[0], none, sigs) == Some(env);
    assert Source.ExpType(Source.Ident(1), env, sigs) == Some(w);
    assert Source.ExpType(l[1].result, env, sigs) == Some(w) && Source.Check(l[1], env, sigs) == Some(env);
    assert l[1..] == [l[1]] && l[1..][1..] == [];
    var used := none.Keys + Source.Dcls(l[0]);
    assert Source.TreeSeq([], used + Source.Dcls(l[1]));
    assert [l[1]][1..] == [] && Source.TreeSeq([l[1]], used) && Source.TreeSeq(l, none.Keys);
    assert Source.CheckSeq([], env, sigs) == Some(env) && Source.CheckSeq([l[1]], env, sigs) == Some(env);
    assert Source.CheckSeq(l, none, sigs) == Some(env);
    assert Source.CheckNth(prog, 0);
  }

  /** What is left of a number after a width and then a narrower one is what the narrower leaves. */
  lemma Narrower(w: Ints.Width, k: int, m: int, r: int)
    requires IntLaws.Reduced(Ints.I64, k, m) && IntLaws.Reduced(w, m, r)
    ensures IntLaws.Reduced(w, k, r)
  {
    hide IntLaws.TwoTo;
    var b, rest := IntLaws.TwoTo(IntLaws.Bits(w)), IntLaws.TwoTo(64 - IntLaws.Bits(w));
    IntLaws.TwoToSum(64 - IntLaws.Bits(w), IntLaws.Bits(w));
    var i: int :| m == k + i * IntLaws.TwoTo(64);
    var j: int :| r == m + j * b;
    Regrouped(i, rest, b, j);
    assert r == k + (i * rest + j) * b;
  }

  lemma Regrouped(i: int, rest: int, b: int, j: int)
    ensures i * (rest * b) + j * b == (i * rest + j) * b
  {
    assert i * (rest * b) == i * rest * b;
    assert (i * rest + j) * b == i * rest * b + j * b;
  }

  /** `r` is what width `v` keeps of the negative of what width `w` keeps of `k`. */
  ghost predicate Left(v: Ints.Width, w: Ints.Width, k: int, r: int) {
    exists kept, n :: IntLaws.Reduced(w, k, kept) && IntLaws.Reduced(w, 0 - kept, n) && IntLaws.Reduced(v, n, r)
  }

  lemma MainRuns(v: Ints.Width, w: Ints.Width, k: int, ctx: Source.Context) returns (r: int)
    requires ctx.ret == v
    ensures Left(v, w, k, r) && Preservation.RunSource(Main(v, w, k), [], 0, ctx) == Source.Returned(r)
  {
    hide Ints.Wrap, IntLaws.Reduced, Ints.InRange;
    var none: Source.Store := map[];
    var m := Ints.Wrap(Ints.I64, k);
    var kept := Ints.Wrap(w, m);
    var n := Ints.Wrap(w, -kept);
    r := Ints.Wrap(v, n);
    IntLaws.WrapReduced(Ints.I64, k);
    IntLaws.WrapReduced(w, m);
    Narrower(w, k, m, kept);
    IntLaws.WrapReduced(w, 0 - kept);
    IntLaws.WrapReduced(v, n);
    var store := none[1 := Source.Val(w, kept)];
    var l := Main(v, w, k).body.smts;
    assert Source.Eval(Source.Literal(k), none, ctx) == Source.Gives(Source.Val(Ints.I64, m));
    assert Source.Exec(l[0], none, 0, ctx) == Source.Normal(store);
    assert Source.Eval(Source.Ident(1), store, ctx) == Source.Gives(Source.Val(w, kept));
    assert Source.Exec(l[1], store, 0, ctx) == Source.Returned(r);
    assert l[1..] == [l[1]] && Source.ExecSeq(l[1..], store, 0, ctx) == Source.Returned(r);
    SeqRuns(l, none, store, 0, ctx);
    assert Source.Bind([], []) == none;
  }

  lemma MainAnswers(v: Ints.Width, w: Ints.Width, k: int) returns (r: int)
    ensures Left(v, w, k, r) && Programs.SourceProgram([Main(v, w, k)], 0, [], Ir.Returns(r))
  {
    hide Main, Left, Programs.SourceProgram, Source.CheckProgram, Preservation.RunSource;
    var prog := [Main(v, w, k)];
    MainShape(v, w, k);
    r := MainRuns(v, w, k, Programs.ContextOf(prog, 0, imap[]));
    Checked(v, w, k);
    assert Programs.SourceAnswers(prog, imap[], Ir.Invocation(0, []), Ir.Returns(r));
    Programs.AnswersAlone(prog, Ir.Invocation(0, []), Ir.Returns(r));
  }

  lemma MainShape(v: Ints.Width, w: Ints.Width, k: int)
    ensures Main(v, w, k).params == [] && Main(v, w, k).ret == v
  {
  }

  /** Any text of the file answers what the result type keeps of the negative of what the type
      of the variable keeps of the number. */
  lemma TypedAnswers(items: seq<Printing.Item>, tail: string, u: string, t: string, k: string, v: Ints.Width, w: Ints.Width, number: int) returns (r: int)
    requires LaysOut(items, tail, File(u, t, k))
    requires WidthOf(Named(u)) == Some(v) && WidthOf(Named(t)) == Some(w) && Frontend.Number(k, 10) == Some(number)
    ensures Left(v, w, number, r) && Answers(items, tail, 0, [], Ir.Returns(r))
  {
    hide LaysOut, FileReadable, FileCalls, FileMeans, ProgramOf, Answers, Programs.SourceProgram, File, Main, Source.CheckProgram, Left, WidthOf, Frontend.Number;
    FileFits(u, t, k);
    FileMeansProgram(u, t, k, v, w, number);
    Checked(v, w, number);
    r := MainAnswers(v, w, number);
    FromSource(File(u, t, k), [Main(v, w, number)], items, tail, 0, [], Ir.Returns(r));
  }

  /** With `var i8 x = 200` that is 56, as the byte that is left of 200 is -56. */
  lemma ByteAnswers(items: seq<Printing.Item>, tail: string)
    requires LaysOut(items, tail, File("int", "i8", "200"))
    ensures Answers(items, tail, 0, [], Ir.Returns(56))
  {
    hide LaysOut, Answers, IntLaws.Reduced, File, Frontend.Number;
    TwoHundred();
    var r := TypedAnswers(items, tail, "int", "i8", "200", Ints.I64, Ints.I8, 200);
    var kept, n :| IntLaws.Reduced(Ints.I8, 200, kept) && IntLaws.Reduced(Ints.I8, 0 - kept, n) && IntLaws.Reduced(Ints.I64, n, r);
    Byte();
    IntLaws.ReducedUnique(Ints.I8, 200, kept, -56);
    IntLaws.ReducedUnique(Ints.I8, 0 - kept, n, 56);
    IntLaws.ReducedUnique(Ints.I64, n, r, 56);
  }

  lemma TwoHundred()
    ensures Frontend.Number("200", 10) == Some(200)
  {
    assert "2"[..0] == "" && "20"[..1] == "2" && "200"[..2] == "20";
  }

  lemma Byte()
    ensures IntLaws.Reduced(Ints.I8, 200, -56) && IntLaws.Reduced(Ints.I8, 0 - -56, 56) && IntLaws.Reduced(Ints.I64, 56, 56)
  {
    IntLaws.TwoTo16();
    assert -56 == 200 + (-1) * IntLaws.TwoTo(8) && 56 == (0 - -56) + 0 * IntLaws.TwoTo(8);
    assert 56 == 56 + 0 * IntLaws.TwoTo(64);
  }

  // ---------- there are such texts ----------

  lemma XPrints()
    ensures Printing.Printable(Token(Ident, "x"))
  {
  }

  lemma TypedPrints(t: string, k: string)
    requires Printing.Printable(Token(Ident, t)) && Printing.Printable(Token(Int, k))
    ensures Prints(Spelling(Typed(t, k)))
  {
    hide Prints, Printing.Printable, TokenName;
    XPrints();
    LeafPrints(Token(Ident, "x"));
    LeafPrints(Token(Ident, t));
    LeafPrints(Token(Int, k));
    MarkPrints(Assign);
    MarkPrints(Var);
    assert Grammar.Flatten(Digits(k)) == [Token(Int, k)];
    Glued([Grammar.Mark(Assign)], [Token(Int, k)]);
    Glued([Token(Ident, "x")], [Grammar.Mark(Assign)] + [Token(Int, k)]);
    Glued([Token(Ident, t)], FlattenNamed("x", Digits(k)));
    Glued([Key(Var)], [Token(Ident, t)] + FlattenNamed("x", Digits(k)));
  }

  lemma MinusPrints()
    ensures Prints(Spelling(SReturn(Minus())))
  {
    hide Prints, Printing.Printable, TokenName;
    XPrints();
    LeafPrints(Token(Ident, "x"));
    assert Grammar.Flatten(Name("x")) == [Token(Ident, "x")];
    MarkPrints(Sub);
    Glued([Grammar.Mark(Sub)], [Token(Ident, "x")]);
    ReturnPrints(Minus());
  }

  lemma TypedHasText(u: string, t: string, k: string)
    requires Printing.Printable(Token(Ident, u)) && Printing.Printable(Token(Ident, t)) && Printing.Printable(Token(Int, k))
    ensures LaysOut(LexTheorems.Spaced(SpellFile(File(u, t, k)), ""), "", File(u, t, k))
  {
    hide Prints, Spelling, SpellBody, Printing.Printable, TokenName, LaysOut, Typed, Minus;
    TypedPrints(t, k);
    MinusPrints();
    BodyTokens([Typed(t, k), SReturn(Minus())]);
    MainPrint();
    FunPrints(MainFun(u, t, k));
    HaveText(File(u, t, k));
  }
}
