/** The text of `tests/tests/gcd.acl`. */
module GcdText {
  import opened Wrappers
  import opened Tokens
  import Printing
  import Pratt
  import Grammar
  import NodeSizes
  import LexTheorems
  import opened LoopText
  import Scopes
  import Ints
  import Ir
  import Source
  import Programs
  import opened Statements
  import opened StatementGrammar
  import opened Files
  import opened FileGrammar
  import opened FileCompiler
  import opened Frontend
  import opened NodeGrammar
  import opened ProgramTexts
  import Euclid

  function GcdFun(): Fun {
    Fun("gcd", [Arg(Named("int"), "a"), Arg(Named("int"), "b")], Named("int"),
      Lines([SIf(Pair(Name("b"), Eql, Pratt.Literal(Token(Octal, ""))), Lines([SReturn(Name("a"))]), None),
        SReturn(Pratt.Call(Name("gcd"), [Name("b"), Pair(Name("a"), Rem, Name("b"))]))]), true)
  }

  function MainFun(): Fun {
    Fun("main", [], Named("int"), Lines([SReturn(Pratt.Call(Name("gcd"), [Digits("1529"), Digits("14039")]))]), false)
  }

  function File(): seq<Item> { [FunItem(GcdFun()), FunItem(MainFun())] }

  function Test(): Src { GcdFun().body.smts[0] }

  function Next(): Pratt.Exp { GcdFun().body.smts[1].e }

  lemma TestReadable()
    ensures Readable(Test(), Semi) && |Calls(Test())| == 7
  {
    hide BodyReadable, BodyCalls, Fits, NodeSizes.Size;
    LeafFits(Name("a"), Semi);
    PairFits(Name("b"), Grammar.Mark(Eql), Pratt.Literal(Token(Octal, "")), LBrace);
    LastReadable(SReturn(Name("a")));
  }

  lemma NextReadable()
    ensures Fits(Next(), Semi) && NodeSizes.Size(Next()) == 6
  {
    hide Fits, NodeSizes.Size;
    LeafFits(Name("b"), Comma);
    PairFits(Name("a"), Grammar.Mark(Rem), Name("b"), RParen);
    CallFits("gcd", [Name("b"), Pair(Name("a"), Rem, Name("b"))], Semi);
  }

  lemma GcdReadable()
    ensures FunReadable(GcdFun()) && |FunCalls(GcdFun())| == 21
  {
    hide Readable, Calls, Fits, ListCalls;
    TestReadable();
    NextReadable();
    ReturnFits(Next());
    LastReadable(SReturn(Next()));
    FirstReadable(Test(), [SReturn(Next())]);
    assert [Test()] + [SReturn(Next())] == GcdFun().body.smts;
  }

  lemma MainReadable()
    ensures FunReadable(MainFun()) && |FunCalls(MainFun())| == 8
  {
    hide Fits, NodeSizes.Size, BodyReadable, BodyCalls;
    var e := MainFun().body.smts[0].e;
    LeafFits(Digits("1529"), Comma);
    LeafFits(Digits("14039"), RParen);
    CallFits("gcd", e.args, Semi);
    LastReadable(SReturn(e));
  }

  lemma FileFits()
    ensures FileReadable(File()) && |FileCalls(File())| < 128
  {
    hide GcdFun, MainFun, FunCalls;
    GcdReadable();
    MainReadable();
    OneReadable(GcdFun(), [FunItem(MainFun())]);
    OneReadable(MainFun(), []);
    assert [FunItem(MainFun())] + [] == [FunItem(MainFun())] && [FunItem(GcdFun())] + [FunItem(MainFun())] == File();
  }

  lemma Numbers()
    ensures Frontend.Number("1529", 10) == Some(1529) && Frontend.Number("14039", 10) == Some(14039) && Frontend.Number("", 8) == Some(0)
  {
    assert "1529"[..3] == "152" && "152"[..2] == "15" && "15"[..1] == "1" && "1"[..0] == "";
    assert "14039"[..4] == "1403" && "1403"[..3] == "140" && "140"[..2] == "14" && "14"[..1] == "1";
  }

  /** After the parameters and the name of the first function. */
  function Bound(): map<string, int> { map["a" := 0, "b" := 1, "gcd" := 2] }

  lemma GcdScope()
    ensures Inside(GcdFun(), [map[]], 0) == [Bound()]
  {
  }

  lemma TestMeans(scope: Scopes.Stack, funs: map<Source.Dcl, nat>)
    requires Scopes.Found(scope, "b") == Some(1)
    ensures ExpOf(Pair(Name("b"), Eql, Pratt.Literal(Token(Octal, ""))), scope, funs)
      == Some(Source.Binary(Source.Ident(1), Ints.Eql, Source.Literal(0)))
  {
    Numbers();
  }

  lemma NextMeans(scope: Scopes.Stack, funs: map<Source.Dcl, nat>)
    requires Scopes.Found(scope, "a") == Some(0) && Scopes.Found(scope, "b") == Some(1) && Scopes.Found(scope, "gcd") == Some(2)
    requires 2 in funs && funs[2] == 0
    ensures ExpOf(Pratt.Call(Name("gcd"), [Name("b"), Pair(Name("a"), Rem, Name("b"))]), scope, funs) == Some(Euclid.Next())
  {
    var args := [Name("b"), Pair(Name("a"), Rem, Name("b"))];
    assert args[1..] == [args[1]] && args[1..][1..] == [];
    assert ExpOf(args[0], scope, funs) == Some(Source.Ident(1));
    assert ExpOf(Name("a"), scope, funs) == Some(Source.Ident(0));
    assert ExpOf(args[1], scope, funs) == Some(Source.Binary(Source.Ident(0), Ints.Rem, Source.Ident(1)));
    var l := Euclid.Next().args;
    assert ExpsOf([], scope, funs) == Some([]);
    assert ExpsOf(args[1..], scope, funs) == Some([l[1]] + []);
    assert [l[0]] + ([l[1]] + []) == l;
  }

  lemma InBound()
    ensures Scopes.Found([Bound()], "a") == Some(0) && Scopes.Found([Bound()], "b") == Some(1) && Scopes.Found([Bound()], "gcd") == Some(2)
  {
  }

  lemma GcdBody(funs: map<Source.Dcl, nat>)
    requires 2 in funs && funs[2] == 0
    ensures SmtOf(Blk(BodyMeans(GcdFun().body, [Bound()], 3).smts), funs) == Some(Euclid.Gcd().body)
    ensures BodyMeans(GcdFun().body, [Bound()], 3).next == 3
  {
    hide ExpOf, Euclid.Next, ListMeans, SmtsOf, SmtOf, BodyMeans, Means;
    var outer: Scopes.Stack := [map[]] + [Bound()];
    var inner: Scopes.Stack := [map[]] + outer;
    assert inner[1..] == outer && outer[1..] == [Bound()];
    InBound();
    assert Scopes.Found(outer, "a") == Some(0) && Scopes.Found(outer, "b") == Some(1) && Scopes.Found(outer, "gcd") == Some(2);
    var l, t := GcdFun().body.smts, Euclid.Gcd().body.smts;
    TestMeans(outer, funs);
    NameMeans("a", 0, inner, funs);
    ReturnMeans(Name("a"), inner, 3, funs, Source.Ident(0));
    LastMeans(SReturn(Name("a")), inner, 3, funs, Source.Return(Source.Ident(0)));
    assert l[0].yes.smts == [SReturn(Name("a"))];
    BlockMeans(l[0].yes, outer, 3, funs, [Source.Return(Source.Ident(0))]);
    IfMeans(l[0].cond, l[0].yes, outer, 3, funs, t[0].cond.value, t[0].body);
    NextMeans(outer, funs);
    ReturnMeans(l[1].e, outer, 3, funs, Euclid.Next());
    LastMeans(l[1], outer, 3, funs, t[1]);
    HeadMeans(l[0], [l[1]], outer, 3, funs, t[0], [t[1]]);
    assert [l[0]] + [l[1]] == l && [t[0]] + [t[1]] == t;
    BlockMeans(GcdFun().body, [Bound()], 3, funs, t);
  }

  lemma MainBody(funs: map<Source.Dcl, nat>)
    requires 2 in funs && funs[2] == 0
    ensures SmtOf(Blk(BodyMeans(MainFun().body, [Program()], 4).smts), funs) == Some(Euclid.Main().body)
  {
    hide ListMeans, SmtsOf, SmtOf, BodyMeans, Means;
    var outer: Scopes.Stack := [map[]] + [Program()];
    assert outer[1..] == [Program()] && Scopes.Found([Program()], "gcd") == Some(2);
    var l, t := MainFun().body.smts, Euclid.Main().body.smts;
    MainCallMeans(outer, funs);
    ReturnMeans(l[0].e, outer, 4, funs, t[0].result);
    LastMeans(l[0], outer, 4, funs, t[0]);
    BlockMeans(MainFun().body, [Program()], 4, funs, t);
  }

  /** The scope of the file at its end. */
  function Program(): map<string, int> { map["a" := 0, "b" := 1, "gcd" := 2, "main" := 3] }

  lemma MainCallMeans(scope: Scopes.Stack, funs: map<Source.Dcl, nat>)
    requires Scopes.Found(scope, "gcd") == Some(2) && 2 in funs && funs[2] == 0
    ensures ExpOf(MainFun().body.smts[0].e, scope, funs) == Some(Euclid.Main().body.smts[0].result)
  {
    var args := [Digits("1529"), Digits("14039")];
    Numbers();
    assert args[1..] == [args[1]] && args[1..][1..] == [];
    assert ExpOf(args[0], scope, funs) == Some(Source.Literal(1529));
    assert ExpOf(args[1], scope, funs) == Some(Source.Literal(14039));
    assert ExpsOf([], scope, funs) == Some([]);
    assert ExpsOf(args[1..], scope, funs) == Some([Source.Literal(14039)] + []);
    assert [Source.Literal(1529)] + ([Source.Literal(14039)] + []) == [Source.Literal(1529), Source.Literal(14039)];
  }

  lemma MainScope()
    ensures Inside(MainFun(), [Bound()], 3) == [Program()]
  {
  }

  lemma Heads()
    ensures ParametersOf(MainFun().args, 3) == Some([]) && WidthOf(MainFun().ret) == Some(Ints.I64)
    ensures ParametersOf(GcdFun().args, 0) == Some(Euclid.Gcd().params) && WidthOf(GcdFun().ret) == Some(Ints.I64)
  {
    var args, params := GcdFun().args, Euclid.Gcd().params;
    assert args[1..] == [args[1]] && args[1..][1..] == [];
    assert WidthOf(Named("int")) == Some(Ints.I64);
    assert ParametersOf([], 2) == Some([]);
    assert ParametersOf([args[1]], 1) == Some([params[1]] + []);
    assert [params[0]] + ([params[1]] + []) == params;
  }

  lemma FileMeansProgram()
    ensures ProgramOf(FileMeans(File(), [map[]], 0).tops) == Some(Euclid.Program())
  {
    hide ProgramOf, FileMeans, BodyMeans, SmtOf, ParametersOf, WidthOf, Inside;
    NoFunction();
    GcdScope();
    Heads();
    var one: map<Source.Dcl, nat> := map[2 := 0];
    assert map[][2 := 0] == one && one[3 := 1] == map[2 := 0, 3 := 1];
    GcdBody(one);
    NextFunction([], [], map[], [map[]], 0, GcdFun(), [Bound()], Euclid.Gcd());
    assert [] + [FunItem(GcdFun())] == [FunItem(GcdFun())] && [] + [Euclid.Gcd()] == [Euclid.Gcd()];
    MainScope();
    MainBody(one[3 := 1]);
    NextFunction([FunItem(GcdFun())], [Euclid.Gcd()], one, [Bound()], 3, MainFun(), [Program()], Euclid.Main());
    assert [FunItem(GcdFun())] + [FunItem(MainFun())] == File() && [Euclid.Gcd()] + [Euclid.Main()] == Euclid.Program();
  }

  /** Any text of the file answers calls of the first function with the greatest common divisor,
      for all numbers where the remainder is defined all the way. */
  lemma GcdAnswers(items: seq<Printing.Item>, tail: string, a: int, b: int)
    requires LaysOut(items, tail, File()) && Ints.InRange(Ints.I64, a) && Ints.InRange(Ints.I64, b)
    ensures if Euclid.Bad(a, b) then Answers(items, tail, 0, [a, b], Ir.Traps)
      else exists g :: Euclid.IsAnswer(g, a, b) && Answers(items, tail, 0, [a, b], Ir.Returns(g))
  {
    hide Euclid.IsAnswer, Euclid.Bad, LaysOut, FileReadable, FileCalls, FileMeans, ProgramOf, Answers, Programs.SourceProgram, Programs.Within, File, Source.CheckProgram;
    FileFits();
    FileMeansProgram();
    Euclid.Checked();
    Euclid.GcdAnswers(a, b);
    var d, k := Ints.Abs(b) + 1, Ir.Invocation(0, [a, b]);
    if Euclid.Bad(a, b) {
      Programs.WithinAnswers(Euclid.Program(), d, k, Ir.Traps);
      FromSource(File(), Euclid.Program(), items, tail, 0, [a, b], Ir.Traps);
    } else {
      var g :| Euclid.IsAnswer(g, a, b) && Programs.Within(Euclid.Program(), d, k, Ir.Returns(g));
      Programs.WithinAnswers(Euclid.Program(), d, k, Ir.Returns(g));
      FromSource(File(), Euclid.Program(), items, tail, 0, [a, b], Ir.Returns(g));
    }
  }

  /** And `main` answers 139. */
  lemma MainAnswers(items: seq<Printing.Item>, tail: string)
    requires LaysOut(items, tail, File())
    ensures Answers(items, tail, 1, [], Ir.Returns(139))
  {
    hide LaysOut, FileReadable, FileCalls, FileMeans, ProgramOf, Answers, Programs.SourceProgram, File, Source.CheckProgram, Euclid.Program;
    FileFits();
    FileMeansProgram();
    Euclid.Checked();
    Euclid.MainAnswers();
    FromSource(File(), Euclid.Program(), items, tail, 1, [], Ir.Returns(139));
  }

  lemma WordsPrint()
    ensures Prints([Token(Ident, "a")]) && Prints([Token(Ident, "b")]) && Prints([Token(Ident, "gcd")])
    ensures Prints([Token(Int, "1529")]) && Prints([Token(Int, "14039")]) && Prints([Token(Octal, "")])
  {
  }

  lemma GcdPrints()
    ensures Prints(SpellFun(GcdFun()))
  {
    hide Prints, Spelling, SpellBody, Grammar.Flatten, Printing.Printable, TokenName;
    WordsPrint();
    var test, next, a, b := GcdFun().body.smts[0], GcdFun().body.smts[1], Name("a"), Name("b");
    LeavesFlat();
    PairPrints(b, Eql, Pratt.Literal(Token(Octal, "")));
    ReturnPrints(a);
    BodyTokens([SReturn(a)]);
    IfPrints(test.cond, test.yes, None);
    PairPrints(a, Rem, b);
    CallPrints("gcd", next.e.args);
    ReturnPrints(next.e);
    BodyTokens([test, next]);
    ShortPrint();
    TypePrints();
    FunPrints(GcdFun());
  }

  lemma LeavesFlat()
    ensures Grammar.Flatten(Name("a")) == [Token(Ident, "a")] && Grammar.Flatten(Name("b")) == [Token(Ident, "b")]
    ensures Grammar.Flatten(Pratt.Literal(Token(Octal, ""))) == [Token(Octal, "")]
    ensures Grammar.Flatten(Digits("1529")) == [Token(Int, "1529")] && Grammar.Flatten(Digits("14039")) == [Token(Int, "14039")]
  {
  }

  lemma ShortPrint()
    ensures Printing.Printable(Token(Ident, "a")) && Printing.Printable(Token(Ident, "b")) && Printing.Printable(Token(Ident, "gcd"))
  {
  }

  lemma MainPrints()
    ensures Prints(SpellFun(MainFun()))
  {
    hide Prints, Spelling, SpellBody, Grammar.Flatten, Printing.Printable;
    WordsPrint();
    var next := MainFun().body.smts[0];
    LeavesFlat();
    CallPrints("gcd", next.e.args);
    ReturnPrints(next.e);
    BodyTokens([next]);
    MainPrint();
    TypePrints();
    FunPrints(MainFun());
  }

  lemma GcdHasText()
    ensures LaysOut(LexTheorems.Spaced(SpellFile(File()), ""), "", File())
  {
    hide Prints, GcdFun, MainFun, SpellFun, SpellFile, LaysOut;
    GcdPrints();
    MainPrints();
    HaveText(File());
  }
}
