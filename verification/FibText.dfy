/** The text of `tests/tests/fibbonanci.acl`. */
module FibText {
  import opened Wrappers
  import opened Tokens
  import Printing
  import Pratt
  import Grammar
  import NodeSizes
  import LexTheorems
  import opened LoopText
  import Scopes
  import Ints
  import IntLaws
  import Ir
  import Source
  import Programs
  import opened Statements
  import opened StatementGrammar
  import opened Files
  import opened FileGrammar
  import opened FileCompiler
  import opened Frontend
  import opened NodeGrammar
  import opened ProgramTexts
  import Fibonacci

  /** `fib(n - k)` */
  function Before(k: string): Pratt.Exp { Pratt.Call(Name("fib"), [Less(k)]) }

  function Less(k: string): Pratt.Exp { Pair(Name("n"), Sub, Digits(k)) }

  function Sum(): Pratt.Exp { Pair(Before("1"), Add, Before("2")) }

  function Test(): Src { SIf(Pair(Name("n"), Lss, Digits("2")), Lines([SReturn(Name("n"))]), None) }

  function FibFun(): Fun {
    Fun("fib", [Arg(Named("int"), "n")], Named("int"), Lines([Test(), SReturn(Sum())]), true)
  }

  function Twelve(): Pratt.Exp { Pratt.Call(Name("fib"), [Digits("12")]) }

  function MainFun(): Fun { Fun("main", [], Named("int"), Lines([SReturn(Twelve())]), false) }

  function File(): seq<Item> { [FunItem(FibFun()), FunItem(MainFun())] }

  // ---------- it can be read ----------

  lemma TestReadable()
    ensures Readable(Test(), Semi) && |Calls(Test())| == 7
  {
    hide BodyReadable, BodyCalls, Fits, NodeSizes.Size;
    LeafFits(Name("n"), Semi);
    PairFits(Name("n"), Grammar.Mark(Lss), Digits("2"), LBrace);
    ReturnFits(Name("n"));
    LastReadable(SReturn(Name("n")));
  }

  lemma LessReadable(k: string)
    ensures Grammar.AllRespect([Less(k)], RParen) && NodeSizes.Sizes([Less(k)]) == 3
  {
    PairFits(Name("n"), Grammar.Mark(Sub), Digits(k), RParen);
    assert [Less(k)][1..] == [];
  }

  lemma SumReadable()
    ensures Fits(Sum(), Semi) && NodeSizes.Size(Sum()) == 11
  {
    hide Fits, NodeSizes.Size, NodeSizes.Sizes, Grammar.AllRespect;
    LessReadable("1");
    LessReadable("2");
    CallsFit("fib", [Less("1")], Add, [Less("2")], Semi);
  }

  lemma FibReadable()
    ensures FunReadable(FibFun()) && |FunCalls(FibFun())| == 24
  {
    hide Readable, Calls, Fits, ListCalls, Sum, Test;
    TestReadable();
    SumReadable();
    ReturnFits(Sum());
    LastReadable(SReturn(Sum()));
    FirstReadable(Test(), [SReturn(Sum())]);
    assert [Test()] + [SReturn(Sum())] == FibFun().body.smts;
  }

  lemma MainReadable()
    ensures FunReadable(MainFun()) && |FunCalls(MainFun())| == 7
  {
    hide Fits, NodeSizes.Size, BodyReadable, BodyCalls, Readable, Calls;
    LeafFits(Digits("12"), RParen);
    CallFits("fib", [Digits("12")], Semi);
    ReturnFits(Twelve());
    LastReadable(SReturn(Twelve()));
  }

  lemma FileFits()
    ensures FileReadable(File()) && |FileCalls(File())| < 128
  {
    hide FibFun, MainFun, FunCalls;
    FibReadable();
    MainReadable();
    OneReadable(FibFun(), [FunItem(MainFun())]);
    OneReadable(MainFun(), []);
    assert [FunItem(MainFun())] + [] == [FunItem(MainFun())] && [FunItem(FibFun())] + [FunItem(MainFun())] == File();
  }

  // ---------- what it means ----------

  lemma Numbers()
    ensures Frontend.Number("1", 10) == Some(1) && Frontend.Number("2", 10) == Some(2) && Frontend.Number("12", 10) == Some(12)
  {
    assert "12"[..1] == "1" && "1"[..0] == "" && "2"[..0] == "";
  }

  /** After the parameter and the name of the first function. */
  function Bound(): map<string, int> { map["n" := 0, "fib" := 1] }

  /** The scope of the file at its end. */
  function Ended(): map<string, int> { map["n" := 0, "fib" := 1, "main" := 2] }

  lemma FunScopes()
    ensures Inside(FibFun(), [map[]], 0) == [Bound()] && Inside(MainFun(), [Bound()], 2) == [Ended()]
  {
  }

  lemma InBound()
    ensures Scopes.Found([Bound()], "n") == Some(0) && Scopes.Found([Bound()], "fib") == Some(1) && Scopes.Found([Ended()], "fib") == Some(1)
  {
  }

  lemma TestMeans(scope: Scopes.Stack, funs: map<Source.Dcl, nat>)
    requires Scopes.Found(scope, "n") == Some(0)
    ensures ExpOf(Test().cond, scope, funs) == Some(Source.Binary(Source.Ident(0), Ints.Lss, Source.Literal(2)))
  {
    Numbers();
  }

  lemma BeforeMeans(k: string, number: int, scope: Scopes.Stack, funs: map<Source.Dcl, nat>)
    requires Frontend.Number(k, 10) == Some(number)
    requires Scopes.Found(scope, "n") == Some(0) && Scopes.Found(scope, "fib") == Some(1) && 1 in funs && funs[1] == 0
    ensures ExpOf(Before(k), scope, funs) == Some(Fibonacci.Before(number))
  {
    var x := Source.Binary(Source.Ident(0), Ints.Sub, Source.Literal(number));
    NameMeans("n", 0, scope, funs);
    assert ExpOf(Digits(k), scope, funs) == Some(Source.Literal(number));
    assert ExpOf(Less(k), scope, funs) == Some(x);
    assert [Less(k)][1..] == [] && ExpsOf([], scope, funs) == Some([]);
    assert ExpsOf([Less(k)], scope, funs) == Some([x] + []) && [x] + [] == [x];
  }

  lemma SumMeans(scope: Scopes.Stack, funs: map<Source.Dcl, nat>)
    requires Scopes.Found(scope, "n") == Some(0) && Scopes.Found(scope, "fib") == Some(1) && 1 in funs && funs[1] == 0
    ensures ExpOf(Sum(), scope, funs) == Some(Fibonacci.Sum())
  {
    hide Before, Fibonacci.Before;
    Numbers();
    BeforeMeans("1", 1, scope, funs);
    BeforeMeans("2", 2, scope, funs);
  }

  lemma FibBody(funs: map<Source.Dcl, nat>)
    requires 1 in funs && funs[1] == 0
    ensures SmtOf(Blk(BodyMeans(FibFun().body, [Bound()], 2).smts), funs) == Some(Fibonacci.Fib().body)
    ensures BodyMeans(FibFun().body, [Bound()], 2).next == 2
  {
    hide ExpOf, Sum, Fibonacci.Sum, ListMeans, SmtsOf, SmtOf, BodyMeans, Means;
    var outer: Scopes.Stack := [map[]] + [Bound()];
    var inner: Scopes.Stack := [map[]] + outer;
    assert inner[1..] == outer && outer[1..] == [Bound()];
    InBound();
    assert Scopes.Found(outer, "n") == Some(0) && Scopes.Found(outer, "fib") == Some(1);
    var l, t := FibFun().body.smts, Fibonacci.Fib().body.smts;
    TestMeans(outer, funs);
    NameMeans("n", 0, inner, funs);
    ReturnMeans(Name("n"), inner, 2, funs, Source.Ident(0));
    LastMeans(SReturn(Name("n")), inner, 2, funs, Source.Return(Source.Ident(0)));
    assert l[0].yes.smts == [SReturn(Name("n"))];
    BlockMeans(l[0].yes, outer, 2, funs, [Source.Return(Source.Ident(0))]);
    IfMeans(l[0].cond, l[0].yes, outer, 2, funs, t[0].cond.value, t[0].body);
    SumMeans(outer, funs);
    ReturnMeans(Sum(), outer, 2, funs, Fibonacci.Sum());
    LastMeans(l[1], outer, 2, funs, t[1]);
    HeadMeans(l[0], [l[1]], outer, 2, funs, t[0], [t[1]]);
    assert [l[0]] + [l[1]] == l && [t[0]] + [t[1]] == t;
    BlockMeans(FibFun().body, [Bound()], 2, funs, t);
  }

  lemma TwelveMeans(scope: Scopes.Stack, funs: map<Source.Dcl, nat>)
    requires Scopes.Found(scope, "fib") == Some(1) && 1 in funs && funs[1] == 0
    ensures ExpOf(Twelve(), scope, funs) == Some(Fibonacci.Main().body.smts[0].result)
  {
    Numbers();
    assert [Digits("12")][1..] == [] && ExpsOf([], scope, funs) == Some([]);
    assert ExpOf(Digits("12"), scope, funs) == Some(Source.Literal(12));
    assert ExpsOf([Digits("12")], scope, funs) == Some([Source.Literal(12)] + []);
    assert [Source.Literal(12)] + [] == [Source.Literal(12)];
  }

  lemma MainBody(funs: map<Source.Dcl, nat>)
    requires 1 in funs && funs[1] == 0
    ensures SmtOf(Blk(BodyMeans(MainFun().body, [Ended()], 3).smts), funs) == Some(Fibonacci.Main().body)
  {
    hide ListMeans, SmtsOf, SmtOf, BodyMeans, Means, Twelve;
    var outer: Scopes.Stack := [map[]] + [Ended()];
    InBound();
    assert outer[1..] == [Ended()] && Scopes.Found(outer, "fib") == Some(1);
    var l, t := MainFun().body.smts, Fibonacci.Main().body.smts;
    TwelveMeans(outer, funs);
    ReturnMeans(Twelve(), outer, 3, funs, t[0].result);
    LastMeans(l[0], outer, 3, funs, t[0]);
    BlockMeans(MainFun().body, [Ended()], 3, funs, t);
  }

  lemma Heads()
    ensures ParametersOf(MainFun().args, 2) == Some([]) && WidthOf(MainFun().ret) == Some(Ints.I64)
    ensures ParametersOf(FibFun().args, 0) == Some(Fibonacci.Fib().params) && WidthOf(FibFun().ret) == Some(Ints.I64)
  {
    var args, params := FibFun().args, Fibonacci.Fib().params;
    assert args[1..] == [] && ParametersOf([], 1) == Some([]);
    assert WidthOf(Named("int")) == Some(Ints.I64);
    assert [params[0]] + [] == params;
  }

  lemma FileMeansProgram()
    ensures ProgramOf(FileMeans(File(), [map[]], 0).tops) == Some(Fibonacci.Program())
  {
    hide ProgramOf, FileMeans, BodyMeans, SmtOf, ParametersOf, WidthOf, Inside;
    NoFunction();
    FunScopes();
    Heads();
    var one: map<Source.Dcl, nat> := map[1 := 0];
    assert map[][1 := 0] == one;
    FibBody(one);
    NextFunction([], [], map[], [map[]], 0, FibFun(), [Bound()], Fibonacci.Fib());
    assert [] + [FunItem(FibFun())] == [FunItem(FibFun())] && [] + [Fibonacci.Fib()] == [Fibonacci.Fib()];
    MainBody(one[2 := 1]);
    NextFunction([FunItem(FibFun())], [Fibonacci.Fib()], one, [Bound()], 2, MainFun(), [Ended()], Fibonacci.Main());
    assert [FunItem(FibFun())] + [FunItem(MainFun())] == File() && [Fibonacci.Fib()] + [Fibonacci.Main()] == Fibonacci.Program();
  }

  // ---------- what it answers ----------

  /** Any text of the file answers calls of the first function with the Fibonacci number,
      reduced to 64 bits. */
  lemma FibAnswers(items: seq<Printing.Item>, tail: string, n: int) returns (v: int)
    requires LaysOut(items, tail, File()) && Ints.InRange(Ints.I64, n)
    ensures IntLaws.Reduced(Ints.I64, Fibonacci.Number(n), v) && Answers(items, tail, 0, [n], Ir.Returns(v))
  {
    hide LaysOut, FileReadable, FileCalls, FileMeans, ProgramOf, Answers, Programs.SourceProgram, Programs.Within, File, Source.CheckProgram, IntLaws.Reduced;
    FileFits();
    FileMeansProgram();
    Fibonacci.Checked();
    v := Fibonacci.FibAnswers(n);
    Programs.WithinAnswers(Fibonacci.Program(), Fibonacci.Depth(n), Ir.Invocation(0, [n]), Ir.Returns(v));
    FromSource(File(), Fibonacci.Program(), items, tail, 0, [n], Ir.Returns(v));
  }

  /** And `main` answers 144. */
  lemma MainAnswers(items: seq<Printing.Item>, tail: string)
    requires LaysOut(items, tail, File())
    ensures Answers(items, tail, 1, [], Ir.Returns(144))
  {
    hide LaysOut, FileReadable, FileCalls, FileMeans, ProgramOf, Answers, Programs.SourceProgram, File, Source.CheckProgram, Fibonacci.Program;
    FileFits();
    FileMeansProgram();
    Fibonacci.Checked();
    Fibonacci.MainAnswers();
    FromSource(File(), Fibonacci.Program(), items, tail, 1, [], Ir.Returns(144));
  }

  // ---------- there are such texts ----------

  lemma WordsPrint()
    ensures Printing.Printable(Token(Ident, "n")) && Printing.Printable(Token(Ident, "fib"))
    ensures Printing.Printable(Token(Int, "1")) && Printing.Printable(Token(Int, "2")) && Printing.Printable(Token(Int, "12"))
  {
  }

  lemma LeavesPrint()
    ensures Prints([Token(Ident, "n")]) && Prints([Token(Ident, "fib")])
    ensures Prints([Token(Int, "1")]) && Prints([Token(Int, "2")]) && Prints([Token(Int, "12")])
  {
    WordsPrint();
  }

  lemma BeforePrints(k: string)
    requires Prints([Token(Int, k)])
    ensures Prints(Grammar.Flatten(Before(k)))
  {
    hide Prints;
    LeavesPrint();
    assert Grammar.Flatten(Name("n")) == [Token(Ident, "n")] && Grammar.Flatten(Digits(k)) == [Token(Int, k)];
    PairPrints(Name("n"), Sub, Digits(k));
    CallPrints("fib", [Less(k)]);
  }

  lemma FibPrints()
    ensures Prints(SpellFun(FibFun()))
  {
    hide Prints, Spelling, SpellBody, Printing.Printable, TokenName, Before;
    LeavesPrint();
    BeforePrints("1");
    BeforePrints("2");
    PairPrints(Before("1"), Add, Before("2"));
    ReturnPrints(Sum());
    assert Grammar.Flatten(Name("n")) == [Token(Ident, "n")] && Grammar.Flatten(Digits("2")) == [Token(Int, "2")];
    PairPrints(Name("n"), Lss, Digits("2"));
    ReturnPrints(Name("n"));
    BodyTokens([SReturn(Name("n"))]);
    IfPrints(Test().cond, Test().yes, None);
    BodyTokens([Test(), SReturn(Sum())]);
    WordsPrint();
    TypePrints();
    FunPrints(FibFun());
  }

  lemma MainPrints()
    ensures Prints(SpellFun(MainFun()))
  {
    hide Prints, Spelling, SpellBody, Printing.Printable, TokenName;
    LeavesPrint();
    assert Grammar.Flatten(Digits("12")) == [Token(Int, "12")];
    CallPrints("fib", [Digits("12")]);
    ReturnPrints(Twelve());
    BodyTokens([SReturn(Twelve())]);
    MainPrint();
    TypePrints();
    FunPrints(MainFun());
  }

  lemma FibHasText()
    ensures LaysOut(LexTheorems.Spaced(SpellFile(File()), ""), "", File())
  {
    hide Prints, FibFun, MainFun, SpellFun, SpellFile, LaysOut;
    FibPrints();
    MainPrints();
    HaveText(File());
  }
}
