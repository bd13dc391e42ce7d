/** Files of a few lines, as texts. */
module FileText {
  import opened Wrappers
  import opened Tokens
  import Lexing
  import Scopes
  import Ints
  import Ir
  import Source
  import Programs
  import Preservation
  import opened Frontend
  import LexTheorems
  import LoopText
  import Nodes
  import opened NodeGrammar
  import NodeSizes
  import NodeRoom
  import Printing
  import Grammar
  import Pratt
  import opened Statements
  import opened StatementGrammar
  import opened Files
  import opened FileGrammar
  import opened FileCompiler

  // ---------- a variable on a line of its own ----------

  /** `x := 1` */
  function Variable(): Decl { Decl(None, "x", Pratt.Literal(Token(Int, "1"))) }

  function VariableItems(): seq<Printing.Item> {
    [Printing.Item("", Token(Ident, "x")), Printing.Item(" ", Grammar.Mark(Define)), Printing.Item(" ", Token(Int, "1"))]
  }

  lemma VariableReadable()
    ensures FileReadable([VarItem(Variable(), true)])
    ensures SpellFile([VarItem(Variable(), true)]) == FlattenDecl(Variable()) + [Grammar.Mark(Semi)]
  {
    var ds := [VarItem(Variable(), true)];
    assert ds[1..] == [];
    assert SpellFile(ds) == SpellItem(ds[0]) + SpellFile([]);
  }

  lemma DefineText()
    ensures Printing.Text(Grammar.Mark(Define)) == ":=" && Printing.Printable(Grammar.Mark(Define))
  {
  }

  lemma VariableText()
    ensures Printing.Layout(VariableItems(), "\n") == "x := 1\n" && Printing.Readable(VariableItems(), "\n")
  {
    hide TokenName;
    DefineText();
    var one, x := Printing.Item(" ", Token(Int, "1")), VariableItems()[0];
    var last, more := [one], VariableItems()[1..];
    assert last[1..] == [] && more == [Printing.Item(" ", Grammar.Mark(Define)), one] && more[1..] == last;
    assert Printing.Layout(last, "\n") == " 1\n" && Printing.Readable(last, "\n");
    assert Printing.Layout(more, "\n") == " := 1\n" && Printing.Readable(more, "\n");
    assert Printing.Text(x.token) == "x" && Printing.Printable(x.token);
  }

  lemma VariableLaidOut()
    ensures LaysOut(VariableItems(), "\n", [VarItem(Variable(), true)])
  {
    hide TokenName, Printing.Readable, Printing.Layout, Printing.Expected, Printing.LastFlag;
    VariableReadable();
    VariableText();
    VariableTokens();
  }

  lemma VariableTokens()
    ensures Printing.Expected(VariableItems(), false) == FlattenDecl(Variable()) && Printing.LastFlag(VariableItems(), false)
  {
    hide Printing.Expected, Printing.LastFlag, TokenName;
    var items, one, def := VariableItems(), Token(Int, "1"), Grammar.Mark(Define);
    Flags();
    NoMore(true);
    OneMore(items[2], [], true);
    assert items[2..] == [items[2]] + [];
    OneMore(items[1], items[2..], true);
    assert items[1..] == [items[1]] + items[2..];
    OneMore(items[0], items[1..], false);
    assert items == [items[0]] + items[1..];
    assert Printing.Expected(items, false) == [Token(Ident, "x")] + ([def] + ([one] + []));
  }

  lemma Flags()
    ensures Printing.FlagAfter(Token(Ident, "x"), false) && Printing.FlagAfter(Grammar.Mark(Define), true) && Printing.FlagAfter(Token(Int, "1"), true)
  {
  }

  lemma NoMore(semi: bool)
    ensures Printing.Expected([], semi) == [] && Printing.LastFlag([], semi) == semi
  {
  }

  lemma OneMore(i: Printing.Item, items: seq<Printing.Item>, semi: bool)
    requires '\n' !in i.gap
    ensures Printing.Expected([i] + items, semi) == [i.token] + Printing.Expected(items, Printing.FlagAfter(i.token, semi))
    ensures Printing.LastFlag([i] + items, semi) == Printing.LastFlag(items, Printing.FlagAfter(i.token, semi))
  {
    assert ([i] + items)[1..] == items;
  }

  /** The parser does not come to the end of this file of one line. */
  lemma VariableLine()
    ensures var o := Lexing.LexAll("x := 1\n", false);
      o.Tokens? && ParseFile(o.ts, Begin()).Endless?
  {
    hide LaysOut, FileReadable, Printing.Layout;
    VariableReadable();
    VariableText();
    VariableLaidOut();
    var ds := [VarItem(Variable(), true)];
    assert ds[0] in ds;
    FileFromText(ds, VariableItems(), "\n");
  }

  // ---------- two functions that return their parameter ----------

  /** `proc name :: int n -> int { return n }` */
  function Returner(name: string, n: string): Fun {
    Fun(name, [Arg(Named("int"), n)], Named("int"), Returning(n), false)
  }

  function Two(a: string, b: string): seq<Item> { [FunItem(Returner("f", a)), FunItem(Returner("g", b))] }

  lemma TwoReadable(a: string, b: string)
    ensures FileReadable(Two(a, b)) && Names(Two(a, b)[..1]) == [a, "f"] && Names(Two(a, b)[..0]) == []
  {
    var ds := Two(a, b);
    ReturningReadable(a);
    ReturningReadable(b);
    assert ds[1..] == [ds[1]] && ds[1..][1..] == [];
    assert ds[..1] == [ds[0]] && ds[..1][1..] == [] && ds[..0] == [];
    assert NamesOf(ds[0]) + Names([]) == [a, "f"];
  }

  lemma ReturningReadable(n: string)
    ensures BodyReadable(Returning(n))
  {
    var smts := Returning(n).smts;
    assert smts[1..] == [];
    assert Grammar.Respects(Pratt.IdentExp(n), 0) && Grammar.CanFollow(Pratt.IdentExp(n), Semi);
    assert Readable(smts[0], Semi);
  }

  /** The function that comes of `Returner`, if the object of its name is `d`. */
  function Loads(first: nat, d: Source.Dcl): Source.Function {
    Source.Function([Source.Parameter(first, Ints.I64)], Ints.I64, Source.Block([Source.Return(Source.Ident(d))]))
  }

  /** The object that the name of the second parameter finds. */
  function Seen2(a: string, b: string): nat { if b == a then 0 else if b == "f" then 1 else 2 }

  lemma TwoScopes(a: string, b: string)
    ensures var s1 := Inside(Returner("f", a), [map[]], 0);
      && DclOf(a, s1) == Some(0) && DclOf(b, Inside(Returner("g", b), s1, 2)) == Some(Seen2(a, b))
  {
    assert InOrder([Arg(Named("int"), a)], "f") == [a, "f"] && [a, "f"][1..] == ["f"] && ["f"][1..] == [];
    assert InOrder([Arg(Named("int"), b)], "g") == [b, "g"] && [b, "g"][1..] == ["g"] && ["g"][1..] == [];
    var s0: Scopes.Stack := [map[]];
    InsertTwo(s0, a, "f", 0);
    var s1 := Inside(Returner("f", a), s0, 0);
    assert s0[1..] == [];
    assert s1[0] == map[a := 0] + if a == "f" then map[] else map["f" := 1];
    InsertTwo(s1, b, "g", 2);
    var s2 := Scopes.Inserted(s1, b, 2).0;
    assert b in s2[0] && s2[0][b] == Seen2(a, b);
    var s3 := Scopes.Inserted(s2, "g", 3).0;
    assert b in s3[0] && s3[0][b] == Seen2(a, b);
  }

  lemma InsertTwo(scope: Scopes.Stack, m: string, n: string, next: int)
    requires scope != []
    ensures InsertAll(scope, [m, n], next) == Scopes.Inserted(Scopes.Inserted(scope, m, next).0, n, next + 1).0
  {
    assert [m, n][1..] == [n] && [n][1..] == [];
    var s1 := Scopes.Inserted(scope, m, next).0;
    assert InsertAll(s1, [n], next + 1) == InsertAll(Scopes.Inserted(s1, n, next + 1).0, [], next + 2);
  }

  lemma LoadsFrom(name: string, n: string, first: nat, scope: Scopes.Stack, next: int, funs: map<Source.Dcl, nat>, d: Source.Dcl)
    requires scope != [] && n != "true" && n != "false" && DclOf(n, scope) == Some(d)
    ensures FunctionFrom(Fn(name, [Arg(Named("int"), n)], Named("int"), first, Blk(BodyMeans(Returning(n), scope, next).smts)), funs)
      == Some(Loads(first, d))
  {
    ReturningMeans(n, scope, next, funs);
    var args := [Arg(Named("int"), n)];
    assert args[1..] == [] && ParametersOf([], first + 1) == Some([]);
    assert WidthOf(Named("int")) == Some(Ints.I64);
    assert ParametersOf(args, first) == Some([Source.Parameter(first, Ints.I64)] + []);
    var f := Fn(name, args, Named("int"), first, Blk(BodyMeans(Returning(n), scope, next).smts));
    assert SmtOf(f.body, funs) == Some(Loads(first, d).body);
    assert [Source.Parameter(first, Ints.I64)] + [] == Loads(first, d).params;
  }

  lemma TwoProgram(a: string, b: string)
    requires a != "true" && a != "false" && b != "true" && b != "false"
    ensures ProgramOf(FileMeans(Two(a, b), [map[]], 0).tops) == Some([Loads(0, 0), Loads(2, Seen2(a, b))])
  {
    hide FunctionFrom, BodyMeans, Inside, Callees;
    var ds := Two(a, b);
    var s0: Scopes.Stack := [map[]];
    TwoScopes(a, b);
    var m1 := FunMeans(ds[0].fun, s0, 0);
    TwoReadable(a, b);
    BodyGrowsOnly(a, m1.scope);
    var m2 := FunMeans(ds[1].fun, m1.scope, 2);
    assert ds[1..] == [ds[1]] && ds[1..][1..] == [];
    var tops := FileMeans(ds, s0, 0).tops;
    assert FileMeans([ds[1]], m1.scope, 2).tops == [m2.top] + FileMeans([], m2.scope, m2.next).tops;
    assert tops == [m1.top] + FileMeans([ds[1]], m1.scope, 2).tops;
    assert tops == [m1.top, m2.top];
    assert tops[..1] == [m1.top] && tops[..1][..0] == [];
    LoadsFrom("f", a, 0, m1.scope, 2, Callees(tops[..1]), 0);
    LoadsFrom("g", b, 2, m2.scope, 4, Callees(tops), Seen2(a, b));
    assert tops[..|tops| - 1] == tops[..1] && tops[..1][..|tops[..1]| - 1] == [];
    ProgramMore(tops[..1], [], Loads(0, 0));
    assert [] + [Loads(0, 0)] == [Loads(0, 0)] && [Loads(0, 0)] + [Loads(2, Seen2(a, b))] == [Loads(0, 0), Loads(2, Seen2(a, b))];
    ProgramMore(tops, [Loads(0, 0)], Loads(2, Seen2(a, b)));
  }

  lemma ProgramMore(tops: seq<Top>, before: seq<Source.Function>, f: Source.Function)
    requires tops != [] && ProgramOf(tops[..|tops| - 1]) == Some(before)
    requires var d := tops[|tops| - 1]; d.Procedure? && FunctionFrom(d.fn, Callees(tops)) == Some(f)
    ensures ProgramOf(tops) == Some(before + [f])
  {
    hide FunctionFrom, Callees;
  }

  /** A body that declares nothing takes no numbers. */
  lemma BodyGrowsOnly(n: string, scope: Scopes.Stack)
    requires scope != []
    ensures BodyMeans(Returning(n), scope, 2).next == 2
  {
    var smts := Returning(n).smts;
    assert smts[1..] == [];
    assert Means(smts[0], [map[]] + scope, 2).next == 2;
    assert ListMeans([], [map[]] + scope, 2).next == 2;
    assert ListMeans(smts, [map[]] + scope, 2).next == 2;
  }

  /** The second function is accepted exactly when its parameter has a name of its own. */
  lemma TwoAccepted(a: string, b: string)
    requires a != "true" && a != "false" && b != "true" && b != "false"
    ensures var prog := ProgramOf(FileMeans(Two(a, b), [map[]], 0).tops);
      prog.Some? && (WidthsRight(prog.value) <==> b != a && b != "f")
  {
    hide ProgramOf, FileMeans, Returning;
    TwoProgram(a, b);
    var prog := [Loads(0, 0), Loads(2, Seen2(a, b))];
    LoadsChecks(0, 0, Source.Signatures(prog, 0));
    LoadsChecks(2, Seen2(a, b), Source.Signatures(prog, 1));
    assert WidthsAt(prog, 0);
    assert WidthsAt(prog, 1) <==> Seen2(a, b) == 2;
  }

  lemma LoadsChecks(first: nat, d: Source.Dcl, sigs: seq<Source.Signature>)
    ensures var f := Loads(first, d); Source.Check(f.body, Source.ParamEnv(f.params), sigs).Some? <==> d == first
  {
    var f := Loads(first, d);
    ReturnChecks(d, Source.ParamEnv(f.params), sigs);
    ParamIn(f.params, first, d);
  }

  lemma LoadsAnswers(prog: seq<Source.Function>, i: nat, first: nat, v: int)
    requires i < |prog| && prog[i] == Loads(first, first) && Ints.InRange(Ints.I64, v)
    ensures Programs.SourceAnswers(prog, imap[], Ir.Invocation(i, [v]), Ir.Returns(v))
  {
    var f := prog[i];
    var ctx := Programs.ContextOf(prog, i, imap[]);
    var store := Source.Bind(f.params, [v]);
    assert f.params[..0] == [] && [v][..0] == [];
    assert Source.Bind([], []) == map[];
    assert store == map[first := Source.Val(Ints.I64, v)];
    assert Source.Eval(Source.Ident(first), store, ctx) == Source.Gives(Source.Val(Ints.I64, v));
    Ints.WrapIdentity(Ints.I64, v);
    assert Source.Exec(Source.Return(Source.Ident(first)), store, 0, ctx) == Source.Returned(v);
    assert Source.ExecSeq([Source.Return(Source.Ident(first))], store, 0, ctx) == Source.Returned(v);
    assert Preservation.RunSource(f, [v], 0, ctx) == Source.Returned(v);
  }

  lemma ReturnerCalls(name: string, n: string)
    ensures |FunCalls(Returner(name, n))| == 7
  {
    var f := Returner(name, n);
    assert f.args[1..] == [] && f.body.smts[1..] == [];
    assert |ArgsCalls(f.args)| == 2 + |ArgsCalls([])|;
    assert NodeSizes.Size(Pratt.IdentExp(n)) == 1;
    assert |ListCalls(f.body.smts)| == 2 + |ListCalls([])|;
  }

  lemma TwoFit(a: string, b: string)
    ensures NodeRoom.Fits(FileCalls(Two(a, b)))
  {
    hide NodeRoom.Fits, NodeRoom.Proper, FunCalls, Returner;
    var ds := Two(a, b);
    TwoReadable(a, b);
    ReturnerCalls("f", a);
    ReturnerCalls("g", b);
    assert ds[1..] == [ds[1]] && ds[1..][1..] == [];
    assert FileCalls(ds[1..]) == ItemCalls(ds[1]) + FileCalls([]);
    assert FileCalls(ds) == ItemCalls(ds[0]) + FileCalls(ds[1..]);
    FileProper(ds);
    NodeRoom.FewFit(FileCalls(ds));
  }

  /** Any text of the two functions, with parameters of different names, becomes a program
      in which both answer every number with itself. */
  lemma TwoAnswer(a: string, b: string, items: seq<Printing.Item>, tail: string, i: nat, v: int)
    requires a != "true" && a != "false" && b != "true" && b != "false" && b != a && b != "f"
    requires LaysOut(items, tail, Two(a, b)) && i < 2 && Ints.InRange(Ints.I64, v)
    ensures var o := Lexing.LexAll(Printing.Layout(items, tail), false);
      && o.Tokens? && ParseFile(o.ts, Begin()).DidFile?
      && var prog := ProgramOf(ParseFile(o.ts, Begin()).dcls);
      prog.Some? && Programs.TargetProgram(prog.value, i, [v], Ir.Returns(v))
  {
    hide ProgramOf, FileMeans, ParseFile, LaysOut, WidthsRight, FileReadable, Programs.SourceProgram, Programs.TargetProgram, Programs.SourceAnswers, FileCalls, NodeRoom.Fits, NodeRoom.Held;
    TwoProgram(a, b);
    TwoAccepted(a, b);
    TwoReadable(a, b);
    TwoFit(a, b);
    ProgramFromText(Two(a, b), items, tail, i, [v], Ir.Returns(v));
    var prog := ProgramOf(FileMeans(Two(a, b), [map[]], 0).tops).value;
    LoadsAnswers(prog, i, if i == 0 then 0 else 2, v);
    Programs.AnswersAlone(prog, Ir.Invocation(i, [v]), Ir.Returns(v));
  }

  // ---------- there are such texts ----------

  lemma ReturnerPrints(name: string, n: string)
    requires Printing.Printable(Token(Ident, name)) && Printing.Printable(Token(Ident, n))
    ensures LoopText.Prints(SpellFun(Returner(name, n)))
  {
    hide LoopText.Prints, Printing.Printable, SpellBody, SpellResult, SpellArgs, TokenName;
    var f := Returner(name, n);
    LettersPrint();
    NamePrints("int");
    NamePrints(n);
    LoopText.Glued([Token(Ident, "int")], [Token(Ident, n)]);
    OneArg(n);
    ResultPrints(name, n);
    LoopText.Glued(SpellArgs(f.args, true), SpellResult(f));
    HeadPrints(name, SpellArgs(f.args, true) + SpellResult(f));
  }

  lemma ResultPrints(name: string, n: string)
    requires Printing.Printable(Token(Ident, n))
    ensures LoopText.Prints(SpellResult(Returner(name, n)))
  {
    hide LoopText.Prints, Printing.Printable, SpellBody, TokenName;
    var f := Returner(name, n);
    LettersPrint();
    NamePrints("int");
    LoopText.NothingPrints();
    LoopText.MarkPrints(Arrow);
    BodyTokens(n);
    LoopText.Glued(SpellBody(f.body), []);
    LoopText.Glued([Token(Ident, "int")], SpellInside(f));
    LoopText.Glued([Grammar.Mark(Arrow)], FlattenType(f.ret) + SpellInside(f));
  }

  /** What stands in front of the parameters. */
  lemma HeadPrints(name: string, rest: seq<Token>)
    requires Printing.Printable(Token(Ident, name)) && LoopText.Prints(rest)
    ensures LoopText.Prints([Key(TokenType.Proc)] + ([Token(Ident, name)] + ([Grammar.Mark(DoubleColon)] + rest)))
  {
    hide LoopText.Prints, Printing.Printable, TokenName;
    NamePrints(name);
    LoopText.MarkPrints(TokenType.Proc);
    LoopText.MarkPrints(DoubleColon);
    LoopText.Glued([Grammar.Mark(DoubleColon)], rest);
    LoopText.Glued([Token(Ident, name)], [Grammar.Mark(DoubleColon)] + rest);
    LoopText.Glued([Key(TokenType.Proc)], [Token(Ident, name)] + ([Grammar.Mark(DoubleColon)] + rest));
  }

  lemma OneArg(n: string)
    ensures SpellArgs([Arg(Named("int"), n)], true) == [Token(Ident, "int"), Token(Ident, n)]
  {
    var args := [Arg(Named("int"), n)];
    assert args[1..] == [] && SpellArgs([], false) == [];
  }

  lemma NamePrints(n: string)
    requires Printing.Printable(Token(Ident, n))
    ensures LoopText.Prints([Token(Ident, n)])
  {
  }

  lemma LettersPrint()
    ensures Printing.Printable(Token(Ident, "int")) && Printing.Printable(Token(Ident, "f")) && Printing.Printable(Token(Ident, "g"))
  {
    assert "int"[1] == 'n' && |"f"| == 1 && |"g"| == 1;
  }

  lemma BodyTokens(n: string)
    requires Printing.Printable(Token(Ident, n))
    ensures LoopText.Prints(SpellBody(Returning(n)))
  {
    hide LoopText.Prints, Printing.Printable;
    NamePrints(n);
    LoopText.MarkPrints(Return);
    LoopText.Glued([Key(Return)], [Token(Ident, n)]);
    LoopText.BodyTokens(Returning(n).smts);
  }

  lemma TwoHasText(a: string, b: string)
    requires Printing.Printable(Token(Ident, a)) && Printing.Printable(Token(Ident, b))
    ensures LaysOut(LexTheorems.Spaced(SpellFile(Two(a, b)), ""), "", Two(a, b))
  {
    hide LoopText.Prints, Printing.Printable, SpellFun, LaysOut;
    LettersPrint();
    ReturnerPrints("f", a);
    ReturnerPrints("g", b);
    var ds := Two(a, b);
    assert ds[1..] == [ds[1]] && ds[1..][1..] == [];
    assert SpellFile(ds[1..]) == SpellFun(Returner("g", b)) + [];
    LoopText.Glued(SpellFun(Returner("f", a)), SpellFun(Returner("g", b)));
    assert SpellFile(ds) == SpellFun(Returner("f", a)) + SpellFun(Returner("g", b));
    AllPrint(SpellFile(ds));
    FilePrints(ds);
  }

  lemma AllPrint(ts: seq<Token>)
    requires LoopText.Prints(ts)
    ensures forall i :: 0 <= i < |ts| ==> Printing.Printable(ts[i])
  {
  }
}
