/** A file in which the last function calls the one before it. */
module CallText {
  import opened Wrappers
  import opened Tokens
  import Printing
  import Pratt
  import Grammar
  import NodeSizes
  import LexTheorems
  import opened LoopText
  import Scopes
  import Ints
  import Ir
  import Source
  import Preservation
  import Programs
  import opened Statements
  import opened StatementGrammar
  import opened Files
  import opened FileGrammar
  import opened FileCompiler
  import opened Frontend
  import opened NodeGrammar
  import opened ProgramTexts

  /** `proc name :: -> int { return e }` */
  function Returns(name: string, e: Pratt.Exp, semi: bool): Fun {
    Fun(name, [], Named("int"), Lines([SReturn(e)]), semi)
  }

  function Value(i: nat): Pratt.Exp
    requires i < 3
  {
    if i == 0 then Digits("1") else if i == 1 then Digits("2") else Pratt.Call(Name("two"), [])
  }

  function File(): seq<Item> {
    [FunItem(Returns("one", Value(0), true)), FunItem(Returns("two", Value(1), true)), FunItem(Returns("main", Value(2), false))]
  }

  // ---------- it can be read ----------

  lemma ValueReadable(i: nat)
    requires i < 3
    ensures Fits(Value(i), Semi) && NodeSizes.Size(Value(i)) <= 2
  {
    hide Fits, NodeSizes.Size;
    LeafFits(Digits("1"), Semi);
    LeafFits(Digits("2"), Semi);
    PlainCallFits("two", Semi);
  }

  lemma ReturnsReadable(name: string, i: nat, semi: bool)
    requires i < 3
    ensures FunReadable(Returns(name, Value(i), semi)) && |FunCalls(Returns(name, Value(i), semi))| <= 6
  {
    hide Fits, NodeSizes.Size, BodyReadable, BodyCalls, Readable, Calls, Value;
    ValueReadable(i);
    ReturnFits(Value(i));
    LastReadable(SReturn(Value(i)));
  }

  lemma FileFits()
    ensures FileReadable(File()) && |FileCalls(File())| < 128
  {
    hide FunReadable, FunCalls, Returns, Value;
    ReturnsReadable("one", 0, true);
    ReturnsReadable("two", 1, true);
    ReturnsReadable("main", 2, false);
    var l := File();
    OneReadable(l[0].fun, l[1..]);
    OneReadable(l[1].fun, l[2..]);
    OneReadable(l[2].fun, []);
    assert [l[0]] + l[1..] == l && [l[1]] + l[2..] == l[1..] && [l[2]] + [] == l[2..];
  }

  // ---------- what it means ----------

  function Tree(i: nat): Source.Function
    requires i < 3
  {
    Source.Function([], Ints.I64, Source.Block([Source.Return(if i < 2 then Source.Literal(i + 1) else Source.CallExp(1, []))]))
  }

  function Program(): seq<Source.Function> { [Tree(0), Tree(1), Tree(2)] }

  /** The scope of the file after `i` functions. */
  function Bound(i: nat): map<string, int> {
    if i == 0 then map[] else if i == 1 then map["one" := 0] else if i == 2 then map["one" := 0, "two" := 1]
    else map["one" := 0, "two" := 1, "main" := 2]
  }

  function Numbers(i: nat): map<Source.Dcl, nat> {
    if i == 0 then map[] else if i == 1 then map[0 := 0] else if i == 2 then map[0 := 0, 1 := 1] else map[0 := 0, 1 := 1, 2 := 2]
  }

  lemma ScopeAfter(i: nat)
    requires i < 3
    ensures Inside(File()[i].fun, [Bound(i)], i) == [Bound(i + 1)] && Numbers(i)[i as Source.Dcl := i] == Numbers(i + 1)
  {
    var f := File()[i].fun;
    assert InOrder(f.args, f.name) == [f.name] && [f.name][1..] == [];
    var s := Scopes.Inserted([Bound(i)], f.name, i).0;
    assert s[0] == Bound(i + 1) && s == [Bound(i + 1)];
    assert InsertAll(s, [], i + 1) == s;
  }

  lemma ValueMeans(i: nat, scope: Scopes.Stack)
    requires i < 3 && (i == 2 ==> Scopes.Found(scope, "two") == Some(1))
    ensures ExpOf(Value(i), scope, Numbers(i + 1)) == Some(Tree(i).body.smts[0].result)
  {
    assert "1"[..0] == "" && "2"[..0] == "";
    assert ExpsOf([], scope, Numbers(i + 1)) == Some([]);
  }

  lemma BodyIs(i: nat)
    requires i < 3
    ensures var b := File()[i].fun.body;
      && SmtOf(Blk(BodyMeans(b, [Bound(i + 1)], i + 1).smts), Numbers(i + 1)) == Some(Tree(i).body)
      && BodyMeans(b, [Bound(i + 1)], i + 1).next == i + 1
  {
    hide ListMeans, SmtsOf, SmtOf, BodyMeans, Means, Value, ExpOf, Numbers;
    var outer: Scopes.Stack := [map[]] + [Bound(i + 1)];
    assert outer[1..] == [Bound(i + 1)];
    assert Scopes.Found([Bound(3)], "two") == Some(1);
    ValueMeans(i, outer);
    var t := Tree(i).body.smts[0];
    ReturnMeans(Value(i), outer, i + 1, Numbers(i + 1), t.result);
    LastMeans(SReturn(Value(i)), outer, i + 1, Numbers(i + 1), t);
    BlockMeans(File()[i].fun.body, [Bound(i + 1)], i + 1, Numbers(i + 1), [t]);
  }

  lemma Reads(i: nat)
    requires i < 3 && SoFar(File()[..i], Program()[..i], Numbers(i), [Bound(i)], i)
    ensures SoFar(File()[..i + 1], Program()[..i + 1], Numbers(i + 1), [Bound(i + 1)], i + 1)
  {
    hide SoFar, Numbers, BodyMeans, SmtOf, Inside, Bound;
    ScopeAfter(i);
    BodyIs(i);
    NextFunction(File()[..i], Program()[..i], Numbers(i), [Bound(i)], i, File()[i].fun, [Bound(i + 1)], Tree(i));
    assert File()[..i] + [FunItem(File()[i].fun)] == File()[..i + 1] && Program()[..i] + [Tree(i)] == Program()[..i + 1];
  }

  lemma Empty()
    ensures Numbers(0) == map[] && Bound(0) == map[]
  {
  }

  lemma FileMeansProgram()
    ensures ProgramOf(FileMeans(File(), [map[]], 0).tops) == Some(Program())
  {
    hide Numbers, Bound, ProgramOf, FileMeans;
    NoFunction();
    Empty();
    assert File()[..0] == [] && Program()[..0] == [];
    Reads(0);
    Reads(1);
    Reads(2);
    assert File()[..3] == File() && Program()[..3] == Program();
  }

  // ---------- what it answers ----------

  lemma Checked()
    ensures Source.CheckProgram(Program())
  {
    forall i | 0 <= i < 3 ensures Source.CheckNth(Program(), i) {
      assert Program()[i] == Tree(i);
      var sigs := Source.Signatures(Program(), i);
      assert i == 2 ==> sigs[1].params == [];
      assert Source.ExpType(Tree(i).body.smts[0].result, map[], sigs) == Some(Ints.I64);
      assert Tree(i).body.smts[1..] == [];
    }
  }

  lemma TreeRuns(i: nat, calls: Ir.Oracle)
    requires i < 3 && (i == 2 ==> Ir.Invocation(1, []) in calls && calls[Ir.Invocation(1, [])] == Ir.Returns(2))
    ensures Preservation.RunSource(Tree(i), [], 0, Programs.ContextOf(Program(), i, calls)) == Source.Returned(if i == 0 then 1 else 2)
  {
    var ctx := Programs.ContextOf(Program(), i, calls);
    var none: Source.Store := map[];
    var e := Tree(i).body.smts[0].result;
    assert Program()[i] == Tree(i);
    if i == 2 {
      assert Source.EvalArgs([], none, ctx) == Source.Args([]);
      assert |Source.Numbers([])| == 0 && |Source.Widths([])| == 0 && ctx.sigs[1].params == [];
    }
    var v := if i == 0 then 1 else 2;
    Ints.WrapIdentity(Ints.I64, v);
    assert Source.Eval(e, none, ctx) == Source.Gives(Source.Val(Ints.I64, v));
    assert Source.Bind([], []) == none;
    assert Source.Exec(Tree(i).body.smts[0], none, 0, ctx) == Source.Returned(v);
    assert Source.ExecSeq(Tree(i).body.smts, none, 0, ctx) == Source.Returned(v);
  }

  lemma TreeAnswers(i: nat, depth: nat)
    requires i < 3 && (i == 2 ==> Programs.Within(Program(), depth, Ir.Invocation(1, []), Ir.Returns(2)))
    ensures Programs.Within(Program(), depth + 1, Ir.Invocation(i, []), Ir.Returns(if i == 0 then 1 else 2))
  {
    hide Preservation.RunSource, Programs.SourceCalls, Programs.ContextOf, Source.CheckProgram;
    var calls, r := Programs.SourceCalls(Program(), depth), Ir.Returns(if i == 0 then 1 else 2);
    Checked();
    TreeRuns(i, calls);
    assert Program()[i] == Tree(i);
    assert Programs.SourceAnswers(Program(), calls, Ir.Invocation(i, []), r);
    Programs.OneDeeper(Program(), depth, Ir.Invocation(i, []), r);
  }

  /** Any text of the file answers 1, 2 and 2: the last call is of the second function. */
  lemma CallAnswers(items: seq<Printing.Item>, tail: string, i: nat)
    requires LaysOut(items, tail, File()) && i < 3
    ensures Answers(items, tail, i, [], Ir.Returns(if i == 0 then 1 else 2))
  {
    hide LaysOut, FileReadable, FileCalls, FileMeans, ProgramOf, Answers, Programs.SourceProgram, Programs.Within, File, Program, Source.CheckProgram;
    FileFits();
    FileMeansProgram();
    Checked();
    TreeAnswers(1, 0);
    TreeAnswers(i, 1);
    var r := Ir.Returns(if i == 0 then 1 else 2);
    Programs.WithinAnswers(Program(), 2, Ir.Invocation(i, []), r);
    FromSource(File(), Program(), items, tail, i, [], r);
  }

  // ---------- there are such texts ----------

  lemma WordsPrint()
    ensures Printing.Printable(Token(Ident, "one")) && Printing.Printable(Token(Ident, "two"))
    ensures Printing.Printable(Token(Int, "1")) && Printing.Printable(Token(Int, "2"))
  {
  }

  lemma ReturnsPrints(name: string, e: Pratt.Exp, semi: bool)
    requires Printing.Printable(Token(Ident, name)) && Prints(Grammar.Flatten(e))
    ensures Prints(SpellFun(Returns(name, e, semi)))
  {
    hide Prints, Spelling, SpellBody, Printing.Printable, TokenName, Grammar.Flatten;
    ReturnPrints(e);
    BodyTokens([SReturn(e)]);
    TypePrints();
    FunPrints(Returns(name, e, semi));
  }

  lemma CallHasText()
    ensures LaysOut(LexTheorems.Spaced(SpellFile(File()), ""), "", File())
  {
    hide Prints, SpellFun, Printing.Printable, LaysOut;
    WordsPrint();
    MainPrint();
    LeafPrints(Token(Int, "1"));
    LeafPrints(Token(Int, "2"));
    LeafPrints(Token(Ident, "two"));
    PlainCallPrints("two");
    assert Grammar.Flatten(Value(0)) == [Token(Int, "1")] && Grammar.Flatten(Value(1)) == [Token(Int, "2")];
    ReturnsPrints("one", Value(0), true);
    ReturnsPrints("two", Value(1), true);
    ReturnsPrints("main", Value(2), false);
    HaveText(File());
  }
}
