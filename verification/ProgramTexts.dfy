/** From the text of a small program to its answers. */
module ProgramTexts {
  import opened Wrappers
  import opened Tokens
  import Lexing
  import Printing
  import Pratt
  import Grammar
  import NodeSizes
  import Ir
  import Source
  import Programs
  import opened StatementGrammar
  import opened Statements
  import Scopes
  import opened Frontend
  import opened Files
  import opened FileGrammar
  import opened FileCompiler
  import LexTheorems
  import opened LoopText
  import FileText
  import NodeGrammar
  import NodeRoom

  function Pair(l: Pratt.Exp, op: TokenType, r: Pratt.Exp): Pratt.Exp { Pratt.Binary(l, Token(op, ""), r) }

  function Lines(smts: seq<Src>): Body { Body(smts, true) }

  /** The text is read to its end, and function `i` of its program, compiled, answers `r`. */
  ghost predicate Answers(items: seq<Printing.Item>, tail: string, i: nat, args: seq<int>, r: Ir.CallOutcome) {
    var o := Lexing.LexAll(Printing.Layout(items, tail), false);
    && o.Tokens? && ParseFile(o.ts, Begin()).DidFile?
    && var prog := ProgramOf(ParseFile(o.ts, Begin()).dcls);
    prog.Some? && Programs.TargetProgram(prog.value, i, args, r)
  }

  /** Any text of a small file answers what its source does. */
  lemma FromSource(ds: seq<Item>, prog: seq<Source.Function>, items: seq<Printing.Item>, tail: string, i: nat, args: seq<int>, r: Ir.CallOutcome)
    requires FileReadable(ds) && LaysOut(items, tail, ds) && |NodeGrammar.FileCalls(ds)| < NodeRoom.SLOTS
    requires ProgramOf(FileMeans(ds, [map[]], 0).tops) == Some(prog) && Source.CheckProgram(prog)
    requires Programs.SourceProgram(prog, i, args, r)
    ensures Answers(items, tail, i, args, r)
  {
    hide ProgramOf, ParseFile, FileMeans, LaysOut, FileReadable, Programs.SourceProgram, Programs.TargetProgram, NodeGrammar.FileCalls, NodeRoom.Held, NodeRoom.Fits;
    ProgramFinite(ds, [map[]], 0);
    NodeGrammar.FileProper(ds);
    NodeRoom.FewFit(NodeGrammar.FileCalls(ds));
    Widths(prog);
    ProgramFromText(ds, items, tail, i, args, r);
  }

  lemma OneReadable(f: Fun, more: seq<Item>)
    requires FunReadable(f)
    ensures FileReadable([FunItem(f)] + more) <==> FileReadable(more)
    ensures NodeGrammar.FileCalls([FunItem(f)] + more) == NodeGrammar.FunCalls(f) + NodeGrammar.FileCalls(more)
  {
    hide FunReadable, NodeGrammar.FunCalls;
    assert ([FunItem(f)] + more)[1..] == more;
  }

  lemma LeftNotRight(op: TokenType)
    requires Pratt.IsLeftOperator(op)
    ensures !Pratt.IsRightOperator(op)
  {
  }

  /** A call of a function without arguments. */
  lemma PlainCallFits(n: string, t: TokenType)
    requires BindingPower(t) <= 0
    ensures Fits(Pratt.Call(Name(n), []), t) && NodeSizes.Size(Pratt.Call(Name(n), [])) == 2
  {
    hide BindingPower;
    BracketPower();
    CallRespects(n, [], 0, t);
  }

  /** A call of a function with one argument or two. */
  lemma CallFits(n: string, args: seq<Pratt.Exp>, t: TokenType)
    requires BindingPower(t) <= 0 && 1 <= |args| <= 2 && Fits(args[|args| - 1], RParen) && (|args| == 2 ==> Fits(args[0], Comma))
    ensures Fits(Pratt.Call(Name(n), args), t)
    ensures NodeSizes.Size(Pratt.Call(Name(n), args)) == 2 + NodeSizes.Size(args[0]) + if |args| == 2 then NodeSizes.Size(args[1]) else 0
  {
    hide BindingPower, Grammar.Respects, Grammar.CanFollow, NodeSizes.Size;
    var last := [args[|args| - 1]];
    assert last[1..] == [];
    assert Grammar.AllRespect([], RParen);
    assert NodeSizes.Sizes([]) == 0;
    assert Grammar.AllRespect(last, RParen) && NodeSizes.Sizes(last) == NodeSizes.Size(last[0]);
    if |args| == 2 {
      assert args[1..] == last;
    } else {
      assert args == last;
    }
    BracketPower();
    CallRespects(n, args, 0, t);
  }

  lemma CallRespects(n: string, args: seq<Pratt.Exp>, r: int, t: TokenType)
    requires Grammar.AllRespect(args, RParen) && r < BindingPower(LParen)
    ensures Grammar.Respects(Pratt.Call(Name(n), args), r) && Grammar.CanFollow(Pratt.Call(Name(n), args), t)
    ensures NodeSizes.Size(Pratt.Call(Name(n), args)) == 2 + NodeSizes.Sizes(args)
  {
    hide BindingPower;
    assert Grammar.Respects(Name(n), r) && Grammar.CanFollow(Name(n), LParen) && NodeSizes.Size(Name(n)) == 1;
  }

  /** An operator between two calls. */
  lemma CallsFit(n: string, a: seq<Pratt.Exp>, op: TokenType, b: seq<Pratt.Exp>, t: TokenType)
    requires Grammar.AllRespect(a, RParen) && Grammar.AllRespect(b, RParen)
    requires Pratt.IsLeftOperator(op) && 0 < BindingPower(op) < BindingPower(LParen) && BindingPower(t) <= 0
    ensures var e := Pair(Pratt.Call(Name(n), a), op, Pratt.Call(Name(n), b));
      Fits(e, t) && NodeSizes.Size(e) == 5 + NodeSizes.Sizes(a) + NodeSizes.Sizes(b)
  {
    hide BindingPower, Pratt.IsLeftOperator, Pratt.IsRightOperator, Grammar.AllRespect;
    CallRespects(n, a, 0, op);
    CallRespects(n, b, BindingPower(op), t);
    InfixFits(Pratt.Call(Name(n), a), op, Pratt.Call(Name(n), b), t);
  }

  lemma InfixFits(l: Pratt.Exp, op: TokenType, r: Pratt.Exp, t: TokenType)
    requires Pratt.IsLeftOperator(op) && BindingPower(op) > 0 && BindingPower(t) <= 0
    requires Grammar.Respects(l, 0) && Grammar.CanFollow(l, op) && Grammar.Respects(r, BindingPower(op)) && Grammar.CanFollow(r, t)
    ensures Fits(Pair(l, op, r), t) && NodeSizes.Size(Pair(l, op, r)) == NodeSizes.Size(l) + NodeSizes.Size(r) + 1
  {
    hide BindingPower, Pratt.IsLeftOperator, Pratt.IsRightOperator;
    LeftNotRight(op);
    assert Grammar.RightPower(op) == BindingPower(op);
  }

  lemma BracketPower()
    ensures BindingPower(LParen) > 0
  {
  }

  lemma ReturnFits(e: Pratt.Exp)
    requires Fits(e, Semi)
    ensures Readable(SReturn(e), Semi) && |NodeGrammar.Calls(SReturn(e))| == NodeSizes.Size(e) + 1
  {
    hide Fits, NodeSizes.Size;
  }

  lemma FirstReadable(s: Src, more: seq<Src>)
    requires Readable(s, Semi)
    ensures ListReadable([s] + more, true) <==> ListReadable(more, true)
    ensures |NodeGrammar.ListCalls([s] + more)| == |NodeGrammar.Calls(s)| + |NodeGrammar.ListCalls(more)|
  {
    hide Readable, NodeGrammar.Calls;
    assert ([s] + more)[1..] == more;
  }

  lemma LastReadable(s: Src)
    requires Readable(s, Semi)
    ensures BodyReadable(Lines([s])) && |NodeGrammar.BodyCalls(Lines([s]))| == |NodeGrammar.Calls(s)| + 1
  {
    hide Readable, NodeGrammar.Calls;
    FirstReadable(s, []);
    assert [s] + [] == [s];
  }

  lemma Widths(prog: seq<Source.Function>)
    requires Source.CheckProgram(prog)
    ensures WidthsRight(prog)
  {
    forall i | 0 <= i < |prog| ensures WidthsAt(prog, i) {
      assert Source.CheckNth(prog, i);
    }
  }

  // ---------- what a body means, statement by statement ----------

  lemma LastMeans(s: Src, scope: Scopes.Stack, next: int, funs: map<Source.Dcl, nat>, r: Source.Smt)
    requires scope != [] && SmtOf(Means(s, scope, next).smt, funs) == Some(r)
    ensures SmtsOf(ListMeans([s], scope, next).smts, funs) == Some([r])
    ensures ListMeans([s], scope, next).next == Means(s, scope, next).next
  {
    hide Means, SmtOf;
    var m := Means(s, scope, next);
    assert [s][1..] == [] && ListMeans([], m.scope, m.next).smts == [];
    assert ([m.smt] + [])[1..] == [] && SmtsOf([], funs) == Some([]);
    assert SmtsOf([m.smt] + [], funs) == Some([r] + []);
    assert [r] + [] == [r];
  }

  lemma HeadMeans(s: Src, more: seq<Src>, scope: Scopes.Stack, next: int, funs: map<Source.Dcl, nat>, r: Source.Smt, rs: seq<Source.Smt>)
    requires scope != [] && SmtOf(Means(s, scope, next).smt, funs) == Some(r)
    requires var m := Means(s, scope, next); SmtsOf(ListMeans(more, m.scope, m.next).smts, funs) == Some(rs)
    ensures SmtsOf(ListMeans([s] + more, scope, next).smts, funs) == Some([r] + rs)
    ensures ListMeans([s] + more, scope, next).next == ListMeans(more, Means(s, scope, next).scope, Means(s, scope, next).next).next
  {
    hide Means, SmtOf, SmtsOf;
    assert ([s] + more)[1..] == more;
    MoreMeans([s] + more, scope, next, funs, r, rs);
  }

  lemma BlockMeans(b: Body, scope: Scopes.Stack, next: int, funs: map<Source.Dcl, nat>, rs: seq<Source.Smt>)
    requires scope != [] && SmtsOf(ListMeans(b.smts, [map[]] + scope, next).smts, funs) == Some(rs)
    ensures SmtOf(Blk(BodyMeans(b, scope, next).smts), funs) == Some(Source.Block(rs))
    ensures BodyMeans(b, scope, next).next == ListMeans(b.smts, [map[]] + scope, next).next
  {
    hide ListMeans, SmtsOf;
  }

  lemma ReturnMeans(e: Pratt.Exp, scope: Scopes.Stack, next: int, funs: map<Source.Dcl, nat>, x: Source.Exp)
    requires scope != [] && ExpOf(e, scope, funs) == Some(x)
    ensures var m := Means(SReturn(e), scope, next); m.scope == scope && m.next == next && SmtOf(m.smt, funs) == Some(Source.Return(x))
  {
    hide ExpOf;
  }

  lemma NameMeans(n: string, d: Source.Dcl, scope: Scopes.Stack, funs: map<Source.Dcl, nat>)
    requires n != "true" && n != "false" && Scopes.Found(scope, n) == Some(d)
    ensures ExpOf(Name(n), scope, funs) == Some(Source.Ident(d))
  {
  }

  /** One branch without `else`. */
  lemma IfMeans(c: Pratt.Exp, b: Body, scope: Scopes.Stack, next: int, funs: map<Source.Dcl, nat>, x: Source.Exp, body: Source.Smt)
    requires scope != [] && ExpOf(c, scope, funs) == Some(x) && SmtOf(Blk(BodyMeans(b, scope, next).smts), funs) == Some(body)
    ensures var m := Means(SIf(c, b, None), scope, next);
      && m.scope == scope && m.next == BodyMeans(b, scope, next).next && SmtOf(m.smt, funs) == Some(Source.If(Some(x), body, None))
  {
    hide ExpOf, BodyMeans;
    var smt := Blk(BodyMeans(b, scope, next).smts);
    assert SmtOf(Branch(Some(Seen(c, scope)), smt, Nothing), funs) == Some(Source.If(Some(x), body, None));
  }

  /** What stands after `else`. */
  function Elses(no: Src, scope: Scopes.Stack, next: int): Stm
    requires scope != []
  {
    if no.SIf? then Means(no, scope, next).smt else Branch(None, Means(no, scope, next).smt, Nothing)
  }

  lemma ElseMeans(c: Pratt.Exp, b: Body, no: Src, scope: Scopes.Stack, next: int, funs: map<Source.Dcl, nat>, x: Source.Exp, body: Source.Smt, e: Source.Smt)
    requires scope != [] && ExpOf(c, scope, funs) == Some(x) && SmtOf(Blk(BodyMeans(b, scope, next).smts), funs) == Some(body)
    requires var next' := BodyMeans(b, scope, next).next; !Elses(no, scope, next').Nothing? && SmtOf(Elses(no, scope, next'), funs) == Some(e)
    ensures SmtOf(Means(SIf(c, b, Some(no)), scope, next).smt, funs) == Some(Source.If(Some(x), body, Some(e)))
    ensures Means(SIf(c, b, Some(no)), scope, next).next == Means(no, scope, BodyMeans(b, scope, next).next).next
  {
    hide ExpOf, BodyMeans;
    var smt, elses := Blk(BodyMeans(b, scope, next).smts), Elses(no, scope, BodyMeans(b, scope, next).next);
    assert SmtOf(Branch(Some(Seen(c, scope)), smt, elses), funs) == Some(Source.If(Some(x), body, Some(e)));
  }

  /** A block after `else`. */
  lemma LastElse(b: Body, scope: Scopes.Stack, next: int, funs: map<Source.Dcl, nat>, body: Source.Smt)
    requires scope != [] && SmtOf(Blk(BodyMeans(b, scope, next).smts), funs) == Some(body)
    ensures SmtOf(Elses(SBlock(b), scope, next), funs) == Some(Source.If(None, body, None))
    ensures Means(SBlock(b), scope, next).next == BodyMeans(b, scope, next).next
  {
    hide BodyMeans;
    var blk := Blk(BodyMeans(b, scope, next).smts);
    assert SmtOf(Branch(None, blk, Nothing), funs) == Some(Source.If(None, body, None));
  }

  // ---------- what a file means, function by function ----------

  /** The program of the functions so far, their numbers, the scope after them and the next object. */
  ghost predicate SoFar(ds: seq<Item>, prog: seq<Source.Function>, funs: map<Source.Dcl, nat>, scope: Scopes.Stack, next: int) {
    var m := FileMeans(ds, [map[]], 0);
    ProgramOf(m.tops) == Some(prog) && Callees(m.tops) == funs && m.scope == scope && m.next == next
  }

  lemma NoFunction()
    ensures SoFar([], [], map[], [map[]], 0)
  {
  }

  lemma NextFunction(ds: seq<Item>, prog: seq<Source.Function>, funs: map<Source.Dcl, nat>, scope: Scopes.Stack, next: int, f: Fun, inner: Scopes.Stack, r: Source.Function)
    requires scope != [] && next >= 0 && SoFar(ds, prog, funs, scope, next) && Inside(f, scope, next) == inner
    requires ParametersOf(f.args, next) == Some(r.params) && WidthOf(f.ret) == Some(r.ret)
    requires SmtOf(Blk(BodyMeans(f.body, inner, next + |f.args| + 1).smts), funs[next + |f.args| := |ds|]) == Some(r.body)
    ensures SoFar(ds + [FunItem(f)], prog + [r], funs[next + |f.args| := |ds|], inner, BodyMeans(f.body, inner, next + |f.args| + 1).next)
  {
    hide ParametersOf, WidthOf, SmtOf, BodyMeans, Inside, FileMeans, ItemMeans;
    var empty: Scopes.Stack := [map[]];
    var m, t := FileMeans(ds, empty, 0), FunMeans(f, scope, next);
    FileJoin(ds, [FunItem(f)], empty, 0);
    FunItemMeans(FunItem(f), scope, next);
    OneThen(FunItem(f), [], scope, next);
    NothingMeans(t.scope, t.next);
    assert [FunItem(f)] + [] == [FunItem(f)] && [t.top] + [] == [t.top];
    var tops := m.tops + [t.top];
    assert tops[..|tops| - 1] == m.tops;
    assert Callees(tops) == funs[next + |f.args| := |ds|];
    assert FunctionFrom(t.top.fn, Callees(tops)) == Some(r);
  }

  lemma NothingMeans(scope: Scopes.Stack, next: int)
    requires scope != []
    ensures FileMeans([], scope, next) == FileMeaning([], scope, next)
  {
  }

  // ---------- there are such texts ----------

  lemma LeafPrints(t: Token)
    requires Printing.Printable(t)
    ensures Prints([t])
  {
  }

  lemma TypePrints()
    ensures Printing.Printable(Token(Ident, "int"))
  {
  }

  lemma MainPrint()
    ensures Printing.Printable(Token(Ident, "main"))
  {
  }

  lemma CallPrints(n: string, args: seq<Pratt.Exp>)
    requires Prints([Token(Ident, n)]) && 1 <= |args| <= 2 && Prints(Grammar.Flatten(args[0])) && Prints(Grammar.Flatten(args[|args| - 1]))
    ensures Prints(Grammar.Flatten(Pratt.Call(Name(n), args)))
  {
    hide Prints, TokenName;
    var comma, rest := [Grammar.Mark(Comma)], Grammar.Flatten(args[|args| - 1]);
    MarkPrints(Comma);
    MarkPrints(LParen);
    MarkPrints(RParen);
    Glued(comma, rest);
    Glued(Grammar.Flatten(args[0]), comma + rest);
    CommasOf(args);
    Glued(Grammar.Commas(args), [Grammar.Mark(RParen)]);
    Glued([Grammar.Mark(LParen)], Grammar.Commas(args) + [Grammar.Mark(RParen)]);
    Glued([Token(Ident, n)], [Grammar.Mark(LParen)] + (Grammar.Commas(args) + [Grammar.Mark(RParen)]));
  }

  lemma PlainCallPrints(n: string)
    requires Prints([Token(Ident, n)])
    ensures Prints(Grammar.Flatten(Pratt.Call(Name(n), [])))
  {
    hide Prints, TokenName;
    MarkPrints(LParen);
    MarkPrints(RParen);
    Glued([Grammar.Mark(LParen)], [Grammar.Mark(RParen)]);
    Glued([Token(Ident, n)], [Grammar.Mark(LParen)] + [Grammar.Mark(RParen)]);
    assert Grammar.Commas([]) + [Grammar.Mark(RParen)] == [Grammar.Mark(RParen)];
  }

  lemma CommasOf(args: seq<Pratt.Exp>)
    requires 1 <= |args| <= 2
    ensures Grammar.Commas(args) == if |args| == 1 then Grammar.Flatten(args[0]) else Grammar.Flatten(args[0]) + ([Grammar.Mark(Comma)] + Grammar.Flatten(args[1]))
  {
    if |args| == 2 {
      assert Grammar.Commas(args[1..]) == Grammar.Flatten(args[1]);
    }
  }

  lemma ReturnPrints(e: Pratt.Exp)
    requires Prints(Grammar.Flatten(e))
    ensures Prints(Spelling(SReturn(e)))
  {
    hide Prints;
    MarkPrints(Return);
    Glued([Key(Return)], Grammar.Flatten(e));
  }

  lemma BlockSpells(b: Body)
    ensures Spelling(SBlock(b)) == SpellBody(b)
  {
  }

  lemma IfPrints(c: Pratt.Exp, b: Body, no: Option<Src>)
    requires Prints(Grammar.Flatten(c)) && Prints(SpellBody(b)) && (no.Some? ==> Prints(Spelling(no.value)))
    ensures Prints(Spelling(SIf(c, b, no)))
  {
    hide Prints, Spelling;
    NothingPrints();
    MarkPrints(If);
    MarkPrints(Else);
    if no.Some? {
      Glued([Key(Else)], Spelling(no.value));
    }
    Glued(SpellBody(b), SpellElse(no));
    Glued(Grammar.Flatten(c), SpellBody(b) + SpellElse(no));
    Glued([Key(If)], Grammar.Flatten(c) + (SpellBody(b) + SpellElse(no)));
    IfSpells(c, b, no);
  }

  lemma IfSpells(c: Pratt.Exp, b: Body, no: Option<Src>)
    ensures Spelling(SIf(c, b, no)) == [Key(If)] + (Grammar.Flatten(c) + (SpellBody(b) + SpellElse(no)))
  {
  }

  /** A parameter or a result of a type that has a name. */
  ghost predicate HasName(t: TypeExp) { t.Named? && Printing.Printable(Token(Ident, t.name)) }

  lemma {:induction false} ArgsPrint(args: seq<Arg>, first: bool)
    requires forall i :: 0 <= i < |args| ==> HasName(args[i].ty) && Printing.Printable(Token(Ident, args[i].name))
    ensures Prints(SpellArgs(args, first))
    decreases |args|
  {
    hide Prints, Printing.Printable;
    NothingPrints();
    if args != [] {
      MarkPrints(Comma);
      LeafPrints(Token(Ident, args[0].ty.name));
      LeafPrints(Token(Ident, args[0].name));
      Glued([Token(Ident, args[0].ty.name)], [Token(Ident, args[0].name)]);
      ArgsPrint(args[1..], false);
      Glued(SpellArg(args[0]), SpellArgs(args[1..], false));
      Glued([Grammar.Mark(Comma)], SpellArg(args[0]) + SpellArgs(args[1..], false));
      assert [] + (SpellArg(args[0]) + SpellArgs(args[1..], false)) == SpellArg(args[0]) + SpellArgs(args[1..], false);
    }
  }

  lemma FunPrints(f: Fun)
    requires Printing.Printable(Token(Ident, f.name)) && HasName(f.ret) && Prints(SpellBody(f.body))
    requires forall i :: 0 <= i < |f.args| ==> HasName(f.args[i].ty) && Printing.Printable(Token(Ident, f.args[i].name))
    ensures Prints(SpellFun(f))
  {
    hide Prints, Printing.Printable, SpellBody, SpellArgs;
    ArgsPrint(f.args, true);
    NothingPrints();
    MarkPrints(Semi);
    MarkPrints(Arrow);
    Glued(SpellBody(f.body), SpellSemi(f));
    LeafPrints(Token(Ident, f.ret.name));
    Glued([Token(Ident, f.ret.name)], SpellInside(f));
    Glued([Grammar.Mark(Arrow)], FlattenType(f.ret) + SpellInside(f));
    Glued(SpellArgs(f.args, true), SpellResult(f));
    FileText.HeadPrints(f.name, SpellArgs(f.args, true) + SpellResult(f));
  }

  /** Functions whose tokens print have a text. */
  lemma {:induction false} FilesPrint(ds: seq<Item>)
    requires forall i :: 0 <= i < |ds| ==> ds[i].FunItem? && Prints(SpellFun(ds[i].fun))
    ensures Prints(SpellFile(ds))
    decreases |ds|
  {
    hide Prints, SpellFun;
    NothingPrints();
    if ds != [] {
      FilesPrint(ds[1..]);
      Glued(SpellFun(ds[0].fun), SpellFile(ds[1..]));
    }
  }

  lemma HaveText(ds: seq<Item>)
    requires forall i :: 0 <= i < |ds| ==> ds[i].FunItem? && Prints(SpellFun(ds[i].fun))
    ensures LaysOut(LexTheorems.Spaced(SpellFile(ds), ""), "", ds)
  {
    hide Prints, SpellFun, LaysOut;
    FilesPrint(ds);
    FileText.AllPrint(SpellFile(ds));
    FilePrints(ds);
  }
}
