/** Whole files: from a source text to a program of blocks that answers every call as
    the text means. */
module FileCompiler {
  import opened Wrappers
  import Tokens
  import Lexing
  import Printing
  import LexTheorems
  import Grammar
  import Pratt
  import Scopes
  import Source
  import Programs
  import opened Statements
  import StatementGrammar
  import StatementKeeps
  import opened Files
  import opened FileGrammar
  import opened Frontend
  import Nodes
  import NodeGrammar
  import NodeRoom
  import Ints
  import Ir

  // ---------- the program of a file ----------

  /** The functions among the declarations, by their number in the file. */
  function Callees(tops: seq<Top>): map<Source.Dcl, nat>
    decreases |tops|
  {
    if tops == [] then map[]
    else
      var d := tops[|tops| - 1];
      var more := Callees(tops[..|tops| - 1]);
      if d.Procedure? && d.fn.first + |d.fn.args| >= 0 then more[d.fn.first + |d.fn.args| := |tops| - 1] else more
  }

  function ParametersOf(args: seq<Arg>, first: int): (r: Option<seq<Source.Parameter>>)
    ensures r.Some? ==> |r.value| == |args| && forall i :: 0 <= i < |args| ==> r.value[i].dcl == first + i
    decreases |args|
  {
    if args == [] then Some([])
    else
      var w := WidthOf(args[0].ty);
      var more := ParametersOf(args[1..], first + 1);
      if w.None? || more.None? || first < 0 then None else Some([Source.Parameter(first, w.value)] + more.value)
  }

  /** None when this model leaves out the function or something in it. */
  function FunctionFrom(f: Fn, funs: map<Source.Dcl, nat>): Option<Source.Function> {
    var params := ParametersOf(f.args, f.first);
    var ret := WidthOf(f.ret);
    var body := SmtOf(f.body, funs);
    if params.None? || ret.None? || body.None? then None else Some(Source.Function(params.value, ret.value, body.value))
  }

  /** Parameters and result have the widths of their types. */
  lemma HeadIs(f: Fn, funs: map<Source.Dcl, nat>)
    requires FunctionFrom(f, funs).Some?
    ensures var r := FunctionFrom(f, funs).value;
      && WidthOf(f.ret) == Some(r.ret) && |r.params| == |f.args|
      && forall i :: 0 <= i < |f.args| ==> WidthOf(f.args[i].ty) == Some(r.params[i].ty) && r.params[i].dcl == f.first + i
  {
    ParametersAre(f.args, f.first);
  }

  lemma {:induction false} ParametersAre(args: seq<Arg>, first: int)
    requires ParametersOf(args, first).Some?
    ensures forall i :: 0 <= i < |args| ==> WidthOf(args[i].ty) == Some(ParametersOf(args, first).value[i].ty)
    decreases |args|
  {
    hide WidthOf;
    if args != [] {
      ParametersAre(args[1..], first + 1);
      var more := ParametersOf(args[1..], first + 1).value;
      forall i | 0 < i < |args| ensures WidthOf(args[i].ty) == Some(ParametersOf(args, first).value[i].ty) {
        assert args[i] == args[1..][i - 1] && ParametersOf(args, first).value[i] == more[i - 1];
      }
    }
  }

  /** A function can call itself and those before it. None also when there is a declaration
      that is no function: the program stops at it. */
  function ProgramOf(tops: seq<Top>): (r: Option<seq<Source.Function>>)
    ensures r.Some? ==> |r.value| == |tops|
    decreases |tops|
  {
    if tops == [] then Some([])
    else
      var d := tops[|tops| - 1];
      var before := ProgramOf(tops[..|tops| - 1]);
      var last := if d.Procedure? then FunctionFrom(d.fn, Callees(tops)) else None;
      if before.None? || last.None? then None else Some(before.value + [last.value])
  }

  lemma {:induction false} ProgramAt(tops: seq<Top>, i: nat)
    requires ProgramOf(tops).Some? && i < |tops|
    ensures tops[i].Procedure? && FunctionFrom(tops[i].fn, Callees(tops[..i + 1])) == Some(ProgramOf(tops).value[i])
    decreases |tops|
  {
    hide FunctionFrom, Callees;
    if i == |tops| - 1 {
      assert tops[..i + 1] == tops;
    } else {
      ProgramAt(tops[..|tops| - 1], i);
      assert tops[..|tops| - 1][..i + 1] == tops[..i + 1];
    }
  }

  // ---------- what the parser sees to ----------

  /** Every body is numbered on from its parameters. */
  ghost predicate Ordered(d: Top) {
    d.Procedure? ==> d.fn.body.Blk? && StatementKeeps.Numbered(d.fn.body, d.fn.first + |d.fn.args| + 1)
  }

  lemma FunctionOrdered(ts: seq<Tokens.Token>, st: State)
    requires st.scope != [] && ParseFunction(ts, st).DidTop?
    ensures Ordered(ParseFunction(ts, st).dcl)
  {
    hide ParseParams, ParseRest, Ordered;
    if ParseFunction(ts, st).dcl.Absent? {
      AbsentOrdered(ParseFunction(ts, st).dcl);
    } else {
      var (p, es) := Pratt.Expect(ts, st.pos + 2, Tokens.DoubleColon, st.errors);
      RestOrdered(ts, ts[st.pos + 1].value, ParseParams(ts, st.(pos := p, errors := es), []));
    }
  }

  lemma AbsentOrdered(d: Top)
    requires !d.Procedure?
    ensures Ordered(d)
  {
  }

  lemma RestOrdered(ts: seq<Tokens.Token>, name: string, a: ArgsParse)
    requires a.DidArgs? ==> a.st.scope != [] && a.st.pos <= |ts|
    requires ParseRest(ts, name, a).DidTop?
    ensures Ordered(ParseRest(ts, name, a).dcl)
  {
    hide ParseType, ParseBlock, StatementKeeps.Numbered;
    if ParseRest(ts, name, a).dcl.Procedure? {
      var t := ParseType(ts, a.st.(pos := a.st.pos + 1));
      StatementKeeps.BlockKept(ts, BoundAll(t.st, InOrder(a.args.value, name)));
    }
  }

  lemma TopOrdered(ts: seq<Tokens.Token>, st: State)
    requires st.scope != [] && st.pos < |ts| && StartsTop(ts[st.pos].ty) && ParseTop(ts, st).DidTop?
    ensures Ordered(ParseTop(ts, st).dcl)
  {
    hide ParseFunction, ParseVariable, Ordered;
    if ts[st.pos].ty.Proc? {
      FunctionOrdered(ts, st);
    } else {
      AbsentOrdered(ParseTop(ts, st).dcl);
    }
  }

  lemma {:induction false} FileOrdered(ts: seq<Tokens.Token>, st: State)
    requires st.scope != [] && ParseFile(ts, st).DidFile?
    ensures forall d :: d in ParseFile(ts, st).dcls ==> Ordered(d)
    decreases |ts| - st.pos
  {
    hide ParseTop, Ordered;
    if !ts[st.pos].ty.End? {
      TopOrdered(ts, st);
      FileOrdered(ts, ParseTop(ts, st).st);
    }
  }

  // ---------- which function a call is of ----------

  /** The object of a function. */
  function ObjectOf(f: Fn): int { f.first + |f.args| }

  /** Objects are numbered on from one function to the next. */
  predicate Numbered(tops: seq<Top>, from: int) {
    && (forall k :: 0 <= k < |tops| && tops[k].Procedure? ==> from <= ObjectOf(tops[k].fn))
    && (forall j, k :: 0 <= j < k < |tops| && tops[j].Procedure? && tops[k].Procedure? ==> ObjectOf(tops[j].fn) < ObjectOf(tops[k].fn))
  }

  lemma RestNumbers(ts: seq<Tokens.Token>, name: string, a: ArgsParse)
    requires a.DidArgs? ==> a.st.scope != [] && a.st.pos <= |ts|
    requires ParseRest(ts, name, a).DidTop?
    ensures var r := ParseRest(ts, name, a);
      && a.st.next <= r.st.next
      && (r.dcl.Procedure? ==> r.dcl.fn.first == a.st.next && ObjectOf(r.dcl.fn) < r.st.next)
  {
    hide ParseType, ParseBlock, Files.SkipBlock, InsertAll;
    if ParseRest(ts, name, a).dcl.Procedure? {
      var t := ParseType(ts, a.st.(pos := a.st.pos + 1));
      StatementKeeps.BlockKept(ts, BoundAll(t.st, InOrder(a.args.value, name)));
    }
  }

  lemma TopNumbers(ts: seq<Tokens.Token>, st: State)
    requires st.scope != [] && st.pos < |ts| && StartsTop(ts[st.pos].ty) && ParseTop(ts, st).DidTop?
    ensures var r := ParseTop(ts, st);
      st.next <= r.st.next && (r.dcl.Procedure? ==> st.next <= ObjectOf(r.dcl.fn) < r.st.next)
  {
    hide ParseParams, ParseRest, ParseVariable, Files.SkipBlock;
    if ts[st.pos].ty.Proc? {
      if st.pos + 2 < |ts| && ts[st.pos + 1].ty.Ident? {
        var (p, es) := Pratt.Expect(ts, st.pos + 2, Tokens.DoubleColon, st.errors);
        RestNumbers(ts, ts[st.pos + 1].value, ParseParams(ts, st.(pos := p, errors := es), []));
      }
    } else {
      StatementKeeps.VariableKept(ts, st);
    }
  }

  lemma {:induction false} FileNumbers(ts: seq<Tokens.Token>, st: State)
    requires st.scope != [] && ParseFile(ts, st).DidFile?
    ensures Numbered(ParseFile(ts, st).dcls, st.next)
    decreases |ts| - st.pos
  {
    hide ParseTop;
    if !ts[st.pos].ty.End? {
      TopNumbers(ts, st);
      var d := ParseTop(ts, st);
      FileNumbers(ts, d.st);
      var more := ParseFile(ts, d.st).dcls;
      assert ParseFile(ts, st).dcls == [d.dcl] + more;
    }
  }

  /** The object of each function leads to its number in the file, and no other object to any. */
  lemma {:induction false} CalleesAre(tops: seq<Top>)
    requires Numbered(tops, 0)
    ensures forall k :: 0 <= k < |tops| && tops[k].Procedure? ==> ObjectOf(tops[k].fn) in Callees(tops) && Callees(tops)[ObjectOf(tops[k].fn)] == k
    ensures forall d :: d in Callees(tops) ==>
      Callees(tops)[d] < |tops| && tops[Callees(tops)[d]].Procedure? && ObjectOf(tops[Callees(tops)[d]].fn) == d
    decreases |tops|
  {
    if tops != [] {
      CalleesAre(tops[..|tops| - 1]);
    }
  }

  /** In the body of function `i` of any file that is read, a call by a name that finds the
      object of function `k` is a call of number `k`, the function itself included. */
  lemma CallOf(ts: seq<Tokens.Token>, st: State, i: nat, k: nat, n: string, args: seq<Pratt.Exp>, scope: Scopes.Stack)
    requires st.scope != [] && 0 <= st.next && ParseFile(ts, st).DidFile?
    requires k <= i < |ParseFile(ts, st).dcls| && ParseFile(ts, st).dcls[k].Procedure?
    requires Scopes.Found(scope, n) == Some(ObjectOf(ParseFile(ts, st).dcls[k].fn))
    ensures var funs := Callees(ParseFile(ts, st).dcls[..i + 1]);
      ExpOf(Pratt.Call(Pratt.IdentExp(n), args), scope, funs) ==
        if ExpsOf(args, scope, funs).None? then None else Some(Source.CallExp(k, ExpsOf(args, scope, funs).value))
  {
    hide ParseFile, Callees;
    FileNumbers(ts, st);
    var tops := ParseFile(ts, st).dcls;
    assert tops[..i + 1][k] == tops[k];
    CalleesAre(tops[..i + 1]);
  }

  /** A call by a name that finds no function up to `i` is not taken. */
  lemma CallOfNone(ts: seq<Tokens.Token>, st: State, i: nat, n: string, args: seq<Pratt.Exp>, scope: Scopes.Stack)
    requires st.scope != [] && 0 <= st.next && ParseFile(ts, st).DidFile? && i < |ParseFile(ts, st).dcls|
    requires var tops := ParseFile(ts, st).dcls;
      forall k :: 0 <= k <= i && tops[k].Procedure? ==> Scopes.Found(scope, n) != Some(ObjectOf(tops[k].fn))
    ensures ExpOf(Pratt.Call(Pratt.IdentExp(n), args), scope, Callees(ParseFile(ts, st).dcls[..i + 1])) == None
  {
    hide ParseFile, Callees;
    FileNumbers(ts, st);
    var tops := ParseFile(ts, st).dcls;
    CalleesAre(tops[..i + 1]);
    forall d | d in Callees(tops[..i + 1]) ensures Scopes.Found(scope, n) != Some(d) {
      assert tops[..i + 1][Callees(tops[..i + 1])[d]] == tops[Callees(tops[..i + 1])[d]];
    }
  }

  /** By its name: in the body of function `i`, outside of inner scopes, a call of a function
      declared up to there under a new name is a call of that function. */
  lemma CallByName(ds: seq<Item>, k: nat, i: nat, args: seq<Pratt.Exp>)
    requires k <= i < |ds| && ds[k].FunItem? && ds[i].FunItem?
    requires var f := ds[k].fun; f.name !in Names(ds[..k]) && forall j :: 0 <= j < |f.args| ==> f.args[j].name != f.name
    ensures var b := FileMeans(ds[..i], [map[]], 0);
      var scope := Inside(ds[i].fun, b.scope, b.next);
      var funs := Callees(FileMeans(ds, [map[]], 0).tops[..i + 1]);
      ExpOf(Pratt.Call(Pratt.IdentExp(ds[k].fun.name), args), scope, funs) ==
        if ExpsOf(args, scope, funs).None? then None else Some(Source.CallExp(k, ExpsOf(args, scope, funs).value))
  {
    hide FileMeans, Callees, Names, Inside, ItemMeans;
    FoundByName(ds, k, i);
    var empty: Scopes.Stack := [map[]];
    var tops := FileMeans(ds, empty, 0).tops;
    FileScope(ds[..k], empty, 0);
    FileSplit(ds, k, empty, 0);
    FunNumber(ds[k].fun, FileMeans(ds[..k], empty, 0).scope, FileMeans(ds[..k], empty, 0).next);
    MeansNumbered(ds, empty, 0);
    NumberedPart(tops, i + 1);
    CalleesAre(tops[..i + 1]);
    FunItemMeans(ds[k], FileMeans(ds[..k], empty, 0).scope, FileMeans(ds[..k], empty, 0).next);
    assert tops[..i + 1][k] == tops[k];
  }

  lemma FunItemMeans(i: Item, scope: Scopes.Stack, next: int)
    requires scope != [] && i.FunItem?
    ensures ItemMeans(i, scope, next) == FunMeans(i.fun, scope, next)
  {
  }

  lemma FunNumber(f: Fun, scope: Scopes.Stack, next: int)
    requires scope != []
    ensures var m := FunMeans(f, scope, next); m.top.Procedure? && ObjectOf(m.top.fn) == next + |f.args|
  {
  }

  lemma ItemNumber(i: Item, scope: Scopes.Stack, next: int)
    requires Below(scope, next)
    ensures var m := ItemMeans(i, scope, next);
      next <= m.next && (m.top.Procedure? ==> next <= ObjectOf(m.top.fn) < m.next)
  {
    ItemScope(i, scope, next);
    if i.FunItem? {
      StatementGrammar.BodyGrows(i.fun.body, Inside(i.fun, scope, next), next + |i.fun.args| + 1);
    }
  }

  lemma {:induction false} MeansNumbered(ds: seq<Item>, scope: Scopes.Stack, next: int)
    requires Below(scope, next)
    ensures Numbered(FileMeans(ds, scope, next).tops, next)
    decreases |ds|
  {
    hide ItemMeans;
    if ds != [] {
      var m := ItemMeans(ds[0], scope, next);
      ItemNumber(ds[0], scope, next);
      ItemScope(ds[0], scope, next);
      MeansNumbered(ds[1..], m.scope, m.next);
    }
  }

  lemma NumberedPart(tops: seq<Top>, n: nat)
    requires Numbered(tops, 0) && n <= |tops|
    ensures Numbered(tops[..n], 0)
  {
  }

  // ---------- the program does what the file means ----------

  /** The widths of every body are right, with its own parameters in scope. */
  ghost predicate WidthsRight(prog: seq<Source.Function>) {
    forall i :: 0 <= i < |prog| ==> WidthsAt(prog, i)
  }

  predicate WidthsAt(prog: seq<Source.Function>, i: nat) {
    i < |prog| && Source.Check(prog[i].body, Source.ParamEnv(prog[i].params), Source.Signatures(prog, i)).Some?
  }

  lemma {:induction false} ParamKeys(params: seq<Source.Parameter>, first: int, d: Source.Dcl)
    requires forall i :: 0 <= i < |params| ==> params[i].dcl == first + i
    ensures d in Source.ParamEnv(params).Keys ==> first <= d < first + |params|
  {
    if params != [] {
      ParamKeys(params[..|params| - 1], first, d);
    }
  }

  /** That a body is a proper tree is not assumed: the parser sees to it. */
  lemma FunctionChecks(f: Fn, funs: map<Source.Dcl, nat>, sigs: seq<Source.Signature>)
    requires Ordered(Procedure(f)) && FunctionFrom(f, funs).Some?
    requires var r := FunctionFrom(f, funs).value; Source.Check(r.body, Source.ParamEnv(r.params), sigs).Some?
    ensures Source.CheckFunction(FunctionFrom(f, funs).value, sigs)
  {
    var r := FunctionFrom(f, funs).value;
    var used := Source.ParamEnv(r.params).Keys;
    var lo := f.first + |f.args| + 1;
    forall d | d in used ensures d < lo { ParamKeys(r.params, f.first, d); }
    NumberedTree(f.body, lo, funs, used);
    assert r.body.Block?;
  }

  /** Whatever file of functions the parser reads, even with errors it could recover
      from: when there is room for its nodes and the widths are right, the pools hold its trees,
      and the compiled program answers every call as its source does. */
  lemma FilePreserved(ts: seq<Tokens.Token>, st: State, f: nat, args: seq<int>, r: Ir.CallOutcome)
    requires st.scope != [] && ParseFile(ts, st).DidFile? && NodeRoom.Fits(Nodes.FileLog(ts, st))
    requires var prog := ProgramOf(ParseFile(ts, st).dcls); prog.Some? && WidthsRight(prog.value)
    ensures NodeRoom.Held(Nodes.FileLog(ts, st))
    ensures var prog := ProgramOf(ParseFile(ts, st).dcls).value;
      && Source.CheckProgram(prog)
      && (Programs.SourceProgram(prog, f, args, r) <==> Programs.TargetProgram(prog, f, args, r))
  {
    hide FunctionFrom, ProgramOf, Callees, Ordered, ParseFile, Programs.SourceProgram, Programs.TargetProgram, Source.CheckFunction;
    hide NodeRoom.Held, NodeRoom.Fits, Nodes.FileLog;
    NodeRoom.FileRoom(ts, st);
    var tops := ParseFile(ts, st).dcls;
    var prog := ProgramOf(tops).value;
    FileOrdered(ts, st);
    forall i | 0 <= i < |prog| ensures Source.CheckNth(prog, i) {
      assert WidthsAt(prog, i);
      assert tops[i] in tops;
      ProgramAt(tops, i);
      FunctionChecks(tops[i].fn, Callees(tops[..i + 1]), Source.Signatures(prog, i));
    }
    Programs.ProgramPreserved(prog, f, args, r);
  }

  // ---------- from a text ----------

  /** A text that lays out the declarations; a newline at its very end is the semicolon
      after the last of them. */
  ghost predicate LaysOut(items: seq<Printing.Item>, tail: string, ds: seq<Item>) {
    && Printing.Readable(items, tail) && Printing.GoodTail(tail, Printing.LastFlag(items, false))
    && Printing.Expected(items, false) + (if tail == "" then [] else [Tokens.Token(Tokens.Semi, "")]) == SpellFile(ds)
  }

  /** Of what is white space and printable tokens exactly the texts that lex to the tokens of the
      declarations lay them out. */
  lemma LaysOutExactly(items: seq<Printing.Item>, tail: string, ds: seq<Item>)
    requires Printing.Readable(items, tail)
    ensures LaysOut(items, tail, ds) <==>
      Lexing.LexAll(Printing.Layout(items, tail), false) == Lexing.Tokens(SpellFile(ds) + [Tokens.Token(Tokens.End, "")])
  {
    hide SpellFile, Printing.Readable, Printing.Expected, Printing.LastFlag, Printing.GoodTail, Lexing.LexAll, Printing.Layout;
    Printing.LexOfLayout(items, tail, false);
    var semi := if tail == "" then [] else [Tokens.Token(Tokens.Semi, "")];
    var last := [Tokens.Token(Tokens.End, "")];
    assert Printing.Expected(items, false) + (semi + last) == Printing.Expected(items, false) + semi + last;
    Printing.Cancelled(Printing.Expected(items, false) + semi, SpellFile(ds), last);
  }

  function Begin(): State { State(0, [], [map[]], 0) }

  /** Any layout of a readable file lexes, and parses to what the file means if and only if
      no variable has a semicolon behind it. Otherwise the parser goes on for ever. The pools of
      the program hold those trees if and only if there is room for the nodes that are counted
      in the file. */
  lemma FileFromText(ds: seq<Item>, items: seq<Printing.Item>, tail: string)
    requires FileReadable(ds) && LaysOut(items, tail, ds)
    ensures var o := Lexing.LexAll(Printing.Layout(items, tail), false);
      var m := FileMeans(ds, [map[]], 0);
      && o.Tokens?
      && (Finite(ds) ==> ParseFile(o.ts, Begin()) == DidFile(m.tops, State(|SpellFile(ds)|, [], m.scope, m.next)))
      && (!Finite(ds) <==> ParseFile(o.ts, Begin()).Endless?)
      && (Finite(ds) ==> Nodes.FileLog(o.ts, Begin()) == NodeGrammar.FileCalls(ds))
      && (Finite(ds) ==> (NodeRoom.Held(Nodes.FileLog(o.ts, Begin())) <==> NodeRoom.Fits(NodeGrammar.FileCalls(ds))))
  {
    hide Nodes.FileLog, NodeGrammar.FileCalls, NodeRoom.Held, NodeRoom.Fits;
    hide FileMeans, ParseFile, SpellFile, FileReadable, Finite, Lexing.LexAll, Printing.Layout, Printing.Readable, Printing.Expected, Printing.LastFlag;
    Printing.LexOfLayout(items, tail, false);
    var semi := if tail == "" then [] else [Tokens.Token(Tokens.Semi, "")];
    var last := [Tokens.Token(Tokens.End, "")];
    assert Printing.Expected(items, false) + (semi + last) == SpellFile(ds) + last;
    FileTokens(ds, SpellFile(ds) + last);
  }

  lemma FileTokens(ds: seq<Item>, ts: seq<Tokens.Token>)
    requires FileReadable(ds) && ts == SpellFile(ds) + [Tokens.Token(Tokens.End, "")]
    ensures var m := FileMeans(ds, [map[]], 0);
      && (Finite(ds) ==> ParseFile(ts, Begin()) == DidFile(m.tops, State(|SpellFile(ds)|, [], m.scope, m.next)))
      && (!Finite(ds) <==> ParseFile(ts, Begin()).Endless?)
      && (Finite(ds) ==> Nodes.FileLog(ts, Begin()) == NodeGrammar.FileCalls(ds))
      && (NodeRoom.Held(Nodes.FileLog(ts, Begin())) <==> NodeRoom.Fits(Nodes.FileLog(ts, Begin())))
  {
    hide FileMeans, ParseFile, SpellFile, FileReadable, Finite, Nodes.FileLog, NodeGrammar.FileCalls, NodeRoom.Held, NodeRoom.Fits;
    assert Grammar.HasAt(ts, 0, SpellFile(ds));
    ReadsFile(ts, Begin(), ds);
    if Finite(ds) {
      NodeGrammar.FileLogIs(ts, Begin(), ds);
    }
    NodeRoom.FileRoom(ts, Begin());
  }

  /** The whole compiler: any layout of any readable file of functions for whose nodes there
      is room and whose widths are right becomes a program of blocks that answers each call,
      with recursion, exactly as the meaning of the file does. */
  lemma ProgramFromText(ds: seq<Item>, items: seq<Printing.Item>, tail: string, f: nat, args: seq<int>, r: Ir.CallOutcome)
    requires FileReadable(ds) && LaysOut(items, tail, ds) && NodeRoom.Fits(NodeGrammar.FileCalls(ds))
    requires var prog := ProgramOf(FileMeans(ds, [map[]], 0).tops); prog.Some? && WidthsRight(prog.value)
    ensures var o := Lexing.LexAll(Printing.Layout(items, tail), false);
      var tops := FileMeans(ds, [map[]], 0).tops;
      && o.Tokens? && ParseFile(o.ts, Begin()).DidFile? && ParseFile(o.ts, Begin()).dcls == tops
      && NodeRoom.Held(Nodes.FileLog(o.ts, Begin())) && Source.CheckProgram(ProgramOf(tops).value)
      && (Programs.SourceProgram(ProgramOf(tops).value, f, args, r) <==> Programs.TargetProgram(ProgramOf(tops).value, f, args, r))
  {
    hide ProgramOf, ParseFile, FileMeans, WidthsRight, LaysOut, FileReadable, Programs.SourceProgram, Programs.TargetProgram;
    hide NodeRoom.Held, NodeRoom.Fits, Nodes.FileLog, NodeGrammar.FileCalls;
    ProgramFinite(ds, [map[]], 0);
    FileFromText(ds, items, tail);
    FilePreserved(Lexing.LexAll(Printing.Layout(items, tail), false).ts, Begin(), f, args, r);
  }

  /** A program has functions only. */
  lemma ProgramFinite(ds: seq<Item>, scope: Scopes.Stack, next: int)
    requires scope != [] && ProgramOf(FileMeans(ds, scope, next).tops).Some?
    ensures Finite(ds)
  {
    hide ProgramOf, ItemMeans;
    var tops := FileMeans(ds, scope, next).tops;
    forall i | i in ds ensures i.FunItem? {
      var k :| 0 <= k < |ds| && ds[k] == i;
      ProgramAt(tops, k);
      FileSplit(ds, k, scope, next);
      FunctionTop(ds[k], FileMeans(ds[..k], scope, next).scope, FileMeans(ds[..k], scope, next).next);
    }
  }

  lemma FunctionTop(i: Item, scope: Scopes.Stack, next: int)
    requires scope != [] && ItemMeans(i, scope, next).top.Procedure?
    ensures i.FunItem?
  {
  }

  /** The tokens of a readable file, with a space between any two, lay it out. */
  lemma FilePrints(ds: seq<Item>)
    requires forall i :: 0 <= i < |SpellFile(ds)| ==> Printing.Printable(SpellFile(ds)[i])
    ensures LaysOut(LexTheorems.Spaced(SpellFile(ds), ""), "", ds)
  {
    LexTheorems.SpacedSound(SpellFile(ds), "");
    assert SpellFile(ds) + [] == SpellFile(ds);
  }

  // ---------- two functions with a parameter of the same name ----------

  /** `{ return n }` */
  function Returning(n: string): StatementGrammar.Body {
    StatementGrammar.Body([StatementGrammar.SReturn(Pratt.IdentExp(n))], true)
  }

  lemma ReturningMeans(n: string, scope: Scopes.Stack, next: int, funs: map<Source.Dcl, nat>)
    requires scope != [] && n != "true" && n != "false"
    ensures SmtOf(Blk(StatementGrammar.BodyMeans(Returning(n), scope, next).smts), funs) ==
      if DclOf(n, scope).None? then None else Some(Source.Block([Source.Return(Source.Ident(DclOf(n, scope).value))]))
  {
    var inner := [map[]] + scope;
    assert inner[1..] == scope && Scopes.Found(inner, n) == Scopes.Found(scope, n);
    var smts := Returning(n).smts;
    assert smts[1..] == [];
    var ret := Ret(Seen(Pratt.IdentExp(n), inner));
    assert StatementGrammar.Means(smts[0], inner, next) == StatementGrammar.Meaning(ret, inner, next);
    assert StatementGrammar.ListMeans(smts, inner, next).smts == [ret] + StatementGrammar.ListMeans([], inner, next).smts;
    assert StatementGrammar.BodyMeans(Returning(n), scope, next).smts == [ret];
    assert SmtOf(ret, funs) == if DclOf(n, scope).None? then None else Some(Source.Return(Source.Ident(DclOf(n, scope).value)));
    assert [ret][1..] == [] && SmtsOf([], funs) == Some([]);
    assert SmtsOf([ret], funs) == if SmtOf(ret, funs).None? then None else Some([SmtOf(ret, funs).value] + []);
    assert SmtOf(Blk([ret]), funs) == if SmtsOf([ret], funs).None? then None else Some(Source.Block(SmtsOf([ret], funs).value));
    assert DclOf(n, scope).Some? ==> SmtsOf([ret], funs).Some?;
    assert DclOf(n, scope).Some? ==> SmtsOf([ret], funs).value == [Source.Return(Source.Ident(DclOf(n, scope).value))];
    assert DclOf(n, scope).Some? ==> SmtOf(Blk([ret]), funs) == Some(Source.Block([Source.Return(Source.Ident(DclOf(n, scope).value))]));
    assert DclOf(n, scope).None? ==> SmtOf(Blk([ret]), funs) == None;
  }

  lemma {:induction false} ParamIn(params: seq<Source.Parameter>, first: int, d: Source.Dcl)
    requires forall i :: 0 <= i < |params| ==> params[i].dcl == first + i
    ensures d in Source.ParamEnv(params) <==> first <= d < first + |params|
  {
    if params != [] {
      ParamIn(params[..|params| - 1], first, d);
    }
  }

  lemma ReturnChecks(d: Source.Dcl, env: Source.Env, sigs: seq<Source.Signature>)
    ensures Source.Check(Source.Block([Source.Return(Source.Ident(d))]), env, sigs).Some? <==> d in env
  {
    var smts := [Source.Return(Source.Ident(d))];
    assert smts[1..] == [];
    assert Source.CheckSeq([], env, sigs) == Some(env);
    assert Source.ExpType(Source.Ident(d), env, sigs).Some? <==> d in env;
    assert Source.CheckSeq(smts, env, sigs).Some? <==> Source.Check(smts[0], env, sigs).Some?;
  }

  /** A function that returns one of its parameters is accepted exactly when nothing
      declared before it has that name, and no parameter of another function: otherwise the
      name is looked up as that object, which this function cannot load from. */
  lemma ReturnsParameter(ds: seq<Item>, i: nat, j: nat)
    requires i < |ds| && ds[i].FunItem? && j < |ds[i].fun.args| && ds[i].fun.body == Returning(ds[i].fun.args[j].name)
    requires ds[i].fun.args[j].name != "true" && ds[i].fun.args[j].name != "false"
    requires ProgramOf(FileMeans(ds, [map[]], 0).tops).Some?
    ensures WidthsAt(ProgramOf(FileMeans(ds, [map[]], 0).tops).value, i) <==> ds[i].fun.args[j].name !in Names(ds[..i])
  {
    hide ProgramOf, FileMeans, Names, Callees, StatementGrammar.BodyMeans, InsertAll, Source.Check, SmtOf;
    var tops := FileMeans(ds, [map[]], 0).tops;
    var prog := ProgramOf(tops).value;
    var g := ds[i].fun;
    var n := g.args[j].name;
    OwnNames(ds, i, j);
    var b := FileMeans(ds[..i], [map[]], 0);
    var scope := Inside(g, b.scope, b.next);
    assert InOrder(g.args, g.name)[j] == n;
    ProgramAt(tops, i);
    ReturningMeans(n, scope, b.next + |g.args| + 1, Callees(tops[..i + 1]));
    var d := DclOf(n, scope).value;
    ParamIn(prog[i].params, b.next, d);
    ReturnChecks(d, Source.ParamEnv(prog[i].params), Source.Signatures(prog, i));
  }
}
