/** Files of functions and variables, stated without the parser: how they are written and
    what their names mean; and when the parser reads them so, and when it never ends. */
module FileGrammar {
  import opened Wrappers
  import opened Tokens
  import opened Pratt
  import opened Grammar
  import opened Statements
  import opened StatementGrammar
  import opened StatementComplete
  import opened Files
  import Scopes

  /** `semi` tells whether a semicolon stands after the body. */
  datatype Fun = Fun(name: string, args: seq<Arg>, ret: TypeExp, body: Body, semi: bool)

  /** A declaration of a file; `stop` tells whether a semicolon stands after a variable. */
  datatype Item = FunItem(fun: Fun) | VarItem(decl: Decl, stop: bool)

  // ---------- spelling ----------

  function SpellArg(a: Arg): seq<Token> { FlattenType(a.ty) + [Token(Ident, a.name)] }

  /** All parameters but the first of a list have a comma in front. */
  function SpellArgs(args: seq<Arg>, first: bool): seq<Token>
    decreases |args|
  {
    if args == [] then []
    else (if first then [] else [Mark(Comma)]) + (SpellArg(args[0]) + SpellArgs(args[1..], false))
  }

  function SpellFun(f: Fun): seq<Token> {
    [Key(TokenType.Proc)] + ([Token(Ident, f.name)] + ([Mark(DoubleColon)] + (SpellArgs(f.args, true) + SpellResult(f))))
  }

  function SpellResult(f: Fun): seq<Token> { [Mark(Arrow)] + (FlattenType(f.ret) + SpellInside(f)) }

  function SpellInside(f: Fun): seq<Token> { SpellBody(f.body) + SpellSemi(f) }

  function SpellSemi(f: Fun): seq<Token> { if f.semi then [Mark(Semi)] else [] }

  function SpellItem(i: Item): seq<Token> {
    match i
    case FunItem(f) => SpellFun(f)
    case VarItem(d, stop) => FlattenDecl(d) + if stop then [Mark(Semi)] else []
  }

  function SpellFile(items: seq<Item>): seq<Token>
    decreases |items|
  {
    if items == [] then [] else SpellItem(items[0]) + SpellFile(items[1..])
  }

  // ---------- what can be read, and what it means ----------

  predicate FunReadable(f: Fun) {
    (forall i :: 0 <= i < |f.args| ==> TypeFits(f.args[i].ty)) && TypeFits(f.ret) && BodyReadable(f.body)
  }

  /** What the first declaration begins with, or the end of the file. */
  function FirstType(items: seq<Item>): TokenType {
    if items == [] then End
    else
      match items[0]
      case FunItem(_) => TokenType.Proc
      case VarItem(d, _) => if d.ty.Some? then TokenType.Var else Ident
  }

  /** Can the declaration be read before a token of type `t`? */
  predicate ItemReadable(i: Item, t: TokenType) {
    match i
    case FunItem(f) => FunReadable(f)
    case VarItem(d, stop) => DeclFits(d, if stop then Semi else t)
  }

  predicate FileReadable(items: seq<Item>)
    decreases |items|
  {
    items == [] || (ItemReadable(items[0], FirstType(items[1..])) && FileReadable(items[1..]))
  }

  /** No variable has a semicolon behind it. */
  predicate Finite(items: seq<Item>) { forall i :: i in items ==> !(i.VarItem? && i.stop) }

  /** A declaration, and the scope of the file and the next object after it. */
  datatype TopMeaning = TopMeaning(top: Top, scope: Scopes.Stack, next: int)
  datatype FileMeaning = FileMeaning(tops: seq<Top>, scope: Scopes.Stack, next: int)

  /** The scope in which the body of `f` stands: the names of all functions before it, and
      of their parameters, come first. */
  function Inside(f: Fun, scope: Scopes.Stack, next: int): (r: Scopes.Stack)
    requires scope != []
    ensures r != []
  {
    InsertAll(scope, InOrder(f.args, f.name), next)
  }

  function FunMeans(f: Fun, scope: Scopes.Stack, next: int): (m: TopMeaning)
    requires scope != []
    ensures m.scope != []
  {
    var m := BodyMeans(f.body, Inside(f, scope, next), next + |f.args| + 1);
    TopMeaning(Procedure(Fn(f.name, f.args, f.ret, next, Blk(m.smts))), Inside(f, scope, next), m.next)
  }

  function ItemMeans(i: Item, scope: Scopes.Stack, next: int): (m: TopMeaning)
    requires scope != []
    ensures m.scope != []
  {
    match i
    case FunItem(f) => FunMeans(f, scope, next)
    case VarItem(d, _) =>
      TopMeaning(Global(Some(Declared(d, scope, next))), StatementGrammar.Bind(scope, d.name, next), next + 1)
  }

  function FileMeans(items: seq<Item>, scope: Scopes.Stack, next: int): (m: FileMeaning)
    requires scope != []
    ensures |m.tops| == |items| && m.scope != []
    decreases |items|
  {
    if items == [] then FileMeaning([], scope, next)
    else
      var m := ItemMeans(items[0], scope, next);
      var rest := FileMeans(items[1..], m.scope, m.next);
      FileMeaning([m.top] + rest.tops, rest.scope, rest.next)
  }

  /** What becomes of a readable file read at `st`: all its declarations, or, at the first
      semicolon behind a variable, no end. */
  function Outcome(items: seq<Item>, st: State): (r: FileParse)
    requires st.scope != []
    decreases |items|
  {
    if items == [] then DidFile([], st)
    else
      var m := ItemMeans(items[0], st.scope, st.next);
      var st1 := State(st.pos + |SpellItem(items[0])|, st.errors, m.scope, m.next);
      if items[0].VarItem? && items[0].stop then Endless(st1.(pos := st1.pos - 1))
      else
        match Outcome(items[1..], st1)
        case DidFile(more, s) => DidFile([m.top] + more, s)
        case r => r
  }

  // ---------- the parser reads it ----------

  /** A parameter without a comma in front, and then more of them. */
  lemma ArgParts(ts: seq<Token>, pos: nat, args: seq<Arg>, p: nat)
    requires args != [] && HasAt(ts, pos, SpellArg(args[0]) + SpellArgs(args[1..], false)) && p == pos + |FlattenType(args[0].ty)|
    ensures HasAt(ts, pos, FlattenType(args[0].ty)) && p < |ts| && ts[p] == Token(Ident, args[0].name)
    ensures HasAt(ts, p + 1, SpellArgs(args[1..], false))
    ensures |SpellArg(args[0])| == |FlattenType(args[0].ty)| + 1
  {
    hide HasAt, FlattenType;
    HasAtSplit(ts, pos, SpellArg(args[0]), SpellArgs(args[1..], false));
    HasAtSplit(ts, pos, FlattenType(args[0].ty), [Token(Ident, args[0].name)]);
    HasOne(ts, p, Token(Ident, args[0].name));
  }

  /** Parameters that end at `q`, where an arrow stands, or a brace. */
  lemma {:induction false} ReadsArgs(ts: seq<Token>, st: State, before: seq<Arg>, args: seq<Arg>, q: nat)
    requires HasAt(ts, st.pos, SpellArgs(args, before == [])) && forall i :: 0 <= i < |args| ==> TypeFits(args[i].ty)
    requires q == st.pos + |SpellArgs(args, before == [])| && q < |ts| && (ts[q].ty.Arrow? || ts[q].ty.LBrace?)
    ensures ParseParams(ts, st, before) == DidArgs(Some(before + args), st.(pos := q))
    decreases |args|
  {
    hide ParseType, TypeFits, FlattenType, HasAt, ParseParams;
    if args == [] {
      assert before + args == before;
      ReadsNone(ts, st, before);
    } else {
      var c := if before == [] then st.pos else st.pos + 1;
      var p := c + |FlattenType(args[0].ty)|;
      CommaParts(ts, st.pos, args, before == []);
      ArgParts(ts, c, args, p);
      ReadsArg(ts, st, before, args, c, p);
      ReadsArgs(ts, st.(pos := p + 1), before + [args[0]], args[1..], q);
      assert before + [args[0]] + args[1..] == before + args;
    }
  }

  lemma ReadsNone(ts: seq<Token>, st: State, before: seq<Arg>)
    requires st.pos < |ts| && (ts[st.pos].ty.Arrow? || ts[st.pos].ty.LBrace?)
    ensures ParseParams(ts, st, before) == DidArgs(Some(before), st)
  {
  }

  lemma CommaParts(ts: seq<Token>, pos: nat, args: seq<Arg>, first: bool)
    requires args != [] && HasAt(ts, pos, SpellArgs(args, first))
    ensures var c := if first then pos else pos + 1;
      && (!first ==> pos < |ts| && ts[pos] == Mark(Comma))
      && HasAt(ts, c, SpellArg(args[0]) + SpellArgs(args[1..], false))
      && |SpellArgs(args, first)| == (c - pos) + |FlattenType(args[0].ty)| + 1 + |SpellArgs(args[1..], false)|
  {
    HasAtSplit(ts, pos, if first then [] else [Mark(Comma)], SpellArg(args[0]) + SpellArgs(args[1..], false));
    HasOne(ts, pos, Mark(Comma));
  }

  /** One parameter, from its type at `c` to its name at `p`. */
  lemma ReadsArg(ts: seq<Token>, st: State, before: seq<Arg>, args: seq<Arg>, c: nat, p: nat)
    requires args != [] && st.pos < |ts| && TypeFits(args[0].ty)
    requires HasAt(ts, c, FlattenType(args[0].ty)) && p == c + |FlattenType(args[0].ty)| && p < |ts| && ts[p] == Token(Ident, args[0].name)
    requires if before == [] then c == st.pos else c == st.pos + 1 && ts[st.pos].ty.Comma?
    ensures ParseParams(ts, st, before) == ParseParams(ts, st.(pos := p + 1), before + [args[0]])
  {
    hide ParseType, ParseParams;
    ReadsType(ts, st.(pos := c), args[0].ty);
    TypeStarts(ts, c, args[0].ty);
    ArgStep(ts, st, before, c, args[0], p);
  }

  lemma ArgStep(ts: seq<Token>, st: State, before: seq<Arg>, c: nat, a: Arg, p: nat)
    requires st.pos < |ts| && !ts[st.pos].ty.Arrow? && !ts[st.pos].ty.LBrace?
    requires if before == [] then c == st.pos else c == st.pos + 1 && ts[st.pos].ty.Comma?
    requires ParseType(ts, st.(pos := c)) == DidType(Some(a.ty), st.(pos := p))
    requires p < |ts| && ts[p] == Token(Ident, a.name)
    ensures ParseParams(ts, st, before) == ParseParams(ts, st.(pos := p + 1), before + [a])
  {
    hide ParseType;
  }

  lemma TypeStarts(ts: seq<Token>, pos: nat, t: TypeExp)
    requires HasAt(ts, pos, FlattenType(t))
    ensures pos < |ts| && ts[pos].ty.Ident?
  {
    var n := match t case Named(n) => n case ArrayOf(n, _) => n;
    assert FlattenType(t)[0] == Token(Ident, n);
    assert ts[pos + 0] == FlattenType(t)[0];
  }

  /** Where the parts of a function are: its parameters from `pos + 3` to an arrow at `a`,
      the type of its result up to `b`, its body up to `e`. */
  ghost predicate FunAt(ts: seq<Token>, pos: nat, f: Fun, a: nat, b: nat, e: nat) {
    && a == pos + 3 + |SpellArgs(f.args, true)| && b == a + 1 + |FlattenType(f.ret)| && e == b + |SpellBody(f.body)|
    && e + |SpellSemi(f)| <= |ts| && a < b < e
    && ts[pos] == Key(TokenType.Proc) && ts[pos + 1] == Token(Ident, f.name) && ts[pos + 2] == Mark(DoubleColon)
    && HasAt(ts, pos + 3, SpellArgs(f.args, true)) && ts[a] == Mark(Arrow)
    && HasAt(ts, a + 1, FlattenType(f.ret)) && HasAt(ts, b, SpellBody(f.body)) && HasAt(ts, e, SpellSemi(f))
  }

  lemma FunParts(ts: seq<Token>, pos: nat, f: Fun) returns (a: nat, b: nat, e: nat)
    requires HasAt(ts, pos, SpellFun(f))
    ensures FunAt(ts, pos, f, a, b, e) && e + |SpellSemi(f)| == pos + |SpellFun(f)|
  {
    hide SpellArgs, FlattenType, SpellBody, HasAt, SpellSemi, TokenName;
    a := pos + 3 + |SpellArgs(f.args, true)|;
    b := a + 1 + |FlattenType(f.ret)|;
    e := b + |SpellBody(f.body)|;
    var r3 := SpellArgs(f.args, true) + SpellResult(f);
    var r2 := [Mark(DoubleColon)] + r3;
    var r1 := [Token(Ident, f.name)] + r2;
    HasAtSplit(ts, pos, [Key(TokenType.Proc)], r1);
    HasOne(ts, pos, Key(TokenType.Proc));
    HasAtSplit(ts, pos + 1, [Token(Ident, f.name)], r2);
    HasOne(ts, pos + 1, Token(Ident, f.name));
    HasAtSplit(ts, pos + 2, [Mark(DoubleColon)], r3);
    HasOne(ts, pos + 2, Mark(DoubleColon));
    HasAtSplit(ts, pos + 3, SpellArgs(f.args, true), SpellResult(f));
    ResultParts(ts, a, f, b, e);
  }

  lemma ResultParts(ts: seq<Token>, a: nat, f: Fun, b: nat, e: nat)
    requires HasAt(ts, a, SpellResult(f)) && b == a + 1 + |FlattenType(f.ret)| && e == b + |SpellBody(f.body)|
    ensures a < b < e && e + |SpellSemi(f)| <= |ts| && ts[a] == Mark(Arrow) && |SpellResult(f)| == e + |SpellSemi(f)| - a
    ensures HasAt(ts, a + 1, FlattenType(f.ret)) && HasAt(ts, b, SpellBody(f.body)) && HasAt(ts, e, SpellSemi(f))
  {
    hide FlattenType, SpellSemi, SpellList;
    HasAtSplit(ts, a, [Mark(Arrow)], FlattenType(f.ret) + SpellInside(f));
    HasOne(ts, a, Mark(Arrow));
    HasAtSplit(ts, a + 1, FlattenType(f.ret), SpellInside(f));
    HasAtSplit(ts, b, SpellBody(f.body), SpellSemi(f));
  }

  /** A function before a token that is not a semicolon is read as it is meant. */
  lemma ReadsFunction(ts: seq<Token>, st: State, f: Fun)
    requires st.scope != [] && FunReadable(f) && HasAt(ts, st.pos, SpellFun(f))
    requires var q := st.pos + |SpellFun(f)|; q < |ts| && !ts[q].ty.Semi?
    ensures st.pos < |ts| && ts[st.pos].ty.Proc?
    ensures var m := FunMeans(f, st.scope, st.next);
      ParseFunction(ts, st) == DidTop(m.top, State(st.pos + |SpellFun(f)|, st.errors, m.scope, m.next))
  {
    hide ParseFunction, ParseParams, ParseRest, SpellFun, SpellBody, FlattenType, FunMeans, HasAt, TypeFits, BodyReadable, TokenName;
    var a, b, e := FunParts(ts, st.pos, f);
    ReadsArgs(ts, st.(pos := st.pos + 3), [], f.args, a);
    assert [] + f.args == f.args;
    FunStep(ts, st, f.name, DidArgs(Some(f.args), st.(pos := a)));
    ReadsRest(ts, st.(pos := a), f, b, e);
  }

  lemma FunStep(ts: seq<Token>, st: State, name: string, a: ArgsParse)
    requires st.scope != [] && st.pos + 2 < |ts| && ts[st.pos].ty.Proc? && ts[st.pos + 1] == Token(Ident, name) && ts[st.pos + 2].ty.DoubleColon?
    requires ParseParams(ts, st.(pos := st.pos + 3), []) == a
    ensures ParseFunction(ts, st) == ParseRest(ts, name, a)
  {
    hide ParseParams, ParseRest;
  }

  /** From the arrow on. */
  lemma ReadsRest(ts: seq<Token>, st: State, f: Fun, b: nat, e: nat)
    requires st.scope != [] && FunReadable(f) && st.pos < b < |ts| && ts[st.pos] == Mark(Arrow)
    requires HasAt(ts, st.pos + 1, FlattenType(f.ret)) && b == st.pos + 1 + |FlattenType(f.ret)|
    requires HasAt(ts, b, SpellBody(f.body)) && e == b + |SpellBody(f.body)| && HasAt(ts, e, SpellSemi(f))
    requires e + |SpellSemi(f)| < |ts| && !ts[e + |SpellSemi(f)|].ty.Semi?
    ensures var m := FunMeans(f, st.scope, st.next);
      ParseRest(ts, f.name, DidArgs(Some(f.args), st)) == DidTop(m.top, State(e + |SpellSemi(f)|, st.errors, m.scope, m.next))
  {
    hide ParseType, ParseBlock, FlattenType, SpellBody, BodyMeans, HasAt;
    var inner := BoundAll(st.(pos := b), InOrder(f.args, f.name));
    ReadsBlock(ts, inner, f.body);
    ReadsType(ts, st.(pos := st.pos + 1), f.ret);
    ReadsSemi(ts, e, f);
  }

  lemma ReadsSemi(ts: seq<Token>, e: nat, f: Fun)
    requires HasAt(ts, e, SpellSemi(f)) && e + |SpellSemi(f)| < |ts| && !ts[e + |SpellSemi(f)|].ty.Semi?
    ensures PastSemi(ts, e) == Some(e + |SpellSemi(f)|)
  {
    if f.semi {
      HasOne(ts, e, Mark(Semi));
    }
  }

  lemma ItemFirst(i: Item)
    ensures SpellItem(i) != [] && SpellItem(i)[0].ty == FirstType([i]) && StartsTop(FirstType([i]))
  {
  }

  /** What comes next is a declaration or the end of the file. */
  lemma NextItem(ts: seq<Token>, pos: nat, items: seq<Item>)
    requires HasAt(ts, pos, SpellFile(items))
    requires var q := pos + |SpellFile(items)|; q < |ts| && ts[q].ty.End?
    ensures pos < |ts| && ts[pos].ty == FirstType(items) && !ts[pos].ty.Semi? && (items != [] ==> StartsTop(ts[pos].ty))
  {
    if items != [] {
      ItemFirst(items[0]);
      assert SpellFile(items)[0] == SpellItem(items[0])[0];
      assert ts[pos + 0] == SpellFile(items)[0];
      assert FirstType(items) == FirstType([items[0]]);
    }
  }

  /** A variable up to the token after its value, which may be the semicolon behind it. */
  lemma ReadsGlobal(ts: seq<Token>, st: State, d: Decl)
    requires st.scope != [] && HasAt(ts, st.pos, FlattenDecl(d))
    requires var q := st.pos + |FlattenDecl(d)|; q < |ts| && DeclFits(d, ts[q].ty)
    ensures var m := ItemMeans(VarItem(d, false), st.scope, st.next);
      && st.pos < |ts| && ts[st.pos].ty == FirstType([VarItem(d, false)])
      && ParseTop(ts, st) == DidTop(m.top, State(st.pos + |FlattenDecl(d)|, st.errors, m.scope, m.next))
  {
    hide ParseVariable, DeclFits;
    ItemFirst(VarItem(d, false));
    assert FlattenDecl(d) + [] == FlattenDecl(d);
    assert ts[st.pos + 0] == FlattenDecl(d)[0];
    ReadsDecl(ts, st, d);
  }

  /** One declaration, up to the semicolon behind it if it is a variable. */
  lemma ReadsItem(ts: seq<Token>, st: State, i: Item)
    requires st.scope != [] && HasAt(ts, st.pos, SpellItem(i))
    requires var q := st.pos + |SpellItem(i)|; q < |ts| && ItemReadable(i, ts[q].ty) && !ts[q].ty.Semi?
    ensures var m := ItemMeans(i, st.scope, st.next);
      var p := st.pos + |SpellItem(i)| - if i.VarItem? && i.stop then 1 else 0;
      && st.pos < |ts| && ts[st.pos].ty == FirstType([i])
      && ParseTop(ts, st) == DidTop(m.top, State(p, st.errors, m.scope, m.next))
      && (i.VarItem? && i.stop ==> ts[p].ty.Semi?)
  {
    hide ParseFunction, ParseVariable, FunMeans, FunReadable, DeclFits, SpellFun, FlattenDecl;
    match i
    case FunItem(f) => ReadsFunction(ts, st, f);
    case VarItem(d, stop) =>
      var semi := if stop then [Mark(Semi)] else [];
      HasAtSplit(ts, st.pos, FlattenDecl(d), semi);
      if stop { HasOne(ts, st.pos + |FlattenDecl(d)|, Mark(Semi)); }
      ReadsGlobal(ts, st, d);
  }

  /** The parser goes through the declarations one by one. */
  lemma {:induction false} ReadsItems(ts: seq<Token>, st: State, items: seq<Item>)
    requires st.scope != [] && FileReadable(items) && HasAt(ts, st.pos, SpellFile(items))
    requires var q := st.pos + |SpellFile(items)|; q < |ts| && ts[q].ty.End?
    ensures ParseFile(ts, st) == Outcome(items, st)
    decreases |items|
  {
    hide ParseTop, ItemMeans, ItemReadable, SpellItem, StartsTop;
    NextItem(ts, st.pos, items);
    if items != [] {
      var i, rest := items[0], items[1..];
      var p := st.pos + |SpellItem(i)|;
      HasAtSplit(ts, st.pos, SpellItem(i), SpellFile(rest));
      NextItem(ts, p, rest);
      ReadsItem(ts, st, i);
      var m := ItemMeans(i, st.scope, st.next);
      if i.VarItem? && i.stop {
        NoTop(ts, p - 1);
      } else {
        ReadsItems(ts, State(p, st.errors, m.scope, m.next), rest);
      }
    }
  }

  lemma NoTop(ts: seq<Token>, pos: nat)
    requires pos < |ts| && ts[pos].ty.Semi?
    ensures !StartsTop(ts[pos].ty)
  {
  }

  lemma {:induction false} OutcomeIs(items: seq<Item>, st: State)
    requires st.scope != []
    ensures Outcome(items, st).DidFile? <==> Finite(items)
    ensures Outcome(items, st).Endless? <==> !Finite(items)
    ensures var m := FileMeans(items, st.scope, st.next);
      Finite(items) ==> Outcome(items, st) == DidFile(m.tops, State(st.pos + |SpellFile(items)|, st.errors, m.scope, m.next))
    decreases |items|
  {
    hide SpellItem, ItemMeans;
    if items != [] {
      var m := ItemMeans(items[0], st.scope, st.next);
      OutcomeIs(items[1..], State(st.pos + |SpellItem(items[0])|, st.errors, m.scope, m.next));
      assert items == [items[0]] + items[1..];
    }
  }

  /** Reading a readable file up to its end token comes to an end if and only if no variable
      has a semicolon behind it; then it gives what the file means, without an error. */
  lemma ReadsFile(ts: seq<Token>, st: State, items: seq<Item>)
    requires st.scope != [] && FileReadable(items) && HasAt(ts, st.pos, SpellFile(items))
    requires var q := st.pos + |SpellFile(items)|; q < |ts| && ts[q].ty.End?
    ensures ParseFile(ts, st).DidFile? <==> Finite(items)
    ensures ParseFile(ts, st).Endless? <==> !Finite(items)
    ensures var m := FileMeans(items, st.scope, st.next);
      Finite(items) ==> ParseFile(ts, st) == DidFile(m.tops, State(st.pos + |SpellFile(items)|, st.errors, m.scope, m.next))
  {
    ReadsItems(ts, st, items);
    OutcomeIs(items, st);
  }

  /** Whatever comes after it: a variable with a semicolon behind it is the end of all
      reading, as that token starts no declaration. */
  lemma VariableLoops(ts: seq<Token>, st: State, d: Decl)
    requires st.scope != [] && HasAt(ts, st.pos, FlattenDecl(d)) && DeclFits(d, Semi)
    requires var q := st.pos + |FlattenDecl(d)|; q < |ts| && ts[q].ty.Semi?
    ensures var q := st.pos + |FlattenDecl(d)|;
      ParseFile(ts, st) == Endless(State(q, st.errors, StatementGrammar.Bind(st.scope, d.name, st.next), st.next + 1))
  {
    hide ParseTop, DeclFits, FlattenDecl;
    ReadsGlobal(ts, st, d);
    ItemFirst(VarItem(d, false));
    NoTop(ts, st.pos + |FlattenDecl(d)|);
  }

  // ---------- whose parameters the names are ----------

  /** The names that a declaration puts in the scope of the file. */
  function NamesOf(i: Item): seq<string> {
    match i
    case FunItem(f) => InOrder(f.args, f.name)
    case VarItem(d, _) => [d.name]
  }

  function Names(items: seq<Item>): seq<string>
    decreases |items|
  {
    if items == [] then [] else NamesOf(items[0]) + Names(items[1..])
  }

  /** Every object of the innermost scope is older than `next`. */
  predicate Below(scope: Scopes.Stack, next: int) {
    scope != [] && forall n :: n in scope[0] ==> scope[0][n] < next
  }

  lemma {:induction false} InsertedNames(scope: Scopes.Stack, names: seq<string>, next: int)
    requires Below(scope, next)
    ensures var r := InsertAll(scope, names, next);
      && Below(r, next + |names|) && r[1..] == scope[1..]
      && (forall n :: n in r[0] <==> n in scope[0] || n in names)
      && (forall n :: n in scope[0] ==> r[0][n] == scope[0][n])
      && (forall n :: n in r[0] && n !in scope[0] ==> r[0][n] >= next)
    decreases |names|
  {
    if names != [] {
      InsertedNames(Scopes.Inserted(scope, names[0], next).0, names[1..], next + 1);
    }
  }

  /** A name gets its own object exactly when it was not there before; else it keeps an
      older one. */
  lemma {:induction false} InsertedOwn(scope: Scopes.Stack, names: seq<string>, next: int, k: nat)
    requires Below(scope, next) && k < |names|
    ensures var r := InsertAll(scope, names, next);
      && names[k] in r[0] && r[0][names[k]] <= next + k
      && (r[0][names[k]] == next + k <==> names[k] !in scope[0] && names[k] !in names[..k])
    decreases |names|
  {
    var s1 := Scopes.Inserted(scope, names[0], next).0;
    if k == 0 {
      InsertedNames(s1, names[1..], next + 1);
      assert names[..0] == [];
    } else {
      InsertedOwn(s1, names[1..], next + 1, k - 1);
      assert names[..k] == [names[0]] + names[1..][..k - 1];
    }
  }

  lemma ItemScope(i: Item, scope: Scopes.Stack, next: int)
    requires Below(scope, next)
    ensures var m := ItemMeans(i, scope, next);
      && Below(m.scope, m.next) && next <= m.next && m.scope[1..] == scope[1..]
      && forall n :: n in m.scope[0] <==> n in scope[0] || n in NamesOf(i)
  {
    match i
    case FunItem(f) =>
      InsertedNames(scope, InOrder(f.args, f.name), next);
      BodyGrows(f.body, Inside(f, scope, next), next + |f.args| + 1);
    case VarItem(_, _) =>
  }

  /** Each declaration adds its names, and bodies add nothing. */
  lemma {:induction false} FileScope(items: seq<Item>, scope: Scopes.Stack, next: int)
    requires Below(scope, next)
    ensures var m := FileMeans(items, scope, next);
      && Below(m.scope, m.next) && next <= m.next && m.scope[1..] == scope[1..]
      && forall n :: n in m.scope[0] <==> n in scope[0] || n in Names(items)
    decreases |items|
  {
    hide ItemMeans, NamesOf;
    if items != [] {
      ItemScope(items[0], scope, next);
      var m := ItemMeans(items[0], scope, next);
      FileScope(items[1..], m.scope, m.next);
    }
  }

  lemma {:induction false} FileSplit(items: seq<Item>, i: nat, scope: Scopes.Stack, next: int)
    requires i < |items| && scope != []
    ensures var b := FileMeans(items[..i], scope, next);
      FileMeans(items, scope, next).tops[i] == ItemMeans(items[i], b.scope, b.next).top
    decreases |items|
  {
    hide ItemMeans;
    var m := ItemMeans(items[0], scope, next);
    if i == 0 {
      assert items[..0] == [];
    } else {
      FileSplit(items[1..], i - 1, m.scope, m.next);
      assert items[..i][1..] == items[1..][..i - 1];
    }
  }

  /** In the body of function `i`, its parameter `j` is found under its name exactly when
      the name is not that of a declaration before it, or of a parameter of one, or of a
      parameter before it. In the first two cases an object of another declaration is found.
      The same holds of the function itself, which comes after its parameters. */
  lemma OwnNames(items: seq<Item>, i: nat, j: nat)
    requires i < |items| && items[i].FunItem? && j <= |items[i].fun.args|
    ensures var b := FileMeans(items[..i], [map[]], 0);
      var f := items[i].fun;
      var names := InOrder(f.args, f.name);
      && FileMeans(items, [map[]], 0).tops[i] == FunMeans(f, b.scope, b.next).top
      && var found := Scopes.Found(Inside(f, b.scope, b.next), names[j]);
      && found.Some? && found.value <= b.next + j
      && (found.value == b.next + j <==> names[j] !in Names(items[..i]) && names[j] !in names[..j])
      && (found.value < b.next <==> names[j] in Names(items[..i]))
  {
    var empty: Scopes.Stack := [map[]];
    var f := items[i].fun;
    FileScope(items[..i], empty, 0);
    FileSplit(items, i, empty, 0);
    var b := FileMeans(items[..i], empty, 0);
    InsertedOwn(b.scope, InOrder(f.args, f.name), b.next, j);
    InsertedNames(b.scope, InOrder(f.args, f.name), b.next);
  }

  // ---------- which function a name calls ----------

  lemma ItemKeeps(i: Item, scope: Scopes.Stack, next: int, n: string)
    requires Below(scope, next) && n in scope[0]
    ensures var m := ItemMeans(i, scope, next); n in m.scope[0] && m.scope[0][n] == scope[0][n]
  {
    ItemScope(i, scope, next);
    match i
    case FunItem(f) => InsertedNames(scope, InOrder(f.args, f.name), next);
    case VarItem(_, _) =>
  }

  /** Later declarations leave a name of the file alone. */
  lemma {:induction false} FileKeeps(items: seq<Item>, scope: Scopes.Stack, next: int, n: string)
    requires Below(scope, next) && n in scope[0]
    ensures var m := FileMeans(items, scope, next); n in m.scope[0] && m.scope[0][n] == scope[0][n]
    decreases |items|
  {
    hide ItemMeans;
    if items != [] {
      ItemKeeps(items[0], scope, next, n);
      ItemScope(items[0], scope, next);
      var m := ItemMeans(items[0], scope, next);
      FileKeeps(items[1..], m.scope, m.next, n);
    }
  }

  /** The meaning of a file up to a point goes on from that of its beginning. */
  lemma {:induction false} FileJoin(a: seq<Item>, b: seq<Item>, scope: Scopes.Stack, next: int)
    requires scope != []
    ensures var m := FileMeans(a, scope, next);
      var r := FileMeans(b, m.scope, m.next);
      FileMeans(a + b, scope, next) == FileMeaning(m.tops + r.tops, r.scope, r.next)
    decreases |a|
  {
    hide ItemMeans;
    if a == [] {
      assert a + b == b;
    } else {
      assert (a + b)[0] == a[0] && (a + b)[1..] == a[1..] + b;
      var m := ItemMeans(a[0], scope, next);
      FileJoin(a[1..], b, m.scope, m.next);
    }
  }

  /** The object of function `k` of a file. */
  function FunObject(items: seq<Item>, k: nat): int
    requires k < |items| && items[k].FunItem?
  {
    FileMeans(items[..k], [map[]], 0).next + |items[k].fun.args|
  }

  /** A function whose name is new when it is declared is found by that name in its own body
      and in that of every later function. */
  lemma FoundByName(items: seq<Item>, k: nat, i: nat)
    requires k <= i < |items| && items[k].FunItem? && items[i].FunItem?
    requires var f := items[k].fun; f.name !in Names(items[..k]) && forall j :: 0 <= j < |f.args| ==> f.args[j].name != f.name
    ensures var b := FileMeans(items[..i], [map[]], 0);
      Scopes.Found(Inside(items[i].fun, b.scope, b.next), items[k].fun.name) == Some(FunObject(items, k))
  {
    hide ItemMeans, FileMeans, Names, InsertAll;
    var f, empty: Scopes.Stack := items[k].fun, [map[]];
    var b := FileMeans(items[..k], empty, 0);
    var names := InOrder(f.args, f.name);
    assert names[|f.args|] == f.name && f.name !in names[..|f.args|];
    OwnNames(items, k, |f.args|);
    if k < i {
      FileScope(items[..k], empty, 0);
      InsertedNames(b.scope, names, b.next);
      InsertedOwn(b.scope, names, b.next, |f.args|);
      LaterFound(items, k, i);
    }
  }

  lemma LaterFound(items: seq<Item>, k: nat, i: nat)
    requires k < i < |items| && items[k].FunItem? && items[i].FunItem?
    requires var f := items[k].fun;
      var b := FileMeans(items[..k], [map[]], 0);
      && Below(b.scope, b.next)
      && var r := InsertAll(b.scope, InOrder(f.args, f.name), b.next);
      f.name in r[0] && r[0][f.name] == FunObject(items, k)
    ensures var b := FileMeans(items[..i], [map[]], 0);
      Scopes.Found(Inside(items[i].fun, b.scope, b.next), items[k].fun.name) == Some(FunObject(items, k))
  {
    hide FileMeans, InsertAll;
    var f, empty: Scopes.Stack := items[k].fun, [map[]];
    var b := FileMeans(items[..k], empty, 0);
    var m := ItemMeans(items[k], b.scope, b.next);
    ItemScope(items[k], b.scope, b.next);
    var between := items[k + 1..i];
    assert items[..i] == items[..k] + ([items[k]] + between);
    FileJoin(items[..k], [items[k]] + between, empty, 0);
    OneThen(items[k], between, b.scope, b.next);
    FileKeeps(between, m.scope, m.next, f.name);
    FileScope(between, m.scope, m.next);
    var c := FileMeans(items[..i], empty, 0);
    InsertedNames(c.scope, InOrder(items[i].fun.args, items[i].fun.name), c.next);
  }

  lemma OneThen(i: Item, rest: seq<Item>, scope: Scopes.Stack, next: int)
    requires scope != []
    ensures var m := ItemMeans(i, scope, next);
      var r := FileMeans(rest, m.scope, m.next);
      FileMeans([i] + rest, scope, next) == FileMeaning([m.top] + r.tops, r.scope, r.next)
  {
    assert ([i] + rest)[1..] == rest;
  }
}
