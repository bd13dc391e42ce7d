/** What a parse takes from the pools, counted from the spelling: for everything that can be
    read, the calls that reading it makes. */
module NodeGrammar {
  import opened Wrappers
  import opened Tokens
  import opened Pratt
  import opened Grammar
  import opened Statements
  import opened StatementGrammar
  import opened StatementComplete
  import opened Files
  import opened FileGrammar
  import opened Nodes
  import opened NodeSizes
  import PrattComplete
  import NodeRoom
  import StatementSound
  import Scopes

  // ---------- the calls ----------

  function TypeCalls(t: TypeExp): seq<Call> {
    match t
    case Named(_) => [NewExp]
    case ArrayOf(_, n) => [NewExp] + (Exps(Size(n)) + [NewExp])
  }

  function DeclCalls(d: Decl): seq<Call> {
    (if d.ty.Some? then TypeCalls(d.ty.value) else []) + (Exps(Size(d.value)) + [NewDcl])
  }

  /** Does the spelling begin with a name? */
  predicate StartsName(e: Exp)
    decreases e
  {
    match e
    case IdentExp(_) => true
    case Binary(l, _, _) => StartsName(l)
    case Selector(x, _) => StartsName(x)
    case Index(x, _) => StartsName(x)
    case Call(f, _) => StartsName(f)
    case _ => false
  }

  function Calls(s: Src): seq<Call>
    decreases s
  {
    match s
    case SReturn(e) => Exps(Size(e)) + [NewSmt]
    case SBlock(b) => BodyCalls(b)
    case SIf(c, b, no) => (Exps(Size(c)) + (BodyCalls(b) + ElseCalls(no))) + [NewSmt]
    case SFor(d, c, inc, b) => DeclCalls(d) + (Exps(Size(c)) + (Calls(inc) + (BodyCalls(b) + [NewSmt])))
    case SVar(d) => DeclCalls(d) + [NewSmt]
    // the name has been tried as a step before
    case SSet(l, op, r) =>
      (if StartsName(l) then [NewExp, NewExp] else []) + (Exps(Size(Binary(l, op, r))) + ConvertedLog(Binary(l, op, r)))
    case SStep(_, _) => [NewExp, NewExp, NewSmt, NewExp]
  }

  function ElseCalls(no: Option<Src>): seq<Call>
    decreases no
  {
    if no.None? then [] else Calls(no.value) + if no.value.SIf? then [] else [NewSmt]
  }

  function BodyCalls(b: Body): seq<Call>
    decreases b
  {
    ListCalls(b.smts) + [NewSmt]
  }

  function ListCalls(smts: seq<Src>): seq<Call>
    decreases smts
  {
    if smts == [] then [] else Calls(smts[0]) + ListCalls(smts[1..])
  }

  function ArgsCalls(args: seq<Arg>): seq<Call>
    decreases |args|
  {
    if args == [] then [] else TypeCalls(args[0].ty) + ([NewDcl] + ArgsCalls(args[1..]))
  }

  function FunCalls(f: Fun): seq<Call> {
    ArgsCalls(f.args) + (TypeCalls(f.ret) + ([NewDcl] + BodyCalls(f.body)))
  }

  function ItemCalls(i: Item): seq<Call> {
    match i
    case FunItem(f) => FunCalls(f)
    case VarItem(d, _) => DeclCalls(d)
  }

  function FileCalls(items: seq<Item>): seq<Call>
    decreases |items|
  {
    if items == [] then [] else ItemCalls(items[0]) + FileCalls(items[1..])
  }

  // ---------- expressions and declarations ----------

  lemma ExpLogIs(ts: seq<Token>, pos: nat, e: Exp, errors: seq<Error>)
    requires HasAt(ts, pos, Flatten(e)) && pos + |Flatten(e)| < |ts| && Fits(e, ts[pos + |Flatten(e)|].ty)
    ensures ExpLog(ts, pos, errors) == Exps(Size(e)) && ParseExp(ts, pos, 0, errors) == Done(e, pos + |Flatten(e)|, errors)
  {
    hide Fits, HasAt, Flatten;
    ReadsExp(ts, pos, e, errors);
    ExpSize(ts, pos, 0, errors);
  }

  lemma FitsNoMissing(e: Exp, t: TokenType)
    requires Fits(e, t)
    ensures !e.Missing?
  {
  }

  lemma TypeLogIs(ts: seq<Token>, st: State, t: TypeExp)
    requires TypeFits(t) && HasAt(ts, st.pos, FlattenType(t))
    requires var q := st.pos + |FlattenType(t)|; q < |ts| && !ts[q].ty.LBrack?
    ensures TypeLog(ts, st) == TypeCalls(t)
  {
    hide Fits, HasAt, Flatten, ParseExp, ExpLog;
    match t
    case Named(n) => HasOne(ts, st.pos, Token(Ident, n));
    case ArrayOf(n, len) =>
      ArrayParts(ts, st.pos, n, len);
      ExpLogIs(ts, st.pos + 2, len, st.errors);
      FitsNoMissing(len, RBrack);
      ArrayLogStep(ts, st, Done(len, st.pos + 2 + |Flatten(len)|, st.errors));
  }

  lemma ArrayParts(ts: seq<Token>, pos: nat, n: string, len: Exp)
    requires HasAt(ts, pos, FlattenType(ArrayOf(n, len)))
    ensures pos + 2 + |Flatten(len)| < |ts| && ts[pos].ty.Ident? && ts[pos + 1].ty.LBrack?
    ensures HasAt(ts, pos + 2, Flatten(len)) && ts[pos + 2 + |Flatten(len)|].ty.RBrack?
  {
    hide HasAt, Flatten;
    HasAtSplit(ts, pos, [Token(Ident, n)], [Mark(LBrack)] + (Flatten(len) + [Mark(RBrack)]));
    HasOne(ts, pos, Token(Ident, n));
    HasAtSplit(ts, pos + 1, [Mark(LBrack)], Flatten(len) + [Mark(RBrack)]);
    HasOne(ts, pos + 1, Mark(LBrack));
    HasAtSplit(ts, pos + 2, Flatten(len), [Mark(RBrack)]);
    HasOne(ts, pos + 2 + |Flatten(len)|, Mark(RBrack));
  }

  lemma ArrayLogStep(ts: seq<Token>, st: State, e: Parsed)
    requires st.pos + 1 < |ts| && ts[st.pos].ty.Ident? && ts[st.pos + 1].ty.LBrack?
    requires e == ParseExp(ts, st.pos + 2, 0, st.errors) && e.Done? && !e.node.Missing?
    ensures TypeLog(ts, st) == [NewExp] + (ExpLog(ts, st.pos + 2, st.errors) + [NewExp])
  {
    hide ParseExp, ExpNodes;
  }

  lemma ValueLogIs(ts: seq<Token>, st: State, op: TokenType, e: Exp)
    requires HasAt(ts, st.pos, [Mark(op)] + Flatten(e))
    requires var q := st.pos + 1 + |Flatten(e)|; q < |ts| && Fits(e, ts[q].ty)
    ensures ValueLog(ts, st, op) == Exps(Size(e)) + [NewDcl]
  {
    hide Fits, ParseExp;
    HasAtSplit(ts, st.pos, [Mark(op)], Flatten(e));
    HasOne(ts, st.pos, Mark(op));
    ExpLogIs(ts, st.pos + 1, e, st.errors);
    FitsNoMissing(e, ts[st.pos + 1 + |Flatten(e)|].ty);
  }

  lemma DeclLogIs(ts: seq<Token>, st: State, d: Decl)
    requires HasAt(ts, st.pos, FlattenDecl(d))
    requires var q := st.pos + |FlattenDecl(d)|; q < |ts| && DeclFits(d, ts[q].ty)
    ensures VariableLog(ts, st) == DeclCalls(d)
  {
    hide Fits, TypeFits, ValueLog, TypeLog, TypeCalls;
    if d.ty.None? {
      HasAtSplit(ts, st.pos, [Token(Ident, d.name)], [Mark(Define)] + Flatten(d.value));
      HasOne(ts, st.pos, Token(Ident, d.name));
      ValueLogIs(ts, st.(pos := st.pos + 1), Define, d.value);
    } else {
      TypedLogIs(ts, st, d);
    }
  }

  lemma TypedLogIs(ts: seq<Token>, st: State, d: Decl)
    requires d.ty.Some? && HasAt(ts, st.pos, FlattenDecl(d))
    requires var q := st.pos + |FlattenDecl(d)|; q < |ts| && DeclFits(d, ts[q].ty)
    ensures VariableLog(ts, st) == DeclCalls(d)
  {
    hide Fits, TypeFits, ValueLog, TypeLog, TypeCalls, TypedLog, VariableLog, ParseType, FlattenType, FlattenDecl, Flatten, HasAt;
    var t, st1 := d.ty.value, st.(pos := st.pos + 1);
    var p := st.pos + 1 + |FlattenType(t)|;
    TypedParts(ts, st.pos, d, p);
    ReadsType(ts, st1, t);
    TypeLogIs(ts, st1, t);
    ValueLogIs(ts, st.(pos := p + 1), Assign, d.value);
    TypedLogStep(ts, st.(pos := p), t);
    VariableLogStep(ts, st);
  }

  lemma VariableLogStep(ts: seq<Token>, st: State)
    requires st.pos < |ts| && ts[st.pos].ty.Var?
    ensures VariableLog(ts, st) == TypeLog(ts, st.(pos := st.pos + 1)) + TypedLog(ts, ParseType(ts, st.(pos := st.pos + 1)))
  {
    hide TypeLog, TypedLog, ParseType;
  }

  /** The type ends at `p`, where the name is. */
  lemma TypedParts(ts: seq<Token>, pos: nat, d: Decl, p: nat)
    requires d.ty.Some? && HasAt(ts, pos, FlattenDecl(d)) && p == pos + 1 + |FlattenType(d.ty.value)|
    ensures pos < |ts| && ts[pos].ty.Var? && HasAt(ts, pos + 1, FlattenType(d.ty.value)) && p < |ts| && ts[p].ty.Ident?
    ensures HasAt(ts, p + 1, [Mark(Assign)] + Flatten(d.value)) && pos + |FlattenDecl(d)| == p + 2 + |Flatten(d.value)|
  {
    hide HasAt, FlattenType, Flatten, FlattenDecl, TokenName;
    DeclParts(ts, pos, d.ty.value, d.name, d.value);
    DeclLength(d);
    assert FlattenNamed(d.name, d.value) == [Token(Ident, d.name)] + ([Mark(Assign)] + Flatten(d.value));
    HasAtSplit(ts, p, [Token(Ident, d.name)], [Mark(Assign)] + Flatten(d.value));
    HasOne(ts, p, Token(Ident, d.name));
  }

  lemma TypedLogStep(ts: seq<Token>, st: State, t: TypeExp)
    requires st.pos < |ts| && ts[st.pos].ty.Ident?
    ensures TypedLog(ts, DidType(Some(t), st)) == ValueLog(ts, st.(pos := st.pos + 1), Assign)
  {
    hide ValueLog;
  }

  // ---------- statements ----------

  lemma {:induction false} NameFirst(e: Exp, r: int)
    requires Respects(e, r)
    ensures Flatten(e) != [] && (Flatten(e)[0].ty.Ident? <==> StartsName(e))
    decreases e
  {
    match e
    case Binary(l, _, _) => NameFirst(l, r);
    case Selector(x, _) => NameFirst(x, r);
    case Index(x, _) => NameFirst(x, r);
    case Call(f, _) => NameFirst(f, r);
    case _ =>
  }

  lemma {:induction false} StatementLogIs(ts: seq<Token>, st: State, s: Src)
    requires Stands(ts, st, s)
    ensures StatementLog(ts, st) == Calls(s)
    decreases s, 4
  {
    hide Flatten, SpellBody, StatementLog, KnownLog, BodyCalls, DeclCalls;
    match s
    case SReturn(e) => ReturnLogIs(ts, st, e);
    case SBlock(b) =>
      BlockLogIs(ts, st, b);
      ReadsBlock(ts, st, b);
      BlockKnown(ts, st);
    case SIf(_, _, _) => IfLogIs(ts, st, s);
    case SFor(_, _, _, _) => ForLogIs(ts, st, s);
    case SVar(d) => VarLogIs(ts, st, d);
    case SSet(_, _, _) => SetLogIs(ts, st, s);
    case SStep(n, up) => StepLogIs(ts, st, n, up);
  }

  lemma BlockKnown(ts: seq<Token>, st: State)
    requires st.scope != [] && st.pos < |ts| && ts[st.pos].ty.LBrace?
    ensures StatementLog(ts, st) == BlockLog(ts, st)
  {
    hide StatementLog, BlockLog;
    KnownLogs(ts, st);
  }

  lemma ReturnLogIs(ts: seq<Token>, st: State, e: Exp)
    requires Stands(ts, st, SReturn(e))
    ensures StatementLog(ts, st) == Calls(SReturn(e))
  {
    hide Fits, StatementLog;
    HasAtSplit(ts, st.pos, [Key(Return)], Flatten(e));
    HasOne(ts, st.pos, Key(Return));
    KnownLogs(ts, st);
    ExpLogIs(ts, st.pos + 1, e, st.errors);
  }

  lemma VarLogIs(ts: seq<Token>, st: State, d: Decl)
    requires Stands(ts, st, SVar(d))
    ensures StatementLog(ts, st) == DeclCalls(d) + [NewSmt]
  {
    hide StatementLog, KnownLog, DeclFits, VariableLog, DeclCalls, HasAt;
    VarFirst(ts, st.pos, d);
    KnownLogs(ts, st);
    VarKnown(ts, st);
    DeclLogIs(ts, st, d);
  }

  lemma StepLogIs(ts: seq<Token>, st: State, n: string, up: bool)
    requires Stands(ts, st, SStep(n, up))
    ensures StatementLog(ts, st) == [NewExp, NewExp, NewSmt, NewExp]
  {
    HasAtSplit(ts, st.pos, [Token(Ident, n)], [Mark(if up then Inc else Dec)]);
    HasOne(ts, st.pos, Token(Ident, n));
    HasOne(ts, st.pos + 1, Mark(if up then Inc else Dec));
  }

  lemma SetLogIs(ts: seq<Token>, st: State, s: Src)
    requires Stands(ts, st, s) && s.SSet?
    ensures StatementLog(ts, st) == Calls(s)
  {
    hide Fits, StartsBrace, ParseExp, ParseKnown, StatementLog, StartsName, HasAt;
    var e := Binary(s.left, s.op, s.right);
    StatementSound.FitsRespects(e, ts[st.pos + |Spelling(s)|].ty);
    BraceOf(s.left, s.op, s.right);
    SetFirst(ts, st.pos, e);
    NotKnown(ts, st);
    ExpLogIs(ts, st.pos, e, st.errors);
    StartsExp(ts, st.pos, e);
    NameFirst(e, 0);
    NameLog(ts, st);
    OtherLog(ts, st, Done(e, st.pos + |Flatten(e)|, st.errors));
  }

  lemma BraceOf(l: Exp, op: Token, r: Exp)
    ensures StartsBrace(Binary(l, op, r)) == StartsBrace(l) && StartsName(Binary(l, op, r)) == StartsName(l)
  {
  }

  /** What trying a step takes, when there is none. */
  lemma NameLog(ts: seq<Token>, st: State)
    requires st.scope != [] && st.pos + 1 < |ts| && PrattComplete.StartsExp(ts[st.pos].ty) && !ts[st.pos].ty.LBrace?
    requires !ts[st.pos + 1].ty.Inc? && !ts[st.pos + 1].ty.Dec?
    ensures KnownLog(ts, st) == if ts[st.pos].ty.Ident? then [NewExp, NewExp] else []
  {
  }

  lemma {:induction false} BlockLogIs(ts: seq<Token>, st: State, b: Body)
    requires st.scope != [] && HasAt(ts, st.pos, SpellBody(b)) && BodyReadable(b)
    ensures BlockLog(ts, st) == BodyCalls(b)
    decreases b, 1
  {
    hide ListLog, ListCalls;
    BlockParts(ts, st.pos, b);
    ListLogIs(ts, State(st.pos + 1, st.errors, [map[]] + st.scope, st.next), b.smts, b.last);
  }

  lemma {:induction false} ListLogIs(ts: seq<Token>, st: State, smts: seq<Src>, last: bool)
    requires st.scope != [] && StatementComplete.ListAt(ts, st.pos, smts, last)
    ensures ListLog(ts, st) == ListCalls(smts)
    decreases smts, 1
  {
    hide ParseStatement, Spelling, Readable, Means, StatementLog, Calls, ListLog;
    if smts == [] {
      NoListLog(ts, st);
    } else {
      ListFirst(ts, st.pos, smts, last);
      ReadsStatement(ts, st, smts[0]);
      StatementLogIs(ts, st, smts[0]);
      var p := st.pos + |Spelling(smts[0])|;
      var m := Means(smts[0], st.scope, st.next);
      var st1 := State(p, st.errors, m.scope, m.next);
      var st2 := State(p + |Separator(smts, last)|, st.errors, m.scope, m.next);
      ListLogIs(ts, st2, smts[1..], last);
      NextInList(ts, st1, st2);
      MeansSome(smts[0], st.scope, st.next);
      ListLogStep(ts, st, Did(m.smt, st1), st2);
    }
  }

  lemma MeansSome(s: Src, scope: Scopes.Stack, next: int)
    requires scope != []
    ensures !Means(s, scope, next).smt.Nothing?
  {
  }

  lemma NextInList(ts: seq<Token>, st1: State, st2: State)
    requires st1.pos < |ts| && st2 == st1.(pos := st2.pos)
    requires (ts[st1.pos].ty.RBrace? && st2.pos == st1.pos) || (ts[st1.pos].ty.Semi? && st2.pos == st1.pos + 1)
    ensures st2 == if ts[st1.pos].ty.RBrace? then st1 else ExpectSemi(ts, st1)
  {
  }

  // ---------- branches and loops ----------

  lemma {:induction false} IfLogIs(ts: seq<Token>, st: State, s: Src)
    requires Stands(ts, st, s) && s.SIf?
    ensures StatementLog(ts, st) == Calls(s)
    decreases s, 3
  {
    hide StatementLog, CondLog, Fits, BodyReadable, Spelling, SpellBody, SpellElse, BodyCalls, ElseCalls;
    IfParts(ts, st.pos, s);
    var q := st.pos + |Spelling(s)|;
    KnownLogs(ts, st);
    CondLogIs(ts, st.(pos := st.pos + 1), s, q);
    IfKnown(ts, st);
  }

  /** From the condition on; the whole ends at `q`. */
  lemma {:induction false} CondLogIs(ts: seq<Token>, st: State, s: Src, q: nat)
    requires st.scope != [] && s.SIf? && q < |ts| && Readable(s, ts[q].ty)
    requires var p := st.pos + |Flatten(s.cond)|;
      && HasAt(ts, st.pos, Flatten(s.cond)) && HasAt(ts, p, SpellBody(s.yes))
      && HasAt(ts, p + |SpellBody(s.yes)|, SpellElse(s.no)) && q == p + |SpellBody(s.yes)| + |SpellElse(s.no)|
    ensures CondLog(ts, st) == Exps(Size(s.cond)) + (BodyCalls(s.yes) + ElseCalls(s.no))
    decreases s, 2
  {
    hide Fits, BodyReadable, Spelling, SpellBody, SpellElse, BodyCalls, ElseCalls, ParseExp, Flatten, BodyLog, CondLog, HasAt, BodyMeans, ExpLog, ParseBlock;
    var p := st.pos + |Flatten(s.cond)|;
    var st1 := st.(pos := p);
    ReadsBlock(ts, st1, s.yes);
    ExpLogIs(ts, st.pos, s.cond, st.errors);
    BlockLogIs(ts, st1, s.yes);
    var m := BodyMeans(s.yes, st.scope, st.next);
    var st2 := State(p + |SpellBody(s.yes)|, st.errors, st.scope, m.next);
    ElseLogIs(ts, st2, s.no);
    BodyLogStep(ts, st1, Did(Blk(m.smts), st2));
    CondLogStep(ts, st, Done(s.cond, p, st.errors));
  }

  lemma {:induction false} ElseLogIs(ts: seq<Token>, st: State, no: Option<Src>)
    requires st.scope != [] && HasAt(ts, st.pos, SpellElse(no))
    requires var q := st.pos + |SpellElse(no)|; q < |ts| && if no.None? then !ts[q].ty.Else? else Readable(no.value, ts[q].ty)
    ensures ElseLog(ts, st) == ElseCalls(no)
    decreases no, 0
  {
    hide StatementLog, Calls, Readable;
    if no.Some? {
      var s, st1 := no.value, st.(pos := st.pos + 1);
      HasAtSplit(ts, st.pos, [Key(Else)], Spelling(s));
      HasOne(ts, st.pos, Key(Else));
      ReadsStatement(ts, st1, s);
      StatementLogIs(ts, st1, s);
    }
  }

  lemma {:induction false} ForLogIs(ts: seq<Token>, st: State, s: Src)
    requires Stands(ts, st, s) && s.SFor?
    ensures StatementLog(ts, st) == Calls(s)
    decreases s, 3
  {
    hide StatementLog, TestLog, Fits, DeclFits, BodyReadable, Spelling, SpellTest, BodyCalls, DeclCalls, VariableLog, ParseVariable;
    ForParts(ts, st.pos, s);
    KnownLogs(ts, st);
    var p := st.pos + 1 + |FlattenDecl(s.index)|;
    var st0 := st.(pos := st.pos + 1);
    DeclLogIs(ts, st0, s.index);
    ReadsDecl(ts, st0, s.index);
    var st1 := Indexed(s, st, p);
    SemiStep(ts, st1);
    TestLogIs(ts, st1.(pos := p + 1), s);
    ForKnown(ts, st, DidVar(Some(Declared(s.index, st.scope, st.next)), st1));
  }

  /** From the test on. */
  lemma {:induction false} TestLogIs(ts: seq<Token>, st: State, s: Src)
    requires st.scope != [] && s.SFor? && HasAt(ts, st.pos, SpellTest(s))
    requires Fits(s.test, Semi) && Readable(s.inc, LBrace) && BodyReadable(s.rounds)
    ensures TestLog(ts, st) == Exps(Size(s.test)) + (Calls(s.inc) + (BodyCalls(s.rounds) + [NewSmt]))
    decreases s, 2
  {
    hide Fits, Readable, BodyReadable, Spelling, SpellBody, BodyCalls, Calls, ParseExp, Flatten, RoundsLog;
    TestParts(ts, st.pos, s);
    var q := st.pos + |Flatten(s.test)|;
    ExpLogIs(ts, st.pos, s.test, st.errors);
    SemiStep(ts, st.(pos := q));
    RoundsLogIs(ts, st.(pos := q + 1), s);
    TestLogStep(ts, st, Done(s.test, q, st.errors));
  }

  lemma {:induction false} RoundsLogIs(ts: seq<Token>, st: State, s: Src)
    requires st.scope != [] && s.SFor? && HasAt(ts, st.pos, Spelling(s.inc)) && HasAt(ts, st.pos + |Spelling(s.inc)|, SpellBody(s.rounds))
    requires Readable(s.inc, LBrace) && BodyReadable(s.rounds)
    ensures RoundsLog(ts, st) == Calls(s.inc) + (BodyCalls(s.rounds) + [NewSmt])
    decreases s, 1
  {
    hide Readable, BodyReadable, Spelling, SpellBody, BodyCalls, Calls, StatementLog, BlockLog, Means, ParseStatement;
    var i := Means(s.inc, st.scope, st.next);
    var p := st.pos + |Spelling(s.inc)|;
    var st1 := State(p, st.errors, i.scope, i.next);
    ReadsBlock(ts, st1, s.rounds);
    ReadsInc(ts, st, s.inc);
    StatementLogIs(ts, st, s.inc);
    BlockLogIs(ts, st1, s.rounds);
  }

  // ---------- files ----------

  lemma {:induction false} ParamsLogIs(ts: seq<Token>, st: State, args: seq<Arg>, first: bool, q: nat)
    requires HasAt(ts, st.pos, SpellArgs(args, first)) && forall i :: 0 <= i < |args| ==> TypeFits(args[i].ty)
    requires q == st.pos + |SpellArgs(args, first)| && q < |ts| && ts[q].ty.Arrow?
    ensures ParamsLog(ts, st, first) == ArgsCalls(args)
    decreases |args|
  {
    hide ParseType, TypeFits, FlattenType, HasAt, ParamsLog, TypeLog, TypeCalls;
    if args == [] {
      NoParams(ts, st, first);
    } else {
      var c := if first then st.pos else st.pos + 1;
      var p := c + |FlattenType(args[0].ty)|;
      CommaParts(ts, st.pos, args, first);
      ArgParts(ts, c, args, p);
      ReadsType(ts, st.(pos := c), args[0].ty);
      TypeLogIs(ts, st.(pos := c), args[0].ty);
      TypeStarts(ts, c, args[0].ty);
      ParamsLogIs(ts, st.(pos := p + 1), args[1..], false, q);
      ParamsLogStep(ts, st, first, c, args[0], p);
    }
  }

  lemma NoParams(ts: seq<Token>, st: State, first: bool)
    requires st.pos < |ts| && ts[st.pos].ty.Arrow?
    ensures ParamsLog(ts, st, first) == []
  {
  }

  lemma ParamsLogStep(ts: seq<Token>, st: State, first: bool, c: nat, a: Arg, p: nat)
    requires st.pos < |ts| && !ts[st.pos].ty.Arrow? && !ts[st.pos].ty.LBrace?
    requires if first then c == st.pos else c == st.pos + 1 && ts[st.pos].ty.Comma?
    requires ParseType(ts, st.(pos := c)) == DidType(Some(a.ty), st.(pos := p)) && p < |ts| && ts[p] == Token(Ident, a.name)
    ensures ParamsLog(ts, st, first) == TypeLog(ts, st.(pos := c)) + ([NewDcl] + ParamsLog(ts, st.(pos := p + 1), false))
  {
    hide ParseType, TypeLog;
  }

  lemma FunctionLogIs(ts: seq<Token>, st: State, f: Fun)
    requires st.scope != [] && FunReadable(f) && HasAt(ts, st.pos, SpellFun(f))
    requires var q := st.pos + |SpellFun(f)|; q < |ts| && !ts[q].ty.Semi?
    ensures FunctionLog(ts, st) == FunCalls(f)
  {
    hide ParseParams, ParamsLog, RestLog, SpellFun, SpellBody, FlattenType, HasAt, TypeFits, BodyReadable, TokenName, ArgsCalls, TypeCalls, BodyCalls, FunMeans, SpellArgs, SpellSemi;
    var a, b, e := FunParts(ts, st.pos, f);
    ReadsArgs(ts, st.(pos := st.pos + 3), [], f.args, a);
    assert [] + f.args == f.args;
    ParamsLogIs(ts, st.(pos := st.pos + 3), f.args, true, a);
    RestLogIs(ts, st.(pos := a), f, b, e);
  }

  lemma RestLogIs(ts: seq<Token>, st: State, f: Fun, b: nat, e: nat)
    requires st.scope != [] && FunReadable(f) && st.pos < b < |ts| && ts[st.pos] == Mark(Arrow)
    requires HasAt(ts, st.pos + 1, FlattenType(f.ret)) && b == st.pos + 1 + |FlattenType(f.ret)|
    requires HasAt(ts, b, SpellBody(f.body)) && e == b + |SpellBody(f.body)|
    ensures RestLog(ts, f.name, DidArgs(Some(f.args), st)) == TypeCalls(f.ret) + ([NewDcl] + BodyCalls(f.body))
  {
    hide ParseType, TypeLog, BlockLog, FlattenType, SpellBody, HasAt, TypeCalls, BodyCalls;
    var inner := BoundAll(st.(pos := b), InOrder(f.args, f.name));
    ReadsBlock(ts, inner, f.body);
    BlockLogIs(ts, inner, f.body);
    ReadsType(ts, st.(pos := st.pos + 1), f.ret);
    TypeLogIs(ts, st.(pos := st.pos + 1), f.ret);
  }

  lemma TopLogIs(ts: seq<Token>, st: State, i: Item)
    requires st.scope != [] && HasAt(ts, st.pos, SpellItem(i))
    requires var q := st.pos + |SpellItem(i)|; q < |ts| && ItemReadable(i, ts[q].ty) && !ts[q].ty.Semi?
    ensures st.pos < |ts| && TopLog(ts, st) == ItemCalls(i)
  {
    hide FunctionLog, VariableLog, FunReadable, DeclFits, SpellFun, FlattenDecl, FunCalls, DeclCalls, ParseTop, ItemMeans;
    ReadsItem(ts, st, i);
    match i
    case FunItem(f) => FunctionLogIs(ts, st, f);
    case VarItem(d, stop) =>
      var semi := if stop then [Mark(Semi)] else [];
      HasAtSplit(ts, st.pos, FlattenDecl(d), semi);
      if stop { HasOne(ts, st.pos + |FlattenDecl(d)|, Mark(Semi)); }
      DeclLogIs(ts, st, d);
  }

  lemma {:induction false} FileLogIs(ts: seq<Token>, st: State, items: seq<Item>)
    requires st.scope != [] && FileReadable(items) && Finite(items) && HasAt(ts, st.pos, SpellFile(items))
    requires var q := st.pos + |SpellFile(items)|; q < |ts| && ts[q].ty.End?
    ensures FileLog(ts, st) == FileCalls(items)
    decreases |items|
  {
    hide ParseTop, TopLog, ItemMeans, ItemReadable, ItemCalls, SpellItem;
    NextItem(ts, st.pos, items);
    if items != [] {
      var i, rest := items[0], items[1..];
      assert i in items;
      var p := st.pos + |SpellItem(i)|;
      HasAtSplit(ts, st.pos, SpellItem(i), SpellFile(rest));
      NextItem(ts, p, rest);
      ReadsItem(ts, st, i);
      TopLogIs(ts, st, i);
      var m := ItemMeans(i, st.scope, st.next);
      FileLogIs(ts, State(p, st.errors, m.scope, m.next), rest);
    }
  }

  // ---------- what is counted is proper ----------

  lemma BodyProper(b: Body)
    requires BodyReadable(b)
    ensures NodeRoom.Proper(BodyCalls(b))
  {
    hide NodeRoom.Proper, BodyCalls, SpellBody, BodyReadable, BlockLog;
    var ts := SpellBody(b) + [Token(End, "")];
    var st := State(0, [], [map[]], 0);
    BlockLogIs(ts, st, b);
    NodeRoom.ProperBlock(ts, st);
  }

  lemma FileProper(items: seq<Item>)
    requires FileReadable(items) && Finite(items)
    ensures NodeRoom.Proper(FileCalls(items))
  {
    hide NodeRoom.Proper, FileCalls, SpellFile, FileReadable, Finite, FileLog;
    var ts := SpellFile(items) + [Token(End, "")];
    var st := State(0, [], [map[]], 0);
    FileLogIs(ts, st, items);
    NodeRoom.ProperFile(ts, st);
  }
}
