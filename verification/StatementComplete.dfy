/** Completeness: the statement parser reads every readable statement back, with its
    names looked up as the language says. */
module StatementComplete {
  import opened Wrappers
  import opened Tokens
  import opened Pratt
  import opened Grammar
  import opened Statements
  import opened StatementGrammar
  import PrattComplete
  import PrattSound
  import Scopes

  // ---------- expressions and declarations ----------

  lemma ReadsExp(ts: seq<Token>, pos: nat, e: Exp, errors: seq<Error>)
    requires HasAt(ts, pos, Flatten(e)) && pos + |Flatten(e)| < |ts| && Fits(e, ts[pos + |Flatten(e)|].ty)
    ensures ParseExp(ts, pos, 0, errors) == Done(e, pos + |Flatten(e)|, errors)
  {
    PrattComplete.WalkFlatten(ts, PrattComplete.At(pos), e);
    PrattComplete.Reads(ts, pos, e, 0, errors);
  }

  /** A tree never starts with a token that starts another statement. */
  lemma StartsExp(ts: seq<Token>, pos: nat, e: Exp)
    requires HasAt(ts, pos, Flatten(e)) && Respects(e, 0) && pos + |Flatten(e)| <= |ts|
    ensures Flatten(e) != [] && ts[pos] == Flatten(e)[0] && PrattComplete.StartsExp(ts[pos].ty)
  {
    PrattComplete.WalkFlatten(ts, PrattComplete.At(pos), e);
    PrattComplete.StartsTree(ts, pos, e, 0, false);
    if Flatten(e) == [] { SpelledOut(e, 0); }
    assert ts[pos + 0] == Flatten(e)[0];
  }

  lemma SpelledOut(e: Exp, r: int)
    requires Respects(e, r)
    ensures Flatten(e) != []
  {
  }

  lemma {:induction false} BraceFirst(e: Exp, r: int)
    requires Respects(e, r)
    ensures Flatten(e) != [] && (Flatten(e)[0].ty.LBrace? <==> StartsBrace(e))
    decreases e
  {
    match e
    case Binary(l, _, _) => BraceFirst(l, r);
    case Selector(x, _) => BraceFirst(x, r);
    case Index(x, _) => BraceFirst(x, r);
    case Call(f, _) => BraceFirst(f, r);
    case _ =>
  }

  lemma ReadsType(ts: seq<Token>, st: State, t: TypeExp)
    requires TypeFits(t) && HasAt(ts, st.pos, FlattenType(t))
    requires var q := st.pos + |FlattenType(t)|; q < |ts| && !ts[q].ty.LBrack?
    ensures ParseType(ts, st) == DidType(Some(t), st.(pos := st.pos + |FlattenType(t)|))
  {
    hide HasAt, Flatten;
    match t
    case Named(n) => HasOne(ts, st.pos, Token(Ident, n));
    case ArrayOf(n, len) =>
      HasAtSplit(ts, st.pos, [Token(Ident, n)], [Mark(LBrack)] + (Flatten(len) + [Mark(RBrack)]));
      HasOne(ts, st.pos, Token(Ident, n));
      HasAtSplit(ts, st.pos + 1, [Mark(LBrack)], Flatten(len) + [Mark(RBrack)]);
      HasOne(ts, st.pos + 1, Mark(LBrack));
      HasAtSplit(ts, st.pos + 2, Flatten(len), [Mark(RBrack)]);
      HasOne(ts, st.pos + 2 + |Flatten(len)|, Mark(RBrack));
      ReadsExp(ts, st.pos + 2, len, st.errors);
  }

  /** What a declaration leaves behind. */
  function DeclDone(d: Decl, st: State): State
    requires st.scope != []
  {
    State(st.pos + |FlattenDecl(d)|, st.errors, StatementGrammar.Bind(st.scope, d.name, st.next), st.next + 1)
  }

  /** Where the parts of `var T x = e` are. */
  lemma DeclParts(ts: seq<Token>, pos: nat, t: TypeExp, name: string, e: Exp)
    requires HasAt(ts, pos, FlattenDecl(Decl(Some(t), name, e)))
    ensures pos < |ts| && ts[pos] == Key(Var) && HasAt(ts, pos + 1, FlattenType(t))
    ensures HasAt(ts, pos + 1 + |FlattenType(t)|, FlattenNamed(name, e))
  {
    var f, rest := FlattenType(t), FlattenNamed(name, e);
    HasAtSplit(ts, pos, [Key(Var)], f + rest);
    HasOne(ts, pos, Key(Var));
    HasAtSplit(ts, pos + 1, f, rest);
  }

  lemma ReadsDecl(ts: seq<Token>, st: State, d: Decl)
    requires st.scope != [] && HasAt(ts, st.pos, FlattenDecl(d))
    requires var q := st.pos + |FlattenDecl(d)|; q < |ts| && DeclFits(d, ts[q].ty)
    ensures ParseVariable(ts, st) == DidVar(Some(Declared(d, st.scope, st.next)), DeclDone(d, st))
  {
    if d.ty.None? {
      ReadsDefine(ts, st, d);
    } else {
      ReadsTyped(ts, st, d);
    }
  }

  lemma ReadsDefine(ts: seq<Token>, st: State, d: Decl)
    requires st.scope != [] && d.ty.None? && HasAt(ts, st.pos, FlattenDecl(d))
    requires var q := st.pos + |FlattenDecl(d)|; q < |ts| && DeclFits(d, ts[q].ty)
    ensures ParseVariable(ts, st) == DidVar(Some(Declared(d, st.scope, st.next)), DeclDone(d, st))
  {
    HasAtSplit(ts, st.pos, [Token(Ident, d.name)], [Mark(Define)] + Flatten(d.value));
    HasOne(ts, st.pos, Token(Ident, d.name));
    ReadsValue(ts, st.(pos := st.pos + 1), Define, d);
  }

  lemma DeclLength(d: Decl)
    requires d.ty.Some?
    ensures |FlattenDecl(d)| == 1 + |FlattenType(d.ty.value)| + |FlattenNamed(d.name, d.value)|
  {
  }

  lemma ReadsTyped(ts: seq<Token>, st: State, d: Decl)
    requires st.scope != [] && d.ty.Some? && HasAt(ts, st.pos, FlattenDecl(d))
    requires var q := st.pos + |FlattenDecl(d)|; q < |ts| && DeclFits(d, ts[q].ty)
    ensures ParseVariable(ts, st) == DidVar(Some(Declared(d, st.scope, st.next)), DeclDone(d, st))
  {
    hide HasAt, Flatten, FlattenType;
    DeclParts(ts, st.pos, d.ty.value, d.name, d.value);
    DeclLength(d);
    ReadsTypedAt(ts, st, d, st.pos + 1 + |FlattenType(d.ty.value)|, st.pos + |FlattenDecl(d)|);
  }

  /** The type ends at `p` and the declaration at `q`. */
  lemma ReadsTypedAt(ts: seq<Token>, st: State, d: Decl, p: nat, q: nat)
    requires st.scope != [] && d.ty.Some? && st.pos < |ts| && ts[st.pos].ty.Var? && HasAt(ts, st.pos + 1, FlattenType(d.ty.value))
    requires p == st.pos + 1 + |FlattenType(d.ty.value)| && HasAt(ts, p, FlattenNamed(d.name, d.value))
    requires q == p + |FlattenNamed(d.name, d.value)| && q < |ts| && DeclFits(d, ts[q].ty)
    ensures ParseVariable(ts, st) == DidVar(Some(Declared(d, st.scope, st.next)),
      State(q, st.errors, StatementGrammar.Bind(st.scope, d.name, st.next), st.next + 1))
  {
    hide ParseType, ParseTyped, HasAt;
    var st1 := State(p, st.errors, st.scope, st.next);
    ReadsNamed(ts, st1, d);
    ReadsType(ts, State(st.pos + 1, st.errors, st.scope, st.next), d.ty.value);
    VarStep(ts, st, DidType(d.ty, st1), DidVar(Some(Declared(d, st.scope, st.next)),
      State(q, st.errors, StatementGrammar.Bind(st.scope, d.name, st.next), st.next + 1)));
  }

  /** The name and the value after a type. */
  lemma ReadsNamed(ts: seq<Token>, st: State, d: Decl)
    requires st.scope != [] && d.ty.Some? && HasAt(ts, st.pos, FlattenNamed(d.name, d.value))
    requires var q := st.pos + |FlattenNamed(d.name, d.value)|; q < |ts| && Fits(d.value, ts[q].ty)
    ensures ts[st.pos].ty.Ident?
    ensures ParseTyped(ts, DidType(d.ty, st)) == DidVar(Some(Declared(d, st.scope, st.next)),
      State(st.pos + |FlattenNamed(d.name, d.value)|, st.errors, StatementGrammar.Bind(st.scope, d.name, st.next), st.next + 1))
  {
    hide ParseExp, BindingPower;
    HasAtSplit(ts, st.pos, [Token(Ident, d.name)], [Mark(Assign)] + Flatten(d.value));
    HasOne(ts, st.pos, Token(Ident, d.name));
    ReadsValue(ts, st.(pos := st.pos + 1), Assign, d);
  }

  lemma ReadsValue(ts: seq<Token>, st: State, op: TokenType, d: Decl)
    requires st.scope != [] && HasAt(ts, st.pos, [Mark(op)] + Flatten(d.value))
    requires var q := st.pos + 1 + |Flatten(d.value)|; q < |ts| && Fits(d.value, ts[q].ty)
    ensures ParseValue(ts, st, op, d.name, d.ty) == DidVar(Some(Declared(d, st.scope, st.next)),
      State(st.pos + 1 + |Flatten(d.value)|, st.errors, StatementGrammar.Bind(st.scope, d.name, st.next), st.next + 1))
  {
    HasAtSplit(ts, st.pos, [Mark(op)], Flatten(d.value));
    HasOne(ts, st.pos, Mark(op));
    ReadsExp(ts, st.pos + 1, d.value, st.errors);
    SpelledOut(d.value, 0);
  }

  // ---------- single steps of the parser ----------

  /** What the first token tells. */
  lemma Known(ts: seq<Token>, st: State)
    requires st.scope != [] && st.pos < |ts|
    ensures ts[st.pos].ty.If? ==> ParseStatement(ts, st) == ParseIf(ts, st)
    ensures ts[st.pos].ty.For? ==> ParseStatement(ts, st) == ParseFor(ts, st)
    ensures ts[st.pos].ty.LBrace? ==> ParseStatement(ts, st) == ParseBlock(ts, st)
  {
  }

  lemma KnownVar(ts: seq<Token>, st: State, v: VarParse)
    requires st.scope != [] && st.pos < |ts| && ts[st.pos].ty.Var? && v == ParseVariable(ts, st) && v.DidVar?
    ensures ParseStatement(ts, st) == Did(Declare(v.v), v.st)
  {
    hide ParseVariable;
  }

  /** Read as an expression, when the first token tells nothing. */
  lemma OtherStep(ts: seq<Token>, st: State, e: Parsed)
    requires st.scope != [] && st.pos < |ts| && ParseKnown(ts, st) == Did(Nothing, st)
    requires e == ParseExp(ts, st.pos, 0, st.errors) && e.Done?
    ensures ParseStatement(ts, st) == Converted(ts, st.(pos := e.pos, errors := e.errors), e.node)
  {
  }

  lemma CondStep(ts: seq<Token>, st: State, e: Parsed, st1: State, r: Parse)
    requires st.scope != [] && e == ParseExp(ts, st.pos, 0, st.errors) && e.Done?
    requires st1 == st.(pos := e.pos, errors := e.errors) && r == IfBody(ts, st1, e.node)
    ensures IfCond(ts, st) == r
  {
  }

  lemma BodyStep(ts: seq<Token>, st: State, c: Exp, b: Parse, r: Parse)
    requires st.scope != [] && b == ParseBlock(ts, st) && b.Did? && b.st.scope != []
    requires IfElse(ts, b.st, Seen(c, st.scope), b.smt) == r
    ensures IfBody(ts, st, c) == r
  {
  }

  lemma ElseStep(ts: seq<Token>, st: State, c: Seen, b: Stm, s: Parse)
    requires st.scope != [] && st.pos + 1 < |ts| && ts[st.pos].ty.Else? && s == ParseStatement(ts, st.(pos := st.pos + 1)) && s.Did?
    ensures IfElse(ts, st, c, b) == Did(Branch(Some(c), b, if ts[st.pos + 1].ty.If? then s.smt else Branch(None, s.smt, Nothing)), s.st)
  {
  }

  lemma IndexStep(ts: seq<Token>, st: State, v: VarParse, st1: State, r: Parse)
    requires st.scope != [] && st.pos < |ts| && v == ParseVariable(ts, st.(pos := st.pos + 1)) && v.DidVar? && v.st.pos < |ts|
    requires st1 == ExpectSemi(ts, v.st) && st1.scope != [] && r == ForTest(ts, st1, v.v)
    ensures ParseFor(ts, st) == r
  {
  }

  lemma TestStep(ts: seq<Token>, st: State, v: Option<Variable>, e: Parsed, st1: State, r: Parse)
    requires st.scope != [] && e == ParseExp(ts, st.pos, 0, st.errors) && e.Done? && e.pos < |ts|
    requires st1 == ExpectSemi(ts, st.(pos := e.pos, errors := e.errors)) && st1.scope != []
    requires r == ForRounds(ts, st1, v, Seen(e.node, st.scope))
    ensures ForTest(ts, st, v) == r
  {
  }

  lemma SemiAt(ts: seq<Token>, st: State, q: nat)
    requires q < |ts| && ts[q].ty.Semi?
    ensures ExpectSemi(ts, st.(pos := q, errors := st.errors)) == State(q + 1, st.errors, st.scope, st.next)
  {
  }

  lemma RoundsStep(ts: seq<Token>, st: State, v: Option<Variable>, c: Seen, inc: Parse, b: Parse)
    requires st.scope != [] && inc == ParseStatement(ts, st) && inc.Did? && inc.st.scope != []
    requires b == ParseBlock(ts, inc.st) && b.Did?
    ensures ForRounds(ts, st, v, c) == Did(Loop(v, c, inc.smt, b.smt), b.st)
  {
  }

  lemma BlockStep(ts: seq<Token>, st: State, l: ListParse)
    requires st.scope != [] && st.pos < |ts| && ts[st.pos].ty.LBrace?
    requires l == ParseList(ts, State(st.pos + 1, st.errors, [map[]] + st.scope, st.next)) && l.DidList?
    ensures l.st.scope != [] && ParseBlock(ts, st) == Did(Blk(l.smts), l.st.(pos := l.st.pos + 1, scope := l.st.scope[1..]))
  {
    hide ParseStatement;
  }

  lemma SemiStep(ts: seq<Token>, st: State)
    requires st.pos < |ts| && ts[st.pos].ty.Semi?
    ensures ExpectSemi(ts, st) == st.(pos := st.pos + 1)
  {
  }

  /** One statement of a list and the semicolon after it, if there is one. */
  lemma ListStep(ts: seq<Token>, st: State, s: Parse, next: State, rest: ListParse)
    requires st.scope != [] && st.pos < |ts| && !ts[st.pos].ty.RBrace?
    requires s == ParseStatement(ts, st) && s.Did? && !s.smt.Nothing? && s.st.pos < |ts|
    requires next == if ts[s.st.pos].ty.RBrace? then s.st else ExpectSemi(ts, s.st)
    requires next.scope != [] && rest == ParseList(ts, next) && rest.DidList?
    ensures ParseList(ts, st) == DidList([s.smt] + rest.smts, rest.st)
  {
  }

  lemma VarStep(ts: seq<Token>, st: State, t: TypeParse, r: VarParse)
    requires st.scope != [] && st.pos < |ts| && ts[st.pos].ty.Var?
    requires t == ParseType(ts, st.(pos := st.pos + 1)) && t.DidType? && t.st.scope != [] && t.st.pos <= |ts|
    requires r == ParseTyped(ts, t)
    ensures ParseVariable(ts, st) == r
  {
  }

  // ---------- statements ----------

  /** What reading `s` leaves behind. */
  function After(s: Src, st: State): Parse
    requires st.scope != []
  {
    var m := Means(s, st.scope, st.next);
    Did(m.smt, State(st.pos + |Spelling(s)|, st.errors, m.scope, m.next))
  }

  /** `s` is at the cursor, and may stand there. */
  ghost predicate Stands(ts: seq<Token>, st: State, s: Src) {
    && st.scope != [] && HasAt(ts, st.pos, Spelling(s))
    && st.pos + |Spelling(s)| < |ts| && Readable(s, ts[st.pos + |Spelling(s)|].ty)
  }

  lemma {:induction false} ReadsStatement(ts: seq<Token>, st: State, s: Src)
    requires Stands(ts, st, s)
    ensures ParseStatement(ts, st) == After(s, st)
    ensures !ts[st.pos].ty.RBrace? && (ts[st.pos].ty.If? <==> s.SIf?)
    decreases s, 4
  {
    hide Flatten, SpellBody, ParseIf, ParseFor;
    match s
    case SReturn(e) => ReadsReturn(ts, st, e);
    case SBlock(b) =>
      ReadsBlock(ts, st, b);
      Known(ts, st);
    case SIf(_, _, _) =>
      ReadsIf(ts, st, s);
      Known(ts, st);
    case SFor(_, _, _, _) =>
      ReadsFor(ts, st, s);
      Known(ts, st);
    case SVar(d) => ReadsVar(ts, st, d);
    case SSet(_, _, _) => ReadsSet(ts, st, s);
    case SStep(n, up) => ReadsStep(ts, st, n, up);
  }

  lemma ReadsVar(ts: seq<Token>, st: State, d: Decl)
    requires st.scope != [] && d.ty.Some? && HasAt(ts, st.pos, FlattenDecl(d))
    requires var q := st.pos + |FlattenDecl(d)|; q < |ts| && DeclFits(d, ts[q].ty)
    ensures ParseStatement(ts, st) == Did(Declare(Some(Declared(d, st.scope, st.next))), DeclDone(d, st)) && ts[st.pos] == Key(Var)
  {
    VarFirst(ts, st.pos, d);
    ReadsDecl(ts, st, d);
    KnownVar(ts, st, DidVar(Some(Declared(d, st.scope, st.next)), DeclDone(d, st)));
  }

  lemma ReadsStep(ts: seq<Token>, st: State, n: string, up: bool)
    requires Stands(ts, st, SStep(n, up))
    ensures ParseStatement(ts, st) == After(SStep(n, up), st) && ts[st.pos] == Token(Ident, n)
  {
    HasAtSplit(ts, st.pos, [Token(Ident, n)], [Mark(if up then Inc else Dec)]);
    HasOne(ts, st.pos, Token(Ident, n));
    HasOne(ts, st.pos + 1, Mark(if up then Inc else Dec));
  }

  lemma ReadsReturn(ts: seq<Token>, st: State, e: Exp)
    requires Stands(ts, st, SReturn(e))
    ensures ParseStatement(ts, st) == After(SReturn(e), st) && ts[st.pos] == Key(Return)
  {
    HasAtSplit(ts, st.pos, [Key(Return)], Flatten(e));
    HasOne(ts, st.pos, Key(Return));
    ReadsExp(ts, st.pos + 1, e, st.errors);
  }

  lemma VarFirst(ts: seq<Token>, pos: nat, d: Decl)
    requires HasAt(ts, pos, FlattenDecl(d)) && d.ty.Some?
    ensures pos < |ts| && ts[pos] == Key(Var)
  {
    DeclParts(ts, pos, d.ty.value, d.name, d.value);
  }

  /** The token at `pos` starts no statement that its first tokens give away. */
  lemma NotKnown(ts: seq<Token>, st: State)
    requires st.scope != [] && st.pos + 1 < |ts|
    requires PrattComplete.StartsExp(ts[st.pos].ty) && !ts[st.pos].ty.LBrace?
    requires !ts[st.pos + 1].ty.Inc? && !ts[st.pos + 1].ty.Dec?
    ensures ParseKnown(ts, st) == Did(Nothing, st)
  {
  }

  /** The first two tokens of an assignment. */
  lemma SetFirst(ts: seq<Token>, pos: nat, e: Exp)
    requires e.Binary? && Respects(e, 0) && HasAt(ts, pos, Flatten(e)) && !StartsBrace(e)
    ensures pos + 1 < |ts| && PrattComplete.StartsExp(ts[pos].ty) && !ts[pos].ty.LBrace?
    ensures !ts[pos + 1].ty.Inc? && !ts[pos + 1].ty.Dec?
  {
    var f := Flatten(e);
    StartsExp(ts, pos, e);
    BraceFirst(e, 0);
    SpelledOut(e.left, 0);
    PrattSound.NeverShifts(e, 0);
    assert ts[pos + 1] == f[1] && f[1] in f;
  }

  lemma ReadsSet(ts: seq<Token>, st: State, s: Src)
    requires Stands(ts, st, s) && s.SSet?
    ensures ParseStatement(ts, st) == After(s, st)
    ensures PrattComplete.StartsExp(ts[st.pos].ty)
  {
    var e := Binary(s.left, s.op, s.right);
    SetFirst(ts, st.pos, e);
    NotKnown(ts, st);
    ReadsExp(ts, st.pos, e, st.errors);
    OtherStep(ts, st, Done(e, st.pos + |Flatten(e)|, st.errors));
  }

  lemma BlockParts(ts: seq<Token>, pos: nat, b: Body)
    requires HasAt(ts, pos, SpellBody(b)) && BodyReadable(b)
    ensures var q := pos + 1 + |SpellList(b.smts, b.last)|;
      pos < |ts| && ts[pos] == Mark(LBrace) && ListAt(ts, pos + 1, b.smts, b.last) && q + 1 == pos + |SpellBody(b)|
  {
    hide SpellList, Readable;
    var list := SpellList(b.smts, b.last);
    HasAtSplit(ts, pos, [Mark(LBrace)], list + [Mark(RBrace)]);
    HasOne(ts, pos, Mark(LBrace));
    HasAtSplit(ts, pos + 1, list, [Mark(RBrace)]);
    HasOne(ts, pos + 1 + |list|, Mark(RBrace));
  }

  lemma {:induction false} ReadsBlock(ts: seq<Token>, st: State, b: Body)
    requires st.scope != [] && HasAt(ts, st.pos, SpellBody(b)) && BodyReadable(b)
    ensures st.pos < |ts| && ts[st.pos] == Mark(LBrace)
    ensures var m := BodyMeans(b, st.scope, st.next);
      ParseBlock(ts, st) == Did(Blk(m.smts), State(st.pos + |SpellBody(b)|, st.errors, st.scope, m.next))
    decreases b, 1
  {
    BlockParts(ts, st.pos, b);
    ReadsInside(ts, st, b, st.pos + 1 + |SpellList(b.smts, b.last)|);
  }

  /** The statements between the braces; the second brace is at `q`. */
  lemma {:induction false} ReadsInside(ts: seq<Token>, st: State, b: Body, q: nat)
    requires st.scope != [] && st.pos < |ts| && ts[st.pos].ty.LBrace? && ListAt(ts, st.pos + 1, b.smts, b.last)
    requires q == st.pos + 1 + |SpellList(b.smts, b.last)|
    ensures var m := BodyMeans(b, st.scope, st.next);
      ParseBlock(ts, st) == Did(Blk(m.smts), State(q + 1, st.errors, st.scope, m.next))
    decreases b, 0
  {
    ReadsList(ts, State(st.pos + 1, st.errors, [map[]] + st.scope, st.next), b.smts, b.last);
    var m := BodyMeans(b, st.scope, st.next);
    BodyGrows(b, st.scope, st.next);
    BlockStep(ts, st, DidList(m.smts, State(q, st.errors, m.scope, m.next)));
  }

  /** What reading a list leaves behind. */
  function ListRead(smts: seq<Src>, last: bool, st: State): ListParse
    requires st.scope != []
  {
    var m := ListMeans(smts, st.scope, st.next);
    DidList(m.smts, State(st.pos + |SpellList(smts, last)|, st.errors, m.scope, m.next))
  }

  function Separator(smts: seq<Src>, last: bool): seq<Token> {
    if |smts| > 1 || last then [Mark(Semi)] else []
  }

  /** Where the first statement of a list, the semicolon and the others are. */
  lemma ListParts(ts: seq<Token>, pos: nat, smts: seq<Src>, last: bool)
    requires smts != [] && HasAt(ts, pos, SpellList(smts, last))
    ensures var p, sep := pos + |Spelling(smts[0])|, Separator(smts, last);
      && HasAt(ts, pos, Spelling(smts[0])) && HasAt(ts, p, sep) && HasAt(ts, p + |sep|, SpellList(smts[1..], last))
      && p + |sep| + |SpellList(smts[1..], last)| == pos + |SpellList(smts, last)|
  {
    var first, sep, rest := Spelling(smts[0]), Separator(smts, last), SpellList(smts[1..], last);
    HasAtSplit(ts, pos, first, sep + rest);
    HasAtSplit(ts, pos + |first|, sep, rest);
  }

  lemma ListNext(ts: seq<Token>, p: nat, smts: seq<Src>, last: bool)
    requires smts != [] && HasAt(ts, p, Separator(smts, last)) && ListReadable(smts, last)
    requires Separator(smts, last) == [] ==> p < |ts| && ts[p].ty.RBrace?
    ensures p < |ts| && ts[p].ty == (if Separator(smts, last) == [] then RBrace else Semi) && Readable(smts[0], ts[p].ty)
  {
    if Separator(smts, last) != [] {
      HasOne(ts, p, Mark(Semi));
    }
  }

  /** A list at `pos`, with a closing brace after it, and its first statement. */
  ghost predicate ListAt(ts: seq<Token>, pos: nat, smts: seq<Src>, last: bool) {
    var q := pos + |SpellList(smts, last)|;
    HasAt(ts, pos, SpellList(smts, last)) && ListReadable(smts, last) && q < |ts| && ts[q].ty.RBrace?
  }

  ghost predicate FirstAt(ts: seq<Token>, pos: nat, smts: seq<Src>, last: bool)
    requires smts != []
  {
    var p := pos + |Spelling(smts[0])|;
    && HasAt(ts, pos, Spelling(smts[0])) && p < |ts| && Readable(smts[0], ts[p].ty)
    && ts[p].ty == (if Separator(smts, last) == [] then RBrace else Semi)
    && ListAt(ts, p + |Separator(smts, last)|, smts[1..], last)
    && p + |Separator(smts, last)| + |SpellList(smts[1..], last)| == pos + |SpellList(smts, last)|
  }

  lemma ListFirst(ts: seq<Token>, pos: nat, smts: seq<Src>, last: bool)
    requires smts != [] && ListAt(ts, pos, smts, last)
    ensures FirstAt(ts, pos, smts, last)
  {
    ListParts(ts, pos, smts, last);
    ListNext(ts, pos + |Spelling(smts[0])|, smts, last);
  }

  lemma {:induction false} ReadsList(ts: seq<Token>, st: State, smts: seq<Src>, last: bool)
    requires st.scope != [] && ListAt(ts, st.pos, smts, last)
    ensures ParseList(ts, st) == ListRead(smts, last, st)
    decreases smts, 1
  {
    hide ParseStatement, Spelling, Readable, Means;
    if smts != [] {
      ListFirst(ts, st.pos, smts, last);
      ReadsStatement(ts, st, smts[0]);
      var p := st.pos + |Spelling(smts[0])|;
      ReadsTail(ts, st, smts, last, Means(smts[0], st.scope, st.next), p, p + |Separator(smts, last)|);
    }
  }

  /** After the first statement, which ends at `p`; the others start at `q`. */
  lemma {:induction false} ReadsTail(ts: seq<Token>, st: State, smts: seq<Src>, last: bool, m: Meaning, p: nat, q: nat)
    requires smts != [] && st.scope != [] && st.pos < p < |ts| && !ts[st.pos].ty.RBrace?
    requires m == Means(smts[0], st.scope, st.next) && ParseStatement(ts, st) == Did(m.smt, State(p, st.errors, m.scope, m.next))
    requires if ts[p].ty.RBrace? then q == p else q == p + 1 && ts[p].ty.Semi?
    requires ListAt(ts, q, smts[1..], last) && q + |SpellList(smts[1..], last)| == st.pos + |SpellList(smts, last)|
    ensures ParseList(ts, st) == ListRead(smts, last, st)
    decreases smts, 0
  {
    var st1, st2 := State(p, st.errors, m.scope, m.next), State(q, st.errors, m.scope, m.next);
    ReadsList(ts, st2, smts[1..], last);
    ListJoin(ts, st, smts, last, m, st1, st2);
  }

  lemma ListJoin(ts: seq<Token>, st: State, smts: seq<Src>, last: bool, m: Meaning, st1: State, st2: State)
    requires smts != [] && st.scope != [] && st2.scope != [] && st.pos < |ts| && !ts[st.pos].ty.RBrace? && st1.pos < |ts|
    requires m == Means(smts[0], st.scope, st.next) && ParseStatement(ts, st) == Did(m.smt, st1)
    requires st1.scope == m.scope && st1.next == m.next && st1.errors == st.errors
    requires ts[st1.pos].ty.RBrace? || ts[st1.pos].ty.Semi?
    requires st2 == if ts[st1.pos].ty.RBrace? then st1 else st1.(pos := st1.pos + 1)
    requires st2.pos + |SpellList(smts[1..], last)| == st.pos + |SpellList(smts, last)|
    requires ParseList(ts, st2) == ListRead(smts[1..], last, st2)
    ensures ParseList(ts, st) == ListRead(smts, last, st)
  {
    hide ParseStatement;
    if ts[st1.pos].ty.Semi? { SemiStep(ts, st1); }
    ListStep(ts, st, Did(m.smt, st1), st2, ListRead(smts[1..], last, st2));
  }

  lemma IfParts(ts: seq<Token>, pos: nat, s: Src)
    requires s.SIf? && HasAt(ts, pos, Spelling(s))
    ensures var p := pos + 1 + |Flatten(s.cond)|;
      && pos < |ts| && ts[pos] == Key(If) && HasAt(ts, pos + 1, Flatten(s.cond)) && HasAt(ts, p, SpellBody(s.yes))
      && HasAt(ts, p + |SpellBody(s.yes)|, SpellElse(s.no))
      && p + |SpellBody(s.yes)| + |SpellElse(s.no)| == pos + |Spelling(s)|
  {
    var c, body, no := Flatten(s.cond), SpellBody(s.yes), SpellElse(s.no);
    HasAtSplit(ts, pos, [Key(If)], c + (body + no));
    HasOne(ts, pos, Key(If));
    HasAtSplit(ts, pos + 1, c, body + no);
    HasAtSplit(ts, pos + 1 + |c|, body, no);
  }

  lemma {:induction false} ReadsIf(ts: seq<Token>, st: State, s: Src)
    requires Stands(ts, st, s) && s.SIf?
    ensures ParseIf(ts, st) == After(s, st) && ts[st.pos] == Key(If)
    decreases s, 3
  {
    IfParts(ts, st.pos, s);
    var p := st.pos + 1 + |Flatten(s.cond)|;
    ReadsIfAt(ts, st, s, p, p + |SpellBody(s.yes)|, st.pos + |Spelling(s)|);
  }

  /** The condition ends at `p1`, the body at `p2`, and the whole at `q`. */
  lemma {:induction false} ReadsIfAt(ts: seq<Token>, st: State, s: Src, p1: nat, p2: nat, q: nat)
    requires st.scope != [] && s.SIf? && st.pos < |ts| && q < |ts| && Readable(s, ts[q].ty)
    requires HasAt(ts, st.pos + 1, Flatten(s.cond)) && HasAt(ts, p1, SpellBody(s.yes)) && HasAt(ts, p2, SpellElse(s.no))
    requires p1 == st.pos + 1 + |Flatten(s.cond)| && p2 == p1 + |SpellBody(s.yes)| && q == p2 + |SpellElse(s.no)|
    ensures var m := Means(s, st.scope, st.next); ParseIf(ts, st) == Did(m.smt, State(q, st.errors, m.scope, m.next))
    decreases s, 2, 1
  {
    hide Flatten, SpellBody, ParseExp, Means, SpellElse, BodyReadable;
    var m := Means(s, st.scope, st.next);
    ReadsRest(ts, State(p1, st.errors, st.scope, st.next), s, p2, q);
    ReadsExp(ts, st.pos + 1, s.cond, st.errors);
    ReadsCond(ts, State(st.pos + 1, st.errors, st.scope, st.next), s.cond, p1, Did(m.smt, State(q, st.errors, m.scope, m.next)));
  }

  lemma ReadsCond(ts: seq<Token>, st: State, c: Exp, p: nat, r: Parse)
    requires st.scope != [] && ParseExp(ts, st.pos, 0, st.errors) == Done(c, p, st.errors)
    requires IfBody(ts, State(p, st.errors, st.scope, st.next), c) == r
    ensures IfCond(ts, st) == r
  {
    CondStep(ts, st, Done(c, p, st.errors), State(p, st.errors, st.scope, st.next), r);
  }

  /** From the body of an `if` on: it ends at `p`, and the whole at `q`. */
  lemma {:induction false} ReadsRest(ts: seq<Token>, st: State, s: Src, p: nat, q: nat)
    requires st.scope != [] && s.SIf? && HasAt(ts, st.pos, SpellBody(s.yes)) && HasAt(ts, p, SpellElse(s.no))
    requires p == st.pos + |SpellBody(s.yes)| && q == p + |SpellElse(s.no)| && q < |ts| && Readable(s, ts[q].ty)
    ensures var m := Means(s, st.scope, st.next);
      IfBody(ts, st, s.cond) == Did(m.smt, State(q, st.errors, m.scope, m.next))
    ensures st.pos < |ts| && ts[st.pos] == Mark(LBrace)
    decreases s, 2, 0
  {
    ReadsBlock(ts, st, s.yes);
    var m := BodyMeans(s.yes, st.scope, st.next);
    var st2 := State(p, st.errors, st.scope, m.next);
    ReadsNo(ts, st2, Seen(s.cond, st.scope), Blk(m.smts), s.no);
    var r := Means(s, st.scope, st.next);
    BodyStep(ts, st, s.cond, Did(Blk(m.smts), st2), Did(r.smt, State(q, st.errors, r.scope, r.next)));
  }

  /** What comes after the body, if anything does. */
  lemma {:induction false} ReadsNo(ts: seq<Token>, st: State, c: Seen, b: Stm, no: Option<Src>)
    requires st.scope != [] && HasAt(ts, st.pos, SpellElse(no))
    requires var q := st.pos + |SpellElse(no)|; q < |ts| && if no.None? then !ts[q].ty.Else? else Readable(no.value, ts[q].ty)
    ensures IfElse(ts, st, c, b) ==
      if no.None? then Did(Branch(Some(c), b, Nothing), st)
      else
        var n := Means(no.value, st.scope, st.next);
        Did(Branch(Some(c), b, if no.value.SIf? then n.smt else Branch(None, n.smt, Nothing)),
          State(st.pos + |SpellElse(no)|, st.errors, n.scope, n.next))
    decreases no, 0
  {
    if no.Some? {
      ReadsElse(ts, st, no.value);
      ElseStep(ts, st, c, b, After(no.value, st.(pos := st.pos + 1)));
    }
  }

  lemma {:induction false} ReadsElse(ts: seq<Token>, st: State, s: Src)
    requires st.scope != [] && HasAt(ts, st.pos, [Key(Else)] + Spelling(s))
    requires var q := st.pos + 1 + |Spelling(s)|; q < |ts| && Readable(s, ts[q].ty)
    ensures ts[st.pos] == Key(Else)
    ensures ParseStatement(ts, st.(pos := st.pos + 1)) == After(s, st.(pos := st.pos + 1))
    ensures ts[st.pos + 1].ty.If? <==> s.SIf?
    decreases s, 5
  {
    HasAtSplit(ts, st.pos, [Key(Else)], Spelling(s));
    HasOne(ts, st.pos, Key(Else));
    ReadsStatement(ts, st.(pos := st.pos + 1), s);
  }

  lemma ForParts(ts: seq<Token>, pos: nat, s: Src)
    requires s.SFor? && HasAt(ts, pos, Spelling(s))
    ensures var p := pos + 1 + |FlattenDecl(s.index)|;
      && p < |ts| && ts[pos] == Key(For) && HasAt(ts, pos + 1, FlattenDecl(s.index)) && ts[p] == Mark(Semi)
      && HasAt(ts, p + 1, SpellTest(s)) && pos + |Spelling(s)| == p + 1 + |SpellTest(s)|
  {
    var d, semi, rest := FlattenDecl(s.index), [Mark(Semi)], SpellTest(s);
    HasAtSplit(ts, pos, [Key(For)], d + (semi + rest));
    HasOne(ts, pos, Key(For));
    HasAtSplit(ts, pos + 1, d, semi + rest);
    HasAtSplit(ts, pos + 1 + |d|, semi, rest);
    HasOne(ts, pos + 1 + |d|, Mark(Semi));
  }

  /** What reading a loop leaves behind, from its test on. */
  function LoopRead(s: Src, v: Variable, st: State): Parse
    requires s.SFor? && st.scope != []
  {
    var i := Means(s.inc, st.scope, st.next);
    var m := BodyMeans(s.rounds, i.scope, i.next);
    Did(Loop(Some(v), Seen(s.test, st.scope), i.smt, Blk(m.smts)), State(st.pos + |SpellTest(s)|, st.errors, i.scope, m.next))
  }

  /** The cursor, the scopes and the next object after the index of a loop, at `p`. */
  function Indexed(s: Src, st: State, p: nat): State
    requires s.SFor? && st.scope != []
  {
    State(p, st.errors, StatementGrammar.Bind(st.scope, s.index.name, st.next), st.next + 1)
  }

  lemma LoopIsRead(s: Src, st: State)
    requires s.SFor? && st.scope != []
    ensures After(s, st) ==
      LoopRead(s, Declared(s.index, st.scope, st.next), Indexed(s, st, st.pos + 2 + |FlattenDecl(s.index)|))
  {
  }

  lemma {:induction false} ReadsFor(ts: seq<Token>, st: State, s: Src)
    requires Stands(ts, st, s) && s.SFor?
    ensures ParseFor(ts, st) == After(s, st) && ts[st.pos] == Key(For)
    decreases s, 3
  {
    ForParts(ts, st.pos, s);
    LoopIsRead(s, st);
    ReadsIndex(ts, st, s, st.pos + 1 + |FlattenDecl(s.index)|);
  }

  /** From the index of a loop on; the semicolon after it is at `p`. */
  lemma {:induction false} ReadsIndex(ts: seq<Token>, st: State, s: Src, p: nat)
    requires st.scope != [] && s.SFor? && st.pos < |ts| && HasAt(ts, st.pos + 1, FlattenDecl(s.index))
    requires p == st.pos + 1 + |FlattenDecl(s.index)| && p < |ts| && ts[p] == Mark(Semi) && HasAt(ts, p + 1, SpellTest(s))
    requires DeclFits(s.index, Semi) && Fits(s.test, Semi) && Readable(s.inc, LBrace) && BodyReadable(s.rounds)
    ensures ParseFor(ts, st) == LoopRead(s, Declared(s.index, st.scope, st.next), Indexed(s, st, p + 1))
    decreases s, 2, 1
  {
    hide ForTest, ParseVariable, Spelling, Readable;
    ReadsDecl(ts, st.(pos := st.pos + 1), s.index);
    var v := Declared(s.index, st.scope, st.next);
    ReadsTest(ts, Indexed(s, st, p + 1), v, s);
    SemiStep(ts, Indexed(s, st, p));
    IndexStep(ts, st, DidVar(Some(v), Indexed(s, st, p)), Indexed(s, st, p + 1), LoopRead(s, v, Indexed(s, st, p + 1)));
  }

  lemma TestParts(ts: seq<Token>, pos: nat, s: Src)
    requires s.SFor? && HasAt(ts, pos, SpellTest(s))
    ensures var q := pos + |Flatten(s.test)|;
      && q < |ts| && HasAt(ts, pos, Flatten(s.test)) && ts[q] == Mark(Semi) && HasAt(ts, q + 1, Spelling(s.inc))
      && HasAt(ts, q + 1 + |Spelling(s.inc)|, SpellBody(s.rounds))
      && pos + |SpellTest(s)| == q + 1 + |Spelling(s.inc)| + |SpellBody(s.rounds)|
  {
    var c, semi, inc, body := Flatten(s.test), [Mark(Semi)], Spelling(s.inc), SpellBody(s.rounds);
    HasAtSplit(ts, pos, c, semi + (inc + body));
    HasAtSplit(ts, pos + |c|, semi, inc + body);
    HasOne(ts, pos + |c|, Mark(Semi));
    HasAtSplit(ts, pos + |c| + 1, inc, body);
  }

  /** From the test of a loop on. */
  lemma {:induction false} ReadsTest(ts: seq<Token>, st: State, v: Variable, s: Src)
    requires st.scope != [] && s.SFor? && HasAt(ts, st.pos, SpellTest(s))
    requires Fits(s.test, Semi) && Readable(s.inc, LBrace) && BodyReadable(s.rounds)
    ensures ForTest(ts, st, Some(v)) == LoopRead(s, v, st)
    decreases s, 2, 0
  {
    hide ForRounds, BodyReadable, BindingPower, BodyMeans, ParseExp, Flatten, Spelling, Means, ForTest;
    TestParts(ts, st.pos, s);
    var q := st.pos + |Flatten(s.test)|;
    var p := q + 1 + |Spelling(s.inc)|;
    ReadsRounds(ts, State(q + 1, st.errors, st.scope, st.next), v, Seen(s.test, st.scope), s, p, st.pos + |SpellTest(s)|);
    ReadsExp(ts, st.pos, s.test, st.errors);
    ReadsTestOnly(ts, st, v, s.test, q, LoopRead(s, v, st));
  }

  lemma ReadsTestOnly(ts: seq<Token>, st: State, v: Variable, c: Exp, q: nat, r: Parse)
    requires st.scope != [] && ParseExp(ts, st.pos, 0, st.errors) == Done(c, q, st.errors) && q < |ts| && ts[q].ty.Semi?
    requires ForRounds(ts, State(q + 1, st.errors, st.scope, st.next), Some(v), Seen(c, st.scope)) == r
    ensures ForTest(ts, st, Some(v)) == r
  {
    SemiAt(ts, st, q);
    TestStep(ts, st, Some(v), Done(c, q, st.errors), State(q + 1, st.errors, st.scope, st.next), r);
  }

  /** The increment up to `p` and the body up to `q`. */
  lemma {:induction false} ReadsRounds(ts: seq<Token>, st: State, v: Variable, c: Seen, s: Src, p: nat, q: nat)
    requires st.scope != [] && s.SFor? && HasAt(ts, st.pos, Spelling(s.inc)) && HasAt(ts, p, SpellBody(s.rounds))
    requires p == st.pos + |Spelling(s.inc)| && q == p + |SpellBody(s.rounds)|
    requires Readable(s.inc, LBrace) && BodyReadable(s.rounds)
    ensures var i := Means(s.inc, st.scope, st.next);
      var m := BodyMeans(s.rounds, i.scope, i.next);
      ForRounds(ts, st, Some(v), c) == Did(Loop(Some(v), c, i.smt, Blk(m.smts)), State(q, st.errors, i.scope, m.next))
    decreases s, 1
  {
    var i := Means(s.inc, st.scope, st.next);
    var st2 := State(p, st.errors, i.scope, i.next);
    ReadsBlock(ts, st2, s.rounds);
    ReadsInc(ts, st, s.inc);
    var m := BodyMeans(s.rounds, i.scope, i.next);
    RoundsStep(ts, st, Some(v), c, Did(i.smt, st2), Did(Blk(m.smts), State(q, st.errors, i.scope, m.next)));
  }

  /** The increment stands before the brace of the body. */
  lemma {:induction false} ReadsInc(ts: seq<Token>, st: State, s: Src)
    requires st.scope != [] && HasAt(ts, st.pos, Spelling(s)) && Readable(s, LBrace)
    requires var q := st.pos + |Spelling(s)|; q < |ts| && ts[q].ty.LBrace?
    ensures ParseStatement(ts, st) == After(s, st)
    decreases s, 5
  {
    ReadsStatement(ts, st, s);
  }

  // ---------- the theorem ----------

  /** Completeness: every readable statement, spelled out before tokens it can stand
      before, is read back with the meaning the language gives it, without an error. */
  lemma StatementRead(s: Src, rest: seq<Token>, st: State)
    requires rest != [] && Readable(s, rest[0].ty) && st.scope != [] && st.pos == 0
    ensures ParseStatement(Spelling(s) + rest, st) == After(s, st)
  {
    var ts := Spelling(s) + rest;
    assert ts[0..|Spelling(s)|] == Spelling(s) && ts[|Spelling(s)|] == rest[0];
    ReadsStatement(ts, st, s);
  }

  /** Two readable statements with the same spelling mean the same in all scopes. */
  lemma StatementUnambiguous(a: Src, b: Src, t: TokenType, scope: Scopes.Stack, next: int)
    requires scope != [] && Readable(a, t) && Readable(b, t) && Spelling(a) == Spelling(b)
    ensures Means(a, scope, next) == Means(b, scope, next)
  {
    StatementRead(a, [Mark(t)], State(0, [], scope, next));
    StatementRead(b, [Mark(t)], State(0, [], scope, next));
  }
}
