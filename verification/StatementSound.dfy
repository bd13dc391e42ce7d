/** Soundness: whatever the statement parser accepts without an error is a readable
    statement with its meaning, spelled by the tokens consumed, up to commas that may
    stand before a closing bracket or brace. */
module StatementSound {
  import opened Wrappers
  import opened Tokens
  import opened Pratt
  import opened Grammar
  import opened Statements
  import opened StatementGrammar
  import opened StatementKeeps
  import PrattComplete
  import PrattSound
  import StatementComplete
  import Scopes

  /** Keywords carry their text and symbols nothing, and the end token is last. */
  ghost predicate Clean(ts: seq<Token>) {
    forall i :: 0 <= i < |ts| ==> CleanAt(ts, i)
  }

  predicate CleanAt(ts: seq<Token>, i: nat)
    requires i < |ts|
  {
    && (IsKeyword(ts[i].ty) ==> ts[i] == Key(ts[i].ty))
    && (IsSymbol(ts[i].ty) ==> ts[i] == Mark(ts[i].ty))
    && (ts[i].ty.End? ==> i == |ts| - 1)
  }

  lemma CleanLexed(ts: seq<Token>)
    requires Clean(ts)
    ensures PrattSound.Lexed(ts)
  {
    forall i | 0 <= i < |ts| && PrattSound.IsMark(ts[i].ty) ensures ts[i] == Mark(ts[i].ty) {
      assert CleanAt(ts, i);
    }
  }

  // ---------- spelling ----------

  /** The tokens from `i` to `j`, without such commas, are `s`. */
  ghost predicate Spans(ts: seq<Token>, i: nat, s: seq<Token>, j: nat) {
    i <= j <= |ts| && PrattSound.Kept(ts, i, j) == s
  }

  lemma SpansJoin(ts: seq<Token>, i: nat, a: seq<Token>, j: nat, b: seq<Token>, k: nat)
    requires Spans(ts, i, a, j) && Spans(ts, j, b, k)
    ensures Spans(ts, i, a + b, k)
  {
    PrattSound.KeptSplit(ts, i, j, k);
  }

  lemma SpansToken(ts: seq<Token>, i: nat)
    requires i < |ts| && !ts[i].ty.Comma?
    ensures Spans(ts, i, [ts[i]], i + 1)
  {
    PrattSound.KeptOne(ts, i);
  }

  /** A keyword or a symbol other than a comma, and what follows. */
  lemma SpansMark(ts: seq<Token>, i: nat, t: Token, s: seq<Token>, j: nat)
    requires Clean(ts) && i < |ts| && t.ty == ts[i].ty && !t.ty.Comma?
    requires t == (if IsKeyword(t.ty) then Key(t.ty) else Mark(t.ty)) && (IsKeyword(t.ty) || IsSymbol(t.ty))
    requires Spans(ts, i + 1, s, j)
    ensures Spans(ts, i, [t] + s, j)
  {
    assert CleanAt(ts, i);
    SpansToken(ts, i);
    SpansJoin(ts, i, [t], i + 1, s, j);
  }

  lemma SpansNothing(ts: seq<Token>, i: nat)
    requires i <= |ts|
    ensures Spans(ts, i, [], i)
  {
  }

  function TypeAt(ts: seq<Token>, i: nat): TokenType { if i < |ts| then ts[i].ty else End }

  // ---------- expressions and declarations ----------

  lemma ExpSound(ts: seq<Token>, pos: nat, errors: seq<Error>, e: Exp, q: nat)
    requires Clean(ts) && ParseExp(ts, pos, 0, errors) == Done(e, q, errors)
    ensures pos < q < |ts| && Spans(ts, pos, Flatten(e), q) && Fits(e, ts[q].ty)
  {
    CleanLexed(ts);
    PrattSound.Soundness(ts, pos, 0, errors);
  }

  lemma TypeSound(ts: seq<Token>, st: State, t: TypeExp, st1: State)
    requires Clean(ts) && ParseType(ts, st) == DidType(Some(t), st1) && st1.errors == st.errors
    ensures TypeFits(t) && Spans(ts, st.pos, FlattenType(t), st1.pos) && st1 == st.(pos := st1.pos)
  {
    if t.ArrayOf? {
      var n := ParseExp(ts, st.pos + 2, 0, st.errors);
      PrattSound.SameErrors(st.errors, n.errors, st1.errors);
      ExpSound(ts, st.pos + 2, st.errors, t.length, n.pos);
      ArrayPart(ts, st.pos, t.element, t.length, n.pos);
    } else {
      NamePart(ts, st.pos);
    }
  }

  /** An array type whose length ends at `q`. */
  lemma ArrayPart(ts: seq<Token>, i: nat, name: string, e: Exp, q: nat)
    requires Clean(ts) && i + 1 < |ts| && ts[i] == Token(Ident, name) && ts[i + 1].ty.LBrack?
    requires Spans(ts, i + 2, Flatten(e), q) && q < |ts| && ts[q].ty.RBrack?
    ensures Spans(ts, i, FlattenType(ArrayOf(name, e)), q + 1)
  {
    SpansNothing(ts, q + 1);
    SpansMark(ts, q, Mark(RBrack), [], q + 1);
    assert [Mark(RBrack)] + [] == [Mark(RBrack)];
    SpansJoin(ts, i + 2, Flatten(e), q, [Mark(RBrack)], q + 1);
    SpansMark(ts, i + 1, Mark(LBrack), Flatten(e) + [Mark(RBrack)], q + 1);
    NamePart(ts, i);
    SpansJoin(ts, i, [Token(Ident, name)], i + 1, [Mark(LBrack)] + (Flatten(e) + [Mark(RBrack)]), q + 1);
  }

  lemma NamePart(ts: seq<Token>, i: nat)
    requires i < |ts| && ts[i].ty.Ident?
    ensures Spans(ts, i, [Token(Ident, ts[i].value)], i + 1)
  {
    SpansToken(ts, i);
    assert ts[i] == Token(Ident, ts[i].value);
  }

  /** A value that was read: `e`, up to `q`. */
  lemma ValueSound(ts: seq<Token>, st: State, op: TokenType, name: string, ty: Option<TypeExp>, v: Variable, st1: State) returns (e: Exp)
    requires Clean(ts) && st.scope != [] && (op.Assign? || op.Define?)
    requires ParseValue(ts, st, op, name, ty) == DidVar(Some(v), st1) && st1.errors == st.errors
    ensures v == Variable(st.next, name, ty, Seen(e, st.scope))
    ensures st1 == State(st1.pos, st.errors, StatementGrammar.Bind(st.scope, name, st.next), st.next + 1)
    ensures st1.pos < |ts| && Fits(e, ts[st1.pos].ty) && Spans(ts, st.pos, [Mark(op)] + Flatten(e), st1.pos)
  {
    var (p, es) := Expect(ts, st.pos, op, st.errors);
    var o := ParseExp(ts, p, 0, es);
    e := o.node;
    PrattSound.SameErrors(st.errors, es, st1.errors);
    PrattSound.SameErrors(es, o.errors, st1.errors);
    ExpSound(ts, p, st.errors, e, o.pos);
    SpansMark(ts, st.pos, Mark(op), Flatten(e), o.pos);
  }

  /** `st1` is the point after the declaration `d`, read from `st`. */
  ghost predicate DeclSound(ts: seq<Token>, st: State, d: Decl, v: Variable, st1: State) {
    && st.scope != [] && v == Declared(d, st.scope, st.next)
    && st1 == State(st1.pos, st.errors, StatementGrammar.Bind(st.scope, d.name, st.next), st.next + 1)
    && st1.pos < |ts| && DeclFits(d, ts[st1.pos].ty) && Spans(ts, st.pos, FlattenDecl(d), st1.pos)
  }

  lemma VariableSound(ts: seq<Token>, st: State, v: Variable, st1: State) returns (d: Decl)
    requires Clean(ts) && st.scope != [] && st.pos < |ts|
    requires ParseVariable(ts, st) == DidVar(Some(v), st1) && st1.errors == st.errors
    ensures DeclSound(ts, st, d, v, st1) && (ts[st.pos].ty.Var? <==> d.ty.Some?)
  {
    hide ParseExp, ParseType;
    if ts[st.pos].ty.Var? {
      var t := ParseType(ts, st.(pos := st.pos + 1));
      d := TypedSound(ts, st, t, v, st1);
    } else {
      var name := ts[st.pos].value;
      var e := ValueSound(ts, st.(pos := st.pos + 1), Define, name, None, v, st1);
      d := Decl(None, name, e);
      NamePart(ts, st.pos);
      SpansJoin(ts, st.pos, [Token(Ident, name)], st.pos + 1, [Mark(Define)] + Flatten(e), st1.pos);
    }
  }

  /** A typed declaration that was read has a type, a name and a value. */
  lemma TypedIs(ts: seq<Token>, t: TypeParse, v: Variable, st1: State)
    requires t.DidType? && t.st.scope != [] && t.st.pos <= |ts| && ParseTyped(ts, t) == DidVar(Some(v), st1)
    ensures t.ty.Some? && t.st.pos < |ts| && ts[t.st.pos].ty.Ident?
    ensures ParseValue(ts, t.st.(pos := t.st.pos + 1), Assign, ts[t.st.pos].value, t.ty) == DidVar(Some(v), st1)
    ensures t.st.errors <= st1.errors
  {
    TypedKept(ts, t.st, t);
  }

  lemma TypedSound(ts: seq<Token>, st: State, t: TypeParse, v: Variable, st1: State) returns (d: Decl)
    requires Clean(ts) && st.scope != [] && st.pos < |ts| && ts[st.pos].ty.Var?
    requires t == ParseType(ts, st.(pos := st.pos + 1)) && t.DidType?
    requires ParseTyped(ts, t) == DidVar(Some(v), st1) && st1.errors == st.errors
    ensures DeclSound(ts, st, d, v, st1) && d.ty.Some?
  {
    hide ParseValue;
    TypedIs(ts, t, v, st1);
    PrattSound.SameErrors(st.errors, t.st.errors, st1.errors);
    TypeSound(ts, st.(pos := st.pos + 1), t.ty.value, t.st);
    d := NamedSound(ts, st, t.ty.value, t.st, v, st1);
  }

  /** The name and the value after the type `t`. */
  lemma NamedSound(ts: seq<Token>, st: State, t: TypeExp, st0: State, v: Variable, st1: State) returns (d: Decl)
    requires Clean(ts) && st.scope != [] && st.pos < |ts| && ts[st.pos].ty.Var? && TypeFits(t)
    requires Spans(ts, st.pos + 1, FlattenType(t), st0.pos) && st0 == st.(pos := st0.pos) && st0.pos < |ts| && ts[st0.pos].ty.Ident?
    requires ParseValue(ts, st0.(pos := st0.pos + 1), Assign, ts[st0.pos].value, Some(t)) == DidVar(Some(v), st1) && st1.errors == st.errors
    ensures DeclSound(ts, st, d, v, st1) && d.ty.Some?
  {
    var name := ts[st0.pos].value;
    var e := ValueSound(ts, st0.(pos := st0.pos + 1), Assign, name, Some(t), v, st1);
    d := Decl(Some(t), name, e);
    assert ts[st0.pos] == Token(Ident, name);
    TypedPart(ts, st.pos, t, st0.pos, name, e, st1.pos);
  }

  /** `var`, a type that ends at `p`, a name and a value that ends at `q`. */
  lemma TypedPart(ts: seq<Token>, i: nat, t: TypeExp, p: nat, name: string, e: Exp, q: nat)
    requires Clean(ts) && i < |ts| && ts[i].ty.Var? && Spans(ts, i + 1, FlattenType(t), p)
    requires p < |ts| && ts[p] == Token(Ident, name) && Spans(ts, p + 1, [Mark(Assign)] + Flatten(e), q)
    ensures Spans(ts, i, FlattenDecl(Decl(Some(t), name, e)), q)
  {
    NamePart(ts, p);
    SpansJoin(ts, p, [Token(Ident, name)], p + 1, [Mark(Assign)] + Flatten(e), q);
    SpansJoin(ts, i + 1, FlattenType(t), p, FlattenNamed(name, e), q);
    SpansMark(ts, i, Key(Var), FlattenType(t) + FlattenNamed(name, e), q);
  }

  // ---------- statements ----------

  /** `r` is what reading `s` from `st` gives, and the tokens spell `s`. */
  ghost predicate Sound(ts: seq<Token>, st: State, s: Src, r: Parse) {
    && r.Did? && st.scope != [] && Spans(ts, st.pos, Spelling(s), r.st.pos) && Readable(s, TypeAt(ts, r.st.pos))
    && var m := Means(s, st.scope, st.next); r == Did(m.smt, State(r.st.pos, st.errors, m.scope, m.next))
  }

  ghost predicate BodySound(ts: seq<Token>, st: State, b: Body, r: Parse) {
    && r.Did? && st.scope != [] && Spans(ts, st.pos, SpellBody(b), r.st.pos) && BodyReadable(b)
    && var m := BodyMeans(b, st.scope, st.next); r == Did(Blk(m.smts), State(r.st.pos, st.errors, st.scope, m.next))
  }

  /** A parse that adds no errors. */
  predicate Quiet(st: State, r: Parse) { r.Did? && r.st.errors == st.errors }

  /** A statement read without an error is readable where it stands, is spelled by the
      tokens consumed, and is what its spelling means. */
  lemma {:induction false} SoundStatement(ts: seq<Token>, st: State) returns (s: Src)
    requires Clean(ts) && st.scope != [] && Quiet(st, ParseStatement(ts, st))
    ensures Sound(ts, st, s, ParseStatement(ts, st))
    decreases |ts| - st.pos, 3
  {
    var known := ParseKnown(ts, st);
    if known.smt.Nothing? {
      s := SoundOther(ts, st);
    } else {
      s := SoundKnown(ts, st);
    }
  }

  lemma SoundOther(ts: seq<Token>, st: State) returns (s: Src)
    requires Clean(ts) && st.scope != [] && st.pos < |ts| && Quiet(st, ParseStatement(ts, st))
    requires ParseKnown(ts, st).Did? && ParseKnown(ts, st).smt.Nothing?
    ensures Sound(ts, st, s, ParseStatement(ts, st))
  {
    hide LedLoop, BindingPower, ParseIf, ParseVariable, Converted, Fits, Respects, StartsBrace, Flatten;
    var e := ParseExp(ts, st.pos, 0, st.errors);
    var st1 := st.(pos := e.pos, errors := e.errors);
    ConvertedKept(ts, st1, e.node);
    PrattSound.SameErrors(st.errors, e.errors, Converted(ts, st1, e.node).st.errors);
    ExpSound(ts, st.pos, st.errors, e.node, e.pos);
    FitsRespects(e.node, ts[e.pos].ty);
    FirstToken(ts, st.pos, e.node, e.pos);
    StatementComplete.BraceFirst(e.node, 0);
    SetSound(ts, st, e.node, e.pos);
    s := SSet(e.node.left, e.node.op, e.node.rhs);
  }

  lemma FitsRespects(e: Exp, t: TokenType)
    requires Fits(e, t)
    ensures Respects(e, 0)
  {
  }

  /** An assignment or a definition that was read as the tree `e`, up to `q`. */
  lemma SetSound(ts: seq<Token>, st: State, e: Exp, q: nat)
    requires st.scope != [] && st.pos < q < |ts| && Spans(ts, st.pos, Flatten(e), q) && Fits(e, ts[q].ty) && !StartsBrace(e)
    requires Quiet(st, Converted(ts, st.(pos := q), e))
    ensures e.Binary? && Sound(ts, st, SSet(e.left, e.op, e.rhs), Converted(ts, st.(pos := q), e))
  {
    hide Fits, Spans;
  }

  /** The first token of an expression is the first of its spelling. */
  lemma FirstToken(ts: seq<Token>, pos: nat, e: Exp, q: nat)
    requires pos < q <= |ts| && Spans(ts, pos, Flatten(e), q) && Respects(e, 0) && !ts[pos].ty.Comma?
    ensures Flatten(e) != [] && Flatten(e)[0] == ts[pos]
  {
    hide PrattSound.Kept, Flatten, Respects;
    PrattSound.KeptSplit(ts, pos, pos + 1, q);
    PrattSound.KeptOne(ts, pos);
  }

  lemma {:induction false} SoundKnown(ts: seq<Token>, st: State) returns (s: Src)
    requires Clean(ts) && st.scope != [] && st.pos < |ts| && Quiet(st, ParseKnown(ts, st)) && !ParseKnown(ts, st).smt.Nothing?
    ensures Sound(ts, st, s, ParseKnown(ts, st))
    decreases |ts| - st.pos, 2
  {
    var t := ts[st.pos].ty;
    KnownAs(ts, st);
    if t.Return? {
      s := SoundReturn(ts, st);
    } else if t.LBrace? {
      var b := SoundBlock(ts, st);
      s := SBlock(b);
    } else if t.If? {
      s := SoundIf(ts, st);
    } else if t.For? {
      s := SoundFor(ts, st);
    } else if t.Var? {
      s := SoundVar(ts, st);
    } else {
      s := SoundStep(ts, st);
    }
  }

  /** What the first token tells. */
  lemma KnownAs(ts: seq<Token>, st: State)
    requires st.scope != [] && st.pos < |ts|
    ensures ts[st.pos].ty.If? ==> ParseKnown(ts, st) == ParseIf(ts, st)
    ensures ts[st.pos].ty.For? ==> ParseKnown(ts, st) == ParseFor(ts, st)
    ensures ts[st.pos].ty.LBrace? ==> ParseKnown(ts, st) == ParseBlock(ts, st)
    ensures var t := ts[st.pos].ty;
      !t.If? && !t.For? && !t.LBrace? && !t.Return? && !t.Var? && !t.Ident? ==> ParseKnown(ts, st) == Did(Nothing, st)
  {
  }

  lemma SoundVar(ts: seq<Token>, st: State) returns (s: Src)
    requires Clean(ts) && st.scope != [] && st.pos < |ts| && ts[st.pos].ty.Var? && Quiet(st, ParseKnown(ts, st))
    ensures Sound(ts, st, s, ParseKnown(ts, st))
  {
    hide ParseVariable;
    var v := ParseVariable(ts, st);
    VarIs(ts, st, v);
    var d := VariableSound(ts, st, v.v.value, v.st);
    s := SVar(d);
  }

  lemma VarIs(ts: seq<Token>, st: State, v: VarParse)
    requires st.scope != [] && st.pos < |ts| && ts[st.pos].ty.Var? && v == ParseVariable(ts, st) && Quiet(st, ParseKnown(ts, st))
    ensures v.DidVar? && v.v.Some? && ParseKnown(ts, st) == Did(Declare(v.v), v.st)
  {
    hide ParseVariable;
    VariableKept(ts, st);
  }

  lemma SoundReturn(ts: seq<Token>, st: State) returns (s: Src)
    requires Clean(ts) && st.scope != [] && st.pos < |ts| && ts[st.pos].ty.Return? && Quiet(st, ParseKnown(ts, st))
    ensures Sound(ts, st, s, ParseKnown(ts, st))
  {
    var e := ParseExp(ts, st.pos + 1, 0, st.errors);
    ExpSound(ts, st.pos + 1, st.errors, e.node, e.pos);
    SpansMark(ts, st.pos, Key(Return), Flatten(e.node), e.pos);
    s := SReturn(e.node);
  }

  lemma SoundStep(ts: seq<Token>, st: State) returns (s: Src)
    requires Clean(ts) && st.scope != [] && st.pos < |ts| && ts[st.pos].ty.Ident?
    requires ParseKnown(ts, st).Did? && !ParseKnown(ts, st).smt.Nothing?
    ensures Sound(ts, st, s, ParseKnown(ts, st))
  {
    var n, up := ts[st.pos].value, ts[st.pos + 1].ty.Inc?;
    NamePart(ts, st.pos);
    SpansNothing(ts, st.pos + 2);
    var mark := Mark(if up then Inc else Dec);
    SpansMark(ts, st.pos + 1, mark, [], st.pos + 2);
    assert [mark] + [] == [mark];
    SpansJoin(ts, st.pos, [Token(Ident, n)], st.pos + 1, [mark], st.pos + 2);
    s := SStep(n, up);
  }

  // ---------- blocks ----------

  lemma {:induction false} SoundBlock(ts: seq<Token>, st: State) returns (b: Body)
    requires Clean(ts) && st.scope != [] && Quiet(st, ParseBlock(ts, st))
    ensures BodySound(ts, st, b, ParseBlock(ts, st)) && st.pos < |ts| && ts[st.pos].ty.LBrace?
    decreases |ts| - st.pos, if st.pos < |ts| && ts[st.pos].ty.LBrace? then 1 else 5
  {
    hide ParseList;
    var (p, es) := Expect(ts, st.pos, LBrace, st.errors);
    var inner := State(p, es, [map[]] + st.scope, st.next);
    ListKept(ts, inner);
    var l := ParseList(ts, inner);
    PrattSound.SameErrors(st.errors, es, l.st.errors);
    var smts, last := SoundList(ts, inner);
    b := Body(smts, last);
    BlockPart(ts, st, b, l);
  }

  /** The braces around a list. */
  lemma BlockPart(ts: seq<Token>, st: State, b: Body, l: ListParse)
    requires Clean(ts) && st.scope != [] && st.pos < |ts| && ts[st.pos].ty.LBrace?
    requires ListSound(ts, State(st.pos + 1, st.errors, [map[]] + st.scope, st.next), b.smts, b.last, l)
    ensures l.st.scope != [] && BodySound(ts, st, b, Did(Blk(l.smts), l.st.(pos := l.st.pos + 1, scope := l.st.scope[1..])))
  {
    var list, p := SpellList(b.smts, b.last), l.st.pos;
    SpansNothing(ts, p + 1);
    SpansMark(ts, p, Mark(RBrace), [], p + 1);
    assert [Mark(RBrace)] + [] == [Mark(RBrace)];
    SpansJoin(ts, st.pos + 1, list, p, [Mark(RBrace)], p + 1);
    SpansMark(ts, st.pos, Mark(LBrace), list + [Mark(RBrace)], p + 1);
    BodyGrows(b, st.scope, st.next);
  }

  ghost predicate ListSound(ts: seq<Token>, st: State, smts: seq<Src>, last: bool, r: ListParse) {
    && r.DidList? && st.scope != [] && Spans(ts, st.pos, SpellList(smts, last), r.st.pos)
    && ListReadable(smts, last) && (smts == [] ==> !last)
    && r.st.pos < |ts| && ts[r.st.pos].ty.RBrace?
    && var m := ListMeans(smts, st.scope, st.next); r == DidList(m.smts, State(r.st.pos, st.errors, m.scope, m.next))
  }

  lemma {:induction false} SoundList(ts: seq<Token>, st: State) returns (smts: seq<Src>, last: bool)
    requires Clean(ts) && st.scope != [] && ParseList(ts, st).DidList? && ParseList(ts, st).st.errors == st.errors
    ensures ListSound(ts, st, smts, last, ParseList(ts, st)) && (ts[st.pos].ty.RBrace? ==> smts == [])
    decreases |ts| - st.pos, 4
  {
    if ts[st.pos].ty.RBrace? {
      SpansNothing(ts, st.pos);
      return [], false;
    }
    var r := ParseStatement(ts, st);
    StatementKept(ts, st);
    var next := if ts[r.st.pos].ty.RBrace? then r.st else ExpectSemi(ts, r.st);
    ListKept(ts, next);
    var l := ParseList(ts, next);
    PrattSound.SameErrors(st.errors, r.st.errors, l.st.errors);
    PrattSound.SameErrors(st.errors, next.errors, l.st.errors);
    var s := SoundStatement(ts, st);
    var rest, more := SoundList(ts, next);
    smts := [s] + rest;
    last := if rest == [] then !ts[r.st.pos].ty.RBrace? else more;
    assert CleanAt(ts, r.st.pos);
    ListPart(ts, st, s, r, next, rest, more, last, l);
  }

  /** One statement in front of a list. */
  lemma ListPart(ts: seq<Token>, st: State, s: Src, r: Parse, next: State, rest: seq<Src>, more: bool, last: bool, l: ListParse)
    requires Clean(ts) && st.scope != [] && Sound(ts, st, s, r) && r.st.pos < |ts|
    requires ts[r.st.pos].ty.RBrace? || ts[r.st.pos].ty.Semi?
    requires next == (if ts[r.st.pos].ty.RBrace? then r.st else r.st.(pos := r.st.pos + 1))
    requires ListSound(ts, next, rest, more, l) && (ts[r.st.pos].ty.RBrace? ==> rest == [])
    requires last == if rest == [] then ts[r.st.pos].ty.Semi? else more
    ensures ListSound(ts, st, [s] + rest, last, DidList([r.smt] + l.smts, l.st))
  {
    hide Spans, Spelling, Means, Readable, SpellList;
    var smts := [s] + rest;
    assert smts[1..] == rest;
    if rest == [] { LastOnly(more, last); }
    ListSpelled(ts, st, s, r, next, rest, last, l.st.pos);
  }

  lemma LastOnly(a: bool, b: bool)
    ensures SpellList([], a) == SpellList([], b) && ListReadable([], a) && ListReadable([], b)
  {
  }

  /** The spelling of a list that ends at `q`, from its first statement on. */
  lemma ListSpelled(ts: seq<Token>, st: State, s: Src, r: Parse, next: State, rest: seq<Src>, last: bool, q: nat)
    requires Clean(ts) && r.Did? && Spans(ts, st.pos, Spelling(s), r.st.pos) && r.st.pos < |ts|
    requires if ts[r.st.pos].ty.RBrace? then next.pos == r.st.pos && rest == [] && !last
      else ts[r.st.pos].ty.Semi? && next.pos == r.st.pos + 1 && (rest == [] ==> last)
    requires Spans(ts, next.pos, SpellList(rest, last), q)
    ensures Spans(ts, st.pos, SpellList([s] + rest, last), q)
  {
    hide Spans, Spelling;
    var smts := [s] + rest;
    assert smts[1..] == rest;
    var sep := if |smts| > 1 || last then [Mark(Semi)] else [];
    var tail := SpellList(rest, last);
    assert Spans(ts, next.pos, tail, q);
    if sep == [] {
      assert [] + tail == tail;
    } else {
      SpansMark(ts, r.st.pos, Mark(Semi), tail, q);
    }
    SpansJoin(ts, st.pos, Spelling(s), r.st.pos, sep + tail, q);
  }

  // ---------- branches and loops ----------

  lemma {:induction false} SoundIf(ts: seq<Token>, st: State) returns (s: Src)
    requires Clean(ts) && st.scope != [] && st.pos < |ts| && ts[st.pos].ty.If? && Quiet(st, ParseIf(ts, st))
    ensures Sound(ts, st, s, ParseIf(ts, st)) && s.SIf?
    decreases |ts| - st.pos, 1
  {
    s := SoundCond(ts, st.(pos := st.pos + 1));
    var q := ParseIf(ts, st).st.pos;
    SpansMark(ts, st.pos, Key(If), Flatten(s.cond) + (SpellBody(s.yes) + SpellElse(s.no)), q);
  }

  /** From the condition on. */
  lemma {:induction false} SoundCond(ts: seq<Token>, st: State) returns (s: Src)
    requires Clean(ts) && st.scope != [] && Quiet(st, IfCond(ts, st))
    ensures s.SIf?
    ensures var r := IfCond(ts, st);
      && Spans(ts, st.pos, Flatten(s.cond) + (SpellBody(s.yes) + SpellElse(s.no)), r.st.pos) && Readable(s, TypeAt(ts, r.st.pos))
      && var m := Means(s, st.scope, st.next); r == Did(m.smt, State(r.st.pos, st.errors, m.scope, m.next))
    decreases |ts| - st.pos, 1
  {
    var c := ParseExp(ts, st.pos, 0, st.errors);
    var st1 := st.(pos := c.pos, errors := c.errors);
    BodyKept(ts, st1, c.node);
    PrattSound.SameErrors(st.errors, c.errors, IfBody(ts, st1, c.node).st.errors);
    ExpSound(ts, st.pos, st.errors, c.node, c.pos);
    var b, no := SoundBody(ts, st1, c.node);
    s := SIf(c.node, b, no);
    SpansJoin(ts, st.pos, Flatten(c.node), c.pos, SpellBody(b) + SpellElse(no), IfBody(ts, st1, c.node).st.pos);
  }

  lemma {:induction false} SoundBody(ts: seq<Token>, st: State, c: Exp) returns (b: Body, no: Option<Src>)
    requires Clean(ts) && st.scope != [] && Quiet(st, IfBody(ts, st, c))
    ensures st.pos < |ts| && ts[st.pos].ty.LBrace?
    ensures var r := IfBody(ts, st, c);
      && Spans(ts, st.pos, SpellBody(b) + SpellElse(no), r.st.pos) && BodyReadable(b)
      && (if no.None? then !TypeAt(ts, r.st.pos).Else? else Readable(no.value, TypeAt(ts, r.st.pos)))
      && var m := Means(SIf(c, b, no), st.scope, st.next); r == Did(m.smt, State(r.st.pos, st.errors, m.scope, m.next))
    decreases |ts| - st.pos, 6
  {
    var r := ParseBlock(ts, st);
    BlockKept(ts, st);
    ElseKept(ts, r.st, Seen(c, st.scope), r.smt, st);
    ElseErrors(ts, r.st, Seen(c, st.scope), r.smt);
    PrattSound.SameErrors(st.errors, r.st.errors, IfElse(ts, r.st, Seen(c, st.scope), r.smt).st.errors);
    b := SoundBlock(ts, st);
    no := SoundElse(ts, r.st, Seen(c, st.scope), r.smt);
    SpansJoin(ts, st.pos, SpellBody(b), r.st.pos, SpellElse(no), IfBody(ts, st, c).st.pos);
  }

  lemma ElseErrors(ts: seq<Token>, st: State, c: Seen, body: Stm)
    requires st.scope != [] && IfElse(ts, st, c, body).Did?
    ensures st.errors <= IfElse(ts, st, c, body).st.errors
  {
    if ts[st.pos].ty.Else? {
      StatementKept(ts, st.(pos := st.pos + 1));
    }
  }

  lemma {:induction false} SoundElse(ts: seq<Token>, st: State, c: Seen, body: Stm) returns (no: Option<Src>)
    requires Clean(ts) && st.scope != [] && Quiet(st, IfElse(ts, st, c, body))
    ensures var r := IfElse(ts, st, c, body);
      && Spans(ts, st.pos, SpellElse(no), r.st.pos)
      && (if no.None? then !TypeAt(ts, r.st.pos).Else? else Readable(no.value, TypeAt(ts, r.st.pos)))
      && r == (if no.None? then Did(Branch(Some(c), body, Nothing), st)
               else
                 var n := Means(no.value, st.scope, st.next);
                 Did(Branch(Some(c), body, if no.value.SIf? then n.smt else Branch(None, n.smt, Nothing)),
                   State(r.st.pos, st.errors, n.scope, n.next)))
    decreases |ts| - st.pos, 1
  {
    hide ParseStatement, Readable, SpellElse, Means;
    if !ts[st.pos].ty.Else? {
      SpansNothing(ts, st.pos);
      no := None;
      NoElse(ts, st.pos);
    } else {
      var s := SoundStatement(ts, st.(pos := st.pos + 1));
      no := Some(s);
      ElsePart(ts, st, c, body, s);
    }
  }

  lemma NoElse(ts: seq<Token>, pos: nat)
    requires Spans(ts, pos, [], pos)
    ensures Spans(ts, pos, SpellElse(None), pos)
  {
  }

  /** An `else` and the statement behind it. */
  lemma ElsePart(ts: seq<Token>, st: State, c: Seen, body: Stm, s: Src)
    requires Clean(ts) && st.scope != [] && st.pos < |ts| && ts[st.pos].ty.Else?
    requires Sound(ts, st.(pos := st.pos + 1), s, ParseStatement(ts, st.(pos := st.pos + 1)))
    ensures var r := IfElse(ts, st, c, body);
      var n := Means(s, st.scope, st.next);
      && r == Did(Branch(Some(c), body, if s.SIf? then n.smt else Branch(None, n.smt, Nothing)), State(r.st.pos, st.errors, n.scope, n.next))
      && Spans(ts, st.pos, SpellElse(Some(s)), r.st.pos) && Readable(s, TypeAt(ts, r.st.pos))
  {
    hide ParseStatement, Readable, Means;
    var st1 := st.(pos := st.pos + 1);
    IfBranches(ts, st1);
    MeansBranch(s, st.scope, st.next);
    SpansMark(ts, st.pos, Key(Else), Spelling(s), ParseStatement(ts, st1).st.pos);
  }

  /** Only an `if` is read as one. */
  lemma IfBranches(ts: seq<Token>, st: State)
    requires st.scope != [] && ParseStatement(ts, st).Did?
    ensures st.pos < |ts| && (ParseStatement(ts, st).smt.Branch? <==> ts[st.pos].ty.If?)
  {
    hide ParseExp, ParseVariable, ParseBlock, ParseFor;
  }

  lemma MeansBranch(s: Src, scope: Scopes.Stack, next: int)
    requires scope != []
    ensures Means(s, scope, next).smt.Branch? <==> s.SIf?
  {
  }

  lemma {:induction false} SoundFor(ts: seq<Token>, st: State) returns (s: Src)
    requires Clean(ts) && st.scope != [] && st.pos < |ts| && ts[st.pos].ty.For? && Quiet(st, ParseFor(ts, st))
    ensures Sound(ts, st, s, ParseFor(ts, st))
    decreases |ts| - st.pos, 1
  {
    hide ParseVariable, ForTest, ParseFor, Means;
    var st0 := st.(pos := st.pos + 1);
    var v := ParseVariable(ts, st0);
    ForErrors(ts, st);
    var st1 := ExpectSemi(ts, v.st);
    var d := VariableSound(ts, st0, v.v.value, v.st);
    SemiRead(ts, v.st);
    s := SoundTest(ts, st1, d, v.v.value);
    ForPart(ts, st, s, v.v.value, v.st, ForTest(ts, st1, v.v).st.pos);
  }

  lemma ForErrors(ts: seq<Token>, st: State)
    requires Clean(ts) && st.scope != [] && st.pos < |ts| && Quiet(st, ParseFor(ts, st))
    ensures var v := ParseVariable(ts, st.(pos := st.pos + 1));
      && v.DidVar? && v.v.Some? && v.st.pos < |ts| && v.st.errors == st.errors && v.st.scope != []
      && var st1 := ExpectSemi(ts, v.st);
        st1.errors == st.errors && st1.pos < |ts| && ParseFor(ts, st) == ForTest(ts, st1, v.v)
  {
    var v := ParseVariable(ts, st.(pos := st.pos + 1));
    VariableKept(ts, st.(pos := st.pos + 1));
    var st1 := ExpectSemi(ts, v.st);
    var r := ForTest(ts, st1, v.v);
    TestErrors(ts, st1, v.v);
    PrattSound.SameErrors(st.errors, v.st.errors, r.st.errors);
    PrattSound.SameErrors(st.errors, st1.errors, r.st.errors);
  }

  /** The index in front of the rest of a loop, which ends at `q`. */
  lemma ForPart(ts: seq<Token>, st: State, s: Src, v: Variable, st1: State, q: nat)
    requires Clean(ts) && s.SFor? && st.pos < |ts| && ts[st.pos].ty.For? && DeclSound(ts, st.(pos := st.pos + 1), s.index, v, st1)
    requires ts[st1.pos].ty.Semi? && Spans(ts, st1.pos + 1, SpellTest(s), q)
    requires Fits(s.test, Semi) && Readable(s.inc, LBrace) && BodyReadable(s.rounds)
    ensures Sound(ts, st, s, LoopAt(s, v, st1.(pos := st1.pos + 1), q))
  {
    var d := FlattenDecl(s.index);
    SpansMark(ts, st1.pos, Mark(Semi), SpellTest(s), q);
    SpansJoin(ts, st.pos + 1, d, st1.pos, [Mark(Semi)] + SpellTest(s), q);
    SpansMark(ts, st.pos, Key(For), d + ([Mark(Semi)] + SpellTest(s)), q);
  }

  /** A semicolon read without an error, where more tokens follow. */
  lemma SemiRead(ts: seq<Token>, st: State)
    requires Clean(ts) && st.pos < |ts| && ExpectSemi(ts, st).errors == st.errors && ExpectSemi(ts, st).pos < |ts|
    ensures ts[st.pos].ty.Semi? && ExpectSemi(ts, st) == st.(pos := st.pos + 1)
  {
    assert CleanAt(ts, st.pos);
  }

  lemma TestErrors(ts: seq<Token>, st: State, v: Option<Variable>)
    requires st.scope != [] && ForTest(ts, st, v).Did?
    ensures st.pos < |ts| && st.errors <= ForTest(ts, st, v).st.errors
  {
    var c := ParseExp(ts, st.pos, 0, st.errors);
    RoundsErrors(ts, ExpectSemi(ts, st.(pos := c.pos, errors := c.errors)), v, Seen(c.node, st.scope));
  }

  lemma RoundsErrors(ts: seq<Token>, st: State, v: Option<Variable>, c: Seen)
    requires st.scope != [] && ForRounds(ts, st, v, c).Did?
    ensures st.pos < |ts| && st.errors <= ParseStatement(ts, st).st.errors <= ForRounds(ts, st, v, c).st.errors
  {
    StatementKept(ts, st);
    BlockKept(ts, ParseStatement(ts, st).st);
  }

  /** What a loop read from `st` on its test gives, ending at `q`. */
  function LoopAt(s: Src, v: Variable, st: State, q: nat): Parse
    requires s.SFor? && st.scope != []
  {
    var i := Means(s.inc, st.scope, st.next);
    var m := BodyMeans(s.rounds, i.scope, i.next);
    Did(Loop(Some(v), Seen(s.test, st.scope), i.smt, Blk(m.smts)), State(q, st.errors, i.scope, m.next))
  }

  lemma {:induction false} SoundTest(ts: seq<Token>, st: State, d: Decl, v: Variable) returns (s: Src)
    requires Clean(ts) && st.scope != [] && Quiet(st, ForTest(ts, st, Some(v)))
    ensures s.SFor? && s.index == d && Fits(s.test, Semi) && Readable(s.inc, LBrace) && BodyReadable(s.rounds)
    ensures var q := ForTest(ts, st, Some(v)).st.pos;
      Spans(ts, st.pos, SpellTest(s), q) && ForTest(ts, st, Some(v)) == LoopAt(s, v, st, q)
    decreases |ts| - st.pos, 1
  {
    hide ForRounds, ParseExp, BindingPower, Spelling, CanFollow, Flatten, Readable;
    var c := ParseExp(ts, st.pos, 0, st.errors);
    var st1 := ExpectSemi(ts, st.(pos := c.pos, errors := c.errors));
    RoundsErrors(ts, st1, Some(v), Seen(c.node, st.scope));
    var r := ForRounds(ts, st1, Some(v), Seen(c.node, st.scope));
    PrattSound.SameErrors(st.errors, c.errors, r.st.errors);
    PrattSound.SameErrors(st.errors, st1.errors, r.st.errors);
    ExpSound(ts, st.pos, st.errors, c.node, c.pos);
    SemiRead(ts, st.(pos := c.pos, errors := c.errors));
    var inc, b := SoundRounds(ts, st1, v, Seen(c.node, st.scope));
    s := SFor(d, c.node, inc, b);
    SpansMark(ts, c.pos, Mark(Semi), Spelling(inc) + SpellBody(b), r.st.pos);
    SpansJoin(ts, st.pos, Flatten(c.node), c.pos, [Mark(Semi)] + (Spelling(inc) + SpellBody(b)), r.st.pos);
  }

  lemma {:induction false} SoundRounds(ts: seq<Token>, st: State, v: Variable, c: Seen) returns (inc: Src, b: Body)
    requires Clean(ts) && st.scope != [] && Quiet(st, ForRounds(ts, st, Some(v), c))
    ensures Readable(inc, LBrace) && BodyReadable(b)
    ensures var r := ForRounds(ts, st, Some(v), c);
      var i := Means(inc, st.scope, st.next);
      var m := BodyMeans(b, i.scope, i.next);
      && Spans(ts, st.pos, Spelling(inc) + SpellBody(b), r.st.pos)
      && r == Did(Loop(Some(v), c, i.smt, Blk(m.smts)), State(r.st.pos, st.errors, i.scope, m.next))
    decreases |ts| - st.pos, 6
  {
    RoundsErrors(ts, st, Some(v), c);
    var i := ParseStatement(ts, st);
    var r := ParseBlock(ts, i.st);
    PrattSound.SameErrors(st.errors, i.st.errors, r.st.errors);
    inc := SoundStatement(ts, st);
    b := SoundBlock(ts, i.st);
    SpansJoin(ts, st.pos, Spelling(inc), i.st.pos, SpellBody(b), r.st.pos);
  }
}
