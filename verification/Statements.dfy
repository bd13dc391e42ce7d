/** The specification of the statement parser. Names are looked up while the parser
    reads, so a statement holds with each expression the scopes it was read in. */
module Statements {
  import opened Wrappers
  import opened Tokens
  import opened Pratt
  import Scopes

  datatype Seen = Seen(exp: Exp, scope: Scopes.Stack)

  datatype TypeExp = Named(name: string) | ArrayOf(element: string, length: Exp)

  /** A declared variable; `id` is the identity of its object. */
  datatype Variable = Variable(id: int, name: string, ty: Option<TypeExp>, value: Seen)

  /** `Nothing` is the NULL statement. */
  datatype Stm =
    | Nothing
    | Ret(result: Seen)
    | Blk(smts: seq<Stm>)
    | Branch(cond: Option<Seen>, body: Stm, elses: Stm)
    | Loop(index: Option<Variable>, test: Seen, inc: Stm, rounds: Stm)
    | Declare(v: Option<Variable>)
    | Set(left: Seen, op: TokenType, right: Seen)

  datatype State = State(pos: nat, errors: seq<Error>, scope: Scopes.Stack, next: int)

  /** `Crash`: the C code reads past the tokens or uses a NULL node. */
  datatype Parse = Did(smt: Stm, st: State) | Crash
  datatype ListParse = DidList(smts: seq<Stm>, st: State) | ListCrash
  datatype VarParse = DidVar(v: Option<Variable>, st: State) | VarCrash
  datatype TypeParse = DidType(ty: Option<TypeExp>, st: State) | TypeCrash

  /** The cursor moves on, and every scope entered is left again. */
  predicate Moves(ts: seq<Token>, a: State, b: State) {
    a.pos < b.pos <= |ts| && |b.scope| == |a.scope|
  }

  function Fail(st: State, kind: ErrorKind): State {
    st.(errors := st.errors + [Error(kind, st.pos)])
  }

  /** Past the next semicolon, or to the end token. */
  function SkipToSemi(ts: seq<Token>, pos: nat): (r: Option<nat>)
    ensures r.Some? ==> pos <= r.value <= |ts|
    decreases |ts| - pos
  {
    if pos >= |ts| then None
    else if ts[pos].ty.Semi? then Some(pos + 1)
    else if ts[pos].ty.End? then Some(pos)
    else SkipToSemi(ts, pos + 1)
  }

  function Skipped(ts: seq<Token>, st: State): (r: VarParse)
    ensures r.DidVar? ==> r.v.None? && r.st == st.(pos := r.st.pos) && st.pos <= r.st.pos <= |ts|
  {
    match SkipToSemi(ts, st.pos)
    case None => VarCrash
    case Some(p) => DidVar(None, st.(pos := p))
  }

  /** A semicolon, or the end token in its place. */
  function ExpectSemi(ts: seq<Token>, st: State): (r: State)
    requires st.pos < |ts|
    ensures st.pos <= r.pos <= |ts| && r.scope == st.scope && r.next == st.next
  {
    if ts[st.pos].ty.Semi? || ts[st.pos].ty.End? then st.(pos := st.pos + 1) else Fail(st, ExpectToken(Semi))
  }

  /** A missing name is an error about the type, which replaces the one about the
      name; the token is skipped all the same. */
  function ParseType(ts: seq<Token>, st: State): (r: TypeParse)
    ensures r.DidType? ==> st.pos < r.st.pos <= |ts| && r.st.scope == st.scope && r.st.next == st.next
    ensures r.DidType? && !ts[st.pos].ty.Ident? ==> r.ty.None? && r.st.pos == st.pos + 1 && r.st.errors == st.errors + [Error(ExpectType, st.pos + 1)]
  {
    if st.pos >= |ts| then TypeCrash
    else if !ts[st.pos].ty.Ident? then DidType(None, Fail(st.(pos := st.pos + 1), ExpectType))
    else if st.pos + 1 >= |ts| then TypeCrash
    else if !ts[st.pos + 1].ty.LBrack? then DidType(Some(Named(ts[st.pos].value)), st.(pos := st.pos + 1))
    else
      var n := ParseExp(ts, st.pos + 2, 0, st.errors);
      if n.Fault? then TypeCrash
      else
        var s1 := st.(pos := n.pos, errors := n.errors);
        if n.node.Missing? then DidType(None, Fail(s1, ExpectArrayLength))
        else if n.pos >= |ts| then TypeCrash
        else
          var (p, es) := Expect(ts, n.pos, RBrack, n.errors);
          DidType(Some(ArrayOf(ts[st.pos].value, n.node)), s1.(pos := p, errors := es))
  }

  /** `var T x = e` or `x := e`. */
  function ParseVariable(ts: seq<Token>, st: State): (r: VarParse)
    requires st.scope != []
    ensures r.DidVar? ==> st.pos <= r.st.pos <= |ts| && |r.st.scope| == |st.scope|
    ensures r.DidVar? && st.pos < |ts| && ts[st.pos].ty.Var? ==> st.pos < r.st.pos
  {
    if st.pos >= |ts| then VarCrash
    else if ts[st.pos].ty.Var? then ParseTyped(ts, ParseType(ts, st.(pos := st.pos + 1)))
    else if !ts[st.pos].ty.Ident? then Skipped(ts, Fail(st, ExpectToken(Ident)))
    else ParseValue(ts, st.(pos := st.pos + 1), Define, ts[st.pos].value, None)
  }

  /** The name and the value after a type. */
  function ParseTyped(ts: seq<Token>, t: TypeParse): (r: VarParse)
    requires t.DidType? ==> t.st.scope != [] && t.st.pos <= |ts|
    ensures r.DidVar? ==> t.DidType? && t.st.pos <= r.st.pos <= |ts| && |r.st.scope| == |t.st.scope|
  {
    if t.TypeCrash? then VarCrash
    else if t.ty.None? then Skipped(ts, t.st)
    else if t.st.pos >= |ts| then VarCrash
    else if !ts[t.st.pos].ty.Ident? then Skipped(ts, Fail(t.st, ExpectToken(Ident)))
    else ParseValue(ts, t.st.(pos := t.st.pos + 1), Assign, ts[t.st.pos].value, t.ty)
  }

  function ParseValue(ts: seq<Token>, st: State, op: TokenType, name: string, ty: Option<TypeExp>): (r: VarParse)
    requires st.scope != []
    ensures r.DidVar? ==> Moves(ts, st, r.st)
  {
    if st.pos >= |ts| then VarCrash
    else
      var (p, es) := Expect(ts, st.pos, op, st.errors);
      Valued(ts, st, name, ty, ParseExp(ts, p, 0, es))
  }

  /** The value of a variable. Its own name is not yet in scope there. */
  function Valued(ts: seq<Token>, st: State, name: string, ty: Option<TypeExp>, e: Parsed): (r: VarParse)
    requires st.scope != []
    ensures r.DidVar? ==> e.Done? && |r.st.scope| == |st.scope|
    ensures r.DidVar? ==> if e.node.Missing? then e.pos <= r.st.pos <= |ts| else r.st.pos == e.pos
  {
    if e.Fault? then VarCrash
    else if e.node.Missing? then Skipped(ts, st.(pos := e.pos, errors := e.errors))
    else DidVar(Some(Variable(st.next, name, ty, Seen(e.node, st.scope))), Bound(st.(pos := e.pos, errors := e.errors), name))
  }

  /** A new object for the name, in the innermost scope. */
  function Bound(st: State, name: string): (r: State)
    requires st.scope != []
    ensures |r.scope| == |st.scope| && r.pos == st.pos
  {
    st.(scope := Scopes.Inserted(st.scope, name, st.next).0, next := st.next + 1)
  }

  /** Statements known by their first token, or by the one after a name; `Nothing`
      and no move for all others. */
  function ParseKnown(ts: seq<Token>, st: State): (r: Parse)
    requires st.scope != [] && st.pos < |ts|
    ensures r.Did? ==> if r.smt.Nothing? then r.st == st else Moves(ts, st, r.st)
    decreases |ts| - st.pos, 2
  {
    var t := ts[st.pos].ty;
    if t.Return? then
      var e := ParseExp(ts, st.pos + 1, 0, st.errors);
      if e.Fault? then Crash else Did(Ret(Seen(e.node, st.scope)), st.(pos := e.pos, errors := e.errors))
    else if t.LBrace? then ParseBlock(ts, st)
    else if t.If? then ParseIf(ts, st)
    else if t.For? then ParseFor(ts, st)
    else if t.Var? then
      var v := ParseVariable(ts, st);
      if v.VarCrash? then Crash else Did(Declare(v.v), v.st)
    else if t.Ident? then
      var x := Seen(IdentExp(ts[st.pos].value), st.scope);
      var one := Seen(Literal(Token(Int, "1")), st.scope);
      if st.pos + 1 >= |ts| then Crash
      else if ts[st.pos + 1].ty.Inc? then Did(Set(x, AddAssign, one), st.(pos := st.pos + 2))
      else if ts[st.pos + 1].ty.Dec? then Did(Set(x, SubAssign, one), st.(pos := st.pos + 2))
      else Did(Nothing, st)
    else Did(Nothing, st)
  }

  function ParseStatement(ts: seq<Token>, st: State): (r: Parse)
    requires st.scope != []
    ensures r.Did? ==> Moves(ts, st, r.st)
    decreases |ts| - st.pos, 3
  {
    if st.pos >= |ts| then Crash
    else
      var known := ParseKnown(ts, st);
      if known.Crash? || !known.smt.Nothing? then known
      else
        var e := ParseExp(ts, st.pos, 0, st.errors);
        if e.Fault? then Crash else Converted(ts, st.(pos := e.pos, errors := e.errors), e.node)
  }

  predicate IsAssignment(t: TokenType) {
    t.Assign? || t.AddAssign? || t.SubAssign? || t.MulAssign? || t.RemAssign? || t.OrAssign? || t.ShlAssign?
  }

  /** An assignment or a declaration that was read as the expression `e`. */
  function Converted(ts: seq<Token>, st: State, e: Exp): (r: Parse)
    requires st.scope != []
    ensures r.Did? ==> st.pos <= r.st.pos && (r.st.pos == st.pos || r.st.pos <= |ts|) && |r.st.scope| == |st.scope|
  {
    // what is not a binary node is used as one
    if !e.Binary? then Crash
    else if IsAssignment(e.op.ty) then Did(Set(Seen(e.left, st.scope), e.op.ty, Seen(e.rhs, st.scope)), st)
    else if e.op.ty.Define? && e.left.IdentExp? then
      Did(Declare(Some(Variable(st.next, e.left.name, None, Seen(e.rhs, st.scope)))), Bound(st, e.left.name))
    else if e.op.ty.Define? then Unread(ts, Fail(st, ExpectToken(Ident)))
    else
      var s := Unread(ts, Fail(st, ExpectStatement));
      if s.Crash? then Crash else Unread(ts, Fail(s.st, ExpectStatement))
  }

  /** No statement: on past the next semicolon. */
  function Unread(ts: seq<Token>, st: State): (r: Parse)
    ensures r.Did? ==> st.pos <= r.st.pos <= |ts| && r.smt.Nothing? && r.st == st.(pos := r.st.pos)
  {
    var p := SkipToSemi(ts, st.pos);
    if p.None? then Crash else Did(Nothing, st.(pos := p.value))
  }

  function ParseIf(ts: seq<Token>, st: State): (r: Parse)
    requires st.scope != [] && st.pos < |ts|
    ensures r.Did? ==> r.smt.Branch? && Moves(ts, st, r.st)
    decreases |ts| - st.pos, 1
  {
    IfCond(ts, st.(pos := st.pos + 1))
  }

  function IfCond(ts: seq<Token>, st: State): (r: Parse)
    requires st.scope != []
    ensures r.Did? ==> r.smt.Branch? && Moves(ts, st, r.st)
    decreases |ts| - st.pos, 1
  {
    var c := ParseExp(ts, st.pos, 0, st.errors);
    if c.Fault? then Crash else IfBody(ts, st.(pos := c.pos, errors := c.errors), c.node)
  }

  /** The body after the condition `c`. */
  function IfBody(ts: seq<Token>, st: State, c: Exp): (r: Parse)
    requires st.scope != []
    ensures r.Did? ==> r.smt.Branch? && Moves(ts, st, r.st)
    decreases |ts| - st.pos, 6
  {
    var b := ParseBlock(ts, st);
    if b.Crash? then Crash else IfElse(ts, b.st, Seen(c, st.scope), b.smt)
  }

  function IfElse(ts: seq<Token>, st: State, c: Seen, body: Stm): (r: Parse)
    requires st.scope != []
    ensures r.Did? ==> r.smt.Branch? && st.pos <= r.st.pos <= |ts| && |r.st.scope| == |st.scope|
    decreases |ts| - st.pos, 1
  {
    if st.pos >= |ts| then Crash
    else if !ts[st.pos].ty.Else? then Did(Branch(Some(c), body, Nothing), st)
    else
      var s := ParseStatement(ts, st.(pos := st.pos + 1));
      if s.Crash? then Crash
      else Did(Branch(Some(c), body, if ts[st.pos + 1].ty.If? then s.smt else Branch(None, s.smt, Nothing)), s.st)
  }

  /** The loop variable goes into the scope around the loop. */
  function ParseFor(ts: seq<Token>, st: State): (r: Parse)
    requires st.scope != [] && st.pos < |ts|
    ensures r.Did? ==> r.smt.Loop? && Moves(ts, st, r.st)
    decreases |ts| - st.pos, 1
  {
    var v := ParseVariable(ts, st.(pos := st.pos + 1));
    if v.VarCrash? || v.st.pos >= |ts| then Crash else ForTest(ts, ExpectSemi(ts, v.st), v.v)
  }

  function ForTest(ts: seq<Token>, st: State, v: Option<Variable>): (r: Parse)
    requires st.scope != []
    ensures r.Did? ==> r.smt.Loop? && Moves(ts, st, r.st)
    decreases |ts| - st.pos, 1
  {
    var c := ParseExp(ts, st.pos, 0, st.errors);
    if c.Fault? || c.pos >= |ts| then Crash
    else ForRounds(ts, ExpectSemi(ts, st.(pos := c.pos, errors := c.errors)), v, Seen(c.node, st.scope))
  }

  /** The increment, which stands before the body. */
  function ForRounds(ts: seq<Token>, st: State, v: Option<Variable>, c: Seen): (r: Parse)
    requires st.scope != []
    ensures r.Did? ==> r.smt.Loop? && Moves(ts, st, r.st)
    decreases |ts| - st.pos, 6
  {
    var inc := ParseStatement(ts, st);
    if inc.Crash? then Crash
    else
      var b := ParseBlock(ts, inc.st);
      if b.Crash? then Crash else Did(Loop(v, c, inc.smt, b.smt), b.st)
  }

  /** A block has a scope of its own, which is gone after it. */
  function ParseBlock(ts: seq<Token>, st: State): (r: Parse)
    requires st.scope != []
    ensures r.Did? ==> r.smt.Blk? && Moves(ts, st, r.st)
    decreases |ts| - st.pos, if st.pos < |ts| && ts[st.pos].ty.LBrace? then 1 else 5
  {
    if st.pos >= |ts| then Crash
    else
      var (p, es) := Expect(ts, st.pos, LBrace, st.errors);
      var l := ParseList(ts, State(p, es, [map[]] + st.scope, st.next));
      if l.ListCrash? then Crash
      else Did(Blk(l.smts), l.st.(pos := l.st.pos + 1, scope := l.st.scope[1..]))
  }

  /** Statements up to the closing brace, with semicolons between them. */
  function ParseList(ts: seq<Token>, st: State): (r: ListParse)
    requires st.scope != []
    ensures r.DidList? ==> st.pos <= r.st.pos < |ts| && |r.st.scope| == |st.scope|
    decreases |ts| - st.pos, 4
  {
    if st.pos >= |ts| then ListCrash
    else if ts[st.pos].ty.RBrace? then DidList([], st)
    else
      var s := ParseStatement(ts, st);
      // a NULL statement is copied from
      if s.Crash? || s.smt.Nothing? || s.st.pos >= |ts| then ListCrash
      else
        var next := if ts[s.st.pos].ty.RBrace? then s.st else ExpectSemi(ts, s.st);
        var rest := ParseList(ts, next);
        if rest.ListCrash? then ListCrash else DidList([s.smt] + rest.smts, rest.st)
  }
}
