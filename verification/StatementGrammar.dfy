/** The statement language, stated without the parser: how statements are written,
    which ones can be read, and what their names mean. */
module StatementGrammar {
  import opened Wrappers
  import opened Tokens
  import opened Pratt
  import opened Grammar
  import opened Statements
  import Scopes

  datatype Decl = Decl(ty: Option<TypeExp>, name: string, value: Exp)

  /** A block; `last` tells whether a semicolon stands after the last statement. */
  datatype Body = Body(smts: seq<Src>, last: bool)

  datatype Src =
    | SReturn(e: Exp)
    | SBlock(block: Body)
    | SIf(cond: Exp, yes: Body, no: Option<Src>)
    | SFor(index: Decl, test: Exp, inc: Src, rounds: Body)
    | SVar(decl: Decl)
    | SSet(left: Exp, op: Token, right: Exp)
    | SStep(name: string, up: bool)

  // ---------- spelling ----------

  /** A keyword carries its own text. */
  function Key(t: TokenType): Token { Token(t, TokenName(t)) }

  function FlattenType(t: TypeExp): seq<Token> {
    match t
    case Named(n) => [Token(Ident, n)]
    case ArrayOf(n, len) => [Token(Ident, n)] + ([Mark(LBrack)] + (Flatten(len) + [Mark(RBrack)]))
  }

  function FlattenDecl(d: Decl): seq<Token> {
    match d.ty
    case None => [Token(Ident, d.name)] + ([Mark(Define)] + Flatten(d.value))
    case Some(t) => [Key(Var)] + (FlattenType(t) + FlattenNamed(d.name, d.value))
  }

  function FlattenNamed(name: string, e: Exp): seq<Token> {
    [Token(Ident, name)] + ([Mark(Assign)] + Flatten(e))
  }

  function Spelling(s: Src): seq<Token>
    decreases s, 1
  {
    match s
    case SReturn(e) => [Key(Return)] + Flatten(e)
    case SBlock(b) => SpellBody(b)
    case SIf(c, b, no) => [Key(If)] + (Flatten(c) + (SpellBody(b) + SpellElse(no)))
    case SFor(d, c, inc, b) => [Key(For)] + (FlattenDecl(d) + ([Mark(Semi)] + SpellTest(s)))
    case SVar(d) => FlattenDecl(d)
    case SSet(l, op, r) => Flatten(Binary(l, op, r))
    case SStep(n, up) => [Token(Ident, n)] + [Mark(if up then Inc else Dec)]
  }

  function SpellElse(no: Option<Src>): seq<Token>
    decreases no
  {
    if no.None? then [] else [Key(Else)] + Spelling(no.value)
  }

  /** A loop from its test on. */
  function SpellTest(s: Src): seq<Token>
    requires s.SFor?
    decreases s, 0
  {
    Flatten(s.test) + ([Mark(Semi)] + (Spelling(s.inc) + SpellBody(s.rounds)))
  }

  function SpellBody(b: Body): seq<Token>
    decreases b
  {
    [Mark(LBrace)] + (SpellList(b.smts, b.last) + [Mark(RBrace)])
  }

  function SpellList(smts: seq<Src>, last: bool): seq<Token>
    decreases smts
  {
    if smts == [] then []
    else Spelling(smts[0]) + ((if |smts| > 1 || last then [Mark(Semi)] else []) + SpellList(smts[1..], last))
  }

  // ---------- which statements can be read ----------

  /** A whole expression before a token of type `t`. */
  predicate Fits(e: Exp, t: TokenType) {
    Respects(e, 0) && BindingPower(t) <= 0 && CanFollow(e, t)
  }

  predicate TypeFits(t: TypeExp) {
    t.ArrayOf? ==> Fits(t.length, RBrack)
  }

  predicate DeclFits(d: Decl, t: TokenType) {
    Fits(d.value, t) && (d.ty.Some? ==> TypeFits(d.ty.value))
  }

  /** Can `s` be read before a token of type `t`? A dangling `else` would be taken,
      and what begins with a brace is read as a block. */
  predicate Readable(s: Src, t: TokenType)
    decreases s
  {
    match s
    case SReturn(e) => Fits(e, t)
    case SBlock(b) => BodyReadable(b)
    case SIf(c, b, no) => Fits(c, LBrace) && BodyReadable(b) && if no.None? then !t.Else? else Readable(no.value, t)
    case SFor(d, c, inc, b) => DeclFits(d, Semi) && Fits(c, Semi) && Readable(inc, LBrace) && BodyReadable(b)
    case SVar(d) => d.ty.Some? && DeclFits(d, t)
    case SSet(l, op, r) =>
      && Fits(Binary(l, op, r), t) && !StartsBrace(l)
      && (IsAssignment(op.ty) || (op.ty.Define? && l.IdentExp?))
    case SStep(_, _) => true
  }

  predicate BodyReadable(b: Body)
    decreases b
  {
    (b.smts == [] ==> !b.last) && ListReadable(b.smts, b.last)
  }

  predicate ListReadable(smts: seq<Src>, last: bool)
    decreases smts
  {
    smts == [] || (Readable(smts[0], if |smts| > 1 || last then Semi else RBrace) && ListReadable(smts[1..], last))
  }

  /** Does the spelling begin with a brace? */
  predicate StartsBrace(e: Exp)
    decreases e
  {
    match e
    case KeyValueList(_) => true
    case Binary(l, _, _) => StartsBrace(l)
    case Selector(x, _) => StartsBrace(x)
    case Index(x, _) => StartsBrace(x)
    case Call(f, _) => StartsBrace(f)
    case _ => false
  }

  // ---------- what names mean ----------

  /** A statement with its names looked up, and the scopes and the next object after it. */
  datatype Meaning = Meaning(smt: Stm, scope: Scopes.Stack, next: int)
  datatype ListMeaning = ListMeaning(smts: seq<Stm>, scope: Scopes.Stack, next: int)

  function Bind(scope: Scopes.Stack, name: string, next: int): Scopes.Stack
    requires scope != []
  {
    Scopes.Inserted(scope, name, next).0
  }

  function Declared(d: Decl, scope: Scopes.Stack, next: int): Variable {
    Variable(next, d.name, d.ty, Seen(d.value, scope))
  }

  /** A variable is in scope after its own value, up to the end of the block it is
      declared in; that holds for a loop variable too. */
  function Means(s: Src, scope: Scopes.Stack, next: int): (m: Meaning)
    requires scope != []
    ensures m.scope != []
    decreases s
  {
    match s
    case SReturn(e) => Meaning(Ret(Seen(e, scope)), scope, next)
    case SBlock(b) => var m := BodyMeans(b, scope, next); Meaning(Blk(m.smts), scope, m.next)
    case SIf(c, b, no) =>
      var m := BodyMeans(b, scope, next);
      if no.None? then Meaning(Branch(Some(Seen(c, scope)), Blk(m.smts), Nothing), scope, m.next)
      else
        var n := Means(no.value, scope, m.next);
        var elses := if no.value.SIf? then n.smt else Branch(None, n.smt, Nothing);
        Meaning(Branch(Some(Seen(c, scope)), Blk(m.smts), elses), n.scope, n.next)
    case SFor(d, c, inc, b) =>
      var inner := Bind(scope, d.name, next);
      var i := Means(inc, inner, next + 1);
      var m := BodyMeans(b, i.scope, i.next);
      Meaning(Loop(Some(Declared(d, scope, next)), Seen(c, inner), i.smt, Blk(m.smts)), i.scope, m.next)
    case SVar(d) => Meaning(Declare(Some(Declared(d, scope, next))), Bind(scope, d.name, next), next + 1)
    case SSet(l, op, r) =>
      if op.ty.Define? && l.IdentExp? then
        Meaning(Declare(Some(Declared(Decl(None, l.name, r), scope, next))), Bind(scope, l.name, next), next + 1)
      else Meaning(Set(Seen(l, scope), op.ty, Seen(r, scope)), scope, next)
    case SStep(n, up) =>
      Meaning(Set(Seen(IdentExp(n), scope), if up then AddAssign else SubAssign, Seen(Literal(Token(Int, "1")), scope)), scope, next)
  }

  function BodyMeans(b: Body, scope: Scopes.Stack, next: int): ListMeaning
    decreases b
  {
    ListMeans(b.smts, [map[]] + scope, next)
  }

  function ListMeans(smts: seq<Src>, scope: Scopes.Stack, next: int): ListMeaning
    requires scope != []
    decreases smts
  {
    if smts == [] then ListMeaning([], scope, next)
    else
      var m := Means(smts[0], scope, next);
      var rest := ListMeans(smts[1..], m.scope, m.next);
      ListMeaning([m.smt] + rest.smts, rest.scope, rest.next)
  }

  /** `b` has the scopes of `a`, perhaps with new names in the innermost one. */
  predicate Grown(a: Scopes.Stack, b: Scopes.Stack) {
    a != [] && |b| == |a| && b[1..] == a[1..] && Scopes.Extends(a[0], b[0])
  }

  lemma GrownMore(a: Scopes.Stack, b: Scopes.Stack, c: Scopes.Stack)
    requires Grown(a, b) && Grown(b, c)
    ensures Grown(a, c)
  {
  }

  lemma BindGrows(a: Scopes.Stack, name: string, next: int)
    requires a != []
    ensures Grown(a, Bind(a, name, next))
  {
  }

  /** A statement only adds names to the scope it stands in, and gives new objects to
      them; blocks add nothing. */
  lemma {:induction false} MeansGrows(s: Src, scope: Scopes.Stack, next: int)
    requires scope != []
    ensures Grown(scope, Means(s, scope, next).scope) && next <= Means(s, scope, next).next
    decreases s
  {
    match s
    case SReturn(_) =>
    case SBlock(b) => BodyGrows(b, scope, next);
    case SIf(_, b, no) =>
      BodyGrows(b, scope, next);
      if no.Some? {
        MeansGrows(no.value, scope, BodyMeans(b, scope, next).next);
      }
    case SFor(d, _, inc, b) =>
      var inner := Bind(scope, d.name, next);
      BindGrows(scope, d.name, next);
      MeansGrows(inc, inner, next + 1);
      var i := Means(inc, inner, next + 1);
      GrownMore(scope, inner, i.scope);
      BodyGrows(b, i.scope, i.next);
    case SVar(d) => BindGrows(scope, d.name, next);
    case SSet(l, op, _) =>
      if op.ty.Define? && l.IdentExp? {
        BindGrows(scope, l.name, next);
      }
    case SStep(_, _) =>
  }

  lemma {:induction false} BodyGrows(b: Body, scope: Scopes.Stack, next: int)
    requires scope != []
    ensures Grown([map[]] + scope, BodyMeans(b, scope, next).scope) && BodyMeans(b, scope, next).scope[1..] == scope
    ensures next <= BodyMeans(b, scope, next).next
    decreases b
  {
    ListGrows(b.smts, [map[]] + scope, next);
    assert ([map[]] + scope)[1..] == scope;
  }

  lemma {:induction false} ListGrows(smts: seq<Src>, scope: Scopes.Stack, next: int)
    requires scope != []
    ensures Grown(scope, ListMeans(smts, scope, next).scope) && next <= ListMeans(smts, scope, next).next
    decreases smts
  {
    if smts != [] {
      var m := Means(smts[0], scope, next);
      MeansGrows(smts[0], scope, next);
      ListGrows(smts[1..], m.scope, m.next);
      GrownMore(scope, m.scope, ListMeans(smts[1..], m.scope, m.next).scope);
    }
  }
}
