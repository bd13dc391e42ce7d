/** How strongly operators bind, told by the operators themselves: no power is named here. */
module Precedence {
  import opened Tokens
  import opened Pratt
  import opened Grammar
  import PrattComplete

  datatype Class = Assigning | Logical | Comparing | Additive | Multiplicative

  predicate InClass(t: TokenType, c: Class) {
    match c
    case Assigning => t.Assign? || t.AddAssign? || t.SubAssign? || t.MulAssign? || t.RemAssign? || t.OrAssign? || t.Define?
    case Logical => t.Land? || t.Lor?
    case Comparing => t.Eql? || t.Neq? || t.Lss? || t.Gtr? || t.Leq? || t.Geq?
    case Additive => t.Add? || t.Sub?
    case Multiplicative => t.Mul? || t.Quo? || t.Rem?
  }

  predicate IsBinary(t: TokenType) {
    InClass(t, Assigning) || InClass(t, Logical) || InClass(t, Comparing) || InClass(t, Additive) || InClass(t, Multiplicative)
  }

  function ClassOf(t: TokenType): (c: Class)
    requires IsBinary(t)
    ensures InClass(t, c)
  {
    if InClass(t, Assigning) then Assigning
    else if InClass(t, Logical) then Logical
    else if InClass(t, Comparing) then Comparing
    else if InClass(t, Additive) then Additive
    else Multiplicative
  }

  function Rank(c: Class): nat {
    match c
    case Assigning => 0
    case Logical => 1
    case Comparing => 2
    case Additive => 3
    case Multiplicative => 4
  }

  /** Operators of one class are grouped from the right for assignments and `&&`, `||`, and
      from the left for all others. */
  predicate GroupsRight(c: Class) { c.Assigning? || c.Logical? }

  /** Does `a p b q c` mean `a p (b q c)`? */
  predicate Nests(p: TokenType, q: TokenType)
    requires IsBinary(p) && IsBinary(q)
  {
    Rank(ClassOf(p)) < Rank(ClassOf(q)) || (ClassOf(p) == ClassOf(q) && GroupsRight(ClassOf(p)))
  }

  function Name(n: string): Exp { IdentExp(n) }

  function Op(l: Exp, t: TokenType, r: Exp): Exp { Binary(l, Mark(t), r) }

  /** The tree is read from its spelling. */
  predicate Read(ts: seq<Token>, e: Exp) {
    ts != [] && ParseExp(ts, 0, 0, []) == Done(e, |ts| - 1, [])
  }

  // ---------- the powers of the classes ----------

  function Power(c: Class): int {
    match c
    case Assigning => 10
    case Logical => 20
    case Comparing => 30
    case Additive => 40
    case Multiplicative => 50
  }

  lemma PowerOf(t: TokenType)
    requires IsBinary(t)
    ensures BindingPower(t) == Power(ClassOf(t)) && (IsLeftOperator(t) || IsRightOperator(t))
    ensures IsRightOperator(t) <==> GroupsRight(ClassOf(t))
    ensures RightPower(t) == if GroupsRight(ClassOf(t)) then Power(ClassOf(t)) - 1 else Power(ClassOf(t))
  {
    hide IsBinary;
    PowerIn(t, ClassOf(t));
  }

  lemma PowerIn(t: TokenType, c: Class)
    requires InClass(t, c)
    ensures BindingPower(t) == Power(c) && (IsLeftOperator(t) || IsRightOperator(t)) && (IsRightOperator(t) <==> GroupsRight(c))
  {
    hide BindingPower, IsLeftOperator, IsRightOperator;
    match c
    case Assigning => Assigns(t);
    case Logical => Joins(t);
    case Comparing => Compares(t);
    case Additive => Adds(t);
    case Multiplicative => Multiplies(t);
  }

  lemma Assigns(t: TokenType)
    requires InClass(t, Assigning)
    ensures BindingPower(t) == 10 && !IsLeftOperator(t) && IsRightOperator(t)
  {
  }

  lemma Joins(t: TokenType)
    requires InClass(t, Logical)
    ensures BindingPower(t) == 20 && !IsLeftOperator(t) && IsRightOperator(t)
  {
  }

  lemma Compares(t: TokenType)
    requires InClass(t, Comparing)
    ensures BindingPower(t) == 30 && IsLeftOperator(t) && !IsRightOperator(t)
  {
  }

  lemma Adds(t: TokenType)
    requires InClass(t, Additive)
    ensures BindingPower(t) == 40 && IsLeftOperator(t) && !IsRightOperator(t)
  {
  }

  lemma Multiplies(t: TokenType)
    requires InClass(t, Multiplicative)
    ensures BindingPower(t) == 50 && IsLeftOperator(t) && !IsRightOperator(t)
  {
  }

  /** Which of two operators takes a name between them. */
  lemma PowersOf(p: TokenType, q: TokenType)
    requires IsBinary(p) && IsBinary(q)
    ensures Nests(p, q) ==> RightPower(p) < BindingPower(q)
    ensures !Nests(p, q) ==> BindingPower(q) <= RightPower(p)
    ensures 0 < BindingPower(p) < 60
    ensures 0 <= RightPower(p) < 60
  {
    hide BindingPower, RightPower, IsBinary, ClassOf, InClass, IsLeftOperator, IsRightOperator, Rank, GroupsRight, Power, Nests;
    PowerOf(p);
    PowerOf(q);
    NestsIs(p, q);
    ClassOrder(ClassOf(p), ClassOf(q));
  }

  lemma NestsIs(p: TokenType, q: TokenType)
    requires IsBinary(p) && IsBinary(q)
    ensures Nests(p, q) <==> Rank(ClassOf(p)) < Rank(ClassOf(q)) || (ClassOf(p) == ClassOf(q) && GroupsRight(ClassOf(p)))
  {
    hide IsBinary, ClassOf, InClass, Rank, GroupsRight;
  }

  lemma ClassOrder(c: Class, d: Class)
    ensures var r := if GroupsRight(c) then Power(c) - 1 else Power(c);
      && (if Rank(c) < Rank(d) || (c == d && GroupsRight(c)) then r < Power(d) else Power(d) <= r)
      && 0 < Power(c) < 60 && 0 <= r < 60
  {
  }

  lemma Tight()
    ensures BindingPower(Period) == 70 && BindingPower(LBrack) == 70 && BindingPower(LParen) == 70
    ensures BindingPower(RBrack) == 0 && BindingPower(RParen) == 0 && BindingPower(End) == -10
  {
  }

  lemma Reads(e: Exp, ts: seq<Token>)
    requires Respects(e, 0) && CanFollow(e, End) && ts == Flatten(e) + [Token(End, "")]
    ensures Read(ts, e)
  {
    hide Respects, CanFollow, Flatten, BindingPower, ParseExp;
    Tight();
    PrattComplete.Completeness(e, 0, [Token(End, "")], []);
  }

  // ---------- two binary operators ----------

  /** Three names with two operators between them are grouped as the classes say. */
  lemma Grouped(a: string, p: TokenType, b: string, q: TokenType, c: string)
    requires IsBinary(p) && IsBinary(q)
    ensures var ts := [Token(Ident, a), Mark(p), Token(Ident, b), Mark(q), Token(Ident, c), Token(End, "")];
      if Nests(p, q) then Read(ts, Op(Name(a), p, Op(Name(b), q, Name(c))))
      else Read(ts, Op(Op(Name(a), p, Name(b)), q, Name(c)))
  {
    hide Read, IsBinary, Nests, BindingPower, RightPower, ParseExp;
    PowersOf(p, q);
    PowersOf(q, p);
    if Nests(p, q) {
      GroupedRight(a, p, b, q, c);
    } else {
      GroupedLeft(a, p, b, q, c);
    }
  }

  lemma GroupedRight(a: string, p: TokenType, b: string, q: TokenType, c: string)
    requires IsBinary(p) && IsBinary(q) && RightPower(p) < BindingPower(q) && 0 < BindingPower(p) && 0 <= RightPower(p) && 0 <= RightPower(q)
    ensures Read([Token(Ident, a), Mark(p), Token(Ident, b), Mark(q), Token(Ident, c), Token(End, "")], Op(Name(a), p, Op(Name(b), q, Name(c))))
  {
    hide IsBinary, BindingPower, Read, RightPower, Respects, CanFollow, Flatten;
    Tight();
    Bare(a);
    Bare(b);
    Bare(c);
    var inner := Op(Name(b), q, Name(c));
    Joined(Name(b), q, Name(c), RightPower(p));
    Joined(Name(a), p, inner, 0);
    RightSpelled(a, p, b, q, c);
    Reads(Op(Name(a), p, inner), Flatten(Op(Name(a), p, inner)) + [Token(End, "")]);
  }

  lemma GroupedLeft(a: string, p: TokenType, b: string, q: TokenType, c: string)
    requires IsBinary(p) && IsBinary(q) && BindingPower(q) <= RightPower(p) && 0 < BindingPower(p) && 0 < BindingPower(q) && 0 <= RightPower(q)
    ensures Read([Token(Ident, a), Mark(p), Token(Ident, b), Mark(q), Token(Ident, c), Token(End, "")], Op(Op(Name(a), p, Name(b)), q, Name(c)))
  {
    hide IsBinary, BindingPower, Read, RightPower, Respects, CanFollow, Flatten;
    Tight();
    Bare(a);
    Bare(b);
    Bare(c);
    var inner := Op(Name(a), p, Name(b));
    Joined(Name(a), p, Name(b), 0);
    Joined(inner, q, Name(c), 0);
    LeftSpelled(a, p, b, q, c);
    Reads(Op(inner, q, Name(c)), Flatten(Op(inner, q, Name(c))) + [Token(End, "")]);
  }

  lemma RightSpelled(a: string, p: TokenType, b: string, q: TokenType, c: string)
    ensures Flatten(Op(Name(a), p, Op(Name(b), q, Name(c)))) + [Token(End, "")] ==
      [Token(Ident, a), Mark(p), Token(Ident, b), Mark(q), Token(Ident, c), Token(End, "")]
  {
    assert Flatten(Op(Name(b), q, Name(c))) == [Token(Ident, b), Mark(q), Token(Ident, c)];
  }

  lemma LeftSpelled(a: string, p: TokenType, b: string, q: TokenType, c: string)
    ensures Flatten(Op(Op(Name(a), p, Name(b)), q, Name(c))) + [Token(End, "")] ==
      [Token(Ident, a), Mark(p), Token(Ident, b), Mark(q), Token(Ident, c), Token(End, "")]
  {
    assert Flatten(Op(Name(a), p, Name(b))) == [Token(Ident, a), Mark(p), Token(Ident, b)];
  }

  /** One node. */
  lemma Joined(l: Exp, t: TokenType, x: Exp, r: int)
    requires IsBinary(t) && r < BindingPower(t) && Respects(l, r) && CanFollow(l, t) && Respects(x, RightPower(t))
    ensures Respects(Op(l, t, x), r) && Flatten(Op(l, t, x)) == Flatten(l) + ([Mark(t)] + Flatten(x))
    ensures forall u :: CanFollow(Op(l, t, x), u) <==> BindingPower(u) <= RightPower(t) && CanFollow(x, u)
  {
    hide BindingPower, RightPower;
    PowerOf(t);
  }

  /** The two groupings are different trees, so each is read only in its own case. */
  lemma OneGrouping(a: string, p: TokenType, b: string, q: TokenType, c: string)
    requires IsBinary(p) && IsBinary(q)
    ensures var ts := [Token(Ident, a), Mark(p), Token(Ident, b), Mark(q), Token(Ident, c), Token(End, "")];
      && (Read(ts, Op(Name(a), p, Op(Name(b), q, Name(c)))) <==> Nests(p, q))
      && (Read(ts, Op(Op(Name(a), p, Name(b)), q, Name(c))) <==> !Nests(p, q))
  {
    hide Nests, ParseExp;
    Grouped(a, p, b, q, c);
  }

  // ---------- prefix operators, selectors, indices and calls ----------

  function Prefix(u: TokenType, x: Exp): Exp { Unary(Mark(u), x) }

  datatype Suffix = Dot | Bracket | Parens

  /** `l.n`, `l[n]` or `l(n)` */
  function With(l: Exp, s: Suffix, n: string): Exp {
    match s
    case Dot => Selector(l, Name(n))
    case Bracket => Index(l, Name(n))
    case Parens => Pratt.Call(l, [Name(n)])
  }

  function Spelled(s: Suffix, n: string): seq<Token> {
    match s
    case Dot => [Mark(Period), Token(Ident, n)]
    case Bracket => [Mark(LBrack), Token(Ident, n), Mark(RBrack)]
    case Parens => [Mark(LParen), Token(Ident, n), Mark(RParen)]
  }

  /** What a suffix is put on must be left alone by it. */
  lemma Suffixed(l: Exp, s: Suffix, n: string, r: int)
    requires r < 70 && Respects(l, r) && CanFollow(l, Period) && CanFollow(l, LBrack) && CanFollow(l, LParen)
    ensures Respects(With(l, s, n), r) && Flatten(With(l, s, n)) == Flatten(l) + Spelled(s, n)
    ensures forall t :: BindingPower(t) <= 70 ==> CanFollow(With(l, s, n), t)
  {
    hide BindingPower, Respects, CanFollow, Flatten;
    match s
    case Dot => Dotted(l, n, r);
    case Bracket => Bracketed(l, n, r);
    case Parens => Called(l, n, r);
  }

  lemma Dotted(l: Exp, n: string, r: int)
    requires r < 70 && Respects(l, r) && CanFollow(l, Period)
    ensures var e := Selector(l, Name(n));
      Respects(e, r) && Flatten(e) == Flatten(l) + Spelled(Dot, n) && forall t :: BindingPower(t) <= 70 ==> CanFollow(e, t)
  {
    hide BindingPower;
    Tight();
    Bare(n);
    assert Flatten(Selector(l, Name(n))) == Flatten(l) + Spelled(Dot, n);
  }

  lemma Bracketed(l: Exp, n: string, r: int)
    requires r < 70 && Respects(l, r) && CanFollow(l, LBrack)
    ensures var e := Index(l, Name(n));
      Respects(e, r) && Flatten(e) == Flatten(l) + Spelled(Bracket, n) && forall t :: CanFollow(e, t)
  {
    hide BindingPower;
    Tight();
    Bare(n);
    assert Flatten(Index(l, Name(n))) == Flatten(l) + Spelled(Bracket, n);
  }

  lemma Called(l: Exp, n: string, r: int)
    requires r < 70 && Respects(l, r) && CanFollow(l, LParen)
    ensures var e := Pratt.Call(l, [Name(n)]);
      Respects(e, r) && Flatten(e) == Flatten(l) + Spelled(Parens, n) && forall t :: CanFollow(e, t)
  {
    hide BindingPower;
    Tight();
    Bare(n);
    OneArgument(n);
    assert Flatten(Pratt.Call(l, [Name(n)])) == Flatten(l) + Spelled(Parens, n);
  }

  lemma OneArgument(n: string)
    ensures AllRespect([Name(n)], RParen) && Commas([Name(n)]) == [Token(Ident, n)]
  {
    assert [Name(n)][1..] == [];
    Bare(n);
    assert Respects([Name(n)][0], 0) && CanFollow([Name(n)][0], RParen) && AllRespect([], RParen);
  }

  lemma Prefixed(u: TokenType, x: Exp, r: int)
    requires (u.Sub? || u.Not?) && Respects(x, 60)
    ensures Respects(Prefix(u, x), r) && Flatten(Prefix(u, x)) == [Mark(u)] + Flatten(x)
    ensures forall t :: CanFollow(Prefix(u, x), t) <==> BindingPower(t) <= 60 && CanFollow(x, t)
  {
    hide BindingPower;
  }

  lemma Bare(n: string)
    ensures (forall r :: Respects(Name(n), r)) && (forall t :: CanFollow(Name(n), t)) && Flatten(Name(n)) == [Token(Ident, n)]
  {
  }

  /** A prefix operator takes its operand from any binary operator: `-a p b` is `(-a) p b`. */
  lemma PrefixFirst(u: TokenType, a: string, p: TokenType, b: string)
    requires (u.Sub? || u.Not?) && IsBinary(p)
    ensures Read([Mark(u), Token(Ident, a), Mark(p), Token(Ident, b), Token(End, "")], Op(Prefix(u, Name(a)), p, Name(b)))
  {
    hide IsBinary, Nests, BindingPower, Read, RightPower, Respects, CanFollow, Flatten;
    Tight();
    PowersOf(p, p);
    Bare(a);
    Bare(b);
    Prefixed(u, Name(a), 0);
    Joined(Prefix(u, Name(a)), p, Name(b), 0);
    var e := Op(Prefix(u, Name(a)), p, Name(b));
    assert [Mark(u), Token(Ident, a), Mark(p), Token(Ident, b), Token(End, "")] == Flatten(e) + [Token(End, "")];
    Reads(e, Flatten(e) + [Token(End, "")]);
  }

  /** And `a p -b` is `a p (-b)`. */
  lemma PrefixSecond(a: string, p: TokenType, u: TokenType, b: string)
    requires (u.Sub? || u.Not?) && IsBinary(p)
    ensures Read([Token(Ident, a), Mark(p), Mark(u), Token(Ident, b), Token(End, "")], Op(Name(a), p, Prefix(u, Name(b))))
  {
    hide IsBinary, Nests, BindingPower, Read, RightPower, Respects, CanFollow, Flatten;
    Tight();
    PowersOf(p, p);
    Bare(a);
    Bare(b);
    Prefixed(u, Name(b), RightPower(p));
    Joined(Name(a), p, Prefix(u, Name(b)), 0);
    var e := Op(Name(a), p, Prefix(u, Name(b)));
    assert [Token(Ident, a), Mark(p), Mark(u), Token(Ident, b), Token(End, "")] == Flatten(e) + [Token(End, "")];
    Reads(e, Flatten(e) + [Token(End, "")]);
  }

  /** A selector, an index or a call takes its operand from every prefix operator: `-a.b` is
      `-(a.b)`. */
  lemma SuffixOverPrefix(u: TokenType, a: string, s: Suffix, b: string)
    requires u.Sub? || u.Not?
    ensures Read([Mark(u), Token(Ident, a)] + Spelled(s, b) + [Token(End, "")], Prefix(u, With(Name(a), s, b)))
  {
    hide BindingPower, Read, Respects, CanFollow, Flatten;
    Tight();
    Bare(a);
    Suffixed(Name(a), s, b, 60);
    Prefixed(u, With(Name(a), s, b), 0);
    var e := Prefix(u, With(Name(a), s, b));
    assert [Mark(u), Token(Ident, a)] + Spelled(s, b) + [Token(End, "")] == Flatten(e) + [Token(End, "")];
    Reads(e, Flatten(e) + [Token(End, "")]);
  }

  /** And from every binary operator: `a p b.c` is `a p (b.c)`. */
  lemma SuffixOverBinary(a: string, p: TokenType, b: string, s: Suffix, c: string)
    requires IsBinary(p)
    ensures Read([Token(Ident, a), Mark(p), Token(Ident, b)] + Spelled(s, c) + [Token(End, "")], Op(Name(a), p, With(Name(b), s, c)))
  {
    hide IsBinary, Nests, BindingPower, Read, RightPower, Respects, CanFollow, Flatten, With;
    Tight();
    PowersOf(p, p);
    Bare(a);
    Bare(b);
    Suffixed(Name(b), s, c, RightPower(p));
    Joined(Name(a), p, With(Name(b), s, c), 0);
    var e := Op(Name(a), p, With(Name(b), s, c));
    assert [Token(Ident, a), Mark(p), Token(Ident, b)] + Spelled(s, c) + [Token(End, "")] == Flatten(e) + [Token(End, "")];
    Reads(e, Flatten(e) + [Token(End, "")]);
  }

  /** And `a.c p b` is `(a.c) p b`. */
  lemma SuffixBeforeBinary(a: string, s: Suffix, c: string, p: TokenType, b: string)
    requires IsBinary(p)
    ensures Read([Token(Ident, a)] + Spelled(s, c) + [Mark(p), Token(Ident, b), Token(End, "")], Op(With(Name(a), s, c), p, Name(b)))
  {
    hide IsBinary, Nests, BindingPower, Read, RightPower, Respects, CanFollow, Flatten, With;
    Tight();
    PowersOf(p, p);
    Bare(a);
    Bare(b);
    Suffixed(Name(a), s, c, 0);
    Joined(With(Name(a), s, c), p, Name(b), 0);
    var e := Op(With(Name(a), s, c), p, Name(b));
    assert [Token(Ident, a)] + Spelled(s, c) + [Mark(p), Token(Ident, b), Token(End, "")] == Flatten(e) + [Token(End, "")];
    Reads(e, Flatten(e) + [Token(End, "")]);
  }

  /** Suffixes are taken one after the other: `a.b[c]` is `(a.b)[c]`. */
  lemma SuffixesInOrder(a: string, s: Suffix, b: string, q: Suffix, c: string)
    ensures Read([Token(Ident, a)] + Spelled(s, b) + Spelled(q, c) + [Token(End, "")], With(With(Name(a), s, b), q, c))
  {
    hide BindingPower, Read, Respects, CanFollow, Flatten;
    Tight();
    Bare(a);
    Suffixed(Name(a), s, b, 0);
    Suffixed(With(Name(a), s, b), q, c, 0);
    var e := With(With(Name(a), s, b), q, c);
    assert [Token(Ident, a)] + Spelled(s, b) + Spelled(q, c) + [Token(End, "")] == Flatten(e) + [Token(End, "")];
    Reads(e, Flatten(e) + [Token(End, "")]);
  }

  // ---------- what goes on after a name ----------

  /** Tokens that take what stands before them and that a suffix goes on with. */
  predicate IsSuffix(t: TokenType) { t.Period? || t.LBrack? || t.LParen? }

  /** Tokens that are taken for operators but are none behind an operand. */
  predicate IsTrap(t: TokenType) { t.Not? || t.ShrAssign? }

  /** A name alone is an expression before every token that is no operator and no suffix;
      `!` and `>>=` are errors there. */
  lemma AfterName(n: string, t: Token, rest: seq<Token>)
    ensures var ts := [Token(Ident, n), t] + rest;
      && (!IsBinary(t.ty) && !IsSuffix(t.ty) && !IsTrap(t.ty) ==> ParseExp(ts, 0, 0, []) == Done(IdentExp(n), 1, []))
      && (IsTrap(t.ty) ==> ParseExp(ts, 0, 0, []) == Done(Missing, 2, [Error(ExpectInfix, 2)]))
  {
    hide BindingPower, IsLeftOperator, IsRightOperator, IsBinary;
    var ts := [Token(Ident, n), t] + rest;
    assert ts[0] == Token(Ident, n) && ts[1] == t;
    assert Nud(ts, 0, []) == Done(IdentExp(n), 1, []);
    if IsTrap(t.ty) {
      Traps(t.ty);
      assert Led(ts, 1, IdentExp(n), []) == Done(Missing, 2, [Error(ExpectInfix, 2)]);
    } else if !IsBinary(t.ty) && !IsSuffix(t.ty) {
      Stops(t.ty);
    }
  }

  lemma Traps(t: TokenType)
    requires IsTrap(t)
    ensures BindingPower(t) > 0 && !IsLeftOperator(t) && !IsRightOperator(t)
  {
  }

  lemma Stops(t: TokenType)
    requires !IsBinary(t) && !IsSuffix(t) && !IsTrap(t)
    ensures BindingPower(t) <= 0
  {
  }
}
