/** Soundness: whatever the parser accepts without an error is a tree that respects
    the binding powers, spelled by exactly the tokens consumed, up to one comma
    that may stand before a closing bracket or brace. */
module PrattSound {
  import opened Tokens
  import opened Pratt
  import opened Grammar
  import opened PrattComplete

  /** Punctuation carries no value, as the lexer leaves it. */
  predicate IsMark(t: TokenType) {
    t.Period? || t.LBrack? || t.RBrack? || t.LParen? || t.RParen? || t.LBrace? || t.RBrace? || t.Comma? || t.Colon?
  }

  ghost predicate Lexed(ts: seq<Token>) {
    forall i :: 0 <= i < |ts| && IsMark(ts[i].ty) ==> ts[i] == Mark(ts[i].ty)
  }

  lemma SameErrors(a: seq<Error>, b: seq<Error>, c: seq<Error>)
    requires a <= b && b <= c && c == a
    ensures b == a
  {
    assert |b| == |a|;
  }

  /** From `pos` to `p` the tokens spell `e`, which respects `r`, and what comes next
      may follow it. */
  ghost predicate Spells(ts: seq<Token>, pos: nat, e: Exp, p: nat, r: int) {
    && Respects(e, r) && Walk(ts, At(pos), e, true) == At(p)
    && (p < |ts| ==> CanFollow(e, ts[p].ty))
  }

  /** The verdict on a finished expression. */
  ghost predicate Sound(ts: seq<Token>, pos: nat, e: Exp, p: nat, r: int) {
    Spells(ts, pos, e, p, r) && p < |ts| && BindingPower(ts[p].ty) <= r
  }

  lemma {:induction false} SoundExp(ts: seq<Token>, pos: nat, r: int, errors: seq<Error>)
    requires Lexed(ts) && r >= 0
    requires var o := ParseExp(ts, pos, r, errors); o.Done? && o.errors == errors
    ensures var o := ParseExp(ts, pos, r, errors); Sound(ts, pos, o.node, o.pos, r)
    decreases |ts| - pos, 2
  {
    var left := Nud(ts, pos, errors);
    SameErrors(errors, left.errors, ParseExp(ts, pos, r, errors).errors);
    SoundNud(ts, pos, r, errors);
    SoundLoop(ts, pos, left.pos, r, left.node, errors);
  }

  lemma {:induction false} SoundLoop(ts: seq<Token>, start: nat, pos: nat, r: int, left: Exp, errors: seq<Error>)
    requires Lexed(ts) && r >= 0 && pos <= |ts| && !left.Missing? && Spells(ts, start, left, pos, r)
    requires var o := LedLoop(ts, pos, r, left, errors); o.Done? && o.errors == errors
    ensures var o := LedLoop(ts, pos, r, left, errors); Sound(ts, start, o.node, o.pos, r)
    decreases |ts| - pos, 1
  {
    if r < BindingPower(ts[pos].ty) {
      var next := Led(ts, pos, left, errors);
      SameErrors(errors, next.errors, LedLoop(ts, pos, r, left, errors).errors);
      SoundLed(ts, start, pos, r, left, errors);
      SoundLoop(ts, start, next.pos, r, next.node, errors);
    }
  }

  lemma {:induction false} SoundNud(ts: seq<Token>, pos: nat, r: int, errors: seq<Error>)
    requires Lexed(ts) && pos < |ts|
    requires var o := Nud(ts, pos, errors); o.Done? && o.errors == errors
    ensures var o := Nud(ts, pos, errors); Spells(ts, pos, o.node, o.pos, r)
    decreases |ts| - pos, 1
  {
    var t := ts[pos].ty;
    if t.Not? || t.Sub? {
      SoundPrefixed(ts, pos, r, errors);
    } else if t.LBrace? {
      SoundList(ts, pos, r, errors);
    } else if t.LBrack? {
      SoundArray(ts, pos, r, errors);
    } else {
      SoundAtom(ts, pos, r, errors);
    }
  }

  lemma SoundAtom(ts: seq<Token>, pos: nat, r: int, errors: seq<Error>)
    requires Lexed(ts) && pos < |ts|
    requires var t := ts[pos].ty; !t.Not? && !t.Sub? && !t.LBrace? && !t.LBrack?
    requires var o := Nud(ts, pos, errors); o.Done? && o.errors == errors
    ensures var o := Nud(ts, pos, errors); Spells(ts, pos, o.node, o.pos, r)
  {
  }

  lemma {:induction false} SoundList(ts: seq<Token>, pos: nat, r: int, errors: seq<Error>)
    requires Lexed(ts) && pos < |ts| && ts[pos].ty.LBrace?
    requires var o := Nud(ts, pos, errors); o.Done? && o.errors == errors
    ensures var o := Nud(ts, pos, errors); Spells(ts, pos, o.node, o.pos, r)
    decreases |ts| - pos, 0
  {
    hide ParseItems, WalkList, ItemsRespect, Spells;
    SoundItems(ts, pos + 1, errors);
    var items := ParseItems(ts, pos + 1, errors);
    ListSpelled(ts, pos, r, items.nodes, items.pos);
  }

  /** A list whose closing brace is at `q`. */
  lemma ListSpelled(ts: seq<Token>, pos: nat, r: int, items: seq<Exp>, q: nat)
    requires Lexed(ts) && pos < |ts| && ts[pos].ty.LBrace? && q < |ts| && ts[q].ty.RBrace?
    requires ItemsRespect(items) && WalkList(ts, At(pos + 1), items, true, true) == At(q)
    ensures Spells(ts, pos, KeyValueList(items), q, r)
  {
    hide WalkList, ItemsRespect;
  }

  lemma {:induction false} SoundArray(ts: seq<Token>, pos: nat, r: int, errors: seq<Error>)
    requires Lexed(ts) && pos < |ts| && ts[pos].ty.LBrack?
    requires var o := Nud(ts, pos, errors); o.Done? && o.errors == errors
    ensures var o := Nud(ts, pos, errors); Spells(ts, pos, o.node, o.pos, r)
    decreases |ts| - pos, 0
  {
    hide ParseValues, WalkList, AllRespect;
    var values := ParseValues(ts, pos + 1, errors);
    SameErrors(errors, values.errors, Nud(ts, pos, errors).errors);
    SoundValues(ts, pos + 1, errors);
  }

  lemma {:induction false} SoundPrefixed(ts: seq<Token>, pos: nat, r: int, errors: seq<Error>)
    requires Lexed(ts) && pos < |ts| && (ts[pos].ty.Not? || ts[pos].ty.Sub?)
    requires var o := Prefixed(ts, pos, errors); o.Done? && o.errors == errors
    ensures var o := Prefixed(ts, pos, errors); Spells(ts, pos, o.node, o.pos, r)
    decreases |ts| - pos, 0
  {
    SoundExp(ts, pos + 1, UNARY_POWER, errors);
  }

  /** An operator at `pos` that binds to the tree `left` before it. */
  ghost predicate Binds(ts: seq<Token>, start: nat, pos: nat, r: int, left: Exp) {
    Lexed(ts) && r >= 0 && pos < |ts| && Spells(ts, start, left, pos, r) && r < BindingPower(ts[pos].ty)
  }

  lemma {:induction false} SoundLed(ts: seq<Token>, start: nat, pos: nat, r: int, left: Exp, errors: seq<Error>)
    requires Binds(ts, start, pos, r, left)
    requires var o := Led(ts, pos, left, errors); o.Done? && o.errors == errors
    ensures var o := Led(ts, pos, left, errors); Spells(ts, start, o.node, o.pos, r)
    decreases |ts| - pos, 0, 1
  {
    var t := ts[pos].ty;
    if IsLeftOperator(t) || IsRightOperator(t) {
      SoundInfixed(ts, start, pos, r, left, errors);
    } else if t.Period? {
      SoundSelector(ts, start, pos, r, left, errors);
    } else if t.LBrack? {
      SoundIndex(ts, start, pos, r, left, errors);
    } else if t.LParen? {
      SoundCalled(ts, start, pos, r, left, errors);
    }
  }

  lemma {:induction false} SoundInfixed(ts: seq<Token>, start: nat, pos: nat, r: int, left: Exp, errors: seq<Error>)
    requires Binds(ts, start, pos, r, left) && (IsLeftOperator(ts[pos].ty) || IsRightOperator(ts[pos].ty))
    requires var o := Infixed(ts, pos, left, RightPower(ts[pos].ty), errors); o.Done? && o.errors == errors
    ensures var o := Infixed(ts, pos, left, RightPower(ts[pos].ty), errors); Spells(ts, start, o.node, o.pos, r)
    decreases |ts| - pos, 0, 0
  {
    SoundExp(ts, pos + 1, RightPower(ts[pos].ty), errors);
  }

  lemma {:induction false} SoundSelector(ts: seq<Token>, start: nat, pos: nat, r: int, left: Exp, errors: seq<Error>)
    requires Binds(ts, start, pos, r, left) && ts[pos].ty.Period?
    requires var o := Led(ts, pos, left, errors); o.Done? && o.errors == errors
    ensures var o := Led(ts, pos, left, errors); Spells(ts, start, o.node, o.pos, r)
    decreases |ts| - pos, 0, 0
  {
    hide ParseExp, Walk, Respects, CanFollow;
    SoundExp(ts, pos + 1, BindingPower(Period), errors);
    var s := ParseExp(ts, pos + 1, BindingPower(Period), errors);
    SelectorSpelled(ts, start, pos, r, left, s.node, s.pos);
  }

  /** A selector that ends at `q`. */
  lemma SelectorSpelled(ts: seq<Token>, start: nat, pos: nat, r: int, left: Exp, s: Exp, q: nat)
    requires Binds(ts, start, pos, r, left) && ts[pos].ty.Period? && Sound(ts, pos + 1, s, q, BindingPower(Period))
    ensures Spells(ts, start, Selector(left, s), q, r)
  {
  }

  lemma {:induction false} SoundIndex(ts: seq<Token>, start: nat, pos: nat, r: int, left: Exp, errors: seq<Error>)
    requires Binds(ts, start, pos, r, left) && ts[pos].ty.LBrack?
    requires var o := Led(ts, pos, left, errors); o.Done? && o.errors == errors
    ensures var o := Led(ts, pos, left, errors); Spells(ts, start, o.node, o.pos, r)
    decreases |ts| - pos, 0, 0
  {
    hide ParseExp, Walk, Respects, CanFollow;
    var i := ParseExp(ts, pos + 1, 0, errors);
    SameErrors(errors, i.errors, Led(ts, pos, left, errors).errors);
    SoundExp(ts, pos + 1, 0, errors);
    IndexSpelled(ts, start, pos, r, left, i.node, i.pos);
  }

  /** An index whose closing bracket is at `q`. */
  lemma IndexSpelled(ts: seq<Token>, start: nat, pos: nat, r: int, left: Exp, i: Exp, q: nat)
    requires Binds(ts, start, pos, r, left) && ts[pos].ty.LBrack? && Sound(ts, pos + 1, i, q, 0) && ts[q].ty.RBrack?
    ensures Spells(ts, start, Index(left, i), q + 1, r)
  {
  }

  lemma {:induction false} SoundCalled(ts: seq<Token>, start: nat, pos: nat, r: int, left: Exp, errors: seq<Error>)
    requires Binds(ts, start, pos, r, left) && ts[pos].ty.LParen?
    requires var o := Called(ts, pos, left, errors); o.Done? && o.errors == errors
    ensures var o := Called(ts, pos, left, errors); Spells(ts, start, o.node, o.pos, r)
    decreases |ts| - pos, 0, 0
  {
    hide ParseArgs, Walk, Respects;
    if ts[pos + 1].ty.RParen? {
      CallSpelled(ts, start, pos, r, left, [], pos + 1);
    } else {
      var args := ParseArgs(ts, pos + 1, errors);
      SameErrors(errors, args.errors, Called(ts, pos, left, errors).errors);
      SoundArgs(ts, pos + 1, errors);
      CallSpelled(ts, start, pos, r, left, args.nodes, args.pos);
    }
  }

  /** A call whose closing parenthesis is at `q`. */
  lemma CallSpelled(ts: seq<Token>, start: nat, pos: nat, r: int, left: Exp, args: seq<Exp>, q: nat)
    requires Binds(ts, start, pos, r, left) && ts[pos].ty.LParen? && q < |ts| && ts[q].ty.RParen?
    requires if args == [] then q == pos + 1 else AllRespect(args, RParen) && WalkList(ts, At(pos + 1), args, true, false) == At(q)
    ensures Spells(ts, start, Call(left, args), q + 1, r)
  {
    hide Walk, Respects, BindingPower;
    CallRespects(ts, start, pos, r, left, args);
    CallWalks(ts, start, pos, left, args, q);
  }

  lemma CallRespects(ts: seq<Token>, start: nat, pos: nat, r: int, left: Exp, args: seq<Exp>)
    requires Binds(ts, start, pos, r, left) && ts[pos].ty.LParen? && AllRespect(args, RParen)
    ensures Respects(Call(left, args), r)
  {
    hide Walk, WalkList, AllRespect;
  }

  lemma CallWalks(ts: seq<Token>, start: nat, pos: nat, left: Exp, args: seq<Exp>, q: nat)
    requires pos < |ts| && ts[pos] == Mark(LParen) && q < |ts| && ts[q] == Mark(RParen)
    requires Walk(ts, At(start), left, true) == At(pos) && WalkList(ts, At(pos + 1), args, true, false) == At(q)
    ensures Walk(ts, At(start), Call(left, args), true) == At(q + 1)
  {
    hide WalkList;
  }

  /** Zero-power separators may follow the same trees, and a brace even more. */
  lemma {:induction false} FollowsAlike(e: Exp, t: TokenType, u: TokenType)
    requires CanFollow(e, t) && t.Comma? && (u.RBrack? || u.RBrace?)
    ensures CanFollow(e, u)
    decreases e
  {
    match e
    case Unary(_, x) => FollowsAlike(x, t, u);
    case Binary(_, _, x) => FollowsAlike(x, t, u);
    case Selector(_, s) => FollowsAlike(s, t, u);
    case KeyValue(_, v) => FollowsAlike(v, t, u);
    case _ =>
  }

  lemma {:induction false} SoundArgs(ts: seq<Token>, pos: nat, errors: seq<Error>)
    requires Lexed(ts)
    requires var o := ParseArgs(ts, pos, errors); o.List? && o.errors == errors
    ensures var o := ParseArgs(ts, pos, errors);
      && o.nodes != [] && AllRespect(o.nodes, RParen) && WalkList(ts, At(pos), o.nodes, true, false) == At(o.pos)
      && ts[o.pos].ty.RParen?
    decreases |ts| - pos, 3
  {
    var arg := ParseExp(ts, pos, 0, errors);
    SameErrors(errors, arg.errors, errors);
    SoundExp(ts, pos, 0, errors);
    if !ts[arg.pos].ty.RParen? {
      var (p, es) := Expect(ts, arg.pos, Comma, arg.errors);
      SameErrors(errors, es, ParseArgs(ts, pos, errors).errors);
      SoundArgs(ts, p, es);
    }
  }

  lemma {:induction false} SoundValues(ts: seq<Token>, pos: nat, errors: seq<Error>)
    requires Lexed(ts) && pos <= |ts|
    requires var o := ParseValues(ts, pos, errors); o.List? && o.errors == errors
    ensures var o := ParseValues(ts, pos, errors);
      && AllRespect(o.nodes, RBrack) && WalkList(ts, At(pos), o.nodes, true, true) == At(o.pos)
      && ts[o.pos].ty.RBrack?
    decreases |ts| - pos, 3
  {
    hide Walk, Respects, WalkList, AllRespect;
    if ts[pos].ty.RBrack? {
      NoValues(ts, pos);
    } else {
      var v := ParseExp(ts, pos, 0, errors);
      SameErrors(errors, v.errors, errors);
      SoundExp(ts, pos, 0, errors);
      var (p, es) := if ts[v.pos].ty.RBrack? then (v.pos, v.errors) else Expect(ts, v.pos, Comma, v.errors);
      SameErrors(errors, es, ParseValues(ts, pos, errors).errors);
      SoundValues(ts, p, es);
      var rest := ParseValues(ts, p, es);
      ValueJoined(ts, pos, v.node, v.pos, rest.nodes, p, rest.pos);
    }
  }

  lemma NoValues(ts: seq<Token>, pos: nat)
    requires pos < |ts|
    ensures AllRespect([], RBrack) && WalkList(ts, At(pos), [], true, true) == At(pos)
  {
  }

  /** One value before the others, `p` past its comma or at the bracket. */
  lemma ValueJoined(ts: seq<Token>, pos: nat, v: Exp, at: nat, rest: seq<Exp>, p: nat, end: nat)
    requires Lexed(ts) && at < |ts| && Spells(ts, pos, v, at, 0)
    requires (p == at && ts[at].ty.RBrack?) || (p == at + 1 && ts[at].ty.Comma?)
    requires p < |ts| && end < |ts| && ts[end].ty.RBrack?
    requires AllRespect(rest, RBrack) && WalkList(ts, At(p), rest, true, true) == At(end)
    requires p == at ==> rest == []
    ensures AllRespect([v] + rest, RBrack) && WalkList(ts, At(pos), [v] + rest, true, true) == At(end)
  {
    if ts[at].ty.Comma? {
      FollowsAlike(v, Comma, RBrack);
    }
  }

  lemma {:induction false} SoundItem(ts: seq<Token>, pos: nat, errors: seq<Error>)
    requires Lexed(ts) && pos < |ts|
    requires var o := ParseItem(ts, pos, errors); o.Done? && o.errors == errors
    ensures var o := ParseItem(ts, pos, errors);
      && o.pos < |ts| && ItemRespects(o.node, ts[o.pos].ty) && Walk(ts, At(pos), o.node, true) == At(o.pos)
    decreases |ts| - pos, 3
  {
    var first := ParseExp(ts, pos, 0, errors);
    SameErrors(errors, first.errors, ParseItem(ts, pos, errors).errors);
    SoundExp(ts, pos, 0, errors);
    if ts[first.pos].ty.Colon? {
      var value := ParseExp(ts, first.pos + 1, 0, errors);
      SoundExp(ts, first.pos + 1, 0, errors);
      SoundKeyed(ts, pos, first.node, first.pos, value.node, value.pos);
    }
  }

  lemma SoundKeyed(ts: seq<Token>, pos: nat, k: Exp, p: nat, v: Exp, q: nat)
    requires Lexed(ts) && Sound(ts, pos, k, p, 0) && ts[p].ty.Colon? && Sound(ts, p + 1, v, q, 0)
    ensures ItemRespects(KeyValue(k, v), ts[q].ty) && Walk(ts, At(pos), KeyValue(k, v), true) == At(q)
  {
  }

  lemma {:induction false} SoundItems(ts: seq<Token>, pos: nat, errors: seq<Error>)
    requires Lexed(ts) && pos <= |ts|
    requires var o := ParseItems(ts, pos, errors); o.List? && o.errors == errors
    ensures var o := ParseItems(ts, pos, errors);
      && ItemsRespect(o.nodes) && WalkList(ts, At(pos), o.nodes, true, true) == At(o.pos)
      && ts[o.pos].ty.RBrace?
    decreases |ts| - pos, 4
  {
    if !ts[pos].ty.RBrace? {
      var v := ParseItem(ts, pos, errors);
      SameErrors(errors, v.errors, errors);
      SoundItem(ts, pos, errors);
      var (p, es) := if ts[v.pos].ty.RBrace? then (v.pos, v.errors) else Expect(ts, v.pos, Comma, v.errors);
      SameErrors(errors, es, ParseItems(ts, pos, errors).errors);
      SoundItems(ts, p, es);
      if ts[v.pos].ty.Comma? {
        FollowsAlike(v.node.value, Comma, RBrace);
      }
    }
  }

  // ---------- the tokens consumed ----------

  /** The tokens `i..j` without the commas that end an array or a key/value list. */
  function Kept(ts: seq<Token>, i: nat, j: nat): seq<Token>
    requires i <= j <= |ts|
    decreases j - i
  {
    if i == j then []
    else Kept(ts, i, j - 1) + (if Trailing(ts, j - 1) then [] else [ts[j - 1]])
  }

  lemma {:induction false} KeptSplit(ts: seq<Token>, i: nat, j: nat, k: nat)
    requires i <= j <= k <= |ts|
    ensures Kept(ts, i, k) == Kept(ts, i, j) + Kept(ts, j, k)
    decreases k - j
  {
    if j < k {
      KeptSplit(ts, i, j, k - 1);
    }
  }

  lemma KeptOne(ts: seq<Token>, i: nat)
    requires i < |ts|
    ensures Kept(ts, i, i + 1) == if Trailing(ts, i) then [] else [ts[i]]
  {
    assert Kept(ts, i, i) == [];
  }

  /** Where spelling `s` loosely from `p` leads. */
  ghost predicate Covers(ts: seq<Token>, p: Place, s: seq<Token>, q: Place) {
    q.At? ==> p.At? && p.pos <= q.pos && (p.pos <= |ts| ==> q.pos <= |ts| && Kept(ts, p.pos, q.pos) == s)
  }

  lemma CoversSplit(ts: seq<Token>, p: Place, a: seq<Token>, q: Place, b: seq<Token>, r: Place)
    requires Covers(ts, p, a, q) && Covers(ts, q, b, r)
    ensures Covers(ts, p, a + b, r)
  {
    if r.At? && p.pos <= |ts| {
      KeptSplit(ts, p.pos, q.pos, r.pos);
    }
  }

  lemma CoversOne(ts: seq<Token>, p: Place, t: Token)
    requires !t.ty.Comma? || (p.At? ==> !Trailing(ts, p.pos))
    ensures Covers(ts, p, [t], One(ts, p, t))
  {
    if One(ts, p, t).At? {
      KeptOne(ts, p.pos);
    }
  }

  lemma CoversThree(ts: seq<Token>, p: Place, a: seq<Token>, q: Place, t: Token, b: seq<Token>, r: Place)
    requires Covers(ts, p, a, q) && !t.ty.Comma? && Covers(ts, One(ts, q, t), b, r)
    ensures Covers(ts, p, a + ([t] + b), r)
  {
    CoversOne(ts, q, t);
    CoversSplit(ts, q, [t], One(ts, q, t), b, r);
    CoversSplit(ts, p, a, q, [t] + b, r);
  }

  lemma CoversFour(ts: seq<Token>, p: Place, a: seq<Token>, q: Place, t: Token, b: seq<Token>, r: Place, close: Token)
    requires Covers(ts, p, a, q) && !t.ty.Comma? && Covers(ts, One(ts, q, t), b, r) && !close.ty.Comma?
    ensures Covers(ts, p, a + ([t] + (b + [close])), One(ts, r, close))
  {
    CoversOne(ts, r, close);
    CoversSplit(ts, One(ts, q, t), b, r, [close], One(ts, r, close));
    CoversThree(ts, p, a, q, t, b + [close], One(ts, r, close));
  }

  lemma {:induction false} LooselyKept(ts: seq<Token>, p: Place, e: Exp, r: int)
    requires Respects(e, r)
    ensures Covers(ts, p, Flatten(e), Walk(ts, p, e, true))
    decreases e, 0
  {
    match e
    case IdentExp(n) => CoversOne(ts, p, Token(Ident, n));
    case Literal(t) => CoversOne(ts, p, t);
    case Unary(op, x) =>
      LooselyKept(ts, One(ts, p, op), x, UNARY_POWER);
      CoversOne(ts, p, op);
      CoversSplit(ts, p, [op], One(ts, p, op), Flatten(x), Walk(ts, p, e, true));
    case Binary(l, op, x) =>
      LooselyKept(ts, p, l, r);
      LooselyKept(ts, One(ts, Walk(ts, p, l, true), op), x, RightPower(op.ty));
      CoversThree(ts, p, Flatten(l), Walk(ts, p, l, true), op, Flatten(x), Walk(ts, p, e, true));
    case Selector(x, s) =>
      var q := Walk(ts, p, x, true);
      LooselyKept(ts, p, x, r);
      LooselyKept(ts, One(ts, q, Mark(Period)), s, BindingPower(Period));
      CoversThree(ts, p, Flatten(x), q, Mark(Period), Flatten(s), Walk(ts, p, e, true));
    case Index(x, i) =>
      var q := Walk(ts, p, x, true);
      LooselyKept(ts, p, x, r);
      LooselyKept(ts, One(ts, q, Mark(LBrack)), i, 0);
      CoversFour(ts, p, Flatten(x), q, Mark(LBrack), Flatten(i), Walk(ts, One(ts, q, Mark(LBrack)), i, true), Mark(RBrack));
    case Call(f, args) =>
      var q := Walk(ts, p, f, true);
      LooselyKept(ts, p, f, r);
      ListKept(ts, One(ts, q, Mark(LParen)), args, RParen);
      CoversFour(ts, p, Flatten(f), q, Mark(LParen), Commas(args), WalkList(ts, One(ts, q, Mark(LParen)), args, true, false), Mark(RParen));
    case Array(vs) =>
      var q := One(ts, p, Mark(LBrack));
      ListKept(ts, q, vs, RBrack);
      CoversOne(ts, p, Mark(LBrack));
      var s := WalkList(ts, q, vs, true, true);
      CoversOne(ts, s, Mark(RBrack));
      CoversSplit(ts, q, Commas(vs), s, [Mark(RBrack)], One(ts, s, Mark(RBrack)));
      CoversSplit(ts, p, [Mark(LBrack)], q, Commas(vs) + [Mark(RBrack)], One(ts, s, Mark(RBrack)));
    case KeyValueList(items) =>
      var q := One(ts, p, Mark(LBrace));
      ItemsKept(ts, q, items);
      CoversOne(ts, p, Mark(LBrace));
      CoversSplit(ts, p, [Mark(LBrace)], q, Commas(items), WalkList(ts, q, items, true, true));
  }

  lemma CoversSkip(ts: seq<Token>, p: Place, a: seq<Token>, q: Place)
    requires Covers(ts, p, a, q)
    ensures Covers(ts, p, a, Skip(ts, q))
  {
    if q.At? && Trailing(ts, q.pos) {
      KeptOne(ts, q.pos);
      CoversSplit(ts, p, a, q, [], Skip(ts, q));
      assert a + [] == a;
    }
  }

  lemma CoversList(ts: seq<Token>, p: Place, a: seq<Token>, q: Place, b: seq<Token>, r: Place)
    requires Covers(ts, p, a, q) && Covers(ts, One(ts, q, Mark(Comma)), b, r) && (q.At? && Trailing(ts, q.pos) ==> r.Nowhere?)
    ensures Covers(ts, p, a + ([Mark(Comma)] + b), r)
  {
    var s := One(ts, q, Mark(Comma));
    if r.At? {
      CoversOne(ts, q, Mark(Comma));
      CoversSplit(ts, q, [Mark(Comma)], s, b, r);
      CoversSplit(ts, p, a, q, [Mark(Comma)] + b, r);
    }
  }

  lemma {:induction false} ListKept(ts: seq<Token>, p: Place, es: seq<Exp>, close: TokenType)
    requires AllRespect(es, close)
    ensures forall skip :: Covers(ts, p, Commas(es), WalkList(ts, p, es, true, skip))
    decreases es, 1
  {
    if es == [] {
    } else if |es| == 1 {
      LooselyKept(ts, p, es[0], 0);
      CoversSkip(ts, p, Flatten(es[0]), Walk(ts, p, es[0], true));
    } else {
      var q := Walk(ts, p, es[0], true);
      LooselyKept(ts, p, es[0], 0);
      ListKept(ts, One(ts, q, Mark(Comma)), es[1..], close);
      forall skip ensures Covers(ts, p, Commas(es), WalkList(ts, p, es, true, skip)) {
        var r := WalkList(ts, One(ts, q, Mark(Comma)), es[1..], true, skip);
        NextStarts(ts, One(ts, q, Mark(Comma)), es[1..], close, skip);
        CoversList(ts, p, Flatten(es[0]), q, Commas(es[1..]), r);
      }
    }
  }

  /** After a comma that more trees follow there is no closing token. */
  lemma NextStarts(ts: seq<Token>, p: Place, es: seq<Exp>, t: TokenType, skip: bool)
    requires es != [] && (Respects(es[0], 0) || ItemRespects(es[0], t))
    ensures WalkList(ts, p, es, true, skip).At? ==> p.At? && p.pos < |ts| && StartsExp(ts[p.pos].ty)
  {
    WalkListFrom(ts, p, es, true, skip);
    if p.At? && WalkList(ts, p, es, true, skip).At? {
      var q := Walk(ts, p, es[0], true);
      if |es| > 1 {
        WalkListFrom(ts, One(ts, q, Mark(Comma)), es[1..], true, skip);
      }
      if Respects(es[0], 0) {
        StartsTree(ts, p.pos, es[0], 0, true);
      } else {
        var e := es[0];
        if e.key.Missing? {
          StartsTree(ts, p.pos, e.value, 0, true);
        } else {
          WalkFrom(ts, One(ts, Walk(ts, p, e.key, true), Mark(Colon)), e.value, true);
          StartsTree(ts, p.pos, e.key, 0, true);
        }
      }
    }
  }

  lemma {:induction false} ItemKept(ts: seq<Token>, p: Place, e: Exp, t: TokenType)
    requires ItemRespects(e, t)
    ensures Covers(ts, p, Flatten(e), Walk(ts, p, e, true))
    decreases e, 0
  {
    if e.key.Missing? {
      LooselyKept(ts, p, e.value, 0);
    } else {
      var q := Walk(ts, p, e.key, true);
      LooselyKept(ts, p, e.key, 0);
      LooselyKept(ts, One(ts, q, Mark(Colon)), e.value, 0);
      CoversThree(ts, p, Flatten(e.key), q, Mark(Colon), Flatten(e.value), Walk(ts, p, e, true));
    }
  }

  lemma {:induction false} ItemsKept(ts: seq<Token>, p: Place, es: seq<Exp>)
    requires ItemsRespect(es)
    ensures Covers(ts, p, Commas(es), WalkList(ts, p, es, true, true))
    decreases es, 1
  {
    if es != [] {
      var q := Walk(ts, p, es[0], true);
      ItemKept(ts, p, es[0], if |es| == 1 then RBrace else Comma);
      if |es| == 1 {
        CoversSkip(ts, p, Flatten(es[0]), q);
      } else {
        ItemsKept(ts, One(ts, q, Mark(Comma)), es[1..]);
        NextStarts(ts, One(ts, q, Mark(Comma)), es[1..], if |es[1..]| == 1 then RBrace else Comma, true);
        CoversList(ts, p, Flatten(es[0]), q, Commas(es[1..]), WalkList(ts, One(ts, q, Mark(Comma)), es[1..], true, true));
      }
    }
  }

  // ---------- the theorems ----------

  /** Soundness: what is read without an error respects the binding powers, is
      spelled by the consumed tokens without the commas that end a list, and is not
      followed by a token that would bind to it. */
  lemma Soundness(ts: seq<Token>, pos: nat, r: int, errors: seq<Error>)
    requires Lexed(ts) && r >= 0
    requires var o := ParseExp(ts, pos, r, errors); o.Done? && o.errors == errors
    ensures var o := ParseExp(ts, pos, r, errors);
      && Respects(o.node, r) && pos <= o.pos < |ts| && Kept(ts, pos, o.pos) == Flatten(o.node)
      && BindingPower(ts[o.pos].ty) <= r && CanFollow(o.node, ts[o.pos].ty)
  {
    var o := ParseExp(ts, pos, r, errors);
    SoundExp(ts, pos, r, errors);
    LooselyKept(ts, At(pos), o.node, r);
  }

  lemma {:induction false} KeptAll(ts: seq<Token>, i: nat, j: nat)
    requires i <= j <= |ts|
    ensures |Kept(ts, i, j)| <= j - i
    ensures Kept(ts, i, j) == ts[i..j] <==> forall k :: i <= k < j ==> !Trailing(ts, k)
    decreases j - i
  {
    if i < j {
      KeptAll(ts, i, j - 1);
      assert ts[i..j] == ts[i..j - 1] + [ts[j - 1]];
      if Trailing(ts, j - 1) {
        assert |Kept(ts, i, j)| < |ts[i..j]|;
      } else if Kept(ts, i, j) == ts[i..j] {
        assert Kept(ts, i, j)[..j - 1 - i] == Kept(ts, i, j - 1);
      }
    }
  }

  /** The consumed tokens are the very spelling of the tree exactly when none of them
      is a comma right before a closing bracket or brace. */
  lemma ConsumedExactly(ts: seq<Token>, pos: nat, r: int, errors: seq<Error>)
    requires Lexed(ts) && r >= 0
    requires var o := ParseExp(ts, pos, r, errors); o.Done? && o.errors == errors
    ensures var o := ParseExp(ts, pos, r, errors);
      pos <= o.pos <= |ts| && (ts[pos..o.pos] == Flatten(o.node) <==> forall k :: pos <= k < o.pos ==> !Trailing(ts, k))
  {
    Soundness(ts, pos, r, errors);
    KeptAll(ts, pos, ParseExp(ts, pos, r, errors).pos);
  }

  /** The array `[x,]` is read without an error, and its last comma is in no spelling. */
  lemma TrailingCommaAccepted(x: string)
    ensures var ts := [Mark(LBrack), Token(Ident, x), Mark(Comma), Mark(RBrack), Mark(Semi)];
      ParseExp(ts, 0, 0, []) == Done(Array([IdentExp(x)]), 4, []) && ts[0..4] != Flatten(Array([IdentExp(x)]))
  {
    var ts := [Mark(LBrack), Token(Ident, x), Mark(Comma), Mark(RBrack), Mark(Semi)];
    assert ParseExp(ts, 1, 0, []) == Done(IdentExp(x), 2, []);
    assert ParseValues(ts, 3, []) == List([], 3, []);
    assert ParseValues(ts, 1, []) == List([IdentExp(x)], 3, []);
    assert Nud(ts, 0, []) == Done(Array([IdentExp(x)]), 4, []);
    assert Commas([IdentExp(x)]) == [Token(Ident, x)];
  }

  /** Every error-free result is the one tree that completeness promises: reading its
      own spelling gives it back. */
  lemma ReadAgain(ts: seq<Token>, pos: nat, r: int, errors: seq<Error>)
    requires Lexed(ts) && r >= 0
    requires var o := ParseExp(ts, pos, r, errors); o.Done? && o.errors == errors
    ensures var o := ParseExp(ts, pos, r, errors);
      o.pos < |ts| && ParseExp(Kept(ts, pos, o.pos) + [ts[o.pos]], 0, r, []) == Done(o.node, |Flatten(o.node)|, [])
  {
    Soundness(ts, pos, r, errors);
    var o := ParseExp(ts, pos, r, errors);
    Completeness(o.node, r, [ts[o.pos]], []);
  }

  /** Tokens that have no place in an expression: `<<=` has a place in the operator
      switch but no binding power, `>>=` has a power but no place. */
  predicate Foreign(t: TokenType) {
    t.ShlAssign? || t.ShrAssign? || t.Inc? || t.Dec?
  }

  predicate Native(ts: seq<Token>) {
    forall t :: t in ts ==> !Foreign(t.ty)
  }

  lemma NativeJoin(a: seq<Token>, t: Token, b: seq<Token>)
    requires Native(a) && !Foreign(t.ty) && Native(b)
    ensures Native(a + ([t] + b))
  {
  }

  /** No tree the parser can read contains one of them. */
  lemma {:induction false} NeverShifts(e: Exp, r: int)
    requires r >= 0 && Respects(e, r)
    ensures Native(Flatten(e))
    decreases e, 0
  {
    hide Commas, AllRespect, ItemsRespect;
    match e
    case IdentExp(_) =>
    case Literal(_) =>
    case Unary(_, x) => NeverShifts(x, UNARY_POWER);
    case Binary(l, op, x) =>
      NeverShifts(l, r);
      NeverShifts(x, RightPower(op.ty));
      NativeJoin(Flatten(l), op, Flatten(x));
    case Selector(x, s) =>
      NeverShifts(x, r);
      NeverShifts(s, BindingPower(Period));
      NativeJoin(Flatten(x), Mark(Period), Flatten(s));
    case Index(x, i) =>
      NeverShifts(x, r);
      NeverShifts(i, 0);
      NativeJoin(Flatten(x), Mark(LBrack), Flatten(i) + [Mark(RBrack)]);
    case Call(f, args) =>
      NeverShifts(f, r);
      NeverShiftsList(args, RParen);
      NativeJoin(Flatten(f), Mark(LParen), Commas(args) + [Mark(RParen)]);
    case Array(vs) => NeverShiftsList(vs, RBrack);
    case KeyValueList(items) => NeverShiftsItems(items);
  }

  lemma {:induction false} NeverShiftsList(es: seq<Exp>, close: TokenType)
    requires AllRespect(es, close)
    ensures Native(Commas(es))
    decreases es, 1
  {
    if es != [] {
      NeverShifts(es[0], 0);
      NeverShiftsList(es[1..], close);
    }
  }

  lemma {:induction false} NeverShiftsItems(es: seq<Exp>)
    requires ItemsRespect(es)
    ensures Native(Commas(es))
    decreases es, 1
  {
    if es != [] {
      NeverShiftsItem(es[0], if |es| == 1 then RBrace else Comma);
      NeverShiftsItems(es[1..]);
    }
  }

  lemma {:induction false} NeverShiftsItem(e: Exp, t: TokenType)
    requires ItemRespects(e, t)
    ensures Native(Flatten(e))
    decreases e, 0
  {
    NeverShifts(e.value, 0);
    if !e.key.Missing? {
      NeverShifts(e.key, 0);
    }
  }
}
