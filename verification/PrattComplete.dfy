/** Completeness: the parser reads back every tree that respects the binding powers. */
module PrattComplete {
  import opened Tokens
  import opened Pratt
  import opened Grammar

  // ---------- walking along a spelling ----------

  datatype Place = Nowhere | At(pos: nat)

  function One(ts: seq<Token>, p: Place, t: Token): Place {
    if p.At? && p.pos < |ts| && ts[p.pos] == t then At(p.pos + 1) else Nowhere
  }

  /** A comma that ends an array or a key/value list. */
  predicate Trailing(ts: seq<Token>, i: nat) {
    i + 1 < |ts| && ts[i].ty.Comma? && (ts[i + 1].ty.RBrack? || ts[i + 1].ty.RBrace?)
  }

  function Skip(ts: seq<Token>, p: Place): Place {
    if p.At? && Trailing(ts, p.pos) then At(p.pos + 1) else p
  }

  /** Where the tokens of `e` end if they start at `p`. When `loose`, an array or a
      key/value list may end in a comma. */
  function Walk(ts: seq<Token>, p: Place, e: Exp, loose: bool): Place
    decreases e
  {
    match e
    case Missing => p
    case IdentExp(n) => One(ts, p, Token(Ident, n))
    case Literal(t) => One(ts, p, t)
    case Unary(op, x) => Walk(ts, One(ts, p, op), x, loose)
    case Binary(l, op, x) => Walk(ts, One(ts, Walk(ts, p, l, loose), op), x, loose)
    case Selector(x, s) => Walk(ts, One(ts, Walk(ts, p, x, loose), Mark(Period)), s, loose)
    case Index(x, i) => One(ts, Walk(ts, One(ts, Walk(ts, p, x, loose), Mark(LBrack)), i, loose), Mark(RBrack))
    case Call(f, args) => One(ts, WalkList(ts, One(ts, Walk(ts, p, f, loose), Mark(LParen)), args, loose, false), Mark(RParen))
    case Array(vs) => One(ts, WalkList(ts, One(ts, p, Mark(LBrack)), vs, loose, loose), Mark(RBrack))
    case KeyValueList(items) => WalkList(ts, One(ts, p, Mark(LBrace)), items, loose, loose)
    case KeyValue(k, v) => if k.Missing? then Walk(ts, p, v, loose) else Walk(ts, One(ts, Walk(ts, p, k, loose), Mark(Colon)), v, loose)
  }

  /** A list; `skip` tells whether a comma may stand at its end. */
  function WalkList(ts: seq<Token>, p: Place, es: seq<Exp>, loose: bool, skip: bool): Place
    decreases es
  {
    if es == [] then p
    else
      var q := Walk(ts, p, es[0], loose);
      if |es| > 1 then WalkList(ts, One(ts, q, Mark(Comma)), es[1..], loose, skip)
      else if skip then Skip(ts, q) else q
  }

  /** Where `s` ends if it starts at `p`. */
  ghost function Along(ts: seq<Token>, p: Place, s: seq<Token>): Place {
    if p.At? && HasAt(ts, p.pos, s) then At(p.pos + |s|) else Nowhere
  }

  lemma AlongSplit(ts: seq<Token>, p: Place, a: seq<Token>, b: seq<Token>)
    ensures Along(ts, p, a + b) == Along(ts, Along(ts, p, a), b)
  {
    if p.At? {
      HasAtSplit(ts, p.pos, a, b);
    }
  }

  lemma AlongOne(ts: seq<Token>, p: Place, t: Token)
    ensures Along(ts, p, [t]) == One(ts, p, t)
  {
    if p.At? {
      HasOne(ts, p.pos, t);
    }
  }

  lemma AlongThree(ts: seq<Token>, p: Place, a: seq<Token>, t: Token, b: seq<Token>)
    ensures Along(ts, p, a + ([t] + b)) == Along(ts, One(ts, Along(ts, p, a), t), b)
  {
    AlongSplit(ts, p, a, [t] + b);
    AlongSplit(ts, Along(ts, p, a), [t], b);
    AlongOne(ts, Along(ts, p, a), t);
  }

  lemma AlongFour(ts: seq<Token>, p: Place, a: seq<Token>, t: Token, b: seq<Token>, close: Token)
    ensures Along(ts, p, a + ([t] + (b + [close]))) == One(ts, Along(ts, One(ts, Along(ts, p, a), t), b), close)
  {
    AlongThree(ts, p, a, t, b + [close]);
    var q := One(ts, Along(ts, p, a), t);
    AlongSplit(ts, q, b, [close]);
    AlongOne(ts, Along(ts, q, b), close);
  }

  lemma AlongNothing(ts: seq<Token>, p: Place)
    requires p.At? ==> p.pos <= |ts|
    ensures Along(ts, p, []) == p
  {
  }

  predicate Inside(ts: seq<Token>, p: Place) {
    p.At? ==> p.pos <= |ts|
  }

  /** Walking along a tree is walking along its spelling. */
  lemma {:induction false} WalkFlatten(ts: seq<Token>, p: Place, e: Exp)
    requires Inside(ts, p)
    ensures Walk(ts, p, e, false) == Along(ts, p, Flatten(e)) && Inside(ts, Walk(ts, p, e, false))
    decreases e
  {
    match e
    case Missing => AlongNothing(ts, p);
    case IdentExp(n) => AlongOne(ts, p, Token(Ident, n));
    case Literal(t) => AlongOne(ts, p, t);
    case Unary(op, x) =>
      AlongSplit(ts, p, [op], Flatten(x));
      AlongOne(ts, p, op);
      WalkFlatten(ts, One(ts, p, op), x);
    case Binary(l, op, x) =>
      AlongThree(ts, p, Flatten(l), op, Flatten(x));
      WalkFlatten(ts, p, l);
      WalkFlatten(ts, One(ts, Walk(ts, p, l, false), op), x);
    case Selector(x, s) =>
      AlongThree(ts, p, Flatten(x), Mark(Period), Flatten(s));
      WalkFlatten(ts, p, x);
      WalkFlatten(ts, One(ts, Walk(ts, p, x, false), Mark(Period)), s);
    case Index(x, i) =>
      AlongFour(ts, p, Flatten(x), Mark(LBrack), Flatten(i), Mark(RBrack));
      WalkFlatten(ts, p, x);
      WalkFlatten(ts, One(ts, Walk(ts, p, x, false), Mark(LBrack)), i);
    case Call(f, args) =>
      AlongFour(ts, p, Flatten(f), Mark(LParen), Commas(args), Mark(RParen));
      WalkFlatten(ts, p, f);
      WalkCommas(ts, One(ts, Walk(ts, p, f, false), Mark(LParen)), args);
    case Array(vs) =>
      AlongSplit(ts, p, [Mark(LBrack)], Commas(vs) + [Mark(RBrack)]);
      AlongOne(ts, p, Mark(LBrack));
      var q := One(ts, p, Mark(LBrack));
      AlongSplit(ts, q, Commas(vs), [Mark(RBrack)]);
      WalkCommas(ts, q, vs);
      AlongOne(ts, WalkList(ts, q, vs, false, false), Mark(RBrack));
    case KeyValueList(items) =>
      AlongSplit(ts, p, [Mark(LBrace)], Commas(items));
      AlongOne(ts, p, Mark(LBrace));
      WalkCommas(ts, One(ts, p, Mark(LBrace)), items);
    case KeyValue(k, v) =>
      if k.Missing? {
        WalkFlatten(ts, p, v);
      } else {
        AlongThree(ts, p, Flatten(k), Mark(Colon), Flatten(v));
        WalkFlatten(ts, p, k);
        WalkFlatten(ts, One(ts, Walk(ts, p, k, false), Mark(Colon)), v);
      }
  }

  lemma {:induction false} WalkCommas(ts: seq<Token>, p: Place, es: seq<Exp>)
    requires Inside(ts, p)
    ensures WalkList(ts, p, es, false, false) == Along(ts, p, Commas(es)) && Inside(ts, WalkList(ts, p, es, false, false))
    decreases es
  {
    if es == [] {
      AlongNothing(ts, p);
    } else {
      WalkFlatten(ts, p, es[0]);
      if |es| > 1 {
        AlongThree(ts, p, Flatten(es[0]), Mark(Comma), Commas(es[1..]));
        WalkCommas(ts, One(ts, Walk(ts, p, es[0], false), Mark(Comma)), es[1..]);
      }
    }
  }

  // ---------- single steps of the parser ----------

  lemma PrefixStep(ts: seq<Token>, pos: nat, r: int, errors: seq<Error>, e: Exp, p: nat)
    requires pos < |ts| && Nud(ts, pos, errors) == Done(e, p, errors) && !e.Missing?
    ensures ParseExp(ts, pos, r, errors) == LedLoop(ts, p, r, e, errors)
  {
  }

  lemma InfixStep(ts: seq<Token>, at: nat, r: int, left: Exp, errors: seq<Error>, e: Exp, p: nat)
    requires at < |ts| && !left.Missing? && r < BindingPower(ts[at].ty)
    requires Led(ts, at, left, errors) == Done(e, p, errors) && !e.Missing?
    ensures LedLoop(ts, at, r, left, errors) == LedLoop(ts, p, r, e, errors)
  {
  }

  lemma StopStep(ts: seq<Token>, pos: nat, r: int, e: Exp, errors: seq<Error>)
    requires pos < |ts| && !e.Missing? && BindingPower(ts[pos].ty) <= r
    ensures LedLoop(ts, pos, r, e, errors) == Done(e, pos, errors)
  {
  }

  lemma CallStep(ts: seq<Token>, at: nat, left: Exp, errors: seq<Error>, es: seq<Exp>, p: nat)
    requires at + 1 < |ts| && ts[at].ty.LParen? && p < |ts| && ts[p].ty.RParen?
    requires if es == [] then p == at + 1 else !ts[at + 1].ty.RParen? && ParseArgs(ts, at + 1, errors) == List(es, p, errors)
    ensures Led(ts, at, left, errors) == Done(Call(left, es), p + 1, errors)
  {
  }

  lemma ItemListStep(ts: seq<Token>, at: nat, errors: seq<Error>, es: seq<Exp>, p: nat)
    requires at < |ts| && ts[at].ty.LBrace? && ParseItems(ts, at + 1, errors) == List(es, p, errors)
    ensures Nud(ts, at, errors) == Done(KeyValueList(es), p, errors)
  {
  }

  lemma ItemStep(ts: seq<Token>, pos: nat, errors: seq<Error>, k: Exp, p: nat, v: Exp, q: nat)
    requires pos < |ts| && p < |ts|
    requires if k.Missing? then p == q && !ts[p].ty.Colon? && ParseExp(ts, pos, 0, errors) == Done(v, q, errors)
      else ParseExp(ts, pos, 0, errors) == Done(k, p, errors) && ts[p].ty.Colon? && ParseExp(ts, p + 1, 0, errors) == Done(v, q, errors)
    ensures ParseItem(ts, pos, errors) == Done(KeyValue(k, v), q, errors)
  {
  }

  lemma ArrayStep(ts: seq<Token>, pos: nat, errors: seq<Error>, vs: seq<Exp>, q: nat)
    requires pos < |ts| && ts[pos].ty.LBrack? && 0 < q <= |ts| && ts[q - 1].ty.RBrack?
    requires ParseValues(ts, pos + 1, errors) == List(vs, q - 1, errors)
    ensures Nud(ts, pos, errors) == Done(Array(vs), q, errors)
  {
  }

  /** A value with the comma after it, or the last one. */
  lemma ValuesStep(ts: seq<Token>, pos: nat, errors: seq<Error>, e: Exp, p: nat, rest: seq<Exp>, q: nat)
    requires pos < |ts| && !ts[pos].ty.RBrack? && !e.Missing? && p < |ts|
    requires ParseExp(ts, pos, 0, errors) == Done(e, p, errors)
    requires ts[p].ty.RBrack? || ts[p].ty.Comma?
    requires ParseValues(ts, if ts[p].ty.RBrack? then p else p + 1, errors) == List(rest, q, errors)
    ensures ParseValues(ts, pos, errors) == List([e] + rest, q, errors)
  {
  }

  lemma ArgsStep(ts: seq<Token>, pos: nat, errors: seq<Error>, e: Exp, p: nat, rest: seq<Exp>, q: nat)
    requires !e.Missing? && p < |ts| && ParseExp(ts, pos, 0, errors) == Done(e, p, errors)
    requires if rest == [] then p == q && ts[p].ty.RParen? else ts[p].ty.Comma? && ParseArgs(ts, p + 1, errors) == List(rest, q, errors)
    ensures ParseArgs(ts, pos, errors) == List([e] + rest, q, errors)
  {
  }

  // ---------- trees ----------

  /** The tokens of `e` are at `pos`, and the token after them may follow `e`. */
  ghost predicate Spelled(ts: seq<Token>, pos: nat, e: Exp) {
    var q := Walk(ts, At(pos), e, false);
    q.At? && q.pos < |ts| && CanFollow(e, ts[q.pos].ty)
  }

  lemma {:induction false} WalkFrom(ts: seq<Token>, p: Place, e: Exp, loose: bool)
    ensures p.Nowhere? ==> Walk(ts, p, e, loose).Nowhere?
    decreases e
  {
    match e
    case Missing =>
    case IdentExp(_) =>
    case Literal(_) =>
    case Unary(op, x) => WalkFrom(ts, One(ts, p, op), x, loose);
    case Binary(l, op, x) =>
      WalkFrom(ts, p, l, loose);
      WalkFrom(ts, One(ts, Walk(ts, p, l, loose), op), x, loose);
    case Selector(x, s) =>
      WalkFrom(ts, p, x, loose);
      WalkFrom(ts, One(ts, Walk(ts, p, x, loose), Mark(Period)), s, loose);
    case Index(x, i) =>
      WalkFrom(ts, p, x, loose);
      WalkFrom(ts, One(ts, Walk(ts, p, x, loose), Mark(LBrack)), i, loose);
    case Call(f, args) =>
      WalkFrom(ts, p, f, loose);
      WalkListFrom(ts, One(ts, Walk(ts, p, f, loose), Mark(LParen)), args, loose, false);
    case Array(vs) => WalkListFrom(ts, One(ts, p, Mark(LBrack)), vs, loose, loose);
    case KeyValueList(items) => WalkListFrom(ts, One(ts, p, Mark(LBrace)), items, loose, loose);
    case KeyValue(k, v) =>
      WalkFrom(ts, p, v, loose);
      if !k.Missing? {
        WalkFrom(ts, p, k, loose);
        WalkFrom(ts, One(ts, Walk(ts, p, k, loose), Mark(Colon)), v, loose);
      }
  }

  lemma {:induction false} WalkListFrom(ts: seq<Token>, p: Place, es: seq<Exp>, loose: bool, skip: bool)
    ensures p.Nowhere? ==> WalkList(ts, p, es, loose, skip).Nowhere?
    decreases es
  {
    if es != [] {
      WalkFrom(ts, p, es[0], loose);
      if |es| > 1 {
        WalkListFrom(ts, One(ts, Walk(ts, p, es[0], loose), Mark(Comma)), es[1..], loose, skip);
      }
    }
  }

  predicate StartsExp(t: TokenType) {
    t.Ident? || IsLiteral(t) || t.Not? || t.Sub? || t.LBrack? || t.LBrace?
  }

  /** A tree never starts with a token that closes or separates. */
  lemma {:induction false} StartsTree(ts: seq<Token>, pos: nat, e: Exp, r: int, loose: bool)
    requires Respects(e, r) && Walk(ts, At(pos), e, loose).At?
    ensures pos < |ts| && StartsExp(ts[pos].ty)
    decreases e
  {
    var p := At(pos);
    match e
    case IdentExp(_) =>
    case Literal(_) =>
    case Unary(op, x) => WalkFrom(ts, One(ts, p, op), x, loose);
    case Binary(l, op, x) =>
      WalkFrom(ts, One(ts, Walk(ts, p, l, loose), op), x, loose);
      StartsTree(ts, pos, l, r, loose);
    case Selector(x, s) =>
      WalkFrom(ts, One(ts, Walk(ts, p, x, loose), Mark(Period)), s, loose);
      StartsTree(ts, pos, x, r, loose);
    case Index(x, i) =>
      WalkFrom(ts, One(ts, Walk(ts, p, x, loose), Mark(LBrack)), i, loose);
      StartsTree(ts, pos, x, r, loose);
    case Call(f, args) =>
      WalkListFrom(ts, One(ts, Walk(ts, p, f, loose), Mark(LParen)), args, loose, false);
      StartsTree(ts, pos, f, r, loose);
    case Array(vs) => WalkListFrom(ts, One(ts, p, Mark(LBrack)), vs, loose, loose);
    case KeyValueList(items) => WalkListFrom(ts, One(ts, p, Mark(LBrace)), items, loose, loose);
  }

  /** Reading `e` gets the parser to the point where it has `e` in hand and asks
      whether the next token binds to it. */
  lemma {:induction false} ReadsTree(ts: seq<Token>, pos: nat, e: Exp, r: int, errors: seq<Error>)
    requires Respects(e, r) && r >= 0 && Spelled(ts, pos, e)
    ensures ParseExp(ts, pos, r, errors) == LedLoop(ts, Walk(ts, At(pos), e, false).pos, r, e, errors)
    decreases e, 1
  {
    match e
    case IdentExp(n) => PrefixStep(ts, pos, r, errors, e, pos + 1);
    case Literal(t) => PrefixStep(ts, pos, r, errors, e, pos + 1);
    case Unary(op, x) => ReadsUnary(ts, pos, e, r, errors);
    case Binary(_, _, _) => ReadsBinary(ts, pos, e, r, errors);
    case Selector(_, _) => ReadsSelector(ts, pos, e, r, errors);
    case Index(_, _) => ReadsIndex(ts, pos, e, r, errors);
    case Call(_, _) => ReadsCall(ts, pos, e, r, errors);
    case Array(vs) => ReadsArray(ts, pos, e, r, errors);
    case KeyValueList(items) => ReadsKeyValueList(ts, pos, e, r, errors);
  }

  /** When nothing stronger than `r` follows, the result is exactly `e`. */
  lemma {:induction false} Reads(ts: seq<Token>, pos: nat, e: Exp, r: int, errors: seq<Error>)
    requires Respects(e, r) && r >= 0 && Spelled(ts, pos, e)
    requires BindingPower(ts[Walk(ts, At(pos), e, false).pos].ty) <= r
    ensures ParseExp(ts, pos, r, errors) == Done(e, Walk(ts, At(pos), e, false).pos, errors)
    decreases e, 2
  {
    ReadsTree(ts, pos, e, r, errors);
    StopStep(ts, Walk(ts, At(pos), e, false).pos, r, e, errors);
  }

  lemma {:induction false} ReadsUnary(ts: seq<Token>, pos: nat, e: Exp, r: int, errors: seq<Error>)
    requires e.Unary? && Respects(e, r) && r >= 0 && Spelled(ts, pos, e)
    ensures ParseExp(ts, pos, r, errors) == LedLoop(ts, Walk(ts, At(pos), e, false).pos, r, e, errors)
    decreases e, 0
  {
    WalkFrom(ts, One(ts, At(pos), e.uop), e.right, false);
    Reads(ts, pos + 1, e.right, UNARY_POWER, errors);
    PrefixStep(ts, pos, r, errors, e, Walk(ts, At(pos), e, false).pos);
  }

  lemma {:induction false} ReadsBinary(ts: seq<Token>, pos: nat, e: Exp, r: int, errors: seq<Error>)
    requires e.Binary? && Respects(e, r) && r >= 0 && Spelled(ts, pos, e)
    ensures ParseExp(ts, pos, r, errors) == LedLoop(ts, Walk(ts, At(pos), e, false).pos, r, e, errors)
    decreases e, 0
  {
    hide ParseExp, LedLoop;
    var q := Walk(ts, At(pos), e.left, false);
    WalkFrom(ts, One(ts, q, e.op), e.rhs, false);
    ReadsTree(ts, pos, e.left, r, errors);
    Reads(ts, q.pos + 1, e.rhs, RightPower(e.op.ty), errors);
    InfixStep(ts, q.pos, r, e.left, errors, e, Walk(ts, At(pos), e, false).pos);
  }

  lemma {:induction false} ReadsSelector(ts: seq<Token>, pos: nat, e: Exp, r: int, errors: seq<Error>)
    requires e.Selector? && Respects(e, r) && r >= 0 && Spelled(ts, pos, e)
    ensures ParseExp(ts, pos, r, errors) == LedLoop(ts, Walk(ts, At(pos), e, false).pos, r, e, errors)
    decreases e, 0
  {
    var q := Walk(ts, At(pos), e.exp, false);
    WalkFrom(ts, One(ts, q, Mark(Period)), e.selector, false);
    ReadsTree(ts, pos, e.exp, r, errors);
    Reads(ts, q.pos + 1, e.selector, BindingPower(Period), errors);
    InfixStep(ts, q.pos, r, e.exp, errors, e, Walk(ts, At(pos), e, false).pos);
  }

  lemma {:induction false} ReadsIndex(ts: seq<Token>, pos: nat, e: Exp, r: int, errors: seq<Error>)
    requires e.Index? && Respects(e, r) && r >= 0 && Spelled(ts, pos, e)
    ensures ParseExp(ts, pos, r, errors) == LedLoop(ts, Walk(ts, At(pos), e, false).pos, r, e, errors)
    decreases e, 0
  {
    var q := Walk(ts, At(pos), e.base, false);
    WalkFrom(ts, One(ts, q, Mark(LBrack)), e.index, false);
    ReadsTree(ts, pos, e.base, r, errors);
    Reads(ts, q.pos + 1, e.index, 0, errors);
    InfixStep(ts, q.pos, r, e.base, errors, e, Walk(ts, At(pos), e, false).pos);
  }

  lemma {:induction false} ReadsCall(ts: seq<Token>, pos: nat, e: Exp, r: int, errors: seq<Error>)
    requires e.Call? && Respects(e, r) && r >= 0 && Spelled(ts, pos, e)
    ensures ParseExp(ts, pos, r, errors) == LedLoop(ts, Walk(ts, At(pos), e, false).pos, r, e, errors)
    decreases e, 0
  {
    var q := Walk(ts, At(pos), e.callee, false);
    WalkListFrom(ts, One(ts, q, Mark(LParen)), e.args, false, false);
    ReadsTree(ts, pos, e.callee, r, errors);
    ReadsArguments(ts, q.pos, e.callee, e.args, errors);
    InfixStep(ts, q.pos, r, e.callee, errors, e, Walk(ts, At(pos), e, false).pos);
  }

  lemma {:induction false} ReadsArguments(ts: seq<Token>, at: nat, f: Exp, args: seq<Exp>, errors: seq<Error>)
    requires at < |ts| && ts[at].ty.LParen? && AllRespect(args, RParen) && ListAt(ts, at + 1, args, RParen)
    ensures Led(ts, at, f, errors) == Done(Call(f, args), WalkList(ts, At(at + 1), args, false, false).pos + 1, errors)
    decreases args, 1
  {
    if args != [] {
      ReadsArgs(ts, at + 1, args, errors);
      StartsList(ts, at + 1, args);
    }
    CallStep(ts, at, f, errors, args, WalkList(ts, At(at + 1), args, false, false).pos);
  }

  lemma {:induction false} ReadsArray(ts: seq<Token>, pos: nat, e: Exp, r: int, errors: seq<Error>)
    requires e.Array? && Respects(e, r) && r >= 0 && Spelled(ts, pos, e)
    ensures ParseExp(ts, pos, r, errors) == LedLoop(ts, Walk(ts, At(pos), e, false).pos, r, e, errors)
    decreases e, 0
  {
    WalkListFrom(ts, One(ts, At(pos), Mark(LBrack)), e.values, false, false);
    ReadsValues(ts, pos + 1, e.values, errors);
    ArrayStep(ts, pos, errors, e.values, Walk(ts, At(pos), e, false).pos);
    PrefixStep(ts, pos, r, errors, e, Walk(ts, At(pos), e, false).pos);
  }

  lemma {:induction false} ReadsKeyValueList(ts: seq<Token>, pos: nat, e: Exp, r: int, errors: seq<Error>)
    requires e.KeyValueList? && Respects(e, r) && r >= 0 && Spelled(ts, pos, e)
    ensures ParseExp(ts, pos, r, errors) == LedLoop(ts, Walk(ts, At(pos), e, false).pos, r, e, errors)
    decreases e, 0
  {
    WalkListFrom(ts, One(ts, At(pos), Mark(LBrace)), e.items, false, false);
    ReadsItems(ts, pos + 1, e.items, errors);
    ItemListStep(ts, pos, errors, e.items, Walk(ts, At(pos), e, false).pos);
    PrefixStep(ts, pos, r, errors, e, Walk(ts, At(pos), e, false).pos);
  }

  // ---------- lists ----------

  /** A list is one tree, or a tree, a comma and a list. */
  lemma ListParts(ts: seq<Token>, pos: nat, es: seq<Exp>)
    requires es != [] && WalkList(ts, At(pos), es, false, false).At?
    ensures var q := Walk(ts, At(pos), es[0], false);
      && q.At?
      && (|es| == 1 ==> WalkList(ts, At(pos), es, false, false) == q)
      && (|es| > 1 ==> q.pos < |ts| && ts[q.pos] == Mark(Comma) && WalkList(ts, At(pos), es, false, false) == WalkList(ts, At(q.pos + 1), es[1..], false, false))
  {
    if |es| > 1 {
      WalkListFrom(ts, One(ts, Walk(ts, At(pos), es[0], false), Mark(Comma)), es[1..], false, false);
    }
  }

  lemma StartsList(ts: seq<Token>, pos: nat, es: seq<Exp>)
    requires es != [] && Respects(es[0], 0) && WalkList(ts, At(pos), es, false, false).At?
    ensures pos < |ts| && StartsExp(ts[pos].ty)
  {
    ListParts(ts, pos, es);
    StartsTree(ts, pos, es[0], 0, false);
  }

  /** The list `es` is at `pos` and a token of type `close` comes after it. */
  ghost predicate ListAt(ts: seq<Token>, pos: nat, es: seq<Exp>, close: TokenType) {
    var q := WalkList(ts, At(pos), es, false, false);
    q.At? && q.pos < |ts| && ts[q.pos].ty == close
  }

  lemma {:induction false} ReadsArgs(ts: seq<Token>, pos: nat, es: seq<Exp>, errors: seq<Error>)
    requires es != [] && AllRespect(es, RParen) && ListAt(ts, pos, es, RParen)
    ensures ParseArgs(ts, pos, errors) == List(es, WalkList(ts, At(pos), es, false, false).pos, errors)
    decreases es, 0
  {
    hide Trailing, Expect, Walk, CanFollow;
    ListParts(ts, pos, es);
    Reads(ts, pos, es[0], 0, errors);
    if |es| > 1 {
      ReadsArgs(ts, Walk(ts, At(pos), es[0], false).pos + 1, es[1..], errors);
    }
    ArgsStep(ts, pos, errors, es[0], Walk(ts, At(pos), es[0], false).pos, es[1..], WalkList(ts, At(pos), es, false, false).pos);
  }

  lemma {:induction false} ReadsValues(ts: seq<Token>, pos: nat, es: seq<Exp>, errors: seq<Error>)
    requires pos <= |ts| && AllRespect(es, RBrack) && ListAt(ts, pos, es, RBrack)
    ensures ParseValues(ts, pos, errors) == List(es, WalkList(ts, At(pos), es, false, false).pos, errors)
    decreases es
  {
    hide Trailing, Expect, Walk, CanFollow;
    if es != [] {
      ListParts(ts, pos, es);
      StartsList(ts, pos, es);
      Reads(ts, pos, es[0], 0, errors);
      var at := Walk(ts, At(pos), es[0], false).pos;
      ReadsValues(ts, if |es| == 1 then at else at + 1, es[1..], errors);
      ValuesStep(ts, pos, errors, es[0], at, es[1..], WalkList(ts, At(pos), es, false, false).pos);
    }
  }

  lemma {:induction false} ReadsItem(ts: seq<Token>, pos: nat, e: Exp, t: TokenType, errors: seq<Error>)
    requires ItemRespects(e, t) && (t.Comma? || t.RBrace?)
    requires var q := Walk(ts, At(pos), e, false); q.At? && q.pos < |ts| && ts[q.pos].ty == t
    ensures pos < |ts| && ParseItem(ts, pos, errors) == Done(e, Walk(ts, At(pos), e, false).pos, errors)
    ensures StartsExp(ts[pos].ty)
    decreases e
  {
    if e.key.Missing? {
      StartsTree(ts, pos, e.value, 0, false);
      Reads(ts, pos, e.value, 0, errors);
      var q := Walk(ts, At(pos), e.value, false);
      ItemStep(ts, pos, errors, Missing, q.pos, e.value, q.pos);
    } else {
      var q := Walk(ts, At(pos), e.key, false);
      WalkFrom(ts, One(ts, q, Mark(Colon)), e.value, false);
      StartsTree(ts, pos, e.key, 0, false);
      Reads(ts, pos, e.key, 0, errors);
      Reads(ts, q.pos + 1, e.value, 0, errors);
      ItemStep(ts, pos, errors, e.key, q.pos, e.value, Walk(ts, At(pos), e, false).pos);
    }
  }

  lemma {:induction false} ReadsItems(ts: seq<Token>, pos: nat, es: seq<Exp>, errors: seq<Error>)
    requires pos <= |ts| && ItemsRespect(es) && ListAt(ts, pos, es, RBrace)
    ensures ParseItems(ts, pos, errors) == List(es, WalkList(ts, At(pos), es, false, false).pos, errors)
    decreases es
  {
    hide ParseItem, Walk, ItemRespects;
    if es != [] {
      ListParts(ts, pos, es);
      ReadsItem(ts, pos, es[0], if |es| == 1 then RBrace else Comma, errors);
      var at := Walk(ts, At(pos), es[0], false).pos;
      ReadsItems(ts, if |es| == 1 then at else at + 1, es[1..], errors);
    }
  }

  // ---------- the theorems ----------

  /** Completeness: a respecting tree, spelled out and followed by a token that does
      not bind into it, is read back exactly, without an error. */
  lemma Completeness(e: Exp, r: int, rest: seq<Token>, errors: seq<Error>)
    requires r >= 0 && Respects(e, r) && rest != []
    requires BindingPower(rest[0].ty) <= r && CanFollow(e, rest[0].ty)
    ensures ParseExp(Flatten(e) + rest, 0, r, errors) == Done(e, |Flatten(e)|, errors)
  {
    hide Walk, Respects;
    var ts := Flatten(e) + rest;
    assert ts[0..|Flatten(e)|] == Flatten(e) && ts[|Flatten(e)|] == rest[0];
    WalkFlatten(ts, At(0), e);
    Reads(ts, 0, e, r, errors);
  }

  /** A closing brace may follow any tree. */
  lemma {:induction false} BraceFollows(e: Exp, r: int)
    requires r >= 0 && Respects(e, r)
    ensures CanFollow(e, RBrace)
    decreases e
  {
    match e
    case Unary(_, x) => BraceFollows(x, UNARY_POWER);
    case Binary(_, op, x) => BraceFollows(x, RightPower(op.ty));
    case Selector(_, s) => BraceFollows(s, BindingPower(Period));
    case _ =>
  }

  /** Unambiguity: the binding powers allow at most one tree for a token sequence. */
  lemma Unambiguous(a: Exp, b: Exp, r: int)
    requires r >= 0 && Respects(a, r) && Respects(b, r) && Flatten(a) == Flatten(b)
    ensures a == b
  {
    BraceFollows(a, r);
    BraceFollows(b, r);
    Completeness(a, r, [Mark(RBrace)], []);
    Completeness(b, r, [Mark(RBrace)], []);
  }
}
