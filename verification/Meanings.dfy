/** What the words and symbols of a program mean, from their spelling to the numbers they
    stand for. */
module Meanings {
  import opened Wrappers
  import opened Tokens
  import opened Ints
  import opened IntLaws
  import opened Source
  import opened Statements
  import opened StatementGrammar
  import opened Frontend
  import opened Assignments
  import LexTheorems
  import Pratt
  import Scopes
  import Ir
  import Programs

  // ---------- numbers ----------

  function Power(base: int, n: nat): int {
    if n == 0 then 1 else base * Power(base, n - 1)
  }

  predicate Digits(s: string) { forall i :: 0 <= i < |s| ==> '0' <= s[i] <= '9' }

  /** Each digit times the power of its place. */
  function Weighed(s: string, base: int): int {
    if s == "" then 0 else (s[0] as int - '0' as int) * Power(base, |s| - 1) + Weighed(s[1..], base)
  }

  lemma {:induction false} WeighedLast(s: string, c: char, base: int)
    ensures Weighed(s + [c], base) == Weighed(s, base) * base + (c as int - '0' as int)
    decreases |s|
  {
    var t := s + [c];
    if s == "" {
      assert t == [c] && t[1..] == "";
      assert Power(base, 0) == 1;
    } else {
      assert t[0] == s[0] && t[1..] == s[1..] + [c];
      WeighedLast(s[1..], c, base);
      var d, p, w := s[0] as int - '0' as int, Power(base, |s| - 1), Weighed(s[1..], base);
      assert Power(base, |t| - 1) == base * p;
      Distributed(d, p, w, base);
    }
  }

  lemma Distributed(d: int, p: int, w: int, base: int)
    ensures d * (base * p) + w * base == (d * p + w) * base
  {
    assert (d * p + w) * base == d * p * base + w * base;
    assert d * p * base == d * (p * base);
  }

  /** A number is the sum of its digits, each in its place; what has another character in it
      is none. */
  lemma {:induction false} NumberIs(s: string, base: int)
    ensures Number(s, base) == if Digits(s) then Some(Weighed(s, base)) else None
    decreases |s|
  {
    if s != "" {
      var most, c := s[..|s| - 1], s[|s| - 1];
      NumberIs(most, base);
      assert s == most + [c];
      WeighedLast(most, c, base);
      assert Digits(s) <==> Digits(most) && '0' <= c <= '9' by {
        if Digits(s) { assert forall i :: 0 <= i < |most| ==> most[i] == s[i]; }
      }
    }
  }

  /** Literals are decimal, hexadecimal with `0x`, and octal with a leading zero. */
  lemma LiteralIs(t: Token)
    requires Digits(t.value)
    ensures t.ty.Int? ==> LiteralOf(t) == Some(Weighed(t.value, 10))
    ensures t.ty.Hex? ==> LiteralOf(t) == Some(Weighed(t.value, 16))
    ensures t.ty.Octal? ==> LiteralOf(t) == Some(Weighed(t.value, 8))
    ensures !t.ty.Int? && !t.ty.Hex? && !t.ty.Octal? ==> LiteralOf(t) == None
  {
    NumberIs(t.value, 10);
    NumberIs(t.value, 16);
    NumberIs(t.value, 8);
  }

  // ---------- types ----------

  /** The range of every type that has a name here. */
  lemma TypeIs(n: string)
    ensures var w := WidthOf(Named(n));
      && (w.Some? <==> n == "int" || n == "i64" || n == "i32" || n == "i16" || n == "i8")
      && (n == "i8" ==> forall x :: InRange(w.value, x) <==> -128 <= x <= 127)
      && (n == "i16" ==> forall x :: InRange(w.value, x) <==> -32768 <= x <= 32767)
      && (n == "i32" ==> forall x :: InRange(w.value, x) <==> -2147483648 <= x <= 2147483647)
      && (n == "i64" || n == "int" ==> forall x :: InRange(w.value, x) <==> -9223372036854775808 <= x <= 9223372036854775807)
  {
  }

  // ---------- operators ----------

  /** What `a v b` is at width `w`, None where the program has no such value. */
  ghost predicate Computes(v: string, w: Width, a: int, b: int, r: Option<int>) {
    if v == "+" then r.Some? && Reduced(w, a + b, r.value)
    else if v == "-" then r.Some? && Reduced(w, a - b, r.value)
    else if v == "*" then r.Some? && Reduced(w, a * b, r.value)
    else if v == "/" then r.None? == Undivided(w, a, b) && (r.Some? ==> Divides(a, b, r.value, a - b * r.value))
    else if v == "%" then r.None? == Undivided(w, a, b) && (r.Some? ==> exists q :: Divides(a, b, q, r.value))
    else if v == "<" then r == Some(if a < b then -1 else 0)
    else if v == "<=" then r == Some(if a <= b then -1 else 0)
    else if v == ">" then r == Some(if a > b then -1 else 0)
    else if v == ">=" then r == Some(if a >= b then -1 else 0)
    else if v == "==" then r == Some(if a == b then -1 else 0)
    else v == "!=" && r == Some(if a == b then 0 else -1)
  }

  /** Division toward zero. */
  predicate Divides(a: int, b: int, q: int, r: int) {
    && a == b * q + r && (if b > 0 then -b < r < b else b < r < -b) && (if a >= 0 then r >= 0 else r <= 0)
  }

  /** The operator that a symbol stands for computes what the symbol says. */
  lemma OperatorIs(t: TokenType, w: Width, a: int, b: int)
    requires IsSymbol(t) && InRange(w, a) && InRange(w, b) && OperatorOf(t).Some?
    ensures Computes(TokenName(t), w, a, b, Arith(OperatorOf(t).value, w, a, b))
  {
    hide Arith, Reduced, Undivided, TokenName;
    RingLaws(w, a, b);
    DivisionLaws(w, a, b);
    OrderLaws(w, a, b);
    OrderLaws(w, b, a);
    var r := Arith(OperatorOf(t).value, w, a, b);
    if t.Quo? || t.Rem? {
      if r.Some? {
        var q := Arith(BinOp.Quo, w, a, b).value;
        assert Divides(a, b, q, a - b * q);
        assert a - b * q == Arith(BinOp.Rem, w, a, b).value;
      }
    }
    ArithmeticNames();
    QuotientNames();
    LessNames();
    MoreNames();
    EqualNames();
  }

  /** Is `v` the spelling of an operator that has a meaning here? */
  predicate HasMeaning(v: string) {
    v == "+" || v == "-" || v == "*" || v == "/" || v == "%" || v == "<" || v == "<=" || v == ">" || v == ">=" || v == "==" || v == "!="
  }

  lemma OperatorsAre(t: TokenType)
    requires IsSymbol(t)
    ensures OperatorOf(t).Some? <==> HasMeaning(TokenName(t))
  {
    hide TokenName;
    LexTheorems.SymbolSpelled(t);
    ArithmeticNames();
    QuotientNames();
    LessNames();
    MoreNames();
    EqualNames();
    OperatorsSpelled();
  }

  lemma OperatorsSpelled()
    ensures LexTheorems.SymbolType("+") == TokenType.Add && LexTheorems.SymbolType("-") == TokenType.Sub && LexTheorems.SymbolType("*") == TokenType.Mul
    ensures LexTheorems.SymbolType("/") == TokenType.Quo && LexTheorems.SymbolType("%") == TokenType.Rem
    ensures LexTheorems.SymbolType("<") == TokenType.Lss && LexTheorems.SymbolType("<=") == TokenType.Leq
    ensures LexTheorems.SymbolType(">") == TokenType.Gtr && LexTheorems.SymbolType(">=") == TokenType.Geq
    ensures LexTheorems.SymbolType("==") == TokenType.Eql && LexTheorems.SymbolType("!=") == TokenType.Neq
  {
  }

  lemma ArithmeticNames()
    ensures TokenName(TokenType.Add) == "+" && TokenName(TokenType.Sub) == "-" && TokenName(TokenType.Mul) == "*"
  {
  }

  lemma QuotientNames()
    ensures TokenName(TokenType.Quo) == "/" && TokenName(TokenType.Rem) == "%"
  {
  }

  lemma LessNames()
    ensures TokenName(TokenType.Lss) == "<" && TokenName(TokenType.Leq) == "<="
  {
  }

  lemma MoreNames()
    ensures TokenName(TokenType.Gtr) == ">" && TokenName(TokenType.Geq) == ">="
  {
  }

  lemma EqualNames()
    ensures TokenName(TokenType.Eql) == "==" && TokenName(TokenType.Neq) == "!="
  {
  }

  // ---------- truth ----------

  /** `true` and `false` are never looked up, and decide a condition so. */
  lemma TruthIs(b: bool, scope: Scopes.Stack, funs: map<Dcl, nat>, store: Store, ctx: Context)
    ensures var e := ExpOf(Pratt.IdentExp(if b then "true" else "false"), scope, funs);
      && e.Some? && ExpType(e.value, map[], []) == Some(I1)
      && var r := Eval(e.value, store, ctx); r.Gives? && r.val.w == I1 && (r.val.v != 0 <==> b)
  {
  }

  /** A condition chooses the first branch when it is true, and else what comes after `else`. */
  lemma BranchIs(b: bool, body: Smt, elses: Smt, scope: Scopes.Stack, funs: map<Dcl, nat>, store: Store, fuel: nat, ctx: Context)
    ensures var e := ExpOf(Pratt.IdentExp(if b then "true" else "false"), scope, funs);
      Exec(Source.If(e, body, Some(elses)), store, fuel, ctx) == Exec(if b then body else elses, store, fuel, ctx)
  {
    TruthIs(b, scope, funs, store, ctx);
  }

  /** Of the two signs that the parser reads in front of an expression only the minus has a
      meaning here: it takes the value from zero, at the width it has. */
  lemma UnaryIs(op: Token, x: Pratt.Exp, scope: Scopes.Stack, funs: map<Dcl, nat>, store: Store, ctx: Context, v: Val)
    requires (op.ty.Not? || op.ty.Sub?) && ExpOf(x, scope, funs).Some? && Eval(ExpOf(x, scope, funs).value, store, ctx) == Gives(v)
    ensures var e := ExpOf(Pratt.Unary(op, x), scope, funs);
      && (e.Some? <==> TokenName(op.ty) == "-")
      && (e.Some? ==> var r := Eval(e.value, store, ctx); r.Gives? && r.val.w == v.w && Reduced(v.w, 0 - v.v, r.val.v))
  {
    hide TokenName, Reduced, Wrap;
    WrapReduced(v.w, -v.v);
    ArithmeticNames();
    NotName();
    if op.ty.Sub? {
      assert ExpOf(Pratt.Unary(op, x), scope, funs) == Some(Source.Unary(Minus, ExpOf(x, scope, funs).value));
    }
  }

  lemma NotName()
    ensures TokenName(Not) == "!"
  {
  }

  /** Each parameter has the argument in its place. */
  lemma {:induction false} BoundIs(params: seq<Parameter>, args: seq<int>, i: nat)
    requires |args| == |params| && i < |params|
    requires forall j, k :: 0 <= j < k < |params| ==> params[j].dcl != params[k].dcl
    ensures var store := Source.Bind(params, args); params[i].dcl in store && store[params[i].dcl] == Val(params[i].ty, args[i])
    decreases |params|
  {
    var n := |params| - 1;
    if i < n {
      BoundIs(params[..n], args[..n], i);
    }
  }

  /** A call has the width of the result of the function that is called, when its arguments have
      the widths of the parameters. */
  lemma CallIs(prog: seq<Function>, i: nat, k: nat, args: seq<Exp>, vals: seq<Val>, store: Store, calls: Ir.Oracle)
    requires k <= i < |prog| && EvalArgs(args, store, Programs.ContextOf(prog, i, calls)) == Args(vals)
    requires |vals| == |prog[k].params| && forall j :: 0 <= j < |vals| ==> vals[j].w == prog[k].params[j].ty
    ensures var at, r := Ir.Invocation(k, Numbers(vals)), Eval(Source.CallExp(k, args), store, Programs.ContextOf(prog, i, calls));
      if at !in calls then r == Hang
      else match calls[at] case Traps => r == Trap case Returns(v) => r == Gives(Val(prog[k].ret, v))
  {
    var sigs := Programs.ContextOf(prog, i, calls).sigs;
    assert Widths(vals) == sigs[k].params;
  }

  // ---------- variables ----------

  /** A declared type keeps as much of the value as fits. */
  lemma DeclaredIs(d: Dcl, w: Width, e: Exp, store: Store, ctx: Context, v: Val)
    requires Eval(e, store, ctx) == Gives(v)
    ensures var r := ExecDeclare(VarDcl(d, Some(w), e), store, ctx);
      r.Normal? && d in r.store && r.store[d].w == w && Reduced(w, v.v, r.store[d].v)
      && forall x :: x in store && x != d ==> x in r.store && r.store[x] == store[x]
  {
    WrapReduced(w, v.v);
  }

  /** The operator in front of the `=`. */
  function Before(v: string): string { if v == "" then "" else v[..|v| - 1] }

  /** An assignment with an operator stores what the operator computes of the variable and the
      value; a plain one stores the value. The widths are equal, or the variable has 64 bits. */
  lemma AssignedIs(t: TokenType, d: Dcl, e: Exp, store: Store, fuel: nat, ctx: Context, x: Val, y: Val)
    requires AssignOf(t).Some? && BinaryAssignment(d, Source.Ident(d), AssignOf(t).value, e).Some?
    requires d in store && store[d] == x && Eval(e, store, ctx) == Gives(y) && InRange(x.w, x.v) && InRange(y.w, y.v)
    requires y.w == x.w || (x.w == I64 && !t.Assign?)
    ensures IsSymbol(t) && var r := Exec(BinaryAssignment(d, Source.Ident(d), AssignOf(t).value, e).value, store, fuel, ctx);
      if TokenName(t) == "=" then r == Normal(store[d := y])
      else if r.Normal? then d in r.store && r.store == store[d := r.store[d]] && r.store[d].w == x.w
        && Computes(Before(TokenName(t)), x.w, x.v, y.v, Some(r.store[d].v))
      else r == Trapping && Computes(Before(TokenName(t)), x.w, x.v, y.v, None)
  {
    hide Arith, Computes, TokenName, InRange, Exec, BinaryAssignment, OperatorOf;
    AssignedTo(t, d, e);
    if t.Assign? {
      AssignName();
      PlainRuns(d, e, store, fuel, ctx, x, y);
    } else {
      StemNames(t);
      AssignedBy(Stem(t), d, e, store, fuel, ctx, x, y);
    }
  }

  /** The operator of an assignment. */
  function Stem(t: TokenType): TokenType {
    if t.AddAssign? then TokenType.Add else if t.SubAssign? then TokenType.Sub else if t.MulAssign? then TokenType.Mul else TokenType.Rem
  }

  lemma AssignedTo(t: TokenType, d: Dcl, e: Exp)
    requires AssignOf(t).Some? && BinaryAssignment(d, Source.Ident(d), AssignOf(t).value, e).Some?
    ensures IsSymbol(t) && (t.Assign? || t.AddAssign? || t.SubAssign? || t.MulAssign? || t.RemAssign?)
    ensures IsSymbol(Stem(t)) && OperatorOf(Stem(t)).Some? && !IsComparison(OperatorOf(Stem(t)).value)
    ensures BinaryAssignment(d, Source.Ident(d), AssignOf(t).value, e) ==
      Some(Source.Assign(d, if t.Assign? then e else Binary(Source.Ident(d), OperatorOf(Stem(t)).value, e)))
  {
  }

  lemma PlainRuns(d: Dcl, e: Exp, store: Store, fuel: nat, ctx: Context, x: Val, y: Val)
    requires d in store && store[d] == x && Eval(e, store, ctx) == Gives(y) && y.w == x.w && InRange(y.w, y.v)
    ensures Exec(Source.Assign(d, e), store, fuel, ctx) == Normal(store[d := y])
  {
    WrapIdentity(y.w, y.v);
  }

  lemma AssignedBy(op: TokenType, d: Dcl, e: Exp, store: Store, fuel: nat, ctx: Context, x: Val, y: Val)
    requires IsSymbol(op) && OperatorOf(op).Some? && !IsComparison(OperatorOf(op).value)
    requires d in store && store[d] == x && Eval(e, store, ctx) == Gives(y) && InRange(x.w, x.v) && InRange(y.w, y.v)
    requires y.w == x.w || x.w == I64
    ensures var r := Exec(Source.Assign(d, Binary(Source.Ident(d), OperatorOf(op).value, e)), store, fuel, ctx);
      if r.Normal? then d in r.store && r.store == store[d := r.store[d]] && r.store[d].w == x.w
        && Computes(TokenName(op), x.w, x.v, y.v, Some(r.store[d].v))
      else r == Trapping && Computes(TokenName(op), x.w, x.v, y.v, None)
  {
    hide Arith, Computes, TokenName, InRange, OperatorOf, IsComparison;
    if x.w == I64 { Wider(y.w, y.v); }
    OperatorIs(op, x.w, x.v, y.v);
    AssignRuns(d, OperatorOf(op).value, e, store, fuel, ctx, x, y);
  }

  lemma Wider(w: Width, x: int)
    requires InRange(w, x)
    ensures InRange(I64, x)
  {
  }

  lemma AssignRuns(d: Dcl, op: BinOp, e: Exp, store: Store, fuel: nat, ctx: Context, x: Val, y: Val)
    requires d in store && store[d] == x && Eval(e, store, ctx) == Gives(y) && !IsComparison(op) && (y.w == x.w || x.w == I64)
    ensures var v := Arith(op, x.w, x.v, y.v);
      Exec(Source.Assign(d, Binary(Source.Ident(d), op, e)), store, fuel, ctx) ==
        if v.None? then Trapping else Normal(store[d := Val(x.w, v.value)])
  {
    hide Arith;
    assert Eval(Source.Ident(d), store, ctx) == Gives(x);
  }

  /** Which operators make an assignment of an expression. */
  lemma AssignmentsAre(t: TokenType)
    requires IsSymbol(t)
    ensures var v := TokenName(t);
      && (IsAssignment(t) <==> AssignOf(t).Some?)
      && (IsAssignment(t) <==> v == "=" || v == "+=" || v == "-=" || v == "*=" || v == "%=" || v == "|=" || v == "<<=")
  {
    hide TokenName;
    LexTheorems.SymbolSpelled(t);
    AssignName();
    AssignNames();
    OtherNames();
    Spelled();
  }

  lemma OtherNames()
    ensures TokenName(OrAssign) == "|=" && TokenName(ShlAssign) == "<<="
  {
  }

  lemma Spelled()
    ensures LexTheorems.SymbolType("=") == TokenType.Assign && LexTheorems.SymbolType("+=") == AddAssign && LexTheorems.SymbolType("-=") == SubAssign
    ensures LexTheorems.SymbolType("*=") == MulAssign && LexTheorems.SymbolType("%=") == RemAssign
    ensures LexTheorems.SymbolType("|=") == OrAssign && LexTheorems.SymbolType("<<=") == ShlAssign
  {
  }

  /** A name and `++` or `--` adds or takes 1. */
  lemma StepIs(n: string, up: bool, scope: Scopes.Stack, next: int, funs: map<Dcl, nat>, d: Dcl, store: Store, fuel: nat, ctx: Context)
    requires scope != [] && n != "true" && n != "false" && DclOf(n, scope) == Some(d) && d in store && store[d].w == I64
    ensures Spelling(SStep(n, up)) == [Token(TokenType.Ident, n), Token(if up then Inc else Dec, "")]
    ensures TokenName(if up then Inc else Dec) == if up then "++" else "--"
    ensures var s := SmtOf(Means(SStep(n, up), scope, next).smt, funs);
      && s.Some?
      && var r := Exec(s.value, store, fuel, ctx);
      r.Normal? && d in r.store && r.store == store[d := r.store[d]] && r.store[d].w == I64
      && Reduced(I64, if up then store[d].v + 1 else store[d].v - 1, r.store[d].v)
  {
    hide TokenName, Exec, Reduced;
    StepNames();
    StepMeans(n, up, scope, next, funs, d);
    StepRuns(d, store, fuel, ctx);
    WrapReduced(I64, store[d].v + 1);
    WrapReduced(I64, store[d].v - 1);
  }

  lemma StepMeans(n: string, up: bool, scope: Scopes.Stack, next: int, funs: map<Dcl, nat>, d: Dcl)
    requires scope != [] && n != "true" && n != "false" && DclOf(n, scope) == Some(d)
    ensures SmtOf(Means(SStep(n, up), scope, next).smt, funs) == Some(if up then Increment(d) else Decrement(d))
  {
    assert "1"[..0] == "";
    assert ExpOf(Pratt.IdentExp(n), scope, funs) == Some(Source.Ident(d));
    assert ExpOf(Pratt.Literal(Token(Int, "1")), scope, funs) == Some(Source.Literal(1));
  }

  lemma StepNames()
    ensures TokenName(Inc) == "++" && TokenName(Dec) == "--"
  {
  }

  lemma AssignName()
    ensures TokenName(TokenType.Assign) == "="
  {
  }

  lemma StemNames(t: TokenType)
    requires t.AddAssign? || t.SubAssign? || t.MulAssign? || t.RemAssign?
    ensures TokenName(t) != "=" && Before(TokenName(t)) == TokenName(Stem(t))
  {
    hide TokenName;
    ArithmeticNames();
    QuotientNames();
    AssignNames();
    assert "+="[..1] == "+" && "-="[..1] == "-" && "*="[..1] == "*" && "%="[..1] == "%";
  }

  lemma AssignNames()
    ensures TokenName(AddAssign) == "+=" && TokenName(SubAssign) == "-="
    ensures TokenName(MulAssign) == "*=" && TokenName(RemAssign) == "%="
  {
  }
}
