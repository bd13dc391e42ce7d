/** The program of `tests/tests/gcd.acl`: one function is Euclid's algorithm, the other calls it. */
module Euclid {
  import opened Wrappers
  import Ints
  import IntLaws
  import Ir
  import Source
  import Preservation
  import Programs

  // ---------- the program ----------

  function Gcd(): Source.Function {
    Source.Function([Source.Parameter(0, Ints.I64), Source.Parameter(1, Ints.I64)], Ints.I64,
      Source.Block([
        Source.If(Some(Source.Binary(Source.Ident(1), Ints.Eql, Source.Literal(0))), Source.Block([Source.Return(Source.Ident(0))]), None),
        Source.Return(Next())]))
  }

  function Next(): Source.Exp {
    Source.CallExp(0, [Source.Ident(1), Source.Binary(Source.Ident(0), Ints.Rem, Source.Ident(1))])
  }

  function Main(): Source.Function {
    Source.Function([], Ints.I64, Source.Block([Source.Return(Source.CallExp(0, [Source.Literal(1529), Source.Literal(14039)]))]))
  }

  function Program(): seq<Source.Function> { [Gcd(), Main()] }

  // ---------- divisors ----------

  ghost predicate Divisor(d: int, n: int) { exists k: int :: n == d * k }

  /** A common divisor that every common divisor divides. */
  ghost predicate Greatest(g: int, a: int, b: int) {
    && Divisor(g, a) && Divisor(g, b)
    && forall d: int :: Divisor(d, a) && Divisor(d, b) ==> Divisor(d, g)
  }

  lemma GreatestOfZero(a: int)
    ensures Greatest(a, a, 0)
  {
    assert a == a * 1 && 0 == a * 0;
  }

  lemma Combined(d: int, x: int, y: int, q: int)
    requires Divisor(d, x) && Divisor(d, y)
    ensures Divisor(d, x * q + y)
  {
    var j: int :| x == d * j;
    var k: int :| y == d * k;
    assert x * q + y == d * (j * q + k) by {
      assert d * (j * q + k) == d * (j * q) + d * k;
      assert d * (j * q) == d * j * q;
    }
  }

  lemma GreatestOfRest(g: int, a: int, b: int, q: int, r: int)
    requires a == b * q + r && Greatest(g, b, r)
    ensures Greatest(g, a, b)
  {
    Combined(g, b, r, q);
    forall d: int | Divisor(d, a) && Divisor(d, b) ensures Divisor(d, g) {
      Combined(d, b, a, -q);
      assert b * -q + a == r;
    }
  }

  // ---------- what the functions do ----------

  /** The least number and -1 in either order, where the remainder is not defined. */
  predicate Bad(a: int, b: int) {
    var least := -Ints.Half(Ints.I64);
    (a == least && b == -1) || (a == -1 && b == least)
  }

  lemma GcdRuns(a: int, b: int, calls: Ir.Oracle)
    requires Ints.InRange(Ints.I64, a) && Ints.InRange(Ints.I64, b)
    ensures var ctx := Programs.ContextOf(Program(), 0, calls);
      var out := Preservation.RunSource(Gcd(), [a, b], 0, ctx);
      && (b == 0 ==> out == Source.Returned(a))
      && (b != 0 ==> out == Source.Exec(Source.Return(Next()), Arguments(a, b), 0, ctx))
  {
    hide Next;
    var ctx := Programs.ContextOf(Program(), 0, calls);
    var store := Arguments(a, b);
    Binds(a, b);
    Ints.WrapIdentity(Ints.I64, a);
    var l := Gcd().body.smts;
    assert Source.Eval(Source.Ident(1), store, ctx) == Source.Gives(Source.Val(Ints.I64, b));
    assert Source.Eval(Source.Literal(0), store, ctx) == Source.Gives(Source.Val(Ints.I64, 0));
    assert Source.Eval(Source.Ident(0), store, ctx) == Source.Gives(Source.Val(Ints.I64, a));
    assert Source.Exec(l[0].body, store, 0, ctx) == Source.Returned(a);
    assert Source.Exec(l[0], store, 0, ctx) == if b == 0 then Source.Returned(a) else Source.Normal(store);
    assert l[1..] == [Source.Return(Next())] && l[1..][1..] == [];
  }

  function Arguments(a: int, b: int): Source.Store { map[0 := Source.Val(Ints.I64, a), 1 := Source.Val(Ints.I64, b)] }

  lemma Binds(a: int, b: int)
    ensures Source.Bind(Gcd().params, [a, b]) == Arguments(a, b)
  {
    var p := Gcd().params;
    assert p[..1] == [p[0]] && p[..1][..0] == [] && [a, b][..1] == [a] && [a][..0] == [];
    assert Source.Bind([], []) == map[];
    assert Source.Bind([p[0]], [a]) == map[0 := Source.Val(Ints.I64, a)];
  }

  lemma NextRuns(a: int, b: int, calls: Ir.Oracle)
    requires Ints.InRange(Ints.I64, a) && Ints.InRange(Ints.I64, b)
    ensures var ctx := Programs.ContextOf(Program(), 0, calls);
      var out := Source.Exec(Source.Return(Next()), Arguments(a, b), 0, ctx);
      var r := Ints.Arith(Ints.Rem, Ints.I64, a, b);
      && (r.None? ==> out == Source.Trapping)
      && (r.Some? && Ir.Invocation(0, [b, r.value]) in calls ==>
        out == match calls[Ir.Invocation(0, [b, r.value])] case Traps => Source.Trapping case Returns(v) => Source.Returned(Ints.Wrap(Ints.I64, v)))
  {
    hide Ints.Arith;
    var ctx := Programs.ContextOf(Program(), 0, calls);
    var store := Arguments(a, b);
    var args := Next().args;
    var r := Ints.Arith(Ints.Rem, Ints.I64, a, b);
    assert args[1..] == [args[1]] && args[1..][1..] == [];
    assert Source.Eval(args[0], store, ctx) == Source.Gives(Source.Val(Ints.I64, b));
    assert Source.Eval(Source.Ident(0), store, ctx) == Source.Gives(Source.Val(Ints.I64, a));
    assert Source.Eval(args[1], store, ctx) == if r.None? then Source.Trap else Source.Gives(Source.Val(Ints.I64, r.value));
    if r.Some? {
      var vals := [Source.Val(Ints.I64, b), Source.Val(Ints.I64, r.value)];
      assert Source.EvalArgs(args[1..], store, ctx) == Source.Args([vals[1]] + []);
      assert [vals[0]] + ([vals[1]] + []) == vals;
      assert Source.EvalArgs(args, store, ctx) == Source.Args(vals);
      assert Source.Numbers(vals) == [b, r.value] && Source.Widths(vals) == ctx.sigs[0].params;
    }
  }

  lemma FirstChecks()
    ensures Source.CheckFunction(Gcd(), Signatures(0))
  {
    var sigs := Signatures(0);
    hide Next;
    var f := Gcd();
    var env := Parameters();
    ParametersAre();
    NextChecks();
    assert f.body.smts[1..] == [Source.Return(Next())] && f.body.smts[1..][1..] == [];
    assert Source.ExpType(Source.Ident(1), env, sigs) == Some(Ints.I64) && Source.ExpType(Source.Literal(0), env, sigs) == Some(Ints.I64);
    assert Source.ExpType(f.body.smts[0].cond.value, env, sigs) == Some(Ints.I1);
    assert [Source.Return(Source.Ident(0))][1..] == [];
    assert Source.Check(f.body.smts[0].body, env, sigs) == Some(env);
    assert Source.Check(f.body.smts[0], env, sigs) == Some(env);
    assert Source.Tree(f.body.smts[0], env.Keys);
  }

  function Parameters(): Source.Env { map[0 := Ints.I64, 1 := Ints.I64] }

  lemma ParametersAre()
    ensures Source.ParamEnv(Gcd().params) == Parameters()
  {
    var p := Gcd().params;
    assert p[..1] == [p[0]] && p[..1][..0] == [];
    assert Source.ParamEnv([]) == map[];
    assert Source.ParamEnv([p[0]]) == map[0 := Ints.I64];
  }

  function Signatures(i: nat): seq<Source.Signature>
    requires i < 2
  {
    Source.Signatures(Program(), i)
  }

  /** Two arguments of the right widths. */
  lemma TwoMatch(args: seq<Source.Exp>, params: seq<Ints.Width>, env: Source.Env, sigs: seq<Source.Signature>)
    requires |args| == 2 && |params| == 2
    requires Source.ExpType(args[0], env, sigs) == Some(params[0]) && Source.ExpType(args[1], env, sigs) == Some(params[1])
    ensures Source.ArgsMatch(args, params, env, sigs)
  {
    assert args[1..] == [args[1]] && params[1..] == [params[1]];
    assert Source.ArgsMatch([args[1]], [params[1]], env, sigs);
  }

  lemma NextChecks()
    ensures Source.ExpType(Next(), Parameters(), Signatures(0)) == Some(Ints.I64)
  {
    var sigs := Signatures(0);
    var env := Parameters();
    var args := Next().args;
    assert sigs[0].params == [Ints.I64, Ints.I64];
    assert Source.ExpType(args[0], env, sigs) == Some(Ints.I64);
    assert Source.ExpType(Source.Ident(0), env, sigs) == Some(Ints.I64);
    assert Source.ExpType(args[1], env, sigs) == Some(Ints.I64);
    TwoMatch(args, sigs[0].params, env, sigs);
  }

  lemma MainChecks()
    ensures Source.CheckFunction(Main(), Signatures(1))
  {
    var sigs := Signatures(1);
    var args := Main().body.smts[0].result.args;
    assert sigs[0].params == [Ints.I64, Ints.I64];
    assert Source.ExpType(args[0], map[], sigs) == Some(Ints.I64);
    assert Source.ExpType(args[1], map[], sigs) == Some(Ints.I64);
    TwoMatch(args, sigs[0].params, map[], sigs);
    assert Source.ExpType(Main().body.smts[0].result, map[], sigs) == Some(Ints.I64);
    assert Main().body.smts[1..] == [];
  }

  lemma Checked()
    ensures Source.CheckProgram(Program())
  {
    hide Gcd, Main, Source.CheckFunction;
    FirstChecks();
    MainChecks();
    assert Source.CheckNth(Program(), 0) && Source.CheckNth(Program(), 1);
  }

  // ---------- every call ----------

  /** The greatest common divisor, which is not negative when the numbers are not. */
  ghost predicate Answered(depth: nat, a: int, b: int) {
    var k := Ir.Invocation(0, [a, b]);
    if Bad(a, b) then Programs.Within(Program(), depth, k, Ir.Traps)
    else exists g :: IsAnswer(g, a, b) && Programs.Within(Program(), depth, k, Ir.Returns(g))
  }

  ghost predicate IsAnswer(g: int, a: int, b: int) {
    Greatest(g, a, b) && Ints.InRange(Ints.I64, g) && (a >= 0 && b >= 0 ==> g >= 0)
  }

  /** One more call answers what the call it ends in answers. */
  lemma PassedOn(depth: nat, a: int, b: int, r: int, out: Ir.CallOutcome)
    requires Ints.InRange(Ints.I64, a) && Ints.InRange(Ints.I64, b) && b != 0 && Ints.Arith(Ints.Rem, Ints.I64, a, b) == Some(r)
    requires Programs.Within(Program(), depth, Ir.Invocation(0, [b, r]), out) && (out.Returns? ==> Ints.InRange(Ints.I64, out.value))
    ensures Programs.Within(Program(), depth + 1, Ir.Invocation(0, [a, b]), out)
  {
    hide Ints.Arith, Preservation.RunSource, Next, Programs.ContextOf;
    var calls := Programs.SourceCalls(Program(), depth);
    GcdRuns(a, b, calls);
    NextRuns(a, b, calls);
    if out.Returns? { Ints.WrapIdentity(Ints.I64, out.value); }
    Checked();
    assert Programs.SourceAnswers(Program(), calls, Ir.Invocation(0, [a, b]), out);
    Programs.OneDeeper(Program(), depth, Ir.Invocation(0, [a, b]), out);
  }

  lemma AtOnce(depth: nat, a: int, b: int)
    requires Ints.InRange(Ints.I64, a) && Ints.InRange(Ints.I64, b)
    requires b == 0 || Ints.Arith(Ints.Rem, Ints.I64, a, b) == None
    ensures Programs.Within(Program(), depth + 1, Ir.Invocation(0, [a, b]), if b == 0 then Ir.Returns(a) else Ir.Traps)
  {
    hide Ints.Arith, Preservation.RunSource, Next, Programs.ContextOf;
    var calls := Programs.SourceCalls(Program(), depth);
    GcdRuns(a, b, calls);
    NextRuns(a, b, calls);
    Checked();
    assert Programs.SourceAnswers(Program(), calls, Ir.Invocation(0, [a, b]), if b == 0 then Ir.Returns(a) else Ir.Traps);
    Programs.OneDeeper(Program(), depth, Ir.Invocation(0, [a, b]), if b == 0 then Ir.Returns(a) else Ir.Traps);
  }

  lemma BadRest(a: int, b: int, q: int, r: int)
    requires Ints.InRange(Ints.I64, a) && Ints.InRange(Ints.I64, b)
    requires a == b * q + r && (if b > 0 then -b < r < b else b < r < -b) && (if a >= 0 then r >= 0 else r <= 0)
    ensures Bad(b, r) <==> a == -1 && b == -Ints.Half(Ints.I64)
  {
    if b < 0 {
      IntLaws.AtLeastOnce(q, -b);
      assert b * q == -(q * -b);
    }
  }

  lemma {:induction false} GcdAnswers(a: int, b: int)
    requires Ints.InRange(Ints.I64, a) && Ints.InRange(Ints.I64, b)
    ensures Answered(Ints.Abs(b) + 1, a, b)
    decreases Ints.Abs(b)
  {
    hide Ints.Arith, Greatest, Programs.Within;
    var d := Ints.Abs(b);
    IntLaws.DivisionLaws(Ints.I64, a, b);
    IntLaws.LeastOf(Ints.I64);
    if b == 0 {
      GreatestOfZero(a);
      AtOnce(0, a, b);
      assert IsAnswer(a, a, b);
    } else if IntLaws.Undivided(Ints.I64, a, b) {
      AtOnce(d, a, b);
    } else {
      var q, r := Ints.Arith(Ints.Quo, Ints.I64, a, b).value, Ints.Arith(Ints.Rem, Ints.I64, a, b).value;
      GcdAnswers(b, r);
      BadRest(a, b, q, r);
      if Bad(b, r) {
        Checked();
        Programs.Deeper(Program(), Ints.Abs(r) + 1, d, Ir.Invocation(0, [b, r]), Ir.Traps);
        PassedOn(d, a, b, r, Ir.Traps);
      } else {
        var g :| IsAnswer(g, b, r) && Programs.Within(Program(), Ints.Abs(r) + 1, Ir.Invocation(0, [b, r]), Ir.Returns(g));
        Checked();
        Programs.Deeper(Program(), Ints.Abs(r) + 1, d, Ir.Invocation(0, [b, r]), Ir.Returns(g));
        PassedOn(d, a, b, r, Ir.Returns(g));
        GreatestOfRest(g, a, b, q, r);
        assert IsAnswer(g, a, b);
      }
    }
  }

  // ---------- the numbers of the program ----------

  lemma SameGreatest(g: int, h: int, a: int, b: int)
    requires g >= 0 && h >= 0 && Greatest(g, a, b) && Greatest(h, a, b)
    ensures g == h
  {
    NotMore(g, h);
    NotMore(h, g);
  }

  lemma NotMore(g: int, h: int)
    requires g >= 0 && h >= 0 && Divisor(g, h) && Divisor(h, g)
    ensures g <= h
  {
    var k: int :| g == h * k;
    var j: int :| h == g * j;
    if g > 0 {
      IntLaws.AtLeastOnce(j, g);
      assert g * j == j * g;
    }
  }

  lemma MainNumber()
    ensures Greatest(139, 1529, 14039)
  {
    hide Greatest;
    GreatestOfZero(139);
    GreatestOfRest(139, 278, 139, 2, 0);
    GreatestOfRest(139, 1529, 278, 5, 139);
    GreatestOfRest(139, 14039, 1529, 9, 278);
    GreatestOfRest(139, 1529, 14039, 0, 1529);
  }

  lemma MainRuns(calls: Ir.Oracle)
    requires Ir.Invocation(0, [1529, 14039]) in calls && calls[Ir.Invocation(0, [1529, 14039])] == Ir.Returns(139)
    ensures Preservation.RunSource(Main(), [], 0, Programs.ContextOf(Program(), 1, calls)) == Source.Returned(139)
  {
    var ctx := Programs.ContextOf(Program(), 1, calls);
    var args := Main().body.smts[0].result.args;
    var vals := [Source.Val(Ints.I64, 1529), Source.Val(Ints.I64, 14039)];
    var none: Source.Store := map[];
    assert args[1..] == [args[1]] && args[1..][1..] == [];
    assert Source.Eval(args[0], none, ctx) == Source.Gives(vals[0]);
    assert Source.Eval(args[1], none, ctx) == Source.Gives(vals[1]);
    assert Source.EvalArgs(args[1..], none, ctx) == Source.Args([vals[1]] + []);
    assert [vals[0]] + ([vals[1]] + []) == vals;
    assert Source.EvalArgs(args, none, ctx) == Source.Args(vals);
    assert Source.Numbers(vals) == [1529, 14039] && Source.Widths(vals) == ctx.sigs[0].params;
    Ints.WrapIdentity(Ints.I64, 139);
    assert Source.Exec(Main().body.smts[0], none, 0, ctx) == Source.Returned(139);
  }

  lemma MainAfter(depth: nat)
    requires Programs.Within(Program(), depth, Ir.Invocation(0, [1529, 14039]), Ir.Returns(139))
    ensures Programs.SourceProgram(Program(), 1, [], Ir.Returns(139))
  {
    hide Preservation.RunSource, Programs.SourceCalls, Programs.SourceProgram, Programs.ContextOf, Source.CheckProgram;
    Checked();
    MainRuns(Programs.SourceCalls(Program(), depth));
    assert Programs.SourceAnswers(Program(), Programs.SourceCalls(Program(), depth), Ir.Invocation(1, []), Ir.Returns(139));
    Programs.OneDeeper(Program(), depth, Ir.Invocation(1, []), Ir.Returns(139));
    Programs.WithinAnswers(Program(), depth + 1, Ir.Invocation(1, []), Ir.Returns(139));
  }

  lemma MainAnswers()
    ensures Programs.SourceProgram(Program(), 1, [], Ir.Returns(139))
  {
    hide Greatest, Main, Gcd, Programs.SourceProgram, Programs.Within;
    var k := Ir.Invocation(0, [1529, 14039]);
    GcdAnswers(1529, 14039);
    MainNumber();
    assert !Bad(1529, 14039);
    var d := Ints.Abs(14039) + 1;
    var g :| IsAnswer(g, 1529, 14039) && Programs.Within(Program(), d, k, Ir.Returns(g));
    SameGreatest(g, 139, 1529, 14039);
    MainAfter(d);
  }
}
