/** The program of `tests/tests/fibbonanci.acl`: one function calls itself twice, the other
    calls it. */
module Fibonacci {
  import opened Wrappers
  import Ints
  import IntLaws
  import Ir
  import Source
  import Preservation
  import Programs

  // ---------- the program ----------

  function Fib(): Source.Function {
    Source.Function([Source.Parameter(0, Ints.I64)], Ints.I64,
      Source.Block([
        Source.If(Some(Source.Binary(Source.Ident(0), Ints.Lss, Source.Literal(2))), Source.Block([Source.Return(Source.Ident(0))]), None),
        Source.Return(Sum())]))
  }

  function Sum(): Source.Exp { Source.Binary(Before(1), Ints.Add, Before(2)) }

  /** `fib(n - k)` */
  function Before(k: int): Source.Exp {
    Source.CallExp(0, [Source.Binary(Source.Ident(0), Ints.Sub, Source.Literal(k))])
  }

  function Main(): Source.Function {
    Source.Function([], Ints.I64, Source.Block([Source.Return(Source.CallExp(0, [Source.Literal(12)]))]))
  }

  function Program(): seq<Source.Function> { [Fib(), Main()] }

  // ---------- the widths ----------

  function Signatures(i: nat): seq<Source.Signature>
    requires i < 2
  {
    Source.Signatures(Program(), i)
  }

  /** One argument of the right width. */
  lemma OneMatch(e: Source.Exp, w: Ints.Width, env: Source.Env, sigs: seq<Source.Signature>)
    requires Source.ExpType(e, env, sigs) == Some(w)
    ensures Source.ArgsMatch([e], [w], env, sigs)
  {
    assert [e][1..] == [] && [w][1..] == [];
    assert Source.ArgsMatch([], [], env, sigs);
  }

  function Parameters(): Source.Env { map[0 := Ints.I64] }

  lemma BeforeChecks(k: int)
    ensures Source.ExpType(Before(k), Parameters(), Signatures(0)) == Some(Ints.I64)
  {
    var env, sigs := Parameters(), Signatures(0);
    var e := Source.Binary(Source.Ident(0), Ints.Sub, Source.Literal(k));
    assert sigs[0].params == [Ints.I64] && sigs[0].ret == Ints.I64;
    assert Source.ExpType(Source.Ident(0), env, sigs) == Some(Ints.I64) && Source.ExpType(Source.Literal(k), env, sigs) == Some(Ints.I64);
    assert Source.ExpType(e, env, sigs) == Some(Ints.I64);
    OneMatch(e, Ints.I64, env, sigs);
  }

  lemma FibChecks()
    ensures Source.CheckFunction(Fib(), Signatures(0))
  {
    hide Sum;
    var f, env, sigs := Fib(), Parameters(), Signatures(0);
    assert f.params[..0] == [] && Source.ParamEnv([]) == map[];
    assert Source.ParamEnv(f.params) == env;
    SumChecks();
    assert f.body.smts[1..] == [Source.Return(Sum())] && f.body.smts[1..][1..] == [];
    assert Source.ExpType(Source.Ident(0), env, sigs) == Some(Ints.I64) && Source.ExpType(Source.Literal(2), env, sigs) == Some(Ints.I64);
    assert Source.ExpType(f.body.smts[0].cond.value, env, sigs) == Some(Ints.I1);
    assert [Source.Return(Source.Ident(0))][1..] == [];
    assert Source.Check(f.body.smts[0].body, env, sigs) == Some(env);
    assert Source.Check(f.body.smts[0], env, sigs) == Some(env);
    assert Source.Tree(f.body.smts[0], env.Keys);
  }

  lemma SumChecks()
    ensures Source.ExpType(Sum(), Parameters(), Signatures(0)) == Some(Ints.I64)
  {
    hide Before;
    BeforeChecks(1);
    BeforeChecks(2);
  }

  lemma MainChecks()
    ensures Source.CheckFunction(Main(), Signatures(1))
  {
    var sigs := Signatures(1);
    assert sigs[0].params == [Ints.I64];
    assert Source.ExpType(Source.Literal(12), map[], sigs) == Some(Ints.I64);
    OneMatch(Source.Literal(12), Ints.I64, map[], sigs);
    assert Source.ExpType(Main().body.smts[0].result, map[], sigs) == Some(Ints.I64);
    assert Main().body.smts[1..] == [];
  }

  lemma Checked()
    ensures Source.CheckProgram(Program())
  {
    hide Fib, Main, Source.CheckFunction;
    FibChecks();
    MainChecks();
    assert Source.CheckNth(Program(), 0) && Source.CheckNth(Program(), 1);
  }

  // ---------- what the functions do ----------

  function Argument(n: int): Source.Store { map[0 := Source.Val(Ints.I64, n)] }

  lemma FibRuns(n: int, calls: Ir.Oracle)
    requires Ints.InRange(Ints.I64, n)
    ensures var ctx := Programs.ContextOf(Program(), 0, calls);
      Preservation.RunSource(Fib(), [n], 0, ctx) ==
        if n < 2 then Source.Returned(n) else Source.Exec(Source.Return(Sum()), Argument(n), 0, ctx)
  {
    hide Sum;
    var ctx := Programs.ContextOf(Program(), 0, calls);
    var store := Argument(n);
    assert Fib().params[..0] == [] && [n][..0] == [] && Source.Bind([], []) == map[];
    assert Source.Bind(Fib().params, [n]) == store;
    Ints.WrapIdentity(Ints.I64, n);
    var l := Fib().body.smts;
    assert Source.Eval(Source.Ident(0), store, ctx) == Source.Gives(Source.Val(Ints.I64, n));
    assert Source.Eval(Source.Literal(2), store, ctx) == Source.Gives(Source.Val(Ints.I64, 2));
    assert Source.Exec(l[0].body, store, 0, ctx) == Source.Returned(n);
    assert Source.Exec(l[0], store, 0, ctx) == if n < 2 then Source.Returned(n) else Source.Normal(store);
    assert l[1..] == [Source.Return(Sum())] && l[1..][1..] == [];
  }

  lemma BeforeRuns(n: int, k: int, calls: Ir.Oracle, v: int)
    requires Ints.InRange(Ints.I64, n) && 2 <= n && 1 <= k <= 2
    requires Ir.Invocation(0, [n - k]) in calls && calls[Ir.Invocation(0, [n - k])] == Ir.Returns(v)
    ensures Source.Eval(Before(k), Argument(n), Programs.ContextOf(Program(), 0, calls)) == Source.Gives(Source.Val(Ints.I64, v))
  {
    var ctx := Programs.ContextOf(Program(), 0, calls);
    var store, args, vals := Argument(n), Before(k).args, [Source.Val(Ints.I64, n - k)];
    Ints.WrapIdentity(Ints.I64, n - k);
    Ints.WrapIdentity(Ints.I64, k);
    assert Source.Eval(Source.Ident(0), store, ctx) == Source.Gives(Source.Val(Ints.I64, n));
    assert Source.Eval(Source.Literal(k), store, ctx) == Source.Gives(Source.Val(Ints.I64, k));
    assert Source.Eval(args[0], store, ctx) == Source.Gives(vals[0]);
    assert args[1..] == [] && Source.EvalArgs([], store, ctx) == Source.Args([]) && [vals[0]] + [] == vals;
    assert Source.EvalArgs(args, store, ctx) == Source.Args(vals);
    assert Source.Numbers(vals) == [n - k] && Source.Widths(vals) == ctx.sigs[0].params;
  }

  lemma SumRuns(n: int, calls: Ir.Oracle, a: int, b: int)
    requires Ints.InRange(Ints.I64, n) && 2 <= n
    requires Ir.Invocation(0, [n - 1]) in calls && calls[Ir.Invocation(0, [n - 1])] == Ir.Returns(a)
    requires Ir.Invocation(0, [n - 2]) in calls && calls[Ir.Invocation(0, [n - 2])] == Ir.Returns(b)
    ensures var r := Ints.Arith(Ints.Add, Ints.I64, a, b);
      && r.Some? && Ints.InRange(Ints.I64, r.value)
      && Source.Exec(Source.Return(Sum()), Argument(n), 0, Programs.ContextOf(Program(), 0, calls)) == Source.Returned(r.value)
  {
    hide Before;
    BeforeRuns(n, 1, calls, a);
    BeforeRuns(n, 2, calls, b);
    Ints.WrapIdentity(Ints.I64, Ints.Arith(Ints.Add, Ints.I64, a, b).value);
  }

  // ---------- every call ----------

  /** The numbers themselves, without any width. Below 2 they are what the text makes them. */
  function Number(n: int): int
    decreases if n < 2 then 0 else n
  {
    if n < 2 then n else Number(n - 1) + Number(n - 2)
  }

  function Depth(n: int): nat { if n < 2 then 1 else n }

  /** The number, reduced to 64 bits. */
  ghost predicate Answered(n: int, v: int) {
    IntLaws.Reduced(Ints.I64, Number(n), v) && Programs.Within(Program(), Depth(n), Ir.Invocation(0, [n]), Ir.Returns(v))
  }

  lemma AtOnce(n: int)
    requires Ints.InRange(Ints.I64, n) && n < 2
    ensures Answered(n, n)
  {
    hide Preservation.RunSource, Sum, Programs.ContextOf, Programs.Within;
    var calls := Programs.SourceCalls(Program(), 0);
    FibRuns(n, calls);
    Checked();
    assert Programs.SourceAnswers(Program(), calls, Ir.Invocation(0, [n]), Ir.Returns(n));
    Programs.OneDeeper(Program(), 0, Ir.Invocation(0, [n]), Ir.Returns(n));
    Itself(n);
  }

  /** The last call adds what the two before it answer. */
  lemma Added(n: int, a: int, b: int)
    requires Ints.InRange(Ints.I64, n) && 2 <= n
    requires Programs.Within(Program(), n - 1, Ir.Invocation(0, [n - 1]), Ir.Returns(a))
    requires Programs.Within(Program(), n - 1, Ir.Invocation(0, [n - 2]), Ir.Returns(b))
    ensures var r := Ints.Arith(Ints.Add, Ints.I64, a, b);
      r.Some? && Programs.Within(Program(), n, Ir.Invocation(0, [n]), Ir.Returns(r.value))
  {
    hide Preservation.RunSource, Sum, Programs.ContextOf, Programs.SourceCalls, Ints.Arith;
    var calls := Programs.SourceCalls(Program(), n - 1);
    FibRuns(n, calls);
    SumRuns(n, calls, a, b);
    Checked();
    var r := Ints.Arith(Ints.Add, Ints.I64, a, b).value;
    assert Programs.SourceAnswers(Program(), calls, Ir.Invocation(0, [n]), Ir.Returns(r));
    Programs.OneDeeper(Program(), n - 1, Ir.Invocation(0, [n]), Ir.Returns(r));
  }

  lemma SumReduced(x: int, y: int, a: int, b: int, r: int)
    requires IntLaws.Reduced(Ints.I64, x, a) && IntLaws.Reduced(Ints.I64, y, b) && IntLaws.Reduced(Ints.I64, a + b, r)
    ensures IntLaws.Reduced(Ints.I64, x + y, r)
  {
    hide IntLaws.TwoTo;
    var m := IntLaws.TwoTo(IntLaws.Bits(Ints.I64));
    var i: int :| a == x + i * m;
    var j: int :| b == y + j * m;
    var k: int :| r == a + b + k * m;
    assert (i + j + k) * m == i * m + j * m + k * m;
    assert r == x + y + (i + j + k) * m;
  }

  lemma {:induction false} FibAnswers(n: int) returns (v: int)
    requires Ints.InRange(Ints.I64, n)
    ensures Answered(n, v)
    decreases if n < 2 then 0 else n
  {
    hide IntLaws.Reduced, Programs.Within, Ints.Arith;
    if n < 2 {
      AtOnce(n);
      v := n;
    } else {
      var a := FibAnswers(n - 1);
      var b := FibAnswers(n - 2);
      Checked();
      Programs.Deeper(Program(), Depth(n - 1), n - 1, Ir.Invocation(0, [n - 1]), Ir.Returns(a));
      Programs.Deeper(Program(), Depth(n - 2), n - 1, Ir.Invocation(0, [n - 2]), Ir.Returns(b));
      Added(n, a, b);
      IntLaws.RingLaws(Ints.I64, a, b);
      v := Ints.Arith(Ints.Add, Ints.I64, a, b).value;
      SumReduced(Number(n - 1), Number(n - 2), a, b, v);
    }
  }

  // ---------- the number of the program ----------

  lemma Twelfth()
    ensures Number(12) == 144
  {
    assert Number(2) == 1 && Number(3) == 2 && Number(4) == 3 && Number(5) == 5;
    assert Number(6) == 8 && Number(7) == 13 && Number(8) == 21;
    assert Number(9) == 34 && Number(10) == 55;
  }

  lemma MainRuns(calls: Ir.Oracle)
    requires Ir.Invocation(0, [12]) in calls && calls[Ir.Invocation(0, [12])] == Ir.Returns(144)
    ensures Preservation.RunSource(Main(), [], 0, Programs.ContextOf(Program(), 1, calls)) == Source.Returned(144)
  {
    var ctx := Programs.ContextOf(Program(), 1, calls);
    var args, vals := Main().body.smts[0].result.args, [Source.Val(Ints.I64, 12)];
    var none: Source.Store := map[];
    assert Source.Eval(args[0], none, ctx) == Source.Gives(vals[0]);
    assert args[1..] == [] && Source.EvalArgs([], none, ctx) == Source.Args([]) && [vals[0]] + [] == vals;
    assert Source.EvalArgs(args, none, ctx) == Source.Args(vals);
    assert Source.Numbers(vals) == [12] && Source.Widths(vals) == ctx.sigs[0].params;
    Ints.WrapIdentity(Ints.I64, 144);
    assert Source.Exec(Main().body.smts[0], none, 0, ctx) == Source.Returned(144);
  }

  lemma MainAnswers()
    ensures Programs.SourceProgram(Program(), 1, [], Ir.Returns(144))
  {
    hide Preservation.RunSource, Programs.SourceCalls, Programs.SourceProgram, Programs.ContextOf, Source.CheckProgram, IntLaws.Reduced;
    var v := FibAnswers(12);
    Twelfth();
    Itself(144);
    IntLaws.ReducedUnique(Ints.I64, 144, v, 144);
    Checked();
    var calls := Programs.SourceCalls(Program(), 12);
    MainRuns(calls);
    assert Programs.SourceAnswers(Program(), calls, Ir.Invocation(1, []), Ir.Returns(144));
    Programs.OneDeeper(Program(), 12, Ir.Invocation(1, []), Ir.Returns(144));
    Programs.WithinAnswers(Program(), 13, Ir.Invocation(1, []), Ir.Returns(144));
  }

  lemma Itself(x: int)
    requires Ints.InRange(Ints.I64, x)
    ensures IntLaws.Reduced(Ints.I64, x, x)
  {
    assert x == x + 0 * IntLaws.TwoTo(IntLaws.Bits(Ints.I64));
  }
}
