/** Finitely nested applications of a function on oracles. */
module Nesting {
  import opened Ir

  /** `step` applied `depth` times to the oracle that answers nothing. */
  ghost function Nested(step: Oracle -> Oracle, depth: nat): Oracle {
    if depth == 0 then imap[] else step(Nested(step, depth - 1))
  }

  predicate AgreeAt(a: Oracle, b: Oracle, k: Invocation) {
    (k in a <==> k in b) && (k in a ==> a[k] == b[k])
  }

  lemma SameOracle(a: Oracle, b: Oracle)
    requires forall k :: AgreeAt(a, b, k)
    ensures a == b
  {
    forall k ensures k in a <==> k in b { assert AgreeAt(a, b, k); }
    forall k | k in a ensures a[k] == b[k] { assert AgreeAt(a, b, k); }
  }

  /** `b` answers what `a` answers, and perhaps more. */
  ghost predicate MoreCalls(a: Oracle, b: Oracle) {
    forall k :: k in a ==> k in b && b[k] == a[k]
  }

  lemma {:induction false} NestedKeeps(f: Oracle -> Oracle, p: Oracle -> bool, depth: nat)
    requires p(imap[]) && forall c :: p(c) ==> p(f(c))
    ensures p(Nested(f, depth))
  {
    if depth > 0 {
      NestedKeeps(f, p, depth - 1);
    }
  }

  lemma {:induction false} NestedAgree(f: Oracle -> Oracle, g: Oracle -> Oracle, p: Oracle -> bool, depth: nat)
    requires p(imap[]) && (forall c :: p(c) ==> p(f(c))) && forall c :: p(c) ==> f(c) == g(c)
    ensures Nested(f, depth) == Nested(g, depth)
  {
    if depth > 0 {
      NestedAgree(f, g, p, depth - 1);
      NestedKeeps(f, p, depth - 1);
    }
  }

  lemma Anything(b: Oracle)
    ensures MoreCalls(imap[], b)
  {
  }

  lemma {:induction false} NestedGrows(f: Oracle -> Oracle, p: Oracle -> bool, a: nat, b: nat)
    requires p(imap[]) && (forall c {:trigger p(f(c))} :: p(c) ==> p(f(c)))
    requires forall c, d {:trigger MoreCalls(f(c), f(d))} :: p(d) && MoreCalls(c, d) ==> MoreCalls(f(c), f(d))
    requires a <= b
    ensures MoreCalls(Nested(f, a), Nested(f, b))
  {
    hide MoreCalls;
    if a > 0 {
      NestedGrows(f, p, a - 1, b - 1);
      NestedKeeps(f, p, b - 1);
      assert MoreCalls(f(Nested(f, a - 1)), f(Nested(f, b - 1)));
    } else {
      Anything(Nested(f, b));
    }
  }
}

/** Whole programs: functions that call one another, to any depth. */
module Programs {
  import opened Wrappers
  import opened Ints
  import opened Ir
  import opened Source
  import opened ExpSimulation
  import opened Nesting
  import opened Preservation

  function ContextOf(prog: seq<Function>, f: nat, calls: Oracle): Context
    requires f < |prog|
  {
    Context(Signatures(prog, f), prog[f].ret, calls)
  }

  function BehaviourOf(r: CallOutcome): Behaviour {
    match r
    case Returns(v) => Result(v)
    case Traps => Undefined
  }

  /** Called with `args`, the source of function `f` answers `r`. */
  ghost predicate SourceAnswers(prog: seq<Function>, calls: Oracle, k: Invocation, r: CallOutcome) {
    && k.fn < |prog| && Accepts(prog[k.fn], k.args)
    && SourceDoes(prog[k.fn], k.args, ContextOf(prog, k.fn, calls), BehaviourOf(r))
  }

  /** Called with `args`, the block graph of function `f` answers `r`. */
  ghost predicate TargetAnswers(prog: seq<Function>, calls: Oracle, k: Invocation, r: CallOutcome) {
    && k.fn < |prog| && Accepts(prog[k.fn], k.args)
    && TargetDoes(Compiled(prog[k.fn], Signatures(prog, k.fn), k.args, calls), BehaviourOf(r))
  }

  ghost predicate SourceAnswered(prog: seq<Function>, calls: Oracle, k: Invocation) {
    exists r :: SourceAnswers(prog, calls, k, r)
  }

  ghost predicate TargetAnswered(prog: seq<Function>, calls: Oracle, k: Invocation) {
    exists r :: TargetAnswers(prog, calls, k, r)
  }

  ghost function SourceAnswer(prog: seq<Function>, calls: Oracle, k: Invocation): (r: CallOutcome)
    requires SourceAnswered(prog, calls, k)
    ensures SourceAnswers(prog, calls, k, r)
  {
    var r :| SourceAnswers(prog, calls, k, r); r
  }

  ghost function TargetAnswer(prog: seq<Function>, calls: Oracle, k: Invocation): (r: CallOutcome)
    requires TargetAnswered(prog, calls, k)
    ensures TargetAnswers(prog, calls, k, r)
  {
    var r :| TargetAnswers(prog, calls, k, r); r
  }

  ghost function SourceStep(prog: seq<Function>, calls: Oracle): Oracle {
    imap k: Invocation | SourceAnswered(prog, calls, k) :: SourceAnswer(prog, calls, k)
  }

  ghost function TargetStep(prog: seq<Function>, calls: Oracle): Oracle {
    imap k: Invocation | TargetAnswered(prog, calls, k) :: TargetAnswer(prog, calls, k)
  }

  /** All answers the source gives when calls nest at most `depth` deep. */
  ghost function SourceCalls(prog: seq<Function>, depth: nat): Oracle {
    Nested((calls: Oracle) => SourceStep(prog, calls), depth)
  }

  /** All answers the compiled functions give, calling each other. */
  ghost function TargetCalls(prog: seq<Function>, depth: nat): Oracle {
    Nested((calls: Oracle) => TargetStep(prog, calls), depth)
  }

  /** Answers are values of the function's return type. */
  ghost predicate Typed(prog: seq<Function>, calls: Oracle) {
    forall k :: k in calls && k.fn < |prog| && calls[k].Returns? ==> InRange(prog[k.fn].ret, calls[k].value)
  }

  lemma TypedContext(prog: seq<Function>, f: nat, calls: Oracle)
    requires f < |prog| && Typed(prog, calls)
    ensures OracleOk(ContextOf(prog, f, calls))
  {
  }

  lemma AnswersAgree(prog: seq<Function>, calls: Oracle, k: Invocation, r: CallOutcome)
    requires CheckProgram(prog) && Typed(prog, calls)
    ensures SourceAnswers(prog, calls, k, r) <==> TargetAnswers(prog, calls, k, r)
  {
    if k.fn < |prog| && Accepts(prog[k.fn], k.args) {
      assert CheckNth(prog, k.fn);
      TypedContext(prog, k.fn, calls);
      FunctionPreserved(prog[k.fn], k.args, ContextOf(prog, k.fn, calls), BehaviourOf(r));
    }
  }

  lemma OneAnswer(prog: seq<Function>, calls: Oracle, k: Invocation, a: CallOutcome, b: CallOutcome)
    requires TargetAnswers(prog, calls, k, a) && TargetAnswers(prog, calls, k, b)
    ensures a == b
  {
    OneBehaviour(Compiled(prog[k.fn], Signatures(prog, k.fn), k.args, calls), BehaviourOf(a), BehaviourOf(b));
  }

  lemma AnswersTyped(prog: seq<Function>, calls: Oracle, k: Invocation, r: CallOutcome)
    requires SourceAnswers(prog, calls, k, r) && r.Returns?
    ensures InRange(prog[k.fn].ret, r.value)
  {
    var ctx := ContextOf(prog, k.fn, calls);
    var fuel :| RunSource(prog[k.fn], k.args, fuel, ctx) == Returned(r.value);
    ReturnsTyped(prog[k.fn].body, Bind(prog[k.fn].params, k.args), fuel, ctx);
  }

  lemma {:induction false} ReturnsTyped(s: Smt, store: Store, fuel: nat, ctx: Context)
    ensures Exec(s, store, fuel, ctx).Returned? ==> InRange(ctx.ret, Exec(s, store, fuel, ctx).result)
    decreases fuel, s, 2
  {
    match s
    case Declare(_) =>
    case Assign(_, _) =>
    case Return(_) =>
    case Block(smts) => ReturnsTypedSeq(smts, store, fuel, ctx);
    case If(cond, body, elses) =>
      ReturnsTyped(body, store, fuel, ctx);
      if elses.Some? {
        ReturnsTyped(elses.value, store, fuel, ctx);
      }
    case For(index, _, _, _) =>
      if ExecDeclare(index, store, ctx).Normal? {
        ReturnsTypedLoop(s, ExecDeclare(index, store, ctx).store, fuel, ctx);
      }
  }

  lemma {:induction false} ReturnsTypedSeq(smts: seq<Smt>, store: Store, fuel: nat, ctx: Context)
    ensures ExecSeq(smts, store, fuel, ctx).Returned? ==> InRange(ctx.ret, ExecSeq(smts, store, fuel, ctx).result)
    decreases fuel, smts, 0
  {
    if smts != [] {
      ReturnsTyped(smts[0], store, fuel, ctx);
      if Exec(smts[0], store, fuel, ctx).Normal? {
        ReturnsTypedSeq(smts[1..], Exec(smts[0], store, fuel, ctx).store, fuel, ctx);
      }
    }
  }

  lemma {:induction false} ReturnsTypedLoop(s: Smt, store: Store, fuel: nat, ctx: Context)
    requires s.For?
    ensures Iterate(s, store, fuel, ctx).Returned? ==> InRange(ctx.ret, Iterate(s, store, fuel, ctx).result)
    decreases fuel, s, 1
  {
    if fuel > 0 {
      ReturnsTyped(s.loop, store, fuel - 1, ctx);
      var once := Exec(s.loop, store, fuel - 1, ctx);
      if once.Normal? {
        ReturnsTyped(s.inc, once.store, fuel - 1, ctx);
        var step := Exec(s.inc, once.store, fuel - 1, ctx);
        if step.Normal? {
          ReturnsTypedLoop(s, step.store, fuel - 1, ctx);
        }
      }
    }
  }

  lemma StepAt(prog: seq<Function>, calls: Oracle, k: Invocation)
    requires CheckProgram(prog) && Typed(prog, calls)
    ensures AgreeAt(SourceStep(prog, calls), TargetStep(prog, calls), k)
  {
    SameAnswer(prog, calls, k);
  }

  lemma StepsAgree(prog: seq<Function>, calls: Oracle)
    requires CheckProgram(prog) && Typed(prog, calls)
    ensures SourceStep(prog, calls) == TargetStep(prog, calls)
  {
    forall k ensures AgreeAt(SourceStep(prog, calls), TargetStep(prog, calls), k) {
      StepAt(prog, calls, k);
    }
    SameOracle(SourceStep(prog, calls), TargetStep(prog, calls));
  }

  lemma StepTyped(prog: seq<Function>, calls: Oracle)
    requires CheckProgram(prog) && Typed(prog, calls)
    ensures Typed(prog, SourceStep(prog, calls))
  {
    var s := SourceStep(prog, calls);
    forall k | k in s && k.fn < |prog| && s[k].Returns? ensures InRange(prog[k.fn].ret, s[k].value) {
      SameAnswer(prog, calls, k);
    }
  }

  /** At every depth of nesting, source and compiled program give the same answers. */
  lemma CallsAgree(prog: seq<Function>, depth: nat)
    requires CheckProgram(prog)
    ensures SourceCalls(prog, depth) == TargetCalls(prog, depth)
  {
    var f := (calls: Oracle) => SourceStep(prog, calls);
    var g := (calls: Oracle) => TargetStep(prog, calls);
    var p := (calls: Oracle) => Typed(prog, calls);
    forall calls | p(calls) ensures p(f(calls)) {
      StepTyped(prog, calls);
    }
    forall calls | p(calls) ensures f(calls) == g(calls) {
      StepsAgree(prog, calls);
    }
    NestedAgree(f, g, p, depth);
  }

  lemma SameAnswer(prog: seq<Function>, calls: Oracle, k: Invocation)
    requires CheckProgram(prog) && Typed(prog, calls)
    ensures SourceAnswered(prog, calls, k) <==> TargetAnswered(prog, calls, k)
    ensures SourceAnswered(prog, calls, k) ==> SourceAnswer(prog, calls, k) == TargetAnswer(prog, calls, k)
    ensures SourceAnswered(prog, calls, k) && SourceAnswer(prog, calls, k).Returns?
      ==> InRange(prog[k.fn].ret, SourceAnswer(prog, calls, k).value)
  {
    forall r ensures SourceAnswers(prog, calls, k, r) <==> TargetAnswers(prog, calls, k, r) {
      AnswersAgree(prog, calls, k, r);
    }
    if SourceAnswered(prog, calls, k) {
      var r := SourceAnswer(prog, calls, k);
      OneAnswer(prog, calls, k, r, TargetAnswer(prog, calls, k));
      if r.Returns? {
        AnswersTyped(prog, calls, k, r);
      }
    }
  }

  // ---------- answers do not depend on the depth at which they are found ----------

  lemma {:induction false} EvalMore(e: Exp, store: Store, ctx: Context, more: Context)
    requires more == ctx.(calls := more.calls) && MoreCalls(ctx.calls, more.calls)
    ensures Eval(e, store, ctx) != Hang ==> Eval(e, store, more) == Eval(e, store, ctx)
    decreases e
  {
    match e
    case Literal(_) =>
    case BoolLit(_) =>
    case Ident(_) =>
    case Unary(_, x) => EvalMore(x, store, ctx, more);
    case Binary(l, _, r) =>
      EvalMore(l, store, ctx, more);
      EvalMore(r, store, ctx, more);
    case CallExp(f, args) =>
      ArgsMore(args, store, ctx, more);
  }

  lemma {:induction false} ArgsMore(args: seq<Exp>, store: Store, ctx: Context, more: Context)
    requires more == ctx.(calls := more.calls) && MoreCalls(ctx.calls, more.calls)
    ensures EvalArgs(args, store, ctx) != ArgsHang ==> EvalArgs(args, store, more) == EvalArgs(args, store, ctx)
    decreases args
  {
    if args != [] {
      EvalMore(args[0], store, ctx, more);
      ArgsMore(args[1..], store, ctx, more);
    }
  }

  lemma {:induction false} ExecMore(s: Smt, store: Store, fuel: nat, ctx: Context, more: Context)
    requires more == ctx.(calls := more.calls) && MoreCalls(ctx.calls, more.calls)
    ensures Exec(s, store, fuel, ctx) != Hanging ==> Exec(s, store, fuel, more) == Exec(s, store, fuel, ctx)
    decreases fuel, s, 2
  {
    match s
    case Declare(v) => EvalMore(v.value, store, ctx, more);
    case Assign(_, e) => EvalMore(e, store, ctx, more);
    case Return(e) => EvalMore(e, store, ctx, more);
    case Block(smts) => SeqMore(smts, store, fuel, ctx, more);
    case If(cond, body, elses) =>
      if cond.Some? {
        EvalMore(cond.value, store, ctx, more);
      }
      ExecMore(body, store, fuel, ctx, more);
      if elses.Some? {
        ExecMore(elses.value, store, fuel, ctx, more);
      }
    case For(index, _, _, _) =>
      EvalMore(index.value, store, ctx, more);
      if ExecDeclare(index, store, ctx).Normal? {
        LoopMore(s, ExecDeclare(index, store, ctx).store, fuel, ctx, more);
      }
  }

  lemma {:induction false} SeqMore(smts: seq<Smt>, store: Store, fuel: nat, ctx: Context, more: Context)
    requires more == ctx.(calls := more.calls) && MoreCalls(ctx.calls, more.calls)
    ensures ExecSeq(smts, store, fuel, ctx) != Hanging ==> ExecSeq(smts, store, fuel, more) == ExecSeq(smts, store, fuel, ctx)
    decreases fuel, smts, 0
  {
    if smts != [] {
      ExecMore(smts[0], store, fuel, ctx, more);
      if Exec(smts[0], store, fuel, ctx).Normal? {
        SeqMore(smts[1..], Exec(smts[0], store, fuel, ctx).store, fuel, ctx, more);
      }
    }
  }

  lemma {:induction false} LoopMore(s: Smt, store: Store, fuel: nat, ctx: Context, more: Context)
    requires s.For? && more == ctx.(calls := more.calls) && MoreCalls(ctx.calls, more.calls)
    ensures Iterate(s, store, fuel, ctx) != Hanging ==> Iterate(s, store, fuel, more) == Iterate(s, store, fuel, ctx)
    decreases fuel, s, 1
  {
    EvalMore(s.test, store, ctx, more);
    if fuel > 0 {
      ExecMore(s.loop, store, fuel - 1, ctx, more);
      var once := Exec(s.loop, store, fuel - 1, ctx);
      if once.Normal? {
        ExecMore(s.inc, once.store, fuel - 1, ctx, more);
        var step := Exec(s.inc, once.store, fuel - 1, ctx);
        if step.Normal? {
          LoopMore(s, step.store, fuel - 1, ctx, more);
        }
      }
    }
  }

  lemma AnswersMore(prog: seq<Function>, a: Oracle, b: Oracle, k: Invocation, r: CallOutcome)
    requires MoreCalls(a, b) && SourceAnswers(prog, a, k, r)
    ensures SourceAnswers(prog, b, k, r)
  {
    var f := prog[k.fn];
    var ctx, more := ContextOf(prog, k.fn, a), ContextOf(prog, k.fn, b);
    var fuel :| RunSource(f, k.args, fuel, ctx) == (if r.Returns? then Returned(r.value) else Trapping);
    ExecMore(f.body, Bind(f.params, k.args), fuel, ctx, more);
    assert RunSource(f, k.args, fuel, more) == RunSource(f, k.args, fuel, ctx);
  }

  lemma MoreAt(prog: seq<Function>, a: Oracle, b: Oracle, k: Invocation)
    requires CheckProgram(prog) && Typed(prog, b) && MoreCalls(a, b) && SourceAnswered(prog, a, k)
    ensures SourceAnswered(prog, b, k) && SourceAnswer(prog, b, k) == SourceAnswer(prog, a, k)
  {
    var r := SourceAnswer(prog, a, k);
    AnswersMore(prog, a, b, k, r);
    var r' := SourceAnswer(prog, b, k);
    AnswersAgree(prog, b, k, r);
    AnswersAgree(prog, b, k, r');
    OneAnswer(prog, b, k, r, r');
  }

  lemma StepMore(prog: seq<Function>, a: Oracle, b: Oracle)
    requires CheckProgram(prog) && Typed(prog, b) && MoreCalls(a, b)
    ensures MoreCalls(SourceStep(prog, a), SourceStep(prog, b))
  {
    forall k | k in SourceStep(prog, a) ensures k in SourceStep(prog, b) && SourceStep(prog, b)[k] == SourceStep(prog, a)[k] {
      MoreAt(prog, a, b, k);
    }
  }

  /** An answer found at some depth is the answer at every greater depth. */
  lemma DeeperMore(prog: seq<Function>, a: nat, b: nat)
    requires CheckProgram(prog) && a <= b
    ensures MoreCalls(SourceCalls(prog, a), SourceCalls(prog, b))
  {
    var f := (calls: Oracle) => SourceStep(prog, calls);
    var p := (calls: Oracle) => Typed(prog, calls);
    forall calls | p(calls) ensures p(f(calls)) {
      StepTyped(prog, calls);
    }
    forall c, d | p(d) && MoreCalls(c, d) ensures MoreCalls(f(c), f(d)) {
      StepMore(prog, c, d);
    }
    NestedGrows(f, p, a, b);
  }

  /** Calling function `f` of the program with `args` answers `r`, at some depth. */
  ghost predicate SourceProgram(prog: seq<Function>, f: nat, args: seq<int>, r: CallOutcome) {
    exists d :: Invocation(f, args) in SourceCalls(prog, d) && SourceCalls(prog, d)[Invocation(f, args)] == r
  }

  ghost predicate TargetProgram(prog: seq<Function>, f: nat, args: seq<int>, r: CallOutcome) {
    exists d :: Invocation(f, args) in TargetCalls(prog, d) && TargetCalls(prog, d)[Invocation(f, args)] == r
  }

  /** Semantic preservation for whole programs, recursion included. */
  lemma ProgramPreserved(prog: seq<Function>, f: nat, args: seq<int>, r: CallOutcome)
    requires CheckProgram(prog)
    ensures SourceProgram(prog, f, args, r) <==> TargetProgram(prog, f, args, r)
  {
    forall d: nat ensures SourceCalls(prog, d) == TargetCalls(prog, d) {
      CallsAgree(prog, d);
    }
  }

  /** A program answers a call in at most one way. */
  lemma ProgramDeterministic(prog: seq<Function>, f: nat, args: seq<int>, a: CallOutcome, b: CallOutcome)
    requires CheckProgram(prog) && SourceProgram(prog, f, args, a) && SourceProgram(prog, f, args, b)
    ensures a == b
  {
    var i :| Invocation(f, args) in SourceCalls(prog, i) && SourceCalls(prog, i)[Invocation(f, args)] == a;
    var j :| Invocation(f, args) in SourceCalls(prog, j) && SourceCalls(prog, j)[Invocation(f, args)] == b;
    if i <= j {
      DeeperMore(prog, i, j);
    } else {
      DeeperMore(prog, j, i);
    }
  }

  lemma TypedCalls(prog: seq<Function>, depth: nat)
    requires CheckProgram(prog)
    ensures Typed(prog, SourceCalls(prog, depth))
  {
    var f := (calls: Oracle) => SourceStep(prog, calls);
    var p := (calls: Oracle) => Typed(prog, calls);
    forall calls | p(calls) ensures p(f(calls)) {
      StepTyped(prog, calls);
    }
    NestedKeeps(f, p, depth);
  }

  /** The answer is there when calls nest at most `depth` deep. */
  ghost predicate Within(prog: seq<Function>, depth: nat, k: Invocation, r: CallOutcome) {
    k in SourceCalls(prog, depth) && SourceCalls(prog, depth)[k] == r
  }

  /** What a function answers with the calls of some depth it answers one deeper. */
  lemma OneDeeper(prog: seq<Function>, depth: nat, k: Invocation, r: CallOutcome)
    requires CheckProgram(prog) && SourceAnswers(prog, SourceCalls(prog, depth), k, r)
    ensures Within(prog, depth + 1, k, r)
  {
    hide SourceAnswers, TargetAnswers, Typed;
    var calls := SourceCalls(prog, depth);
    var found := SourceAnswer(prog, calls, k);
    TypedCalls(prog, depth);
    AnswersAgree(prog, calls, k, r);
    AnswersAgree(prog, calls, k, found);
    OneAnswer(prog, calls, k, r, found);
    assert SourceCalls(prog, depth + 1) == SourceStep(prog, calls);
  }

  lemma Deeper(prog: seq<Function>, a: nat, b: nat, k: Invocation, r: CallOutcome)
    requires CheckProgram(prog) && a <= b && Within(prog, a, k, r)
    ensures Within(prog, b, k, r)
  {
    DeeperMore(prog, a, b);
  }

  lemma WithinAnswers(prog: seq<Function>, depth: nat, k: Invocation, r: CallOutcome)
    requires Within(prog, depth, k, r)
    ensures SourceProgram(prog, k.fn, k.args, r)
  {
    assert Invocation(k.fn, k.args) == k;
  }

  /** What a function answers without any call is what the program answers. */
  lemma AnswersAlone(prog: seq<Function>, k: Invocation, r: CallOutcome)
    requires CheckProgram(prog) && SourceAnswers(prog, imap[], k, r)
    ensures SourceProgram(prog, k.fn, k.args, r)
  {
    OneDeeper(prog, 0, k, r);
    WithinAnswers(prog, 1, k, r);
  }
}
