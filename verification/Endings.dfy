/** Functions in which every path returns, and functions that fall off their end. */
module Endings {
  import opened Wrappers
  import opened Ir
  import opened Source
  import opened Lowering
  import opened GraphShape
  import opened Liveness
  import opened Deletion
  import opened Preservation

  lemma {:induction false} NeverNormal(s: Smt, store: Store, fuel: nat, ctx: Context)
    requires !Completes(s)
    ensures !Exec(s, store, fuel, ctx).Normal?
    decreases s
  {
    match s
    case Return(_) =>
    case Block(smts) => NeverNormalSeq(smts, store, fuel, ctx);
    case If(cond, body, elses) =>
      NeverNormal(body, store, fuel, ctx);
      if cond.Some? {
        NeverNormal(elses.value, store, fuel, ctx);
      }
    case _ =>
  }

  lemma {:induction false} NeverNormalSeq(smts: seq<Smt>, store: Store, fuel: nat, ctx: Context)
    requires !CompletesSeq(smts)
    ensures !ExecSeq(smts, store, fuel, ctx).Normal?
    decreases smts
  {
    if Completes(smts[0]) {
      var first := Exec(smts[0], store, fuel, ctx);
      if first.Normal? {
        NeverNormalSeq(smts[1..], first.store, fuel, ctx);
      }
    } else {
      NeverNormal(smts[0], store, fuel, ctx);
    }
  }

  /** When every path returns, the blocks never run into an open block end or to a
      block that was deleted: for no arguments and no callees. */
  lemma NeverFallsOff(f: Function, args: seq<int>, ctx: Context)
    requires Callable(f, args, ctx) && !Completes(f.body)
    ensures !TargetDoes(Compiled(f, ctx.sigs, args, ctx.calls), FallsOff)
  {
    FunctionPreserved(f, args, ctx, FallsOff);
    forall fuel: nat ensures !RunSource(f, args, fuel, ctx).Normal? {
      NeverNormal(f.body, Bind(f.params, args), fuel, ctx);
    }
  }

  /** Well-formed blocks always come to a return, trap, wait or diverge. */
  lemma WellFormedReturns(f: Function, args: seq<int>, ctx: Context)
    requires Callable(f, args, ctx) && WellFormed(Remaining(LowerFunction(f, ctx.sigs)))
    ensures !TargetDoes(Compiled(f, ctx.sigs, args, ctx.calls), FallsOff)
  {
    FunctionShape(f, ctx.sigs);
    CheckHeaded(f.body, ParamEnv(f.params), ctx.sigs);
    EndsReturns(f.body);
    NeverFallsOff(f, args, ctx);
  }

  /** Control gets to the deleted block exactly when the source falls off the end of a
      body that dangles or has no code at all. */
  lemma LostExactly(f: Function, args: seq<int>, ctx: Context)
    requires Callable(f, args, ctx)
    ensures Gets(Compiled(f, ctx.sigs, args, ctx.calls), Lost) <==>
      SourceDoes(f, args, ctx, FallsOff) && (Dangles(f.body) || (Silent(f.body) && f.params == []))
  {
    FallsWhere(f, args, ctx);
    if SourceDoes(f, args, ctx, FallsOff) {
      var fuel :| RunSource(f, args, fuel, ctx).Normal?;
      if !Completes(f.body) {
        NeverNormal(f.body, Bind(f.params, args), fuel, ctx);
      }
      DeletedOpen(f, ctx.sigs);
    }
  }

  /** A body that some path gets through leaves an empty last block exactly then. */
  lemma DeletedOpen(f: Function, sigs: seq<Signature>)
    requires CheckFunction(f, sigs) && Completes(f.body)
    ensures Deleted(LowerFunction(f, sigs)).Some? <==> Dangles(f.body) || (Silent(f.body) && f.params == [])
  {
    var l := if f.params == [] then Alone else Filled;
    FunctionLands(f, sigs);
    CheckHeaded(f.body, ParamEnv(f.params), sigs);
    if Silent(f.body) {
      SilentSmt(LowerParams(f.params, sigs, f.ret), f.body, l);
      SilentSmt(LowerParams(f.params, sigs, f.ret), f.body, Filled);
    } else {
      LoudSmt(f.body, l);
      if Ends(f.body) {
        EndsReturns(f.body);
      }
    }
  }
}
