/** The assignment nodes made of `=`, `+=`, `-=`, `*=`, `%=`, `|=`, `<<=`, `++` and `--`. */
module Assignments {
  import opened Wrappers
  import opened Ints
  import opened Source

  datatype AssignOp = Plain | Adding | Subtracting | Multiplying | Remaining | Joining | Shifting

  /** `d op= e`. The left side is named twice in the node: read as `read`, then written.
      None where the operator of the right side is left as an assertion by the generator. */
  function BinaryAssignment(d: Dcl, read: Exp, op: AssignOp, e: Exp): Option<Smt> {
    match op
    case Plain => Some(Assign(d, e))
    case Adding => Some(Assign(d, Binary(read, Add, e)))
    case Subtracting => Some(Assign(d, Binary(read, Sub, e)))
    case Multiplying => Some(Assign(d, Binary(read, Mul, e)))
    case Remaining => Some(Assign(d, Binary(read, Rem, e)))
    case Joining => None
    case Shifting => None
  }

  predicate Accepted(s: Option<Smt>, env: Env, sigs: seq<Signature>) {
    s.Some? && Check(s.value, env, sigs).Some?
  }

  /** The right side may have another width than the variable only when the variable
      has 64 bits: the sum of mixed widths does not fit a narrower one. */
  lemma AcceptedExactly(d: Dcl, op: AssignOp, e: Exp, env: Env, sigs: seq<Signature>)
    ensures Accepted(BinaryAssignment(d, Ident(d), op, e), env, sigs) <==>
      && d in env && ExpType(e, env, sigs).Some? && !op.Joining? && !op.Shifting?
      && (ExpType(e, env, sigs).value == env[d] || (!op.Plain? && env[d] == I64))
  {
    if d in env {
      assert ExpType(Ident(d), env, sigs) == Some(env[d]);
    }
  }

  function Increment(d: Dcl): Smt { Assign(d, Binary(Ident(d), Add, Literal(1))) }
  function Decrement(d: Dcl): Smt { Assign(d, Binary(Ident(d), Sub, Literal(1))) }

  /** So `++` and `--` are for 64-bit variables only. */
  lemma StepAcceptedExactly(d: Dcl, env: Env, sigs: seq<Signature>)
    ensures Check(Increment(d), env, sigs).Some? <==> d in env && env[d] == I64
    ensures Check(Decrement(d), env, sigs).Some? <==> d in env && env[d] == I64
    ensures BinaryAssignment(d, Ident(d), Adding, Literal(1)) == Some(Increment(d))
    ensures BinaryAssignment(d, Ident(d), Subtracting, Literal(1)) == Some(Decrement(d))
  {
    AcceptedExactly(d, Adding, Literal(1), env, sigs);
    AcceptedExactly(d, Subtracting, Literal(1), env, sigs);
  }

  /** `++` and then `--` give the store back, from any store, also at the largest
      number. */
  lemma StepsCancel(d: Dcl, store: Store, fuel: nat, ctx: Context)
    requires d in store && store[d].w == I64 && InRange(I64, store[d].v)
    ensures var up := Exec(Increment(d), store, fuel, ctx);
      up.Normal? && Exec(Decrement(d), up.store, fuel, ctx) == Normal(store)
  {
    hide Wrap;
    var up := Exec(Increment(d), store, fuel, ctx);
    var v := Wrap(I64, store[d].v + 1);
    WrapBack(store[d].v);
    StepRuns(d, store, fuel, ctx);
    StepRuns(d, up.store, fuel, ctx);
    assert up == Normal(store[d := Val(I64, v)]);
    assert up.store[d := store[d]] == store;
  }

  /** What one step stores. */
  lemma StepRuns(d: Dcl, store: Store, fuel: nat, ctx: Context)
    requires d in store && store[d].w == I64
    ensures Exec(Increment(d), store, fuel, ctx) == Normal(store[d := Val(I64, Wrap(I64, store[d].v + 1))])
    ensures Exec(Decrement(d), store, fuel, ctx) == Normal(store[d := Val(I64, Wrap(I64, store[d].v - 1))])
  {
    assert Eval(Ident(d), store, ctx) == Gives(store[d]);
    assert Eval(Literal(1), store, ctx) == Gives(Val(I64, 1));
  }

  lemma WrapBack(v: int)
    requires InRange(I64, v)
    ensures Wrap(I64, Wrap(I64, v + 1) - 1) == v
  {
  }
}
