/** Which functions become valid code: with blocks as LLVM asks, and typed instructions. That no
    register is read before it is made follows for every run from `Simulation`, where the machine
    is never stuck on one. */
module Verified {
  import opened Wrappers
  import opened Source
  import opened Lowering
  import Ir
  import Parameters
  import GraphShape
  import Deletion
  import Typing

  /** The blocks that are left are well formed and all their instructions are typed. */
  ghost predicate Valid(r: State)
    requires Ok(r)
  {
    && Deletion.WellFormed(Remaining(r))
    && forall k, i :: k in Remaining(r) && 0 <= i < |Remaining(r)[k]| ==> Typing.Typed(Remaining(r)[k][i], r)
  }

  /** A function whose names are in scope becomes valid code if and only if the static rules
      accept its widths, no code follows a return in its block, no loop body or increment ends in
      one, and the body ends in a return or in a chain with a last else all of whose bodies do. */
  lemma ValidExactly(f: Function, sigs: seq<Signature>)
    requires Parameters.Distinct(f.params) && f.body.Block?
    requires Tree(f.body, ParamEnv(f.params).Keys) && Typing.Scoped(f.body, ParamEnv(f.params).Keys)
    ensures Valid(LowerFunction(f, sigs)) <==>
      Check(f.body, ParamEnv(f.params), sigs).Some? && GraphShape.Supported(f.body, false) && Deletion.Ends(f.body)
  {
    hide Deletion.WellFormed, Typing.Typed, Typing.CodeTyped, Typing.Scoped, Check, Tree, LowerFunction, GraphShape.Supported, Deletion.Ends, Remaining, Typing.Made;
    var r := LowerFunction(f, sigs);
    Typing.FunctionTyped(f, sigs);
    LeftTyped(r);
    if Check(f.body, ParamEnv(f.params), sigs).Some? {
      Deletion.FunctionShape(f, sigs);
    }
  }

  /** The deleted block is empty. */
  lemma LeftTyped(r: State)
    requires Ok(r)
    ensures Typing.CodeTyped(r) <==> forall k, i :: k in Remaining(r) && 0 <= i < |Remaining(r)[k]| ==> Typing.Typed(Remaining(r)[k][i], r)
  {
    hide Typing.Typed;
    var code := Remaining(r);
    if forall k, i :: k in code && 0 <= i < |code[k]| ==> Typing.Typed(code[k][i], r) {
      forall k, i | 0 <= k < |r.blocks| && 0 <= i < |r.blocks[k]| ensures Typing.Typed(r.blocks[k][i], r) {
        assert k in code && code[k] == r.blocks[k];
      }
    }
  }
}
