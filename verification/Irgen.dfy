/** The generator itself: an object that appends instructions and blocks to one
    function at a time and remembers where it is. */
module Irgen {
  import opened Wrappers
  import opened Ints
  import opened Ir
  import opened Source
  import opened Lowering
  import opened Preservation
  import opened GraphShape
  import opened Deletion

  class Generator {
    var blocks: seq<Ir.Block>       // the function under construction
    var block: nat                  // the current block
    var builder: nat                // the block at whose end the builder stands
    var next: nat                   // the next unused register
    var slots: map<Dcl, Slot>       // the llvmValue of each compiled declaration
    var sigs: seq<Signature>        // functions that may be called
    var ret: Width                  // return type of the function

    ghost predicate Valid()
      reads this
    {
      block < |blocks| && builder == block
    }

    ghost function St(): State
      reads this
    {
      State(blocks, block, next, slots, sigs, ret)
    }

    constructor ()
      ensures Valid()
    {
      blocks, block, builder, next, slots, sigs, ret := [[]], 0, 0, 0, map[], [], I64;
    }

    method SetBlock(b: nat)
      requires b < |blocks|
      modifies `block, `builder
      ensures Valid() && St() == Lowering.SetBlock(old(St()), b)
    {
      block := b;
      builder := b;
    }

    method AppendBlock() returns (b: nat)
      requires Valid()
      modifies `blocks
      ensures Valid() && St() == Append(old(St())) && b == |old(blocks)|
    {
      b := |blocks|;
      blocks := blocks + [[]];
    }

    /** Appends an instruction at the builder. */
    method Build(i: Instr)
      requires Valid()
      modifies `blocks
      ensures Valid() && St() == Emit(old(St()), i)
    {
      blocks := blocks[builder := blocks[builder] + [i]];
    }

    /** Appends an instruction that defines register `next`. */
    method BuildValue(i: Instr)
      requires Valid()
      modifies `blocks, `next
      ensures Valid() && St() == Define(old(St()), i)
    {
      blocks := blocks[builder := blocks[builder] + [i]];
      next := next + 1;
    }

    method Cast(o: Operand, w: Width) returns (r: Operand)
      requires Valid()
      modifies `blocks, `next
      ensures Valid() && (St(), r) == LowerCast(old(St()), o, w)
    {
      if o.width == w {
        return o;
      }
      r := Reg(w, next);
      BuildValue(IntCast(next, o, w));
    }

    method CompileExp(e: Source.Exp) returns (o: Operand)
      requires Valid()
      modifies `blocks, `next
      ensures Valid() && (St(), o) == LowerExp(old(St()), e)
      decreases e
    {
      match e
      case Literal(n) => o := Const(I64, Wrap(I64, n));
      case BoolLit(b) => o := Const(I1, Truth(b));
      case Ident(d) =>
        var slot := GetAlloc(d);
        o := Reg(slot.width, next);
        BuildValue(Load(next, slot.width, slot.reg));
      case Unary(op, x) =>
        o := CompileExp(x);
        if op.Minus? {
          var r := Reg(o.width, next);
          BuildValue(Bin(next, Mul, Const(o.width, -1), o));
          o := r;
        }
      case Binary(l, op, r) => o := CompileBinaryExp(e);
      case CallExp(f, args) => o := CompileCallExp(e);
    }

    method GetAlloc(d: Dcl) returns (s: Slot)
      ensures s == SlotOf(St(), d)
    {
      s := if d in slots then slots[d] else Slot(0, I64);
    }

    method CompileBinaryExp(e: Source.Exp) returns (o: Operand)
      requires Valid() && e.Binary?
      modifies `blocks, `next
      ensures Valid() && (St(), o) == LowerExp(old(St()), e)
      decreases e, 0
    {
      var a := CompileExp(e.left);
      var b := CompileExp(e.rhs);
      var node := a.width;
      if a.width != b.width {
        node := I64;
        a := Cast(a, node);
        b := Cast(b, node);
      }
      o := Reg(ResultWidth(e.op, node), next);
      BuildValue(Bin(next, e.op, a, b));
    }

    method CompileCallExp(e: Source.Exp) returns (o: Operand)
      requires Valid() && e.CallExp?
      modifies `blocks, `next
      ensures Valid() && (St(), o) == LowerExp(old(St()), e)
      decreases e, 0
    {
      var os: seq<Operand> := [];
      ghost var start := St();
      assert e.args[0..] == e.args && os + LowerArgs(start, e.args).1 == LowerArgs(start, e.args).1;
      for i := 0 to |e.args|
        invariant Valid() && |os| == i
        invariant var (r, rest) := LowerArgs(St(), e.args[i..]); LowerArgs(start, e.args) == (r, os + rest)
      {
        assert e.args[i..][1..] == e.args[i + 1..];
        var o := CompileExp(e.args[i]);
        ghost var (r, rest) := LowerArgs(St(), e.args[i + 1..]);
        assert os + ([o] + rest) == (os + [o]) + rest;
        os := os + [o];
      }
      assert e.args[|e.args|..] == [] && os + [] == os;
      o := Reg(if e.function_ < |sigs| then sigs[e.function_].ret else I64, next);
      BuildValue(Call(next, e.function_, os));
    }

    method CompileVarible(v: VarDcl)
      requires Valid()
      modifies `blocks, `next, `slots
      ensures Valid() && St() == LowerVariable(old(St()), v)
    {
      var o := CompileExp(v.value);
      var w := o.width;
      if v.ty.Some? {
        w := v.ty.value;
        o := Cast(o, w);
      }
      var cell := next;
      BuildValue(Alloca(cell, w));
      Build(Store(o, cell));
      slots := slots[v.dcl := Slot(cell, w)];
    }

    method CompileSmt(s: Source.Smt)
      requires Valid()
      modifies `blocks, `block, `builder, `next, `slots
      ensures Valid() && St() == LowerSmt(old(St()), s)
      decreases s, 3
    {
      match s
      case Block(smts) => CompileBlock(s);
      case Return(e) =>
        var o := CompileExp(e);
        o := Cast(o, ret);
        Build(Ret(o));
      case Assign(d, e) =>
        var slot := GetAlloc(d);
        var o := CompileExp(e);
        Build(Store(o, slot.reg));
      case Declare(v) => CompileVarible(v);
      case If(_, _, _) => CompileIf(s);
      case For(_, _, _, _) => CompileFor(s);
    }

    method CompileBlock(s: Source.Smt)
      requires Valid() && s.Block?
      modifies `blocks, `block, `builder, `next, `slots
      ensures Valid() && St() == LowerSmts(old(St()), s.smts)
      decreases s, 1
    {
      ghost var start := St();
      for i := 0 to |s.smts|
        invariant Valid() && LowerSmts(St(), s.smts[i..]) == LowerSmts(start, s.smts)
      {
        assert s.smts[i..][1..] == s.smts[i + 1..];
        CompileSmt(s.smts[i]);
      }
    }

    method CompileBlockAt(s: Source.Smt, b: nat) returns (out: nat)
      requires Valid() && b < |blocks|
      modifies `blocks, `block, `builder, `next, `slots
      ensures Valid() && (St(), out) == BlockAt(old(St()), s, b)
      decreases s, 4
    {
      var parent := block;
      SetBlock(b);
      CompileSmt(s);
      out := block;
      SetBlock(parent);
    }

    method CompileIf(s: Source.Smt)
      requires Valid() && s.If?
      modifies `blocks, `block, `builder, `next, `slots
      ensures Valid() && St() == LowerSmt(old(St()), s)
      decreases s, 2
    {
      var end := AppendBlock();
      CompileIfBranch(s, None, end);
    }

    method CompileIfBranch(s: Source.Smt, at: Option<nat>, end: nat)
      requires Valid() && end < |blocks| && (at.Some? ==> at.value < |blocks|)
      modifies `blocks, `block, `builder, `next, `slots
      ensures Valid() && St() == LowerBranch(old(St()), s, at, end)
      decreases s, 1
    {
      if !s.If? {
        return;
      }
      if s.cond.None? {
        var out := CompileBlockAt(s.body, if at.Some? then at.value else block);
        SetBlock(out);
        if !Terminated(blocks[out]) {
          Build(Br(end));
          SetBlock(end);
        }
        return;
      }
      var parent := if at.Some? then at.value else block;
      var ifFalse := CompileIfTest(s, parent, end);
      SetBlock(ifFalse);
      if s.elses.Some? {
        CompileIfBranch(s.elses.value, Some(ifFalse), end);
      }
      SetBlock(end);
    }

    /** The part of `CompileIfBranch` up to and including the conditional branch. */
    method CompileIfTest(s: Source.Smt, parent: nat, end: nat) returns (ifFalse: nat)
      requires Valid() && s.If? && s.cond.Some? && parent < |blocks| && end < |blocks|
      modifies `blocks, `block, `builder, `next, `slots
      ensures Valid() && (St(), ifFalse) == Test(old(St()), s, parent, end)
      decreases s, 0
    {
      hide BlockAt, LowerExp;
      var body := AppendBlock();
      ifFalse := end;
      if s.elses.Some? {
        ifFalse := AppendBlock();
      }
      var out := CompileBlockAt(s.body, body);
      if !Terminated(blocks[out]) {
        SetBlock(out);
        Build(Br(end));
        SetBlock(parent);
      }
      var c := CompileExp(s.cond.value);
      Build(CondBr(c, body, ifFalse));
    }

    method CompileFor(s: Source.Smt)
      requires Valid() && s.For?
      modifies `blocks, `block, `builder, `next, `slots
      ensures Valid() && St() == LowerLoop(old(St()), s)
      decreases s, 1
    {
      CompileVarible(s.index);
      var header := AppendBlock();
      var out := CompileBlockAt(s.loop, header);
      var outer := CompileExp(s.test);
      var exit := AppendBlock();
      Build(CondBr(outer, header, exit));
      SetBlock(out);
      CompileSmt(s.inc);
      var inner := CompileExp(s.test);
      Build(CondBr(inner, header, exit));
      SetBlock(exit);
    }

    /** Compiles one function and gives the blocks that are left when an empty last one
        is deleted. They do for all arguments what the source does. They are well formed
        exactly when no code follows a return and the body ends, and every branch goes to
        one of them exactly when the body does not dangle. */
    method CompileFunction(f: Function, callees: seq<Signature>) returns (code: Code)
      modifies this
      ensures Valid() && St() == LowerFunction(f, callees) && code == Remaining(St())
      ensures forall args, ctx: Context, b :: ctx.sigs == callees && Callable(f, args, ctx) ==>
        (SourceDoes(f, args, ctx, b) <==> TargetDoes(Machine(code, args, ctx.calls), b))
      ensures CheckFunction(f, callees) ==> (WellFormed(code) <==> Supported(f.body, false) && Ends(f.body))
      ensures CheckFunction(f, callees) ==> (Intact(code) <==> !Dangles(f.body))
    {
      hide SourceDoes, TargetDoes, WellFormed, Intact, Ends, Dangles, Supported, CheckFunction, Callable;
      blocks, next, slots, sigs, ret := [[]], 0, map[], callees, f.ret;
      SetBlock(0);
      for i := 0 to |f.params|
        invariant Valid() && St() == LowerParams(f.params[..i], callees, f.ret)
      {
        assert f.params[..i + 1][..i] == f.params[..i];
        var cell := next;
        BuildValue(Alloca(cell, f.params[i].ty));
        Build(Store(Param(f.params[i].ty, i), cell));
        slots := slots[f.params[i].dcl := Slot(cell, f.params[i].ty)];
      }
      assert f.params[..|f.params|] == f.params;
      CompileSmt(f.body);
      code := map k: nat | k < |blocks| :: blocks[k];
      if blocks[block] == [] {
        code := code - {block};
      }
      assert code == Remaining(St());
      Established(f, callees);
    }
  }

  /** What is known of every generated function. */
  lemma Established(f: Function, callees: seq<Signature>)
    ensures var code := Remaining(LowerFunction(f, callees));
      && (forall args, ctx: Context, b :: ctx.sigs == callees && Callable(f, args, ctx) ==>
           (SourceDoes(f, args, ctx, b) <==> TargetDoes(Machine(code, args, ctx.calls), b)))
      && (CheckFunction(f, callees) ==> (WellFormed(code) <==> Supported(f.body, false) && Ends(f.body)))
      && (CheckFunction(f, callees) ==> (Intact(code) <==> !Dangles(f.body)))
  {
    forall args, ctx: Context, b | ctx.sigs == callees && Callable(f, args, ctx)
      ensures SourceDoes(f, args, ctx, b) <==> TargetDoes(Machine(Remaining(LowerFunction(f, callees)), args, ctx.calls), b)
    {
      FunctionPreserved(f, args, ctx, b);
    }
    if CheckFunction(f, callees) {
      FunctionShape(f, callees);
      FunctionBounded(f, callees);
    }
  }
}
