/** From parsed statements to the tree the generator walks, and from a source text to
    blocks. */
module Frontend {
  import opened Wrappers
  import Tokens
  import Pratt
  import Scopes
  import opened Statements
  import opened StatementKeeps
  import Ints
  import Source
  import Assignments

  // ---------- expressions ----------

  /** The value of digits to a base, 0 without digits: a lone `0` is an octal literal
      without any. */
  function Number(digits: string, base: int): Option<int> {
    if digits == [] then Some(0)
    else
      var d := digits[|digits| - 1];
      var more := Number(digits[..|digits| - 1], base);
      if more.None? || !('0' <= d <= '9') then None else Some(more.value * base + (d as int - '0' as int))
  }

  function LiteralOf(t: Tokens.Token): Option<int> {
    if t.ty.Int? then Number(t.value, 10)
    else if t.ty.Hex? then Number(t.value, 16)
    else if t.ty.Octal? then Number(t.value, 8)
    else None
  }

  function OperatorOf(t: Tokens.TokenType): Option<Ints.BinOp> {
    if t.Add? then Some(Ints.Add)
    else if t.Sub? then Some(Ints.Sub)
    else if t.Mul? then Some(Ints.Mul)
    else if t.Quo? then Some(Ints.Quo)
    else if t.Rem? then Some(Ints.Rem)
    else if t.Lss? then Some(Ints.Lss)
    else if t.Leq? then Some(Ints.Leq)
    else if t.Gtr? then Some(Ints.Gtr)
    else if t.Geq? then Some(Ints.Geq)
    else if t.Eql? then Some(Ints.Eql)
    else if t.Neq? then Some(Ints.Neq)
    else None
  }

  /** The declaration a name was resolved to. */
  function DclOf(name: string, scope: Scopes.Stack): Option<Source.Dcl> {
    var id := Scopes.Found(scope, name);
    if id.Some? && id.value >= 0 then Some(id.value) else None
  }

  /** `funs` are the functions among the declarations. None for what the generator
      does not take or this model leaves out. */
  function ExpOf(e: Pratt.Exp, scope: Scopes.Stack, funs: map<Source.Dcl, nat>): Option<Source.Exp>
    decreases e
  {
    match e
    case IdentExp(n) =>
      // these two spellings are never looked up
      if n == "true" then Some(Source.BoolLit(true))
      else if n == "false" then Some(Source.BoolLit(false))
      else
        var d := DclOf(n, scope);
        if d.None? then None else Some(Source.Ident(d.value))
    case Literal(t) =>
      var n := LiteralOf(t);
      if n.None? then None else Some(Source.Literal(n.value))
    case Unary(op, x) =>
      var a := ExpOf(x, scope, funs);
      if a.None? || !op.ty.Sub? then None else Some(Source.Unary(Source.Minus, a.value))
    case Binary(l, op, r) =>
      var a := ExpOf(l, scope, funs);
      var b := ExpOf(r, scope, funs);
      var o := OperatorOf(op.ty);
      if a.None? || b.None? || o.None? then None else Some(Source.Binary(a.value, o.value, b.value))
    case Call(f, args) =>
      var d := if f.IdentExp? then DclOf(f.name, scope) else None;
      var es := ExpsOf(args, scope, funs);
      if d.None? || d.value !in funs || es.None? then None else Some(Source.CallExp(funs[d.value], es.value))
    case _ => None
  }

  function ExpsOf(es: seq<Pratt.Exp>, scope: Scopes.Stack, funs: map<Source.Dcl, nat>): Option<seq<Source.Exp>>
    decreases es
  {
    if es == [] then Some([])
    else
      var a := ExpOf(es[0], scope, funs);
      var rest := ExpsOf(es[1..], scope, funs);
      if a.None? || rest.None? then None else Some([a.value] + rest.value)
  }

  function SeenOf(s: Seen, funs: map<Source.Dcl, nat>): Option<Source.Exp> {
    ExpOf(s.exp, s.scope, funs)
  }

  // ---------- statements ----------

  function WidthOf(t: TypeExp): Option<Ints.Width> {
    if !t.Named? then None
    else if t.name == "int" || t.name == "i64" then Some(Ints.I64)
    else if t.name == "i32" then Some(Ints.I32)
    else if t.name == "i16" then Some(Ints.I16)
    else if t.name == "i8" then Some(Ints.I8)
    else None
  }

  function VariableOf(v: Option<Variable>, funs: map<Source.Dcl, nat>): Option<Source.VarDcl> {
    if v.None? || v.value.id < 0 then None
    else
      var e := SeenOf(v.value.value, funs);
      if e.None? then None
      else if v.value.ty.None? then Some(Source.VarDcl(v.value.id, None, e.value))
      else
        var w := WidthOf(v.value.ty.value);
        if w.None? then None else Some(Source.VarDcl(v.value.id, w, e.value))
  }

  function AssignOf(t: Tokens.TokenType): Option<Assignments.AssignOp> {
    if t.Assign? then Some(Assignments.Plain)
    else if t.AddAssign? then Some(Assignments.Adding)
    else if t.SubAssign? then Some(Assignments.Subtracting)
    else if t.MulAssign? then Some(Assignments.Multiplying)
    else if t.RemAssign? then Some(Assignments.Remaining)
    else if t.OrAssign? then Some(Assignments.Joining)
    else if t.ShlAssign? then Some(Assignments.Shifting)
    else None
  }

  function SmtOf(s: Stm, funs: map<Source.Dcl, nat>): Option<Source.Smt>
    decreases s
  {
    match s
    case Nothing => None
    case Ret(e) =>
      var x := SeenOf(e, funs);
      if x.None? then None else Some(Source.Return(x.value))
    case Blk(smts) =>
      var l := SmtsOf(smts, funs);
      if l.None? then None else Some(Source.Block(l.value))
    case Branch(c, body, elses) =>
      var x := if c.None? then None else SeenOf(c.value, funs);
      var b := SmtOf(body, funs);
      var e := SmtOf(elses, funs);
      if (c.Some? && x.None?) || b.None? || (!elses.Nothing? && e.None?) then None
      else Some(Source.If(x, b.value, e))
    case Loop(index, test, inc, rounds) =>
      var v := VariableOf(index, funs);
      var x := SeenOf(test, funs);
      var i := SmtOf(inc, funs);
      var b := SmtOf(rounds, funs);
      if v.None? || x.None? || i.None? || b.None? then None else Some(Source.For(v.value, x.value, i.value, b.value))
    case Declare(v) =>
      var d := VariableOf(v, funs);
      if d.None? then None else Some(Source.Declare(d.value))
    case Set(l, op, r) =>
      // the variable is stored to also when its name is read as a truth value
      var d := if l.exp.IdentExp? then DclOf(l.exp.name, l.scope) else None;
      var read := SeenOf(l, funs);
      var x := SeenOf(r, funs);
      var o := AssignOf(op);
      if d.None? || read.None? || x.None? || o.None? then None
      else Assignments.BinaryAssignment(d.value, read.value, o.value, x.value)
  }

  function SmtsOf(smts: seq<Stm>, funs: map<Source.Dcl, nat>): Option<seq<Source.Smt>>
    decreases smts
  {
    if smts == [] then Some([])
    else
      var a := SmtOf(smts[0], funs);
      var rest := SmtsOf(smts[1..], funs);
      if a.None? || rest.None? then None else Some([a.value] + rest.value)
  }

  // ---------- every declaration once ----------

  predicate Clear(used: set<Source.Dcl>, lo: int, hi: int) { forall d :: d in used ==> d < lo || d >= hi }

  predicate Between(used: set<Source.Dcl>, lo: int, hi: int) { forall d :: d in used ==> lo <= d < hi }

  /** What the parser numbers is a proper tree: each declaration occurs once. */
  lemma {:induction false} NumberedTree(s: Stm, lo: int, funs: map<Source.Dcl, nat>, used: set<Source.Dcl>)
    requires Numbered(s, lo) && SmtOf(s, funs).Some? && Clear(used, lo, lo + Count(s))
    ensures var r := SmtOf(s, funs).value; Source.Tree(r, used) && Between(Source.Dcls(r), lo, lo + Count(s))
    decreases s
  {
    match s
    case Ret(_) =>
    case Blk(smts) => NumberedTrees(smts, lo, funs, used);
    case Branch(_, _, _) => BranchTree(s, lo, funs, used);
    case Loop(_, _, _, _) => LoopTree(s, lo, funs, used);
    case Declare(_) =>
    case Set(_, _, _) =>
  }

  lemma {:induction false} BranchTree(s: Stm, lo: int, funs: map<Source.Dcl, nat>, used: set<Source.Dcl>)
    requires s.Branch? && Numbered(s, lo) && SmtOf(s, funs).Some? && Clear(used, lo, lo + Count(s))
    ensures var r := SmtOf(s, funs).value; Source.Tree(r, used) && Between(Source.Dcls(r), lo, lo + Count(s))
    decreases s, 0
  {
    NumberedTree(s.body, lo, funs, used);
    var b := SmtOf(s.body, funs).value;
    if !s.elses.Nothing? {
      NumberedTree(s.elses, lo + Count(s.body), funs, used + Source.Dcls(b));
    }
  }

  /** The body of a loop is numbered after the increment, but comes before it in the
      tree. */
  lemma {:induction false} LoopTree(s: Stm, lo: int, funs: map<Source.Dcl, nat>, used: set<Source.Dcl>)
    requires s.Loop? && Numbered(s, lo) && SmtOf(s, funs).Some? && Clear(used, lo, lo + Count(s))
    ensures var r := SmtOf(s, funs).value; Source.Tree(r, used) && Between(Source.Dcls(r), lo, lo + Count(s))
    decreases s, 0
  {
    var i, b := SmtOf(s.inc, funs).value, SmtOf(s.rounds, funs).value;
    NumberedTree(s.rounds, lo + 1 + Count(s.inc), funs, used + {lo});
    NumberedTree(s.inc, lo + 1, funs, used + {lo} + Source.Dcls(b));
  }

  lemma {:induction false} NumberedTrees(smts: seq<Stm>, lo: int, funs: map<Source.Dcl, nat>, used: set<Source.Dcl>)
    requires NumberedAll(smts, lo) && SmtsOf(smts, funs).Some? && Clear(used, lo, lo + CountAll(smts))
    ensures var r := SmtsOf(smts, funs).value; Source.TreeSeq(r, used) && Between(Source.DclsSeq(r), lo, lo + CountAll(smts))
    decreases smts
  {
    if smts != [] {
      NumberedTree(smts[0], lo, funs, used);
      var a := SmtOf(smts[0], funs).value;
      NumberedTrees(smts[1..], lo + Count(smts[0]), funs, used + Source.Dcls(a));
      var r := SmtsOf(smts, funs).value;
      assert r[0] == a && r[1..] == SmtsOf(smts[1..], funs).value;
    }
  }

  /** So whatever block the parser reads, its tree is proper, apart from the parameters
      and all older declarations. */
  lemma ParsedTree(ts: seq<Tokens.Token>, st: State, funs: map<Source.Dcl, nat>, used: set<Source.Dcl>)
    requires st.scope != [] && ParseBlock(ts, st).Did? && SmtOf(ParseBlock(ts, st).smt, funs).Some?
    requires forall d :: d in used ==> d < st.next
    ensures var r := SmtOf(ParseBlock(ts, st).smt, funs).value; r.Block? && Source.Tree(r, used)
  {
    BlockKept(ts, st);
    NumberedTree(ParseBlock(ts, st).smt, st.next, funs, used);
  }
}
