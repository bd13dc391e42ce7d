/** The specification of the parser on whole files: function declarations one after the
    other, in the one scope of the file. Parameters are inserted in that scope too, and
    nothing takes them out again. */
module Files {
  import opened Wrappers
  import opened Tokens
  import opened Pratt
  import opened Statements
  import Scopes

  datatype Arg = Arg(ty: TypeExp, name: string)

  /** Parameter `j` is object `first + j`; the function itself comes after them. */
  datatype Fn = Fn(name: string, args: seq<Arg>, ret: TypeExp, first: int, body: Stm)

  /** `Absent` is a NULL declaration. */
  datatype Top = Procedure(fn: Fn) | Global(v: Option<Variable>) | Absent

  datatype ArgsParse = DidArgs(args: Option<seq<Arg>>, st: State) | ArgsCrash
  datatype TopParse = DidTop(dcl: Top, st: State) | TopCrash

  /** `Endless`: the code goes round without moving its cursor. */
  datatype FileParse = DidFile(dcls: seq<Top>, st: State) | Endless(st: State) | FileCrash

  // ---------- a block that is not read ----------

  function ToBrace(ts: seq<Token>, pos: nat): (r: Option<nat>)
    ensures r.Some? ==> pos <= r.value < |ts|
    decreases |ts| - pos
  {
    if pos >= |ts| then None else if ts[pos].ty.LBrace? then Some(pos) else ToBrace(ts, pos + 1)
  }

  /** Past the brace that closes the `depth` blocks that are open. */
  function PastBlock(ts: seq<Token>, pos: nat, depth: int): (r: Option<nat>)
    ensures r.Some? ==> pos < r.value <= |ts|
    decreases |ts| - pos
  {
    if pos >= |ts| then None
    else
      var d := if ts[pos].ty.LBrace? then depth + 1 else if ts[pos].ty.RBrace? then depth - 1 else depth;
      if d > 0 then PastBlock(ts, pos + 1, d) else Some(pos + 1)
  }

  /** A semicolon after a declaration belongs to it. */
  function PastSemi(ts: seq<Token>, pos: nat): (r: Option<nat>)
    ensures r.Some? ==> pos <= r.value <= |ts|
  {
    if pos >= |ts| then None else if ts[pos].ty.Semi? then Some(pos + 1) else Some(pos)
  }

  function SkipBlock(ts: seq<Token>, pos: nat): (r: Option<nat>)
    ensures r.Some? ==> pos < r.value <= |ts|
  {
    var b := ToBrace(ts, pos);
    if b.None? then None else
    var e := PastBlock(ts, b.value, 0);
    if e.None? then None else PastSemi(ts, e.value)
  }

  // ---------- functions ----------

  /** Parameters up to an arrow or a brace. A missing comma is an error and no more; a
      missing type or name gives up the whole function. */
  function ParseParams(ts: seq<Token>, st: State, args: seq<Arg>): (r: ArgsParse)
    ensures r.DidArgs? ==> st.pos <= r.st.pos <= |ts| && r.st.scope == st.scope && r.st.next == st.next
    decreases |ts| - st.pos
  {
    if st.pos >= |ts| then ArgsCrash
    else if ts[st.pos].ty.Arrow? || ts[st.pos].ty.LBrace? then DidArgs(Some(args), st)
    else
      var (p, es) := if args == [] then (st.pos, st.errors) else Expect(ts, st.pos, Comma, st.errors);
      var t := ParseType(ts, st.(pos := p, errors := es));
      if t.TypeCrash? then ArgsCrash
      else if t.ty.None? then GivenUp(ts, t.st)
      else if t.st.pos >= |ts| then ArgsCrash
      else if !ts[t.st.pos].ty.Ident? then GivenUp(ts, Fail(t.st, ExpectToken(Ident)))
      else ParseParams(ts, t.st.(pos := t.st.pos + 1), args + [Arg(t.ty.value, ts[t.st.pos].value)])
  }

  function GivenUp(ts: seq<Token>, st: State): (r: ArgsParse)
    ensures r.DidArgs? ==> st.pos <= r.st.pos <= |ts| && r.st.scope == st.scope && r.st.next == st.next
  {
    match SkipBlock(ts, st.pos)
    case None => ArgsCrash
    case Some(p) => DidArgs(None, st.(pos := p))
  }

  function Without(ts: seq<Token>, st: State): (r: TopParse)
    ensures r.DidTop? ==> r.dcl.Absent? && st.pos <= r.st.pos <= |ts| && |r.st.scope| == |st.scope|
  {
    match SkipBlock(ts, st.pos)
    case None => TopCrash
    case Some(p) => DidTop(Absent, st.(pos := p))
  }

  function InOrder(args: seq<Arg>, name: string): (r: seq<string>)
    ensures |r| == |args| + 1
  {
    seq(|args|, i requires 0 <= i < |args| => args[i].name) + [name]
  }

  /** Objects `next`, `next + 1`, ... for the names in order. The first object of a name
      keeps it. */
  function InsertAll(scope: Scopes.Stack, names: seq<string>, next: int): (r: Scopes.Stack)
    requires scope != []
    ensures |r| == |scope|
    decreases |names|
  {
    if names == [] then scope else InsertAll(Scopes.Inserted(scope, names[0], next).0, names[1..], next + 1)
  }

  function BoundAll(st: State, names: seq<string>): State
    requires st.scope != []
  {
    st.(scope := InsertAll(st.scope, names, st.next), next := st.next + |names|)
  }

  function ParseFunction(ts: seq<Token>, st: State): (r: TopParse)
    requires st.scope != []
    ensures r.DidTop? ==> st.pos < r.st.pos <= |ts| && |r.st.scope| == |st.scope|
  {
    if st.pos >= |ts| then TopCrash
    else if !ts[st.pos].ty.Proc? then Without(ts, Fail(st, ExpectToken(Proc)))
    else if st.pos + 1 >= |ts| then TopCrash
    else if !ts[st.pos + 1].ty.Ident? then Without(ts, Fail(st.(pos := st.pos + 1), ExpectToken(Ident)))
    else if st.pos + 2 >= |ts| then TopCrash
    else
      var (p, es) := Expect(ts, st.pos + 2, DoubleColon, st.errors);
      ParseRest(ts, ts[st.pos + 1].value, ParseParams(ts, st.(pos := p, errors := es), []))
  }

  /** The arrow, the type of the result, and the body. */
  function ParseRest(ts: seq<Token>, name: string, a: ArgsParse): (r: TopParse)
    requires a.DidArgs? ==> a.st.scope != [] && a.st.pos <= |ts|
    ensures r.DidTop? ==> a.DidArgs? && a.st.pos <= r.st.pos <= |ts| && |r.st.scope| == |a.st.scope|
  {
    if a.ArgsCrash? then TopCrash
    else if a.args.None? then DidTop(Absent, a.st)
    else if a.st.pos >= |ts| then TopCrash
    else if !ts[a.st.pos].ty.Arrow? then Without(ts, Fail(a.st, ExpectToken(Arrow)))
    else
      var t := ParseType(ts, a.st.(pos := a.st.pos + 1));
      if t.TypeCrash? then TopCrash
      else if t.ty.None? then Without(ts, t.st)
      else Closed(ts, name, a.args.value, t.ty.value, t.st.next, ParseBlock(ts, BoundAll(t.st, InOrder(a.args.value, name))))
  }

  function Closed(ts: seq<Token>, name: string, args: seq<Arg>, ret: TypeExp, first: int, b: Parse): (r: TopParse)
    ensures r.DidTop? ==> b.Did? && b.st.pos <= r.st.pos <= |ts| && r.st.scope == b.st.scope && r.st.next == b.st.next
  {
    if b.Crash? then TopCrash
    else
      match PastSemi(ts, b.st.pos)
      case None => TopCrash
      case Some(p) => DidTop(Procedure(Fn(name, args, ret, first, b.smt)), b.st.(pos := p))
  }

  // ---------- files ----------

  predicate StartsTop(t: TokenType) { t.Proc? || t.Var? || t.Ident? }

  function ParseTop(ts: seq<Token>, st: State): (r: TopParse)
    requires st.scope != [] && st.pos < |ts| && StartsTop(ts[st.pos].ty)
    ensures r.DidTop? ==> st.pos < r.st.pos <= |ts| && |r.st.scope| == |st.scope|
  {
    if ts[st.pos].ty.Proc? then ParseFunction(ts, st)
    else
      match ParseVariable(ts, st)
      case VarCrash => TopCrash
      case DidVar(v, s) => DidTop(Global(v), s)
  }

  /** Declarations up to the end token. At any other token that starts none the code
      queues an error, stays where it is, and does so again. */
  function ParseFile(ts: seq<Token>, st: State): (r: FileParse)
    requires st.scope != []
    decreases |ts| - st.pos
  {
    if st.pos >= |ts| then FileCrash
    else if ts[st.pos].ty.End? then DidFile([], st)
    else if !StartsTop(ts[st.pos].ty) then Endless(st)
    else
      var d := ParseTop(ts, st);
      if d.TopCrash? then FileCrash
      else
        match ParseFile(ts, d.st)
        case FileCrash => FileCrash
        case Endless(s) => Endless(s)
        case DidFile(more, s) => DidFile([d.dcl] + more, s)
  }
}
