/** What every parse of a statement keeps, also one with errors: the scopes around it
    and the numbering of the objects. */
module StatementKeeps {
  import opened Wrappers
  import opened Tokens
  import opened Pratt
  import opened Statements
  import opened StatementGrammar
  import Scopes

  /** The number of variables declared in `s`. */
  function Count(s: Stm): nat
    decreases s
  {
    match s
    case Nothing => 0
    case Ret(_) => 0
    case Blk(smts) => CountAll(smts)
    case Branch(_, body, elses) => Count(body) + Count(elses)
    case Loop(index, _, inc, rounds) => Size(index) + Count(inc) + Count(rounds)
    case Declare(v) => Size(v)
    case Set(_, _, _) => 0
  }

  function Size(v: Option<Variable>): nat { if v.None? then 0 else 1 }

  function CountAll(smts: seq<Stm>): nat
    decreases smts
  {
    if smts == [] then 0 else Count(smts[0]) + CountAll(smts[1..])
  }

  /** The variables of `s` have the numbers from `lo` on, in the order of the text, and
      what follows an `else` is a branch. */
  predicate Numbered(s: Stm, lo: int)
    decreases s
  {
    match s
    case Nothing => true
    case Ret(_) => true
    case Blk(smts) => NumberedAll(smts, lo)
    case Branch(c, body, elses) =>
      && Numbered(body, lo) && Numbered(elses, lo + Count(body))
      && (elses.Nothing? || (elses.Branch? && c.Some?))
    case Loop(index, _, inc, rounds) =>
      && HasNumber(index, lo)
      && Numbered(inc, lo + Size(index))
      && Numbered(rounds, lo + Size(index) + Count(inc))
    case Declare(v) => HasNumber(v, lo)
    case Set(_, _, _) => true
  }

  predicate HasNumber(v: Option<Variable>, lo: int) { v.Some? ==> v.value.id == lo }

  predicate NumberedAll(smts: seq<Stm>, lo: int)
    decreases smts
  {
    smts == [] || (Numbered(smts[0], lo) && NumberedAll(smts[1..], lo + Count(smts[0])))
  }

  /** Only the innermost scope has got new names, the new objects are those of the
      `count` variables declared, and errors were only added. */
  predicate Within(a: State, b: State, count: nat) {
    Grown(a.scope, b.scope) && b.next == a.next + count && a.errors <= b.errors
  }

  lemma WithinMore(a: State, b: State, c: State, i: nat, j: nat)
    requires Within(a, b, i) && Within(b, c, j)
    ensures Within(a, c, i + j)
  {
    GrownMore(a.scope, b.scope, c.scope);
  }

  predicate Kept(st: State, r: Parse) {
    r.Did? ==> Within(st, r.st, Count(r.smt)) && Numbered(r.smt, st.next)
  }

  /** Without a statement there is an error. */
  predicate Excused(st: State, r: Parse) {
    r.Did? && r.smt.Nothing? ==> st.errors < r.st.errors
  }

  predicate VarKept(st: State, r: VarParse) {
    r.DidVar? ==> Within(st, r.st, Size(r.v)) && HasNumber(r.v, st.next) && (r.v.None? ==> st.errors < r.st.errors)
  }

  lemma BoundKept(st: State, name: string)
    requires st.scope != []
    ensures Within(st, Statements.Bound(st, name), 1)
  {
    BindGrows(st.scope, name, st.next);
  }

  lemma ValueKept(ts: seq<Token>, st: State, op: TokenType, name: string, ty: Option<TypeExp>)
    requires st.scope != []
    ensures VarKept(st, ParseValue(ts, st, op, name, ty))
  {
    BoundKept(st, name);
  }

  lemma TypedKept(ts: seq<Token>, st: State, t: TypeParse)
    requires st.scope != [] && (t.DidType? ==> t.st.scope == st.scope && t.st.next == st.next && t.st.pos <= |ts| && st.errors <= t.st.errors && (t.ty.None? ==> st.errors < t.st.errors))
    ensures VarKept(st, ParseTyped(ts, t))
  {
    if t.DidType? && t.st.pos < |ts| {
      ValueKept(ts, t.st.(pos := t.st.pos + 1), Assign, ts[t.st.pos].value, t.ty);
    }
  }

  lemma TypeKept(ts: seq<Token>, st: State)
    requires ParseType(ts, st).DidType?
    ensures var t := ParseType(ts, st); st.errors <= t.st.errors && (t.ty.None? ==> st.errors < t.st.errors)
  {
  }

  lemma VariableKept(ts: seq<Token>, st: State)
    requires st.scope != []
    ensures VarKept(st, ParseVariable(ts, st))
  {
    hide ParseType, ParseTyped, ParseValue;
    if st.pos < |ts| {
      if ts[st.pos].ty.Var? {
        var st1 := st.(pos := st.pos + 1);
        if ParseType(ts, st1).DidType? {
          TypeKept(ts, st1);
        }
        TypedKept(ts, st, ParseType(ts, st1));
      } else {
        ValueKept(ts, st.(pos := st.pos + 1), Define, ts[st.pos].value, None);
      }
    }
  }

  lemma ConvertedKept(ts: seq<Token>, st: State, e: Exp)
    requires st.scope != []
    ensures Kept(st, Converted(ts, st, e)) && Excused(st, Converted(ts, st, e))
  {
    if e.Binary? && e.left.IdentExp? {
      BoundKept(st, e.left.name);
    }
  }

  lemma {:induction false} KnownKept(ts: seq<Token>, st: State)
    requires st.scope != [] && st.pos < |ts|
    ensures Kept(st, ParseKnown(ts, st))
    decreases |ts| - st.pos, 2
  {
    var t := ts[st.pos].ty;
    if t.LBrace? {
      BlockKept(ts, st);
    } else if t.If? {
      IfKept(ts, st);
    } else if t.For? {
      ForKept(ts, st);
    } else if t.Var? {
      VariableKept(ts, st);
    }
  }

  lemma {:induction false} StatementKept(ts: seq<Token>, st: State)
    requires st.scope != []
    ensures Kept(st, ParseStatement(ts, st)) && Excused(st, ParseStatement(ts, st))
    decreases |ts| - st.pos, 3
  {
    if st.pos < |ts| {
      KnownKept(ts, st);
      var e := ParseExp(ts, st.pos, 0, st.errors);
      if e.Done? {
        ConvertedKept(ts, st.(pos := e.pos, errors := e.errors), e.node);
      }
    }
  }

  lemma {:induction false} IfKept(ts: seq<Token>, st: State)
    requires st.scope != [] && st.pos < |ts|
    ensures Kept(st, ParseIf(ts, st))
    decreases |ts| - st.pos, 1
  {
    CondKept(ts, st.(pos := st.pos + 1));
  }

  lemma {:induction false} CondKept(ts: seq<Token>, st: State)
    requires st.scope != []
    ensures Kept(st, IfCond(ts, st))
    decreases |ts| - st.pos, 1
  {
    var c := ParseExp(ts, st.pos, 0, st.errors);
    if c.Done? {
      BodyKept(ts, st.(pos := c.pos, errors := c.errors), c.node);
    }
  }

  lemma {:induction false} BodyKept(ts: seq<Token>, st: State, c: Exp)
    requires st.scope != []
    ensures Kept(st, IfBody(ts, st, c))
    decreases |ts| - st.pos, 6
  {
    BlockKept(ts, st);
    var b := ParseBlock(ts, st);
    if b.Did? {
      ElseKept(ts, b.st, Seen(c, st.scope), b.smt, st);
    }
  }

  lemma {:induction false} ElseKept(ts: seq<Token>, st: State, c: Seen, body: Stm, before: State)
    requires st.scope != [] && Within(before, st, Count(body)) && Numbered(body, before.next)
    ensures Kept(before, IfElse(ts, st, c, body))
    decreases |ts| - st.pos, 1
  {
    if st.pos < |ts| && ts[st.pos].ty.Else? {
      var st1 := st.(pos := st.pos + 1);
      StatementKept(ts, st1);
      var s := ParseStatement(ts, st1);
      if s.Did? {
        if ts[st1.pos].ty.If? { IfFirst(ts, st1); }
        WithinMore(before, st1, s.st, Count(body), Count(s.smt));
        var elses := if ts[st1.pos].ty.If? then s.smt else Branch(None, s.smt, Nothing);
        assert Count(elses) == Count(s.smt) && Numbered(elses, st.next);
      }
    }
  }

  lemma IfFirst(ts: seq<Token>, st: State)
    requires st.scope != [] && st.pos < |ts| && ts[st.pos].ty.If? && ParseStatement(ts, st).Did?
    ensures ParseStatement(ts, st).smt.Branch?
  {
  }

  lemma {:induction false} ForKept(ts: seq<Token>, st: State)
    requires st.scope != [] && st.pos < |ts|
    ensures Kept(st, ParseFor(ts, st))
    decreases |ts| - st.pos, 1
  {
    hide ParseVariable, ForTest;
    var st0 := st.(pos := st.pos + 1);
    VariableKept(ts, st0);
    var v := ParseVariable(ts, st0);
    if v.DidVar? && v.st.pos < |ts| {
      TestKept(ts, ExpectSemi(ts, v.st), v.v, st);
    }
  }

  lemma {:induction false} TestKept(ts: seq<Token>, st: State, v: Option<Variable>, before: State)
    requires st.scope != [] && Within(before, st, Size(v)) && HasNumber(v, before.next)
    ensures Kept(before, ForTest(ts, st, v))
    decreases |ts| - st.pos, 1
  {
    var c := ParseExp(ts, st.pos, 0, st.errors);
    if c.Done? && c.pos < |ts| {
      RoundsKept(ts, ExpectSemi(ts, st.(pos := c.pos, errors := c.errors)), v, Seen(c.node, st.scope), before);
    }
  }

  lemma {:induction false} RoundsKept(ts: seq<Token>, st: State, v: Option<Variable>, c: Seen, before: State)
    requires st.scope != [] && Within(before, st, Size(v)) && HasNumber(v, before.next)
    ensures Kept(before, ForRounds(ts, st, v, c))
    decreases |ts| - st.pos, 6
  {
    hide ParseStatement, ParseBlock;
    StatementKept(ts, st);
    var inc := ParseStatement(ts, st);
    if inc.Did? {
      BlockKept(ts, inc.st);
      var b := ParseBlock(ts, inc.st);
      if b.Did? {
        WithinMore(before, st, inc.st, Size(v), Count(inc.smt));
        WithinMore(before, inc.st, b.st, Size(v) + Count(inc.smt), Count(b.smt));
      }
    }
  }

  /** A block leaves exactly the scopes it was entered with, whatever was declared in
      it, and whatever errors were found. */
  lemma {:induction false} BlockKept(ts: seq<Token>, st: State)
    requires st.scope != []
    ensures Kept(st, ParseBlock(ts, st))
    ensures ParseBlock(ts, st).Did? ==> ParseBlock(ts, st).st.scope == st.scope
    decreases |ts| - st.pos, if st.pos < |ts| && ts[st.pos].ty.LBrace? then 1 else 5
  {
    hide ParseStatement;
    if st.pos < |ts| {
      var (p, es) := Expect(ts, st.pos, LBrace, st.errors);
      var inner := State(p, es, [map[]] + st.scope, st.next);
      ListKept(ts, inner);
      assert inner.scope[1..] == st.scope;
    }
  }

  lemma {:induction false} ListKept(ts: seq<Token>, st: State)
    requires st.scope != []
    ensures var r := ParseList(ts, st);
      r.DidList? ==> Within(st, r.st, CountAll(r.smts)) && NumberedAll(r.smts, st.next)
    decreases |ts| - st.pos, 4
  {
    if st.pos < |ts| && !ts[st.pos].ty.RBrace? {
      StatementKept(ts, st);
      var s := ParseStatement(ts, st);
      if s.Did? && s.st.pos < |ts| {
        var next := if ts[s.st.pos].ty.RBrace? then s.st else ExpectSemi(ts, s.st);
        ListKept(ts, next);
        var r := ParseList(ts, next);
        if r.DidList? {
          WithinMore(st, next, r.st, Count(s.smt), CountAll(r.smts));
        }
      }
    }
  }
}
