/** The statement parser itself: the cursor and the errors of the expression parser,
    the scopes, and the number of the next object. */
module StatementParser {
  import opened Wrappers
  import opened Tokens
  import opened Pratt
  import opened Statements
  import opened Parser
  import opened Nodes
  import Scopes

  class BlockParser {
    const exps: ExpressionParser
    var scope: Scopes.Stack
    var next: int
    // the calls on the pools of nodes
    var log: seq<Call>

    constructor (exps: ExpressionParser, scope: Scopes.Stack, next: int)
      ensures this.exps == exps && this.scope == scope && this.next == next && log == []
    {
      this.exps, this.scope, this.next, log := exps, scope, next, [];
    }

    function Now(): State
      reads this, exps
    {
      State(exps.pos, exps.errors, scope, next)
    }

    /** What a call did: `ok` is false where the C code would fault. */
    ghost predicate Has(ok: bool, s: Stm, r: Parse)
      reads this, exps
    {
      match r
      case Crash => !ok
      case Did(smt, st) => ok && s == smt && Now() == st
    }

    ghost predicate HasVar(ok: bool, v: Option<Variable>, r: VarParse)
      reads this, exps
    {
      match r
      case VarCrash => !ok
      case DidVar(x, st) => ok && v == x && Now() == st
    }

    /** An expression, and its nodes. */
    method ReadExpression() returns (e: Exp, ok: bool)
      modifies this`log, exps
      ensures match ParseExp(exps.tokens, old(exps.pos), 0, old(exps.errors))
        case Fault => !ok
        case Done(node, p, es) => ok && e == node && Now() == old(Now()).(pos := p, errors := es)
      ensures ok ==> log == old(log) + ExpLog(exps.tokens, old(exps.pos), old(exps.errors))
    {
      var before := exps.made;
      e, ok := exps.ParseExpression(0);
      if ok {
        log := log + Exps(exps.made - before);
      }
    }

    method Note(calls: seq<Call>)
      modifies this`log
      ensures log == old(log) + calls
    {
      log := log + calls;
    }

    method AddError(kind: ErrorKind)
      modifies exps
      ensures Now() == Fail(old(Now()), kind)
    {
      exps.errors := exps.errors + [Error(kind, exps.pos)];
    }

    method NextToken()
      modifies exps
      ensures Now() == old(Now()).(pos := old(exps.pos) + 1)
    {
      exps.pos := exps.pos + 1;
    }

    /** Past the next semicolon; false where the tokens end before one. */
    method SkipSemi() returns (ok: bool)
      modifies exps
      ensures match SkipToSemi(exps.tokens, old(exps.pos))
        case None => !ok
        case Some(p) => ok && Now() == old(Now()).(pos := p)
    {
      ghost var start := Now();
      while exps.pos < |exps.tokens| && !exps.tokens[exps.pos].ty.Semi? && !exps.tokens[exps.pos].ty.End?
        invariant SkipToSemi(exps.tokens, start.pos) == SkipToSemi(exps.tokens, exps.pos)
        invariant Now() == start.(pos := exps.pos)
        decreases |exps.tokens| - exps.pos
      {
        exps.pos := exps.pos + 1;
      }
      ok := exps.pos < |exps.tokens|;
      if ok && exps.tokens[exps.pos].ty.Semi? {
        exps.pos := exps.pos + 1;
      }
    }

    method ExpectSemi()
      requires exps.pos < |exps.tokens|
      modifies exps
      ensures Now() == Statements.ExpectSemi(exps.tokens, old(Now()))
    {
      if exps.tokens[exps.pos].ty.Semi? || exps.tokens[exps.pos].ty.End? {
        NextToken();
      } else {
        AddError(ExpectToken(Semi));
      }
    }

    /** A new object for the name, unless it is in the innermost scope already. */
    method Insert(name: string)
      requires scope != []
      modifies this`scope, this`next
      ensures Now() == Bound(old(Now()), name)
    {
      if name !in scope[0] {
        scope := [scope[0][name := next]] + scope[1..];
      }
      next := next + 1;
    }

    /** The error about the missing name is taken off the queue again. */
    method ReadType() returns (ty: Option<TypeExp>, ok: bool)
      modifies this`log, exps
      ensures ok ==> log == old(log) + TypeLog(exps.tokens, old(Now()))
      ensures match ParseType(exps.tokens, old(Now()))
        case TypeCrash => !ok
        case DidType(t, st) => ok && ty == t && Now() == st
    {
      hide ParseExp, ExpNodes, ExpLog;
      ty, ok := None, false;
      if exps.pos >= |exps.tokens| {
        return;
      }
      var name := exps.tokens[exps.pos];
      if !name.ty.Ident? {
        AddError(ExpectToken(Ident));
        NextToken();
        exps.errors := exps.errors[..|exps.errors| - 1];
        AddError(ExpectType);
        return None, true;
      }
      Note([NewExp]);
      NextToken();
      if exps.pos >= |exps.tokens| {
        return;
      }
      if !exps.tokens[exps.pos].ty.LBrack? {
        return Some(Named(name.value)), true;
      }
      NextToken();
      var length;
      length, ok := ReadExpression();
      if !ok {
        return;
      }
      if length.Missing? {
        AddError(ExpectArrayLength);
        return;
      }
      if exps.pos >= |exps.tokens| {
        ok := false;
        return;
      }
      exps.Expect(RBrack);
      Note([NewExp]);
      ty := Some(ArrayOf(name.value, length));
    }

    method ReadVariable() returns (v: Option<Variable>, ok: bool)
      requires scope != []
      modifies this, exps
      ensures HasVar(ok, v, ParseVariable(exps.tokens, old(Now())))
      ensures ok ==> log == old(log) + VariableLog(exps.tokens, old(Now()))
    {
      hide ParseType, TypeLog, ParseTyped, TypedLog;
      v, ok := None, false;
      if exps.pos >= |exps.tokens| {
        return;
      }
      if exps.tokens[exps.pos].ty.Var? {
        NextToken();
        var ty;
        ty, ok := ReadType();
        if ok {
          v, ok := ReadTyped(ty);
        }
        return;
      }
      var name := exps.tokens[exps.pos];
      if !name.ty.Ident? {
        AddError(ExpectToken(Ident));
        ok := SkipSemi();
        return;
      }
      NextToken();
      v, ok := ReadValue(Define, name.value, None);
    }

    /** The name and the value after a type. */
    method ReadTyped(ty: Option<TypeExp>) returns (v: Option<Variable>, ok: bool)
      requires scope != [] && exps.pos <= |exps.tokens|
      modifies this, exps
      ensures HasVar(ok, v, ParseTyped(exps.tokens, DidType(ty, old(Now()))))
      ensures ok ==> log == old(log) + TypedLog(exps.tokens, DidType(ty, old(Now())))
    {
      v, ok := None, false;
      if ty.None? {
        ok := SkipSemi();
        return;
      }
      if exps.pos >= |exps.tokens| {
        return;
      }
      var name := exps.tokens[exps.pos];
      if !name.ty.Ident? {
        AddError(ExpectToken(Ident));
        ok := SkipSemi();
        return;
      }
      NextToken();
      v, ok := ReadValue(Assign, name.value, ty);
    }

    method ReadValue(op: TokenType, name: string, ty: Option<TypeExp>) returns (v: Option<Variable>, ok: bool)
      requires scope != []
      modifies this, exps
      ensures HasVar(ok, v, ParseValue(exps.tokens, old(Now()), op, name, ty))
      ensures ok ==> log == old(log) + ValueLog(exps.tokens, old(Now()), op)
    {
      v, ok := None, false;
      if exps.pos >= |exps.tokens| {
        return;
      }
      exps.Expect(op);
      ghost var value := ExpLog(exps.tokens, exps.pos, exps.errors);
      var e;
      e, ok := ReadExpression();
      if !ok {
        return;
      }
      if e.Missing? {
        assert log == old(log) + (value + []);
        ok := SkipSemi();
        return;
      }
      Note([NewDcl]);
      v := Some(Variable(next, name, ty, Seen(e, scope)));
      Insert(name);
    }

    method ReadStatement() returns (s: Stm, ok: bool)
      requires scope != []
      modifies this, exps
      ensures Has(ok, s, ParseStatement(exps.tokens, old(Now())))
      ensures ok ==> log == old(log) + StatementLog(exps.tokens, old(Now()))
      decreases |exps.tokens| - exps.pos, 3
    {
      hide ParseExp, ParseKnown, Converted, KnownLog, ConvertedLog, ExpLog;
      s, ok := Nothing, false;
      if exps.pos >= |exps.tokens| {
        return;
      }
      s, ok := ReadKnown();
      if !ok || !s.Nothing? {
        return;
      }
      var e;
      e, ok := ReadExpression();
      if ok {
        s, ok := Convert(e);
      }
    }

    /** Statements known by their first token. */
    method ReadKnown() returns (s: Stm, ok: bool)
      requires scope != [] && exps.pos < |exps.tokens|
      modifies this, exps
      ensures Has(ok, s, ParseKnown(exps.tokens, old(Now())))
      ensures ok ==> log == old(log) + KnownLog(exps.tokens, old(Now()))
      decreases |exps.tokens| - exps.pos, 2
    {
      hide ParseExp, ParseBlock, ParseIf, ParseFor, ParseVariable, BlockLog, IfLog, ForLog, VariableLog, ExpLog;
      var token := exps.tokens[exps.pos];
      s, ok := Nothing, true;
      if token.ty.Return? {
        NextToken();
        var e;
        e, ok := ReadExpression();
        s := Ret(Seen(e, scope));
        Note([NewSmt]);
      } else if token.ty.LBrace? {
        s, ok := ReadBlock();
      } else if token.ty.If? {
        s, ok := ReadIf();
      } else if token.ty.For? {
        s, ok := ReadFor();
      } else if token.ty.Var? {
        var v;
        v, ok := ReadVariable();
        s := Declare(v);
        Note([NewSmt]);
      } else if token.ty.Ident? {
        s, ok := ReadStep(token.value);
      }
    }

    /** `x++` or `x--`; for anything else the cursor goes back to the name. */
    method ReadStep(name: string) returns (s: Stm, ok: bool)
      requires exps.pos < |exps.tokens| && exps.tokens[exps.pos] == Token(Ident, name) && scope != []
      modifies this`log, exps
      ensures Has(ok, s, ParseKnown(exps.tokens, old(Now())))
      ensures ok ==> log == old(log) + KnownLog(exps.tokens, old(Now()))
    {
      var one := Literal(Token(Int, "1"));
      Note([NewExp, NewExp]);
      s, ok := Nothing, false;
      NextToken();
      if exps.pos >= |exps.tokens| {
        return;
      }
      ok := true;
      if exps.tokens[exps.pos].ty.Inc? {
        NextToken();
        Note([NewSmt, NewExp]);
        s := Set(Seen(IdentExp(name), scope), AddAssign, Seen(one, scope));
      } else if exps.tokens[exps.pos].ty.Dec? {
        NextToken();
        Note([NewSmt, NewExp]);
        s := Set(Seen(IdentExp(name), scope), SubAssign, Seen(one, scope));
      } else {
        exps.pos := exps.pos - 1;
      }
    }

    /** The statement made of an expression. */
    method Convert(e: Exp) returns (s: Stm, ok: bool)
      requires scope != []
      modifies this, exps
      ensures Has(ok, s, Converted(exps.tokens, old(Now()), e))
      ensures ok ==> log == old(log) + ConvertedLog(e)
    {
      s, ok := Nothing, false;
      if !e.Binary? {
        return;
      }
      if IsAssignment(e.op.ty) {
        Note(if e.op.ty.Assign? then [NewSmt, OldExp(1)] else [NewSmt, NewExp, OldExp(2)]);
        return Set(Seen(e.left, scope), e.op.ty, Seen(e.rhs, scope)), true;
      }
      if e.op.ty.Define? && e.left.IdentExp? {
        s, ok := Declare(Some(Variable(next, e.left.name, None, Seen(e.rhs, scope)))), true;
        Note([NewDcl, NewSmt, OldExp(1)]);
        Insert(e.left.name);
        return;
      }
      assert log + [] == log;
      AddError(if e.op.ty.Define? then ExpectToken(Ident) else ExpectStatement);
      ok := SkipSemi();
      if ok && !e.op.ty.Define? {
        AddError(ExpectStatement);
        ok := SkipSemi();
        Note([OldExp(1)]);
      }
    }

    method ReadIf() returns (s: Stm, ok: bool)
      requires scope != [] && exps.pos < |exps.tokens|
      modifies this, exps
      ensures Has(ok, s, ParseIf(exps.tokens, old(Now())))
      ensures ok ==> log == old(log) + IfLog(exps.tokens, old(Now()))
      decreases |exps.tokens| - exps.pos, 1
    {
      hide IfCond, CondLog;
      NextToken();
      s, ok := ReadCond();
      Note([NewSmt]);
    }

    method ReadCond() returns (s: Stm, ok: bool)
      requires scope != []
      modifies this, exps
      ensures Has(ok, s, IfCond(exps.tokens, old(Now())))
      ensures ok ==> log == old(log) + CondLog(exps.tokens, old(Now()))
      decreases |exps.tokens| - exps.pos, 7
    {
      hide ParseExp, IfBody, BodyLog;
      s := Nothing;
      var c;
      c, ok := ReadExpression();
      if ok {
        s, ok := ReadBody(c);
      }
    }

    method ReadBody(c: Exp) returns (s: Stm, ok: bool)
      requires scope != []
      modifies this, exps
      ensures Has(ok, s, IfBody(exps.tokens, old(Now()), c))
      ensures ok ==> log == old(log) + BodyLog(exps.tokens, old(Now()))
      decreases |exps.tokens| - exps.pos, 6
    {
      hide ParseBlock, BlockLog, IfElse, ElseLog;
      s := Nothing;
      var test := Seen(c, scope);
      var body;
      body, ok := ReadBlock();
      if ok {
        s, ok := ReadElse(test, body);
      }
    }

    method ReadElse(c: Seen, body: Stm) returns (s: Stm, ok: bool)
      requires scope != []
      modifies this, exps
      ensures Has(ok, s, IfElse(exps.tokens, old(Now()), c, body))
      ensures ok ==> log == old(log) + ElseLog(exps.tokens, old(Now()))
      decreases |exps.tokens| - exps.pos, 4
    {
      hide ParseStatement, StatementLog;
      s, ok := Nothing, false;
      if exps.pos >= |exps.tokens| {
        return;
      }
      if !exps.tokens[exps.pos].ty.Else? {
        return Branch(Some(c), body, Nothing), true;
      }
      NextToken();
      var chained := exps.pos < |exps.tokens| && exps.tokens[exps.pos].ty.If?;
      var elses;
      elses, ok := ReadStatement();
      if !chained {
        elses := Branch(None, elses, Nothing);
        Note([NewSmt]);
      }
      s := Branch(Some(c), body, elses);
    }

    method ReadFor() returns (s: Stm, ok: bool)
      requires scope != [] && exps.pos < |exps.tokens|
      modifies this, exps
      ensures Has(ok, s, ParseFor(exps.tokens, old(Now())))
      ensures ok ==> log == old(log) + ForLog(exps.tokens, old(Now()))
      decreases |exps.tokens| - exps.pos, 1
    {
      hide TestLog, VariableLog, ForTest, ParseVariable;
      s := Nothing;
      NextToken();
      var v;
      v, ok := ReadVariable();
      if !ok || exps.pos >= |exps.tokens| {
        ok := false;
        return;
      }
      ExpectSemi();
      s, ok := ReadTest(v);
    }

    method ReadTest(v: Option<Variable>) returns (s: Stm, ok: bool)
      requires scope != []
      modifies this, exps
      ensures Has(ok, s, ForTest(exps.tokens, old(Now()), v))
      ensures ok ==> log == old(log) + TestLog(exps.tokens, old(Now()))
      decreases |exps.tokens| - exps.pos, 7
    {
      hide RoundsLog, ForRounds, ParseExp, ExpNodes;
      s := Nothing;
      var c;
      c, ok := ReadExpression();
      if !ok || exps.pos >= |exps.tokens| {
        ok := false;
        return;
      }
      var test := Seen(c, scope);
      ExpectSemi();
      s, ok := ReadRounds(v, test);
    }

    method ReadRounds(v: Option<Variable>, test: Seen) returns (s: Stm, ok: bool)
      requires scope != []
      modifies this, exps
      ensures Has(ok, s, ForRounds(exps.tokens, old(Now()), v, test))
      ensures ok ==> log == old(log) + RoundsLog(exps.tokens, old(Now()))
      decreases |exps.tokens| - exps.pos, 6
    {
      hide ParseStatement, StatementLog, BlockLog, ParseBlock;
      s := Nothing;
      var inc;
      inc, ok := ReadStatement();
      if !ok {
        return;
      }
      var body;
      body, ok := ReadBlock();
      s := Loop(v, test, inc, body);
      Note([NewSmt]);
    }

    /** A block, in a scope of its own. */
    method ReadBlock() returns (s: Stm, ok: bool)
      requires scope != []
      modifies this, exps
      ensures Has(ok, s, ParseBlock(exps.tokens, old(Now())))
      ensures ok ==> log == old(log) + BlockLog(exps.tokens, old(Now()))
      decreases |exps.tokens| - exps.pos, if exps.pos < |exps.tokens| && exps.tokens[exps.pos].ty.LBrace? then 1 else 5
    {
      hide ParseList, ListLog;
      s, ok := Nothing, false;
      if exps.pos >= |exps.tokens| {
        return;
      }
      exps.Expect(LBrace);
      scope := [map[]] + scope;
      var smts;
      smts, ok := ReadList();
      if ok {
        exps.Expect(RBrace);
        scope := scope[1..];
        s := Blk(smts);
        Note([NewSmt]);
      }
    }

    /** The statements up to the closing brace. */
    method ReadList() returns (smts: seq<Stm>, ok: bool)
      requires scope != []
      modifies this, exps
      ensures match ParseList(exps.tokens, old(Now()))
        case ListCrash => !ok
        case DidList(l, st) => ok && smts == l && Now() == st && exps.pos < |exps.tokens| && exps.tokens[exps.pos].ty.RBrace?
      ensures ok ==> log == old(log) + ListLog(exps.tokens, old(Now()))
      decreases |exps.tokens| - exps.pos, 4
    {
      hide ParseStatement, StatementLog, ListLog;
      ghost var start := Now();
      smts, ok := [], false;
      while exps.pos < |exps.tokens| && !exps.tokens[exps.pos].ty.RBrace?
        invariant scope != [] && start.pos <= exps.pos
        invariant ParseList(exps.tokens, start) == ListBefore(smts, ParseList(exps.tokens, Now()))
        invariant log + ListLog(exps.tokens, Now()) == old(log) + ListLog(exps.tokens, start)
        decreases |exps.tokens| - exps.pos
      {
        ghost var now, before := Now(), log;
        var s, done := ReadStatement();
        ghost var after := Now();
        if !done || s.Nothing? || exps.pos >= |exps.tokens| {
          return;
        }
        if !exps.tokens[exps.pos].ty.RBrace? {
          ExpectSemi();
        }
        ListRegroup(smts, s, ParseList(exps.tokens, Now()));
        ListLogStep(exps.tokens, now, Did(s, after), Now());
        assert log + ListLog(exps.tokens, Now()) == before + (StatementLog(exps.tokens, now) + ListLog(exps.tokens, Now()));
        smts := smts + [s];
      }
      ok := exps.pos < |exps.tokens|;
      if ok {
        NoListLog(exps.tokens, Now());
        assert log + [] == log;
      }
    }
  }

  /** A list with statements already read put in front. */
  function ListBefore(done: seq<Stm>, r: ListParse): ListParse {
    if r.ListCrash? then r else DidList(done + r.smts, r.st)
  }

  lemma ListRegroup(done: seq<Stm>, s: Stm, r: ListParse)
    ensures ListBefore(done, ListBefore([s], r)) == ListBefore(done + [s], r)
  {
    if r.DidList? {
      assert done + ([s] + r.smts) == (done + [s]) + r.smts;
    }
  }
}
