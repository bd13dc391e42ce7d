/** The parser on whole files: it moves the cursor of the statement parser from one
    declaration to the next. */
module FileParser {
  import opened Wrappers
  import opened Tokens
  import opened Pratt
  import opened Statements
  import opened StatementParser
  import opened Files
  import opened Nodes

  /** How reading a file comes to an end, if it does. */
  datatype Ending = AtEnd | Looping | Faulting

  class TopParser {
    const block: BlockParser

    constructor (block: BlockParser)
      ensures this.block == block
    {
      this.block := block;
    }

    function Now(): State
      reads block, block.exps
    {
      block.Now()
    }

    ghost predicate Has(ok: bool, d: Top, r: TopParse)
      reads block, block.exps
    {
      match r
      case TopCrash => !ok
      case DidTop(dcl, st) => ok && d == dcl && Now() == st
    }

    method SkipBlock() returns (ok: bool)
      modifies block.exps
      ensures match Files.SkipBlock(block.exps.tokens, old(block.exps.pos))
        case None => !ok
        case Some(p) => ok && Now() == old(Now()).(pos := p)
    {
      ghost var start := Now();
      var ts := block.exps.tokens;
      ok := false;
      while block.exps.pos < |ts| && !ts[block.exps.pos].ty.LBrace?
        invariant ToBrace(ts, start.pos) == ToBrace(ts, block.exps.pos) && Now() == start.(pos := block.exps.pos)
        decreases |ts| - block.exps.pos
      {
        block.NextToken();
      }
      if block.exps.pos >= |ts| {
        return;
      }
      ok := SkipDeep();
      if ok {
        ok := SkipSemi();
      }
    }

    /** Round once for each token, at least once, until all blocks are closed. */
    method SkipDeep() returns (ok: bool)
      modifies block.exps
      ensures match PastBlock(block.exps.tokens, old(block.exps.pos), 0)
        case None => !ok
        case Some(p) => ok && Now() == old(Now()).(pos := p)
    {
      ghost var start := Now();
      var ts := block.exps.tokens;
      var depth := 0;
      ok := true;
      while true
        invariant PastBlock(ts, start.pos, 0) == PastBlock(ts, block.exps.pos, depth) && Now() == start.(pos := block.exps.pos)
        decreases |ts| - block.exps.pos
      {
        if block.exps.pos >= |ts| {
          return false;
        }
        if ts[block.exps.pos].ty.LBrace? {
          depth := depth + 1;
        } else if ts[block.exps.pos].ty.RBrace? {
          depth := depth - 1;
        }
        block.NextToken();
        if depth <= 0 {
          return;
        }
      }
    }

    method SkipSemi() returns (ok: bool)
      modifies block.exps
      ensures match PastSemi(block.exps.tokens, old(block.exps.pos))
        case None => !ok
        case Some(p) => ok && Now() == old(Now()).(pos := p)
    {
      ok := block.exps.pos < |block.exps.tokens|;
      if ok && block.exps.tokens[block.exps.pos].ty.Semi? {
        block.NextToken();
      }
    }

    /** The parameters; None after an error that gives the function up. */
    method ReadParams() returns (args: Option<seq<Arg>>, ok: bool)
      modifies block`log, block.exps
      ensures match ParseParams(block.exps.tokens, old(Now()), [])
        case ArgsCrash => !ok
        case DidArgs(a, st) => ok && args == a && Now() == st
      ensures ok ==> block.log == old(block.log) + ParamsLog(block.exps.tokens, old(Now()), true)
    {
      hide ParseParams, ParamsLog;
      var ts := block.exps.tokens;
      var done: seq<Arg> := [];
      args, ok := None, false;
      while block.exps.pos < |ts| && !ts[block.exps.pos].ty.Arrow? && !ts[block.exps.pos].ty.LBrace?
        invariant ParseParams(ts, Now(), done) == ParseParams(ts, old(Now()), [])
        invariant block.log + ParamsLog(ts, Now(), done == []) == old(block.log) + ParamsLog(ts, old(Now()), true)
        decreases |ts| - block.exps.pos
      {
        var arg;
        arg, ok := ReadParam(done);
        if !ok || arg.None? {
          return;
        }
        done := done + [arg.value];
      }
      LastParam(ts, Now(), done);
      assert block.log + [] == block.log;
      ok := block.exps.pos < |ts|;
      args := Some(done);
    }

    /** One parameter behind those of `done`. */
    method ReadParam(done: seq<Arg>) returns (arg: Option<Arg>, ok: bool)
      requires block.exps.pos < |block.exps.tokens|
      requires var t := block.exps.tokens[block.exps.pos].ty; !t.Arrow? && !t.LBrace?
      modifies block`log, block.exps
      ensures !ok ==> ParseParams(block.exps.tokens, old(Now()), done) == ArgsCrash
      ensures var r := ParseParams(block.exps.tokens, old(Now()), done);
        ok ==> if arg.None? then r == DidArgs(None, Now()) else r == ParseParams(block.exps.tokens, Now(), done + [arg.value])
      ensures var more := if arg.None? then [] else ParamsLog(block.exps.tokens, Now(), false);
        ok ==> block.log + more == old(block.log) + ParamsLog(block.exps.tokens, old(Now()), done == [])
      ensures ok && arg.Some? ==> old(block.exps.pos) < block.exps.pos
    {
      hide ParseType, ParseParams, TypeLog, ParamsLog, Files.SkipBlock;
      var ts := block.exps.tokens;
      ghost var now := Now();
      if |done| > 0 {
        block.exps.Expect(Comma);
      }
      ParamStep(ts, now, done, Now());
      ghost var types := TypeLog(ts, Now());
      var ty;
      ty, ok := block.ReadType();
      arg := None;
      assert block.log + [] == block.log;
      if !ok {
        return;
      }
      if ty.None? {
        ok := SkipBlock();
        return;
      }
      if block.exps.pos >= |ts| {
        ok := false;
        return;
      }
      if !ts[block.exps.pos].ty.Ident? {
        block.AddError(ExpectToken(Ident));
        ok := SkipBlock();
        return;
      }
      block.Note([NewDcl]);
      arg := Some(Arg(ty.value, ts[block.exps.pos].value));
      block.NextToken();
      ghost var more := ParamsLog(ts, Now(), false);
      assert block.log + more == old(block.log) + (types + ([NewDcl] + more));
    }

    /** An error that gives a declaration up. */
    method GiveUp(kind: ErrorKind) returns (d: Top, ok: bool)
      modifies block.exps
      ensures Has(ok, d, Without(block.exps.tokens, Fail(old(Now()), kind)))
    {
      block.AddError(kind);
      d := Absent;
      ok := SkipBlock();
    }

    method InsertNames(names: seq<string>)
      requires block.scope != []
      modifies block`scope, block`next
      ensures Now() == BoundAll(old(Now()), names)
    {
      ghost var start := Now();
      for i := 0 to |names|
        invariant block.scope != [] && Now() == start.(scope := block.scope, next := start.next + i)
        invariant InsertAll(block.scope, names[i..], block.next) == InsertAll(start.scope, names, start.next)
      {
        assert names[i..][1..] == names[i + 1..];
        block.Insert(names[i]);
      }
    }

    method ReadFunction() returns (d: Top, ok: bool)
      requires block.scope != []
      modifies block, block.exps
      ensures Has(ok, d, ParseFunction(block.exps.tokens, old(Now())))
      ensures ok ==> block.log == old(block.log) + FunctionLog(block.exps.tokens, old(Now()))
    {
      hide ParseParams, ParseRest, Files.SkipBlock, ParamsLog, RestLog, Without;
      var ts := block.exps.tokens;
      d, ok := Absent, false;
      if block.exps.pos >= |ts| {
        return;
      }
      if !ts[block.exps.pos].ty.Proc? {
        d, ok := GiveUp(ExpectToken(Proc));
        return;
      }
      block.NextToken();
      if block.exps.pos >= |ts| {
        return;
      }
      var name := ts[block.exps.pos];
      if !name.ty.Ident? {
        d, ok := GiveUp(ExpectToken(Ident));
        return;
      }
      block.NextToken();
      if block.exps.pos >= |ts| {
        return;
      }
      block.exps.Expect(DoubleColon);
      var args;
      args, ok := ReadParams();
      if ok {
        d, ok := ReadRest(name.value, args);
      }
    }

    method ReadRest(name: string, args: Option<seq<Arg>>) returns (d: Top, ok: bool)
      requires block.scope != [] && block.exps.pos <= |block.exps.tokens|
      modifies block, block.exps
      ensures Has(ok, d, ParseRest(block.exps.tokens, name, DidArgs(args, old(Now()))))
      ensures ok ==> block.log == old(block.log) + RestLog(block.exps.tokens, name, DidArgs(args, old(Now())))
    {
      hide ParseType, ParseBlock, Files.SkipBlock, InsertAll, TypeLog, BlockLog;
      var ts := block.exps.tokens;
      d, ok := Absent, args.None?;
      if args.None? || block.exps.pos >= |ts| {
        return;
      }
      if !ts[block.exps.pos].ty.Arrow? {
        d, ok := GiveUp(ExpectToken(Arrow));
        return;
      }
      block.NextToken();
      var ret;
      ret, ok := block.ReadType();
      if !ok {
        return;
      }
      if ret.None? {
        ok := SkipBlock();
        return;
      }
      var first := block.next;
      InsertNames(InOrder(args.value, name));
      block.Note([NewDcl]);
      var body;
      body, ok := block.ReadBlock();
      if ok {
        ok := SkipSemi();
        d := Procedure(Fn(name, args.value, ret.value, first, body));
      }
    }

    method ReadTop() returns (d: Top, ok: bool)
      requires block.scope != [] && block.exps.pos < |block.exps.tokens| && StartsTop(block.exps.tokens[block.exps.pos].ty)
      modifies block, block.exps
      ensures Has(ok, d, ParseTop(block.exps.tokens, old(Now())))
      ensures ok ==> block.log == old(block.log) + TopLog(block.exps.tokens, old(Now()))
    {
      if block.exps.tokens[block.exps.pos].ty.Proc? {
        d, ok := ReadFunction();
      } else {
        var v;
        v, ok := block.ReadVariable();
        d := Global(v);
      }
    }

    /** The whole file. `Looping` is where the code goes on for ever: at a token that
        starts no declaration it queues an error and does not move. */
    method ReadFile() returns (dcls: seq<Top>, ending: Ending)
      requires block.scope != []
      modifies block, block.exps
      ensures match ParseFile(block.exps.tokens, old(Now()))
        case FileCrash => ending == Faulting
        case Endless(st) => ending == Looping && Now() == st
        case DidFile(ds, st) => ending == AtEnd && dcls == ds && Now() == st
      ensures ending != Faulting ==> block.log == old(block.log) + FileLog(block.exps.tokens, old(Now()))
    {
      hide ParseTop, ParseFile, FileLog, TopLog;
      ghost var start, log := ParseFile(block.exps.tokens, Now()), FileLog(block.exps.tokens, Now());
      var ts := block.exps.tokens;
      dcls := [];
      while block.exps.pos < |ts| && !ts[block.exps.pos].ty.End?
        invariant block.scope != []
        invariant match ParseFile(ts, Now())
          case FileCrash => start.FileCrash?
          case Endless(st) => start == Endless(st)
          case DidFile(ds, st) => start == DidFile(dcls + ds, st)
        invariant block.log + FileLog(ts, Now()) == old(block.log) + log
        decreases |ts| - block.exps.pos
      {
        if !StartsTop(ts[block.exps.pos].ty) {
          FileStops(ts, Now());
          assert block.log + [] == block.log;
          return dcls, Looping;
        }
        ghost var now, before := Now(), block.log;
        FileStep(ts, now, ParseTop(ts, now));
        var d, ok := ReadTop();
        if !ok {
          return dcls, Faulting;
        }
        ghost var more := ParseFile(ts, Now());
        assert more.DidFile? ==> dcls + ([d] + more.dcls) == (dcls + [d]) + more.dcls;
        assert block.log + FileLog(ts, Now()) == before + (TopLog(ts, now) + FileLog(ts, Now()));
        dcls := dcls + [d];
      }
      FileStops(ts, Now());
      assert block.log + [] == block.log;
      ending := if block.exps.pos < |ts| then AtEnd else Faulting;
      assert dcls + [] == dcls;
    }
  }

  /** One parameter, whose type starts at `st1`. */
  lemma ParamStep(ts: seq<Token>, st: State, before: seq<Arg>, st1: State)
    requires st.pos < |ts| && !ts[st.pos].ty.Arrow? && !ts[st.pos].ty.LBrace?
    requires var (p, es) := if before == [] then (st.pos, st.errors) else Expect(ts, st.pos, Comma, st.errors);
      st1 == st.(pos := p, errors := es)
    ensures var t := ParseType(ts, st1);
      var r := ParseParams(ts, st, before);
      var log := ParamsLog(ts, st, before == []);
      if t.TypeCrash? || (t.ty.Some? && t.st.pos >= |ts|) then r == ArgsCrash
      else if t.ty.None? then r == GivenUp(ts, t.st) && log == TypeLog(ts, st1)
      else if !ts[t.st.pos].ty.Ident? then r == GivenUp(ts, Fail(t.st, ExpectToken(Ident))) && log == TypeLog(ts, st1)
      else
        var st2 := t.st.(pos := t.st.pos + 1);
        && r == ParseParams(ts, st2, before + [Arg(t.ty.value, ts[t.st.pos].value)])
        && log == TypeLog(ts, st1) + ([NewDcl] + ParamsLog(ts, st2, false))
  {
    hide ParseType, TypeLog, GivenUp;
  }

  lemma LastParam(ts: seq<Token>, st: State, before: seq<Arg>)
    requires st.pos >= |ts| || ts[st.pos].ty.Arrow? || ts[st.pos].ty.LBrace?
    ensures ParseParams(ts, st, before) == if st.pos >= |ts| then ArgsCrash else DidArgs(Some(before), st)
    ensures ParamsLog(ts, st, before == []) == []
  {
  }

  lemma FileStep(ts: seq<Token>, st: State, d: TopParse)
    requires st.scope != [] && st.pos < |ts| && StartsTop(ts[st.pos].ty) && d == ParseTop(ts, st)
    ensures d.TopCrash? ==> ParseFile(ts, st).FileCrash?
    ensures d.DidTop? ==>
      && FileLog(ts, st) == TopLog(ts, st) + FileLog(ts, d.st)
      && match ParseFile(ts, d.st)
        case FileCrash => ParseFile(ts, st).FileCrash?
        case Endless(s) => ParseFile(ts, st) == Endless(s)
        case DidFile(more, s) => ParseFile(ts, st) == DidFile([d.dcl] + more, s)
  {
    hide ParseTop, TopLog;
  }

  /** Where reading stops. */
  lemma FileStops(ts: seq<Token>, st: State)
    requires st.scope != [] && (st.pos >= |ts| || !StartsTop(ts[st.pos].ty))
    ensures FileLog(ts, st) == []
    ensures ParseFile(ts, st) == if st.pos >= |ts| then FileCrash else if ts[st.pos].ty.End? then DidFile([], st) else Endless(st)
  {
    hide ParseTop, TopLog, StartsTop;
  }
}
