/** Soundness for files: whatever the parser reads to the end without an error is a readable
    file with its meaning, spelled by the tokens consumed, up to commas that may stand before
    a closing bracket or brace. */
module FileSound {
  import opened Wrappers
  import opened Tokens
  import opened Pratt
  import opened Grammar
  import opened Statements
  import opened StatementGrammar
  import opened StatementSound
  import opened Files
  import opened FileGrammar
  import StatementKeeps
  import PrattComplete
  import PrattSound
  import Lexing
  import LexTheorems
  import Compiler
  import FileCompiler
  import Scopes

  // ---------- errors are only added ----------

  /** Errors of a list of parameters that was given up, or not. */
  predicate ArgsErrors(errors: seq<Error>, a: ArgsParse) {
    a.DidArgs? ==> errors <= a.st.errors && (a.args.None? ==> errors < a.st.errors)
  }

  predicate TopErrors(errors: seq<Error>, r: TopParse) {
    r.DidTop? ==> errors <= r.st.errors && (r.dcl.Absent? || r.dcl == Global(None) ==> errors < r.st.errors)
  }

  lemma GivenUpErrors(ts: seq<Token>, st: State, errors: seq<Error>)
    requires errors < st.errors
    ensures ArgsErrors(errors, GivenUp(ts, st)) && TopErrors(errors, Without(ts, st))
  {
    hide Files.SkipBlock;
  }

  /** The type of the next parameter, past a comma if it is not the first. */
  function NextType(ts: seq<Token>, st: State, first: bool): TypeParse
    requires st.pos < |ts|
  {
    var (p, es) := if first then (st.pos, st.errors) else Expect(ts, st.pos, Comma, st.errors);
    ParseType(ts, st.(pos := p, errors := es))
  }

  lemma NextTypeErrors(ts: seq<Token>, st: State, first: bool)
    requires st.pos < |ts|
    ensures var t := NextType(ts, st, first);
      t.DidType? ==> st.errors <= t.st.errors && (t.ty.None? ==> st.errors < t.st.errors) && st.pos < t.st.pos <= |ts|
  {
    hide ParseType;
    var (p, es) := if first then (st.pos, st.errors) else Expect(ts, st.pos, Comma, st.errors);
    if NextType(ts, st, first).DidType? {
      StatementKeeps.TypeKept(ts, st.(pos := p, errors := es));
    }
  }

  lemma ParamsStep(ts: seq<Token>, st: State, args: seq<Arg>)
    requires st.pos < |ts| && !ts[st.pos].ty.Arrow? && !ts[st.pos].ty.LBrace?
    ensures var t, r := NextType(ts, st, args == []), ParseParams(ts, st, args);
      && (t.TypeCrash? ==> r == ArgsCrash)
      && (t.DidType? && t.ty.None? ==> r == GivenUp(ts, t.st))
      && (t.DidType? && t.ty.Some? && t.st.pos >= |ts| ==> r == ArgsCrash)
      && (t.DidType? && t.ty.Some? && t.st.pos < |ts| && !ts[t.st.pos].ty.Ident? ==> r == GivenUp(ts, Fail(t.st, ExpectToken(Ident))))
      && (t.DidType? && t.ty.Some? && t.st.pos < |ts| && ts[t.st.pos].ty.Ident? ==>
          r == ParseParams(ts, t.st.(pos := t.st.pos + 1), args + [Arg(t.ty.value, ts[t.st.pos].value)]))
  {
    hide ParseType, GivenUp;
  }

  lemma {:induction false} ParamsErrors(ts: seq<Token>, st: State, args: seq<Arg>)
    ensures ArgsErrors(st.errors, ParseParams(ts, st, args))
    decreases |ts| - st.pos
  {
    hide ParseType, GivenUp, NextType;
    if st.pos < |ts| && !ts[st.pos].ty.Arrow? && !ts[st.pos].ty.LBrace? {
      hide ParseParams;
      var t := NextType(ts, st, args == []);
      ParamsStep(ts, st, args);
      NextTypeErrors(ts, st, args == []);
      if t.DidType? && t.ty.None? {
        GivenUpErrors(ts, t.st, st.errors);
      } else if t.DidType? && t.st.pos < |ts| {
        if !ts[t.st.pos].ty.Ident? {
          GivenUpErrors(ts, Fail(t.st, ExpectToken(Ident)), st.errors);
        } else {
          ParamsErrors(ts, t.st.(pos := t.st.pos + 1), args + [Arg(t.ty.value, ts[t.st.pos].value)]);
        }
      }
    }
  }

  lemma RestErrors(ts: seq<Token>, name: string, a: ArgsParse, errors: seq<Error>)
    requires (a.DidArgs? ==> a.st.scope != [] && a.st.pos <= |ts|) && ArgsErrors(errors, a)
    ensures TopErrors(errors, ParseRest(ts, name, a))
  {
    hide ParseType, ParseBlock, Without, InsertAll;
    if a.DidArgs? && a.args.Some? && a.st.pos < |ts| {
      if !ts[a.st.pos].ty.Arrow? {
        GivenUpErrors(ts, Fail(a.st, ExpectToken(Arrow)), errors);
      } else {
        var st1 := a.st.(pos := a.st.pos + 1);
        var t := ParseType(ts, st1);
        if t.DidType? {
          StatementKeeps.TypeKept(ts, st1);
          if t.ty.None? {
            GivenUpErrors(ts, t.st, errors);
          } else {
            StatementKeeps.BlockKept(ts, BoundAll(t.st, InOrder(a.args.value, name)));
          }
        }
      }
    }
  }

  lemma FunctionErrors(ts: seq<Token>, st: State)
    requires st.scope != []
    ensures TopErrors(st.errors, ParseFunction(ts, st))
  {
    hide ParseParams, ParseRest, Without;
    GivenUpErrors(ts, Fail(st, ExpectToken(Proc)), st.errors);
    GivenUpErrors(ts, Fail(st.(pos := st.pos + 1), ExpectToken(Ident)), st.errors);
    if st.pos + 2 < |ts| {
      var (p, es) := Expect(ts, st.pos + 2, DoubleColon, st.errors);
      ParamsErrors(ts, st.(pos := p, errors := es), []);
      RestErrors(ts, ts[st.pos + 1].value, ParseParams(ts, st.(pos := p, errors := es), []), st.errors);
    }
  }

  lemma TopsErrors(ts: seq<Token>, st: State)
    requires st.scope != [] && st.pos < |ts| && StartsTop(ts[st.pos].ty)
    ensures TopErrors(st.errors, ParseTop(ts, st))
  {
    hide ParseFunction, ParseVariable;
    if ts[st.pos].ty.Proc? {
      FunctionErrors(ts, st);
    } else {
      StatementKeeps.VariableKept(ts, st);
    }
  }

  lemma {:induction false} FileErrors(ts: seq<Token>, st: State)
    requires st.scope != [] && ParseFile(ts, st).DidFile?
    ensures st.errors <= ParseFile(ts, st).st.errors
    decreases |ts| - st.pos
  {
    hide ParseTop;
    if !ts[st.pos].ty.End? {
      TopsErrors(ts, st);
      FileErrors(ts, ParseTop(ts, st).st);
    }
  }

  // ---------- functions ----------

  /** A comma that is not the last of a list. */
  lemma SpansComma(ts: seq<Token>, i: nat, s: seq<Token>, j: nat)
    requires Clean(ts) && i + 1 < |ts| && ts[i].ty.Comma? && ts[i + 1].ty.Ident? && Spans(ts, i + 1, s, j)
    ensures Spans(ts, i, [Mark(Comma)] + s, j)
  {
    assert CleanAt(ts, i);
    PrattSound.KeptOne(ts, i);
    SpansJoin(ts, i, [Mark(Comma)], i + 1, s, j);
  }

  /** Parameters that were read behind those of `before`. */
  ghost predicate ArgsSound(ts: seq<Token>, st: State, before: seq<Arg>, args: seq<Arg>, r: ArgsParse) {
    && r.DidArgs? && r.args == Some(before + args) && r.st == st.(pos := r.st.pos)
    && (forall i :: 0 <= i < |args| ==> TypeFits(args[i].ty))
    && Spans(ts, st.pos, SpellArgs(args, before == []), r.st.pos)
  }

  lemma {:induction false} SoundParams(ts: seq<Token>, st: State, before: seq<Arg>) returns (args: seq<Arg>)
    requires Clean(ts)
    requires var r := ParseParams(ts, st, before); r.DidArgs? && r.args.Some? && r.st.errors == st.errors
    ensures ArgsSound(ts, st, before, args, ParseParams(ts, st, before))
    decreases |ts| - st.pos
  {
    hide ParseType, ParseParams, GivenUp, ArgsSound;
    var r := ParseParams(ts, st, before);
    if st.pos < |ts| && (ts[st.pos].ty.Arrow? || ts[st.pos].ty.LBrace?) {
      args := [];
      NoParams(ts, st, before);
    } else {
      ParamThere(ts, st, before);
      var (p, es) := if before == [] then (st.pos, st.errors) else Expect(ts, st.pos, Comma, st.errors);
      var st1 := st.(pos := p, errors := es);
      var t := ParseType(ts, st1);
      var a, st2 := ParamRead(ts, st, before, st1, t, r);
      var more := SoundParams(ts, st2, before + [a]);
      args := [a] + more;
      ParamsJoin(ts, st, before, st1.pos, a, st2, more, r);
    }
  }

  lemma ParamThere(ts: seq<Token>, st: State, before: seq<Arg>)
    requires ParseParams(ts, st, before).DidArgs?
    ensures st.pos < |ts|
  {
  }

  lemma NoParams(ts: seq<Token>, st: State, before: seq<Arg>)
    requires st.pos < |ts| && (ts[st.pos].ty.Arrow? || ts[st.pos].ty.LBrace?)
    ensures ArgsSound(ts, st, before, [], ParseParams(ts, st, before))
  {
    SpansNothing(ts, st.pos);
    assert before + [] == before;
  }

  lemma ParamsJoin(ts: seq<Token>, st: State, before: seq<Arg>, c: nat, a: Arg, st2: State, more: seq<Arg>, r: ArgsParse)
    requires Clean(ts) && c == (if before == [] then st.pos else st.pos + 1) && c < st2.pos - 1 < |ts| && st.pos < |ts|
    requires (before != [] ==> ts[st.pos].ty.Comma?) && ts[c].ty.Ident? && ts[st2.pos - 1] == Token(Ident, a.name) && TypeFits(a.ty)
    requires Spans(ts, c, FlattenType(a.ty), st2.pos - 1) && st2 == st.(pos := st2.pos)
    requires ArgsSound(ts, st2, before + [a], more, r)
    ensures ArgsSound(ts, st, before, [a] + more, r)
  {
    hide Spans, TypeFits, FlattenType, SpellArgs;
    assert before + [a] + more == before + ([a] + more);
    ArgPart(ts, st.pos, before == [], c, a, st2.pos - 1, more, r.st.pos);
  }

  lemma ParamRead(ts: seq<Token>, st: State, before: seq<Arg>, st1: State, t: TypeParse, r: ArgsParse) returns (a: Arg, st2: State)
    requires Clean(ts) && !(st.pos < |ts| && (ts[st.pos].ty.Arrow? || ts[st.pos].ty.LBrace?))
    requires r == ParseParams(ts, st, before) && r.DidArgs? && r.args.Some? && r.st.errors == st.errors
    requires st.pos < |ts| ==>
      var (p, es) := if before == [] then (st.pos, st.errors) else Expect(ts, st.pos, Comma, st.errors);
      st1 == st.(pos := p, errors := es)
    requires t == ParseType(ts, st1)
    ensures st.pos < |ts| && st1 == st.(pos := if before == [] then st.pos else st.pos + 1) && (before != [] ==> ts[st.pos].ty.Comma?)
    ensures st1.pos < st2.pos - 1 < |ts| && st2 == st.(pos := st2.pos) && ts[st2.pos - 1] == Token(Ident, a.name) && TypeFits(a.ty)
    ensures Spans(ts, st1.pos, FlattenType(a.ty), st2.pos - 1) && ts[st1.pos].ty.Ident?
    ensures ParseParams(ts, st2, before + [a]) == r
  {
    hide ParseType, Files.SkipBlock, Spans, TypeFits;
    StatementKeeps.TypeKept(ts, st1);
    a, st2 := Arg(t.ty.value, ts[t.st.pos].value), t.st.(pos := t.st.pos + 1);
    ParamsErrors(ts, st2, before + [a]);
    PrattSound.SameErrors(st.errors, st1.errors, r.st.errors);
    PrattSound.SameErrors(st.errors, t.st.errors, r.st.errors);
    TypeSound(ts, st1, a.ty, t.st);
    TypeFirst(ts, st1);
  }

  lemma TypeFirst(ts: seq<Token>, st: State)
    requires ParseType(ts, st).DidType? && ParseType(ts, st).ty.Some?
    ensures st.pos < |ts| && ts[st.pos].ty.Ident?
  {
  }

  /** One parameter, with its name at `p`, in front of others. */
  lemma ArgPart(ts: seq<Token>, i: nat, first: bool, c: nat, a: Arg, p: nat, more: seq<Arg>, q: nat)
    requires Clean(ts) && c < p < |ts| && ts[p] == Token(Ident, a.name) && ts[c].ty.Ident? && Spans(ts, c, FlattenType(a.ty), p)
    requires c == (if first then i else i + 1) && (!first ==> ts[i].ty.Comma?) && Spans(ts, p + 1, SpellArgs(more, false), q)
    ensures Spans(ts, i, SpellArgs([a] + more, first), q)
  {
    hide Spans, FlattenType;
    NamePart(ts, p);
    SpansJoin(ts, c, FlattenType(a.ty), p, [Token(Ident, a.name)], p + 1);
    SpansJoin(ts, c, SpellArg(a), p + 1, SpellArgs(more, false), q);
    assert ([a] + more)[1..] == more;
    if first {
      assert [] + (SpellArg(a) + SpellArgs(more, false)) == SpellArg(a) + SpellArgs(more, false);
    } else {
      SpansComma(ts, i, SpellArg(a) + SpellArgs(more, false), q);
    }
  }

  /** A function that was read. */
  ghost predicate FunSound(ts: seq<Token>, st: State, f: Fun, r: TopParse) {
    && r.DidTop? && st.scope != [] && FunReadable(f) && Spans(ts, st.pos, SpellFun(f), r.st.pos)
    && var m := FunMeans(f, st.scope, st.next); r == DidTop(m.top, State(r.st.pos, st.errors, m.scope, m.next))
  }

  predicate QuietTop(st: State, r: TopParse) { r.DidTop? && r.st.errors == st.errors }

  lemma SoundFunction(ts: seq<Token>, st: State) returns (f: Fun)
    requires Clean(ts) && st.scope != [] && QuietTop(st, ParseFunction(ts, st))
    ensures FunSound(ts, st, f, ParseFunction(ts, st)) && st.pos < |ts| && ts[st.pos].ty.Proc?
  {
    hide ParseParams, ParseRest, Spans, FunReadable, FunMeans;
    var r := ParseFunction(ts, st);
    FunctionErrors(ts, st);
    var a := FunctionIs(ts, st);
    var name := ts[st.pos + 1].value;
    var args := SoundParams(ts, st.(pos := st.pos + 3), []);
    assert [] + args == args;
    f := SoundRest(ts, name, args, a.st);
    FunPart(ts, st.pos, f, a.st.pos, r.st.pos);
  }

  /** The tokens in front of the parameters were all there. */
  lemma FunctionIs(ts: seq<Token>, st: State) returns (a: ArgsParse)
    requires st.scope != [] && QuietTop(st, ParseFunction(ts, st))
    ensures st.pos + 2 < |ts| && ts[st.pos].ty.Proc? && ts[st.pos + 1].ty.Ident? && ts[st.pos + 2].ty.DoubleColon?
    ensures a == ParseParams(ts, st.(pos := st.pos + 3), []) && a.DidArgs? && a.args.Some? && a.st.errors == st.errors
    ensures ParseFunction(ts, st) == ParseRest(ts, ts[st.pos + 1].value, a)
  {
    hide ParseParams, ParseRest, Without;
    var r := ParseFunction(ts, st);
    GivenUpErrors(ts, Fail(st, ExpectToken(Proc)), st.errors);
    GivenUpErrors(ts, Fail(st.(pos := st.pos + 1), ExpectToken(Ident)), st.errors);
    var (p, es) := Expect(ts, st.pos + 2, DoubleColon, st.errors);
    a := ParseParams(ts, st.(pos := p, errors := es), []);
    ParamsErrors(ts, st.(pos := p, errors := es), []);
    RestKeeps(ts, ts[st.pos + 1].value, a);
    PrattSound.SameErrors(st.errors, es, r.st.errors);
    PrattSound.SameErrors(st.errors, a.st.errors, r.st.errors);
  }

  lemma RestKeeps(ts: seq<Token>, name: string, a: ArgsParse)
    requires (a.DidArgs? ==> a.st.scope != [] && a.st.pos <= |ts|) && ParseRest(ts, name, a).DidTop?
    ensures a.DidArgs? && (a.args.Some? ==> a.st.errors <= ParseRest(ts, name, a).st.errors)
    ensures a.args.None? ==> ParseRest(ts, name, a).st == a.st
  {
    hide ParseRest;
    if a.DidArgs? && a.args.Some? {
      RestErrors(ts, name, a, a.st.errors);
    }
    RestNone(ts, name, a);
  }

  lemma RestNone(ts: seq<Token>, name: string, a: ArgsParse)
    requires (a.DidArgs? ==> a.st.scope != [] && a.st.pos <= |ts|) && ParseRest(ts, name, a).DidTop?
    ensures a.DidArgs? && (a.args.None? ==> ParseRest(ts, name, a).st == a.st)
  {
    hide ParseType, ParseBlock, Without, InsertAll;
  }

  /** From the arrow on. */
  lemma SoundRest(ts: seq<Token>, name: string, args: seq<Arg>, st: State) returns (f: Fun)
    requires Clean(ts) && st.scope != [] && st.pos <= |ts| && forall i :: 0 <= i < |args| ==> TypeFits(args[i].ty)
    requires QuietTop(st, ParseRest(ts, name, DidArgs(Some(args), st)))
    ensures f.name == name && f.args == args && FunReadable(f) && st.pos < |ts|
    ensures var r := ParseRest(ts, name, DidArgs(Some(args), st));
      && Spans(ts, st.pos, SpellResult(f), r.st.pos)
      && var m := FunMeans(f, st.scope, st.next); r == DidTop(m.top, State(r.st.pos, st.errors, m.scope, m.next))
  {
    hide ParseType, ParseBlock, Spans, InsertAll, BodyMeans, SpellBody, FlattenType, TypeFits, BodyReadable, BodySound;
    var r := ParseRest(ts, name, DidArgs(Some(args), st));
    GivenUpErrors(ts, Fail(st, ExpectToken(Arrow)), st.errors);
    var st1 := st.(pos := st.pos + 1);
    var t := ParseType(ts, st1);
    StatementKeeps.TypeKept(ts, st1);
    if t.ty.None? { GivenUpErrors(ts, t.st, st.errors); }
    var inner := BoundAll(t.st, InOrder(args, name));
    StatementKeeps.BlockKept(ts, inner);
    var b := ParseBlock(ts, inner);
    PrattSound.SameErrors(st.errors, t.st.errors, r.st.errors);
    PrattSound.SameErrors(st.errors, b.st.errors, r.st.errors);
    TypeSound(ts, st1, t.ty.value, t.st);
    var body := SoundBlock(ts, inner);
    f := Fun(name, args, t.ty.value, body, ts[b.st.pos].ty.Semi?);
    BodyIs(ts, inner, body, b);
    ResultPart(ts, st.pos, f, t.st.pos, b.st.pos, r.st.pos);
  }

  lemma BodyIs(ts: seq<Token>, st: State, b: Body, r: Parse)
    requires BodySound(ts, st, b, r)
    ensures BodyReadable(b) && Spans(ts, st.pos, SpellBody(b), r.st.pos)
    ensures var m := BodyMeans(b, st.scope, st.next); r == Did(Blk(m.smts), State(r.st.pos, st.errors, st.scope, m.next))
  {
  }

  /** The arrow at `i`, a type up to `p`, a body up to `e`, and perhaps a semicolon. */
  lemma ResultPart(ts: seq<Token>, i: nat, f: Fun, p: nat, e: nat, q: nat)
    requires Clean(ts) && i < |ts| && ts[i].ty.Arrow? && Spans(ts, i + 1, FlattenType(f.ret), p) && Spans(ts, p, SpellBody(f.body), e)
    requires e < |ts| && f.semi == ts[e].ty.Semi? && q == if f.semi then e + 1 else e
    ensures Spans(ts, i, SpellResult(f), q)
  {
    hide Spans, FlattenType, SpellBody;
    SpansNothing(ts, q);
    if f.semi {
      SpansMark(ts, e, Mark(Semi), [], q);
      assert [Mark(Semi)] + [] == [Mark(Semi)];
    }
    SpansJoin(ts, p, SpellBody(f.body), e, SpellSemi(f), q);
    SpansJoin(ts, i + 1, FlattenType(f.ret), p, SpellInside(f), q);
    SpansMark(ts, i, Mark(Arrow), FlattenType(f.ret) + SpellInside(f), q);
  }

  /** A function at `i` whose parameters end at the arrow at `a`. */
  lemma FunPart(ts: seq<Token>, i: nat, f: Fun, a: nat, q: nat)
    requires Clean(ts) && i + 2 < |ts| && ts[i].ty.Proc? && ts[i + 1].ty.Ident? && ts[i + 1].value == f.name && ts[i + 2].ty.DoubleColon?
    requires Spans(ts, i + 3, SpellArgs(f.args, true), a) && Spans(ts, a, SpellResult(f), q)
    ensures Spans(ts, i, SpellFun(f), q)
  {
    hide Spans, SpellArgs, SpellResult, TokenName;
    var rest := SpellArgs(f.args, true) + SpellResult(f);
    SpansJoin(ts, i + 3, SpellArgs(f.args, true), a, SpellResult(f), q);
    SpansMark(ts, i + 2, Mark(DoubleColon), rest, q);
    NamePart(ts, i + 1);
    SpansJoin(ts, i + 1, [Token(Ident, f.name)], i + 2, [Mark(DoubleColon)] + rest, q);
    SpansMark(ts, i, Key(TokenType.Proc), [Token(Ident, f.name)] + ([Mark(DoubleColon)] + rest), q);
  }

  // ---------- files ----------

  /** A declaration that was read. It has no semicolon behind it that would be read again. */
  ghost predicate ItemSound(ts: seq<Token>, st: State, i: Item, r: TopParse) {
    && r.DidTop? && st.scope != [] && r.st.pos < |ts| && ItemReadable(i, ts[r.st.pos].ty) && Finite([i])
    && st.pos < |ts| && ts[st.pos].ty == FirstType([i]) && Spans(ts, st.pos, SpellItem(i), r.st.pos)
    && var m := ItemMeans(i, st.scope, st.next); r == DidTop(m.top, State(r.st.pos, st.errors, m.scope, m.next))
  }

  lemma SoundItem(ts: seq<Token>, st: State) returns (i: Item)
    requires Clean(ts) && st.scope != [] && st.pos < |ts| && StartsTop(ts[st.pos].ty) && QuietTop(st, ParseTop(ts, st))
    requires ParseTop(ts, st).st.pos < |ts|
    ensures ItemSound(ts, st, i, ParseTop(ts, st))
  {
    hide ParseFunction, ParseVariable, Spans, FunReadable, FunMeans, DeclFits, SpellFun, FlattenDecl;
    TopsErrors(ts, st);
    var r := ParseTop(ts, st);
    if ts[st.pos].ty.Proc? {
      var f := SoundFunction(ts, st);
      i := FunItem(f);
    } else {
      var d := VariableSound(ts, st, r.dcl.v.value, r.st);
      i := VarItem(d, false);
      assert FlattenDecl(d) + [] == FlattenDecl(d);
    }
  }

  ghost predicate FileSounds(ts: seq<Token>, st: State, items: seq<Item>, r: FileParse) {
    && r.DidFile? && st.scope != [] && r.st.pos < |ts| && ts[r.st.pos].ty.End?
    && FileReadable(items) && Finite(items) && st.pos < |ts| && ts[st.pos].ty == FirstType(items)
    && Spans(ts, st.pos, SpellFile(items), r.st.pos)
    && var m := FileMeans(items, st.scope, st.next); r == DidFile(m.tops, State(r.st.pos, st.errors, m.scope, m.next))
  }

  /** A file read to its end without an error is readable, is spelled by the tokens consumed,
      and gives what it means. */
  lemma {:induction false} SoundFile(ts: seq<Token>, st: State) returns (items: seq<Item>)
    requires Clean(ts) && st.scope != [] && ParseFile(ts, st).DidFile? && ParseFile(ts, st).st.errors == st.errors
    ensures FileSounds(ts, st, items, ParseFile(ts, st))
    decreases |ts| - st.pos
  {
    hide ParseTop, Spans;
    if ts[st.pos].ty.End? {
      items := [];
      SpansNothing(ts, st.pos);
    } else {
      var d := ParseTop(ts, st);
      TopsErrors(ts, st);
      FileErrors(ts, d.st);
      PrattSound.SameErrors(st.errors, d.st.errors, ParseFile(ts, st).st.errors);
      var rest := SoundFile(ts, d.st);
      var i := SoundItem(ts, st);
      items := [i] + rest;
      FilePart(ts, st, i, d, rest, ParseFile(ts, d.st));
    }
  }

  lemma FilePart(ts: seq<Token>, st: State, i: Item, d: TopParse, rest: seq<Item>, r: FileParse)
    requires ItemSound(ts, st, i, d) && d.st.errors == st.errors && FileSounds(ts, d.st, rest, r)
    ensures FileSounds(ts, st, [i] + rest, DidFile([d.dcl] + r.dcls, r.st))
  {
    hide Spans, SpellItem, ItemReadable, ItemMeans;
    assert ([i] + rest)[1..] == rest;
    SpansJoin(ts, st.pos, SpellItem(i), d.st.pos, SpellFile(rest), r.st.pos);
    forall x | x in [i] + rest ensures !(x.VarItem? && x.stop) { assert x == i || x in rest; assert i in [i]; }
  }

  /** Whatever text the parser reads to its end without an error spells a readable file, and
      gives its meaning. Its spelling is the tokens up to the end, exactly when none of them
      is a comma right before a closing bracket or brace. */
  lemma FileFromAnyText(text: string, ts: seq<Token>) returns (items: seq<Item>)
    requires Lexing.LexAll(text, false) == Lexing.Tokens(ts)
    requires ParseFile(ts, FileCompiler.Begin()).DidFile? && ParseFile(ts, FileCompiler.Begin()).st.errors == []
    ensures FileReadable(items) && Finite(items)
    ensures var r := ParseFile(ts, FileCompiler.Begin());
      var m := FileMeans(items, [map[]], 0);
      && r == DidFile(m.tops, State(|ts| - 1, [], m.scope, m.next))
      && (ts == SpellFile(items) + [Token(End, "")] <==> forall k :: 0 <= k < |ts| - 1 ==> !PrattComplete.Trailing(ts, k))
  {
    hide ParseFile, FileReadable, SpellFile, FileMeans, Spans;
    Compiler.LexedClean(text, ts);
    LexTheorems.LexCanonical(text, false);
    items := SoundFile(ts, FileCompiler.Begin());
    ToTheEnd(ts, ParseFile(ts, FileCompiler.Begin()).st.pos, SpellFile(items));
  }

  lemma ToTheEnd(ts: seq<Token>, q: nat, spelling: seq<Token>)
    requires Clean(ts) && q < |ts| && ts[q].ty.End? && ts[|ts| - 1] == Token(End, "") && Spans(ts, 0, spelling, q)
    ensures q == |ts| - 1
    ensures ts == spelling + [Token(End, "")] <==> forall k :: 0 <= k < |ts| - 1 ==> !PrattComplete.Trailing(ts, k)
  {
    assert CleanAt(ts, q);
    PrattSound.KeptAll(ts, 0, q);
    assert ts[0..q] == ts[..q];
    assert ts == ts[..q] + [Token(End, "")];
    if ts == spelling + [Token(End, "")] {
      assert ts[..q] == spelling;
    }
  }
}
