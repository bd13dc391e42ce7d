/** What the parser reports when one token is missing, and what it reads all the same. */
module Recovery {
  import opened Wrappers
  import opened Tokens
  import opened Pratt
  import opened Grammar
  import PrattComplete
  import Scopes
  import opened Statements
  import opened StatementGrammar
  import opened StatementComplete
  import opened Files
  import opened FileGrammar

  // ---------- functions ----------

  /** A function without its `::`. */
  function Uncolonned(f: Fun): seq<Token> {
    [Key(TokenType.Proc)] + ([Token(Ident, f.name)] + (SpellArgs(f.args, true) + SpellResult(f)))
  }

  /** It is read as if the `::` were there, and the missing token is the one error. */
  lemma ColonMissing(ts: seq<Token>, st: State, f: Fun)
    requires st.scope != [] && FunReadable(f) && HasAt(ts, st.pos, Uncolonned(f))
    requires var q := st.pos + |Uncolonned(f)|; q < |ts| && !ts[q].ty.Semi?
    ensures var m := FunMeans(f, st.scope, st.next);
      ParseFunction(ts, st) ==
        DidTop(m.top, State(st.pos + |Uncolonned(f)|, st.errors + [Error(ExpectToken(DoubleColon), st.pos + 2)], m.scope, m.next))
  {
    hide ParseFunction, ParseParams, ParseRest, SpellArgs, SpellResult, SpellBody, FlattenType, FunMeans, HasAt, TypeFits, BodyReadable, TokenName;
    var args, rest := SpellArgs(f.args, true), SpellResult(f);
    var a := st.pos + 2 + |args|;
    var b := a + 1 + |FlattenType(f.ret)|;
    var e := b + |SpellBody(f.body)|;
    HasAtSplit(ts, st.pos, [Key(TokenType.Proc)], [Token(Ident, f.name)] + (args + rest));
    HasOne(ts, st.pos, Key(TokenType.Proc));
    HasAtSplit(ts, st.pos + 1, [Token(Ident, f.name)], args + rest);
    HasOne(ts, st.pos + 1, Token(Ident, f.name));
    HasAtSplit(ts, st.pos + 2, args, rest);
    ResultParts(ts, a, f, b, e);
    var after := st.(pos := st.pos + 2, errors := st.errors + [Error(ExpectToken(DoubleColon), st.pos + 2)]);
    ReadsArgs(ts, after, [], f.args, a);
    assert [] + f.args == f.args;
    NoColon(ts, st.pos + 2, f.args);
    NameStep(ts, st, f.name, DidArgs(Some(f.args), after.(pos := a)));
    FileGrammar.ReadsRest(ts, after.(pos := a), f, b, e);
  }

  lemma NoColon(ts: seq<Token>, pos: nat, args: seq<Arg>)
    requires HasAt(ts, pos, SpellArgs(args, true)) && pos + |SpellArgs(args, true)| < |ts| && ts[pos + |SpellArgs(args, true)|].ty.Arrow?
    ensures pos < |ts| && (ts[pos].ty.Ident? || ts[pos].ty.Arrow?)
  {
    hide FlattenType, HasAt;
    if args != [] {
      CommaParts(ts, pos, args, true);
      HasAtSplit(ts, pos, SpellArg(args[0]), SpellArgs(args[1..], false));
      HasAtSplit(ts, pos, FlattenType(args[0].ty), [Token(Ident, args[0].name)]);
      TypeStarts(ts, pos, args[0].ty);
    }
  }

  lemma NameStep(ts: seq<Token>, st: State, name: string, a: ArgsParse)
    requires st.scope != [] && st.pos + 2 < |ts| && ts[st.pos].ty.Proc? && ts[st.pos + 1] == Token(Ident, name) && !ts[st.pos + 2].ty.DoubleColon?
    requires ParseParams(ts, st.(pos := st.pos + 2, errors := st.errors + [Error(ExpectToken(DoubleColon), st.pos + 2)]), []) == a
    ensures ParseFunction(ts, st) == ParseRest(ts, name, a)
  {
    hide ParseParams, ParseRest;
  }

  /** No function, one more error at `at`, and on past the next block. */
  function Dropped(ts: seq<Token>, st: State, at: nat, kind: ErrorKind): TopParse {
    match SkipBlock(ts, at)
    case None => TopCrash
    case Some(p) => DidTop(Absent, st.(pos := p, errors := st.errors + [Error(kind, at)]))
  }

  /** Without its name a function is not read. */
  lemma NameMissing(ts: seq<Token>, st: State)
    requires st.scope != [] && st.pos + 1 < |ts| && ts[st.pos].ty.Proc? && !ts[st.pos + 1].ty.Ident?
    ensures ParseFunction(ts, st) == Dropped(ts, st, st.pos + 1, ExpectToken(Ident))
  {
    hide ParseParams, ParseRest;
  }

  /** `proc name :: ...` without an arrow and a type. */
  function Head(name: string, args: seq<Arg>): seq<Token> {
    [Key(TokenType.Proc)] + ([Token(Ident, name)] + ([Mark(DoubleColon)] + SpellArgs(args, true)))
  }

  /** A function whose parameters are followed by the brace of its body is not read. */
  lemma ArrowMissing(ts: seq<Token>, st: State, name: string, args: seq<Arg>)
    requires st.scope != [] && (forall i :: 0 <= i < |args| ==> TypeFits(args[i].ty)) && HasAt(ts, st.pos, Head(name, args))
    requires var q := st.pos + |Head(name, args)|; q < |ts| && ts[q].ty.LBrace?
    ensures ParseFunction(ts, st) == Dropped(ts, st, st.pos + |Head(name, args)|, ExpectToken(Arrow))
  {
    hide ParseFunction, ParseParams, SpellArgs, FlattenType, HasAt, TypeFits, Files.SkipBlock, TokenName;
    var l := SpellArgs(args, true);
    HasAtSplit(ts, st.pos, [Key(TokenType.Proc)], [Token(Ident, name)] + ([Mark(DoubleColon)] + l));
    HasOne(ts, st.pos, Key(TokenType.Proc));
    HasAtSplit(ts, st.pos + 1, [Token(Ident, name)], [Mark(DoubleColon)] + l);
    HasOne(ts, st.pos + 1, Token(Ident, name));
    HasAtSplit(ts, st.pos + 2, [Mark(DoubleColon)], l);
    HasOne(ts, st.pos + 2, Mark(DoubleColon));
    ReadsArgs(ts, st.(pos := st.pos + 3), [], args, st.pos + 3 + |l|);
    assert [] + args == args;
    FunStep(ts, st, name, DidArgs(Some(args), st.(pos := st.pos + 3 + |l|)));
  }

  // ---------- variables ----------

  /** `var T name e` */
  function Unequalled(t: TypeExp, name: string, e: Exp): seq<Token> {
    [Key(Var)] + (FlattenType(t) + ([Token(Ident, name)] + Flatten(e)))
  }

  /** A variable without its `=` is read as if it were there, and that is the one error. */
  lemma EqualMissing(ts: seq<Token>, st: State, t: TypeExp, name: string, e: Exp)
    requires st.scope != [] && TypeFits(t) && HasAt(ts, st.pos, Unequalled(t, name, e))
    requires var q := st.pos + |Unequalled(t, name, e)|; q < |ts| && Fits(e, ts[q].ty)
    ensures ParseVariable(ts, st) == DidVar(Some(Declared(Decl(Some(t), name, e), st.scope, st.next)),
      State(st.pos + |Unequalled(t, name, e)|, st.errors + [Error(ExpectToken(Assign), st.pos + 2 + |FlattenType(t)|)],
            StatementGrammar.Bind(st.scope, name, st.next), st.next + 1))
  {
    hide HasAt, Flatten, FlattenType, ParseType, ParseTyped, Respects, CanFollow, BindingPower, TokenName, ParseExp;
    var p := st.pos + 1 + |FlattenType(t)|;
    HasAtSplit(ts, st.pos, [Key(Var)], FlattenType(t) + ([Token(Ident, name)] + Flatten(e)));
    HasOne(ts, st.pos, Key(Var));
    HasAtSplit(ts, st.pos + 1, FlattenType(t), [Token(Ident, name)] + Flatten(e));
    HasAtSplit(ts, p, [Token(Ident, name)], Flatten(e));
    HasOne(ts, p, Token(Ident, name));
    ReadsType(ts, st.(pos := st.pos + 1), t);
    StartsExp(ts, p + 1, e);
    var errors := st.errors + [Error(ExpectToken(Assign), p + 1)];
    ReadsExp(ts, p + 1, e, errors);
    NoEqual(ts, st.(pos := p), t, name, e, p + 1 + |Flatten(e)|);
    VarStep(ts, st, DidType(Some(t), st.(pos := p)), ParseTyped(ts, DidType(Some(t), st.(pos := p))));
  }

  lemma NoEqual(ts: seq<Token>, st: State, t: TypeExp, name: string, e: Exp, q: nat)
    requires st.scope != [] && st.pos + 1 < |ts| && ts[st.pos] == Token(Ident, name) && !ts[st.pos + 1].ty.Assign? && !e.Missing?
    requires ParseExp(ts, st.pos + 1, 0, st.errors + [Error(ExpectToken(Assign), st.pos + 1)])
      == Done(e, q, st.errors + [Error(ExpectToken(Assign), st.pos + 1)])
    ensures ParseTyped(ts, DidType(Some(t), st)) == DidVar(Some(Declared(Decl(Some(t), name, e), st.scope, st.next)),
      State(q, st.errors + [Error(ExpectToken(Assign), st.pos + 1)], StatementGrammar.Bind(st.scope, name, st.next), st.next + 1))
  {
    hide ParseExp;
  }

  /** A typed variable without a name is not read: one error, and on past the next semicolon. */
  lemma VariableNameMissing(ts: seq<Token>, st: State, t: TypeExp)
    requires st.scope != [] && TypeFits(t) && HasAt(ts, st.pos, [Key(Var)] + FlattenType(t))
    requires var q := st.pos + 1 + |FlattenType(t)|; q < |ts| && !ts[q].ty.Ident? && !ts[q].ty.LBrack?
    ensures var q := st.pos + 1 + |FlattenType(t)|;
      ParseVariable(ts, st) == match SkipToSemi(ts, q)
        case None => VarCrash
        case Some(p) => DidVar(None, st.(pos := p, errors := st.errors + [Error(ExpectToken(Ident), q)]))
  {
    hide HasAt, FlattenType, ParseType, SkipToSemi, TokenName;
    var p := st.pos + 1 + |FlattenType(t)|;
    HasAtSplit(ts, st.pos, [Key(Var)], FlattenType(t));
    HasOne(ts, st.pos, Key(Var));
    ReadsType(ts, st.(pos := st.pos + 1), t);
    VarStep(ts, st, DidType(Some(t), st.(pos := p)), ParseTyped(ts, DidType(Some(t), st.(pos := p))));
  }

  // ---------- statements ----------

  /** An expression that is neither an assignment nor a declaration is no statement: that is
      reported twice, at its end and past the next semicolon, and what stands up to the
      semicolon after that one is not read. */
  lemma NotStatement(ts: seq<Token>, st: State, e: Exp)
    requires st.scope != [] && e.Binary? && HasAt(ts, st.pos, Flatten(e)) && !StartsBrace(e)
    requires !IsAssignment(e.op.ty) && !e.op.ty.Define?
    requires var q := st.pos + |Flatten(e)|; q < |ts| && Fits(e, ts[q].ty)
    ensures var q := st.pos + |Flatten(e)|;
      var p := SkipToSemi(ts, q);
      var last := if p.Some? then SkipToSemi(ts, p.value) else None;
      ParseStatement(ts, st) ==
        if last.None? then Crash
        else Did(Nothing, st.(pos := last.value, errors := st.errors + [Error(ExpectStatement, q), Error(ExpectStatement, p.value)]))
  {
    hide Flatten, HasAt, SkipToSemi, ParseKnown, IsAssignment, Respects, CanFollow;
    var q := st.pos + |Flatten(e)|;
    SetFirst(ts, st.pos, e);
    NotKnown(ts, st);
    ReadsExp(ts, st.pos, e, st.errors);
    OtherStep(ts, st, Done(e, q, st.errors));
    var one := [Error(ExpectStatement, q)];
    assert forall x :: st.errors + one + [x] == st.errors + (one + [x]);
  }

  /** Two statements without a semicolon between them are both read, and the missing token is
      the one error. */
  lemma SemicolonMissing(ts: seq<Token>, st: State, s: Src)
    requires Stands(ts, st, s)
    requires var t := ts[st.pos + |Spelling(s)|].ty; !t.Semi? && !t.RBrace? && !t.End?
    ensures var m, q := Means(s, st.scope, st.next), st.pos + |Spelling(s)|;
      var rest := ParseList(ts, State(q, st.errors + [Error(ExpectToken(Semi), q)], m.scope, m.next));
      ParseList(ts, st) == if rest.ListCrash? then ListCrash else DidList([m.smt] + rest.smts, rest.st)
  {
    hide Spelling, Means, ParseStatement, Readable;
    ReadsStatement(ts, st, s);
    MeansSome(s, st.scope, st.next);
  }

  lemma MeansSome(s: Src, scope: Scopes.Stack, next: int)
    requires scope != []
    ensures !Means(s, scope, next).smt.Nothing?
  {
  }

  // ---------- a block that is not read ----------

  function Step(t: Token): int { if t.ty.LBrace? then 1 else if t.ty.RBrace? then -1 else 0 }

  /** Braces opened less braces closed. */
  function Open(ts: seq<Token>, from: nat, end: nat): int
    requires from <= end <= |ts|
    decreases end
  {
    if from == end then 0
    else Open(ts, from, end - 1) + Step(ts[end - 1])
  }

  lemma {:induction false} OpenFirst(ts: seq<Token>, from: nat, end: nat)
    requires from < end <= |ts|
    ensures Open(ts, from, end) == Step(ts[from]) + Open(ts, from + 1, end)
    decreases end
  {
    if from + 1 < end {
      OpenFirst(ts, from, end - 1);
    }
  }

  /** With `depth` blocks open it goes on to the first place where as many braces were closed. */
  lemma {:induction false} PastBlockIs(ts: seq<Token>, pos: nat, depth: int, q: nat)
    requires pos < q <= |ts| && depth + Open(ts, pos, q) <= 0 && forall k :: pos < k < q ==> depth + Open(ts, pos, k) > 0
    ensures PastBlock(ts, pos, depth) == Some(q)
    decreases |ts| - pos
  {
    OpenFirst(ts, pos, pos + 1);
    if pos + 1 < q {
      assert depth + Open(ts, pos, pos + 1) > 0;
      OpenFirst(ts, pos, q);
      var next, d := pos + 1, depth + Step(ts[pos]);
      forall k | next < k < q ensures d + Open(ts, next, k) > 0 {
        OpenFirst(ts, pos, k);
      }
      PastBlockIs(ts, next, d, q);
    }
  }

  lemma {:induction false} ToBraceIs(ts: seq<Token>, pos: nat, q: nat)
    requires pos <= |ts|
    ensures ToBrace(ts, pos) == Some(q) <==> pos <= q < |ts| && ts[q].ty.LBrace? && forall k :: pos <= k < q ==> !ts[k].ty.LBrace?
    decreases |ts| - pos
  {
    if pos < |ts| && !ts[pos].ty.LBrace? {
      ToBraceIs(ts, pos + 1, q);
    }
  }

  /** What a function that is not read is skipped by: from the next brace on to where as many
      braces were closed as opened, and past a semicolon there. */
  lemma SkipBlockIs(ts: seq<Token>, pos: nat, b: nat, e: nat)
    requires pos <= b < e < |ts| && ts[b].ty.LBrace? && (forall k :: pos <= k < b ==> !ts[k].ty.LBrace?)
    requires Open(ts, b, e) == 0 && forall k :: b < k < e ==> Open(ts, b, k) > 0
    ensures Files.SkipBlock(ts, pos) == Some(if ts[e].ty.Semi? then e + 1 else e)
  {
    hide ToBrace, PastBlock;
    ToBraceIs(ts, pos, b);
    PastBlockIs(ts, b, 0, e);
  }

  /** Past the next semicolon, or to the end token if that comes first. */
  lemma {:induction false} SkipToSemiIs(ts: seq<Token>, pos: nat, q: nat)
    requires pos <= q < |ts| && (ts[q].ty.Semi? || ts[q].ty.End?)
    requires forall k :: pos <= k < q ==> !ts[k].ty.Semi? && !ts[k].ty.End?
    ensures SkipToSemi(ts, pos) == Some(if ts[q].ty.Semi? then q + 1 else q)
    decreases |ts| - pos
  {
    if pos < q {
      SkipToSemiIs(ts, pos + 1, q);
    }
  }
}
