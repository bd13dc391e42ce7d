/** The whole way: from a source text through lexer, parser and name lookup to blocks
    that do what the text means. */
module Compiler {
  import opened Wrappers
  import Tokens
  import Lexing
  import Printing
  import Pratt
  import Grammar
  import Scopes
  import Ints
  import Ir
  import Source
  import Lowering
  import opened Statements
  import StatementGrammar
  import StatementComplete
  import StatementSound
  import LexTheorems
  import PrattComplete
  import PrattSound
  import opened Frontend
  import ExpSimulation
  import Preservation
  import Nodes
  import NodeGrammar
  import NodeRoom

  /** The function with the block `s` for its body, if the generator takes it. */
  function FunctionOf(params: seq<Source.Parameter>, ret: Ints.Width, s: Stm, funs: map<Source.Dcl, nat>): Option<Source.Function> {
    var body := SmtOf(s, funs);
    if body.None? then None else Some(Source.Function(params, ret, body.value))
  }

  /** The parameters are declarations older than the body. */
  predicate Older(params: seq<Source.Parameter>, next: int) {
    && (forall i :: 0 <= i < |params| ==> params[i].dcl < next)
    && (forall i, j :: 0 <= i < j < |params| ==> params[i].dcl != params[j].dcl)
  }

  lemma {:induction false} ParamKeys(params: seq<Source.Parameter>, next: int)
    requires forall i :: 0 <= i < |params| ==> params[i].dcl < next
    ensures forall d :: d in Source.ParamEnv(params).Keys ==> d < next
  {
    if params != [] {
      ParamKeys(params[..|params| - 1], next);
    }
  }

  /** Whatever block the parser reads, even with errors it could recover from: when there is
      room for its nodes and its widths are right, the pools hold its tree, and the blocks made
      of it do what the tree does. That the tree is proper is not assumed; the parser sees to
      it. `before` are the calls on the pools before the block. */
  lemma ParsedPreserved(before: seq<Nodes.Call>, ts: seq<Tokens.Token>, st: State, params: seq<Source.Parameter>, funs: map<Source.Dcl, nat>,
                        args: seq<int>, ctx: Source.Context, b: Preservation.Behaviour)
    requires st.scope != [] && ParseBlock(ts, st).Did? && Older(params, st.next)
    requires NodeRoom.Proper(before) && NodeRoom.Fits(before + Nodes.BlockLog(ts, st))
    requires FunctionOf(params, ctx.ret, ParseBlock(ts, st).smt, funs).Some?
    requires var f := FunctionOf(params, ctx.ret, ParseBlock(ts, st).smt, funs).value;
      Source.Check(f.body, Source.ParamEnv(params), ctx.sigs).Some? && Source.Accepts(f, args)
    requires ExpSimulation.OracleOk(ctx)
    ensures NodeRoom.Held(before + Nodes.BlockLog(ts, st))
    ensures var f := FunctionOf(params, ctx.ret, ParseBlock(ts, st).smt, funs).value;
      Preservation.SourceDoes(f, args, ctx, b) <==>
      Preservation.TargetDoes(Preservation.Compiled(f, ctx.sigs, args, ctx.calls), b)
  {
    var f := FunctionOf(params, ctx.ret, ParseBlock(ts, st).smt, funs).value;
    NodeRoom.BlockRoom(before, ts, st);
    ParamKeys(params, st.next);
    ParsedTree(ts, st, funs, Source.ParamEnv(params).Keys);
    Preservation.FunctionPreserved(f, args, ctx, b);
  }

  /** The start of the parser on a body, in the scopes of its function. */
  function Entered(scope: Scopes.Stack, next: int): State { State(0, [], scope, next) }

  /** A text that lays out the spelling of `body`, with white space at its end that the
      lexer does not leave the text on. */
  ghost predicate LaysOut(items: seq<Printing.Item>, tail: string, body: StatementGrammar.Body) {
    && Printing.Readable(items, tail) && Printing.Expected(items, false) == StatementGrammar.SpellBody(body)
    && Printing.GoodTail(tail, Printing.LastFlag(items, false))
  }

  /** Of what is white space and printable tokens exactly the texts that lex to the tokens of the
      body, perhaps with one semicolon more, lay it out. */
  lemma LaysOutExactly(items: seq<Printing.Item>, tail: string, body: StatementGrammar.Body)
    requires Printing.Readable(items, tail)
    ensures var semi := if tail == "" then [] else [Tokens.Token(Tokens.Semi, "")];
      LaysOut(items, tail, body) <==>
        Lexing.LexAll(Printing.Layout(items, tail), false) == Lexing.Tokens(StatementGrammar.SpellBody(body) + (semi + [Tokens.Token(Tokens.End, "")]))
  {
    hide StatementGrammar.SpellBody, Printing.Readable, Printing.Expected, Printing.LastFlag, Printing.GoodTail, Lexing.LexAll, Printing.Layout;
    Printing.LexOfLayout(items, tail, false);
    var rest := (if tail == "" then [] else [Tokens.Token(Tokens.Semi, "")]) + [Tokens.Token(Tokens.End, "")];
    Printing.Cancelled(Printing.Expected(items, false), StatementGrammar.SpellBody(body), rest);
  }

  /** Any layout of a readable body lexes and parses to what the body means. The pools of
      the program hold that tree if and only if there is room for the nodes that are counted
      in the body, behind those of the calls before it. */
  lemma BodyFromText(before: seq<Nodes.Call>, body: StatementGrammar.Body, items: seq<Printing.Item>, tail: string, scope: Scopes.Stack, next: int)
    requires StatementGrammar.BodyReadable(body) && scope != [] && LaysOut(items, tail, body) && NodeRoom.Proper(before)
    ensures var o := Lexing.LexAll(Printing.Layout(items, tail), false);
      var m := StatementGrammar.BodyMeans(body, scope, next);
      && o.Tokens?
      && ParseBlock(o.ts, Entered(scope, next)) ==
           Did(Blk(m.smts), State(|StatementGrammar.SpellBody(body)|, [], scope, m.next))
      && Nodes.BlockLog(o.ts, Entered(scope, next)) == NodeGrammar.BodyCalls(body)
      && (NodeRoom.Held(before + Nodes.BlockLog(o.ts, Entered(scope, next))) <==> NodeRoom.Fits(before + NodeGrammar.BodyCalls(body)))
  {
    hide ParseBlock, StatementGrammar.BodyMeans, Lexing.LexAll, Nodes.BlockLog, NodeGrammar.BodyCalls, NodeRoom.Held, NodeRoom.Fits, NodeRoom.Proper;
    Printing.LexOfLayout(items, tail, false);
    var spelling := StatementGrammar.SpellBody(body);
    var end := (if tail == "" then [] else [Tokens.Token(Tokens.Semi, "")]) + [Tokens.Token(Tokens.End, "")];
    var ts := spelling + end;
    assert ts[0..|spelling|] == spelling;
    StatementComplete.ReadsBlock(ts, Entered(scope, next), body);
    NodeGrammar.BlockLogIs(ts, Entered(scope, next), body);
    NodeRoom.BlockRoom(before, ts, Entered(scope, next));
  }

  /** The whole compiler on the body of a function: any layout of any readable body for whose
      nodes there is room becomes blocks that return, trap, wait or diverge exactly as the
      meaning of the body does, for all arguments. */
  lemma TextPreserved(before: seq<Nodes.Call>, body: StatementGrammar.Body, items: seq<Printing.Item>, tail: string, scope: Scopes.Stack, next: int,
                      params: seq<Source.Parameter>, funs: map<Source.Dcl, nat>, args: seq<int>, ctx: Source.Context, b: Preservation.Behaviour)
    requires StatementGrammar.BodyReadable(body) && scope != [] && Older(params, next) && ExpSimulation.OracleOk(ctx)
    requires LaysOut(items, tail, body) && NodeRoom.Proper(before) && NodeRoom.Fits(before + NodeGrammar.BodyCalls(body))
    requires var f := FunctionOf(params, ctx.ret, Blk(StatementGrammar.BodyMeans(body, scope, next).smts), funs);
      f.Some? && Source.Check(f.value.body, Source.ParamEnv(params), ctx.sigs).Some? && Source.Accepts(f.value, args)
    ensures var f := FunctionOf(params, ctx.ret, Blk(StatementGrammar.BodyMeans(body, scope, next).smts), funs).value;
      var o := Lexing.LexAll(Printing.Layout(items, tail), false);
      && o.Tokens? && ParseBlock(o.ts, Entered(scope, next)).Did?
      && NodeRoom.Held(before + Nodes.BlockLog(o.ts, Entered(scope, next)))
      && FunctionOf(params, ctx.ret, ParseBlock(o.ts, Entered(scope, next)).smt, funs) == Some(f)
      && (Preservation.SourceDoes(f, args, ctx, b) <==>
          Preservation.TargetDoes(Preservation.Compiled(f, ctx.sigs, args, ctx.calls), b))
  {
    BodyFromText(before, body, items, tail, scope, next);
    ParsedPreserved(before, Lexing.LexAll(Printing.Layout(items, tail), false).ts, Entered(scope, next), params, funs, args, ctx, b);
  }

  /** Every lexed text is what soundness asks for. */
  lemma LexedClean(text: string, ts: seq<Tokens.Token>)
    requires Lexing.LexAll(text, false) == Lexing.Tokens(ts)
    ensures StatementSound.Clean(ts)
  {
    LexTheorems.LexCanonical(text, false);
    forall i | 0 <= i < |ts| ensures StatementSound.CleanAt(ts, i) {
      if i < |ts| - 1 {
        CanonicalClean(ts[i]);
      }
    }
  }

  lemma CanonicalClean(t: Tokens.Token)
    requires LexTheorems.Canonical(t)
    ensures !t.ty.End?
    ensures Tokens.IsKeyword(t.ty) ==> t == StatementGrammar.Key(t.ty)
    ensures Tokens.IsSymbol(t.ty) ==> t == Grammar.Mark(t.ty)
  {
  }

  /** The converse: a block that any text gives without an error is readable and has
      its meaning. Its spelling is the tokens consumed, exactly when none of them is a
      comma right before a closing bracket or brace. */
  lemma BodyFromAnyText(text: string, ts: seq<Tokens.Token>, scope: Scopes.Stack, next: int) returns (b: StatementGrammar.Body)
    requires Lexing.LexAll(text, false) == Lexing.Tokens(ts) && scope != []
    requires StatementSound.Quiet(Entered(scope, next), ParseBlock(ts, Entered(scope, next)))
    ensures var r := ParseBlock(ts, Entered(scope, next));
      var m := StatementGrammar.BodyMeans(b, scope, next);
      && r.st.pos <= |ts| && StatementGrammar.BodyReadable(b) && r == Did(Blk(m.smts), State(r.st.pos, [], scope, m.next))
      && (ts[..r.st.pos] == StatementGrammar.SpellBody(b) <==> forall k :: 0 <= k < r.st.pos ==> !PrattComplete.Trailing(ts, k))
  {
    LexedClean(text, ts);
    b := StatementSound.SoundBlock(ts, Entered(scope, next));
    var q := ParseBlock(ts, Entered(scope, next)).st.pos;
    PrattSound.KeptAll(ts, 0, q);
    assert ts[0..q] == ts[..q];
  }

  // ---------- every body has a text ----------

  /** The tokens of a readable body, written with a space between any two, lay it out.
      So the texts that `TextPreserved` speaks of are there for each body. */
  lemma BodyPrints(body: StatementGrammar.Body)
    requires forall i :: 0 <= i < |StatementGrammar.SpellBody(body)| ==> Printing.Printable(StatementGrammar.SpellBody(body)[i])
    ensures LaysOut(LexTheorems.Spaced(StatementGrammar.SpellBody(body), ""), "", body)
  {
    LexTheorems.SpacedSound(StatementGrammar.SpellBody(body), "");
  }
}
