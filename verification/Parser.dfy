/** The expression parser itself: a cursor over the tokens and a queue of errors,
    moved by every parse routine. */
module Parser {
  import opened Tokens
  import opened Pratt
  import opened Grammar
  import opened PrattComplete
  import opened PrattSound
  import opened Nodes

  class ExpressionParser {
    const tokens: seq<Token>
    var pos: nat
    var errors: seq<Error>
    // the nodes taken from the pool
    var made: nat

    constructor (ts: seq<Token>)
      ensures tokens == ts && pos == 0 && errors == [] && made == 0
    {
      tokens, pos, errors, made := ts, 0, [], 0;
    }

    /** What a call did: `ok` is false where the C code would fault. */
    ghost predicate Did(ok: bool, e: Exp, r: Parsed)
      reads this
    {
      match r
      case Fault => !ok
      case Done(node, p, es) => ok && e == node && pos == p && errors == es
    }

    ghost predicate DidList(ok: bool, es: seq<Exp>, r: ParsedList)
      reads this
    {
      match r
      case ListFault => !ok
      case List(nodes, p, errs) => ok && es == nodes && pos == p && errors == errs
    }

    method Expect(ty: TokenType)
      requires pos < |tokens|
      modifies this
      ensures made == old(made)
      ensures (pos, errors) == Pratt.Expect(tokens, old(pos), ty, old(errors))
    {
      if tokens[pos].ty == ty {
        pos := pos + 1;
      } else {
        errors := errors + [Error(ExpectToken(ty), pos)];
      }
    }

    method ParseExpression(rbp: int) returns (e: Exp, ok: bool)
      modifies this
      ensures Did(ok, e, ParseExp(tokens, old(pos), rbp, old(errors)))
      ensures ok ==> made == old(made) + ExpNodes(tokens, old(pos), rbp, old(errors))
      decreases |tokens| - pos, 2
    {
      e, ok := Missing, false;
      if pos >= |tokens| {
        return;
      }
      ghost var pos0, errors0 := pos, errors;
      e, ok := Nud();
      if !ok || e.Missing? {
        return;
      }
      while pos < |tokens| && rbp < BindingPower(tokens[pos].ty)
        invariant ok && !e.Missing? && pos0 < pos <= |tokens|
        invariant ParseExp(tokens, pos0, rbp, errors0) == LedLoop(tokens, pos, rbp, e, errors)
        invariant made + LoopNodes(tokens, pos, rbp, e, errors) == old(made) + ExpNodes(tokens, pos0, rbp, errors0)
        decreases |tokens| - pos
      {
        e, ok := Led(e);
        if !ok || e.Missing? {
          return;
        }
      }
      ok := pos < |tokens|;
    }

    method Nud() returns (e: Exp, ok: bool)
      requires pos < |tokens|
      modifies this
      ensures Did(ok, e, Pratt.Nud(tokens, old(pos), old(errors)))
      ensures ok ==> made == old(made) + NudNodes(tokens, old(pos), old(errors))
      decreases |tokens| - pos, 1
    {
      var token := tokens[pos];
      pos := pos + 1;
      e, ok := Missing, true;
      match token.ty
      case Ident => e := IdentExp(token.value); Make();
      case Int => e := Literal(token); Make();
      case Float => e := Literal(token); Make();
      case Hex => e := Literal(token); Make();
      case Octal => e := Literal(token); Make();
      case String => e := Literal(token); Make();
      case Not =>
        e, ok := ParseExpression(UNARY_POWER);
        e := Unary(token, e);
        Make();
      case Sub =>
        e, ok := ParseExpression(UNARY_POWER);
        e := Unary(token, e);
        Make();
      case LBrace => e, ok := ParseKeyValueList();
      case LBrack => e, ok := ParseArray();
      case _ => errors := errors + [Error(ExpectPrefix, pos)];
    }

    /** A node for what has been read. */
    method Make()
      modifies this`made
      ensures made == old(made) + 1
    {
      made := made + 1;
    }

    method Led(left: Exp) returns (e: Exp, ok: bool)
      requires pos < |tokens|
      modifies this
      ensures Did(ok, e, Pratt.Led(tokens, old(pos), left, old(errors)))
      ensures ok ==> made == old(made) + LedNodes(tokens, old(pos), old(errors))
      decreases |tokens| - pos, 0
    {
      hide ParseExp, ExpNodes, Called, CalledNodes;
      var token := tokens[pos];
      var bp := BindingPower(token.ty);
      ghost var goal := Pratt.Led(tokens, pos, left, errors);
      pos := pos + 1;
      ok := true;
      if IsLeftOperator(token.ty) {
        assert goal == Infixed(tokens, old(pos), left, bp, old(errors));
        e, ok := ParseExpression(bp);
        e := Binary(left, token, e);
        Make();
      } else if IsRightOperator(token.ty) {
        assert goal == Infixed(tokens, old(pos), left, bp - 1, old(errors));
        e, ok := ParseExpression(bp - 1);
        e := Binary(left, token, e);
        Make();
      } else if token.ty.Period? {
        e, ok := ParseExpression(bp);
        e := Selector(left, e);
        Make();
      } else if token.ty.LBrack? {
        e, ok := ParseIndex(left);
      } else if token.ty.LBrace? || token.ty.LParen? {
        e, ok := ParseCall(left);
        assert goal == Called(tokens, old(pos), left, old(errors));
      } else {
        errors := errors + [Error(ExpectInfix, pos)];
        e := Missing;
      }
    }

    /** The index and the closing bracket. */
    method ParseIndex(left: Exp) returns (e: Exp, ok: bool)
      requires 0 < pos <= |tokens| && tokens[pos - 1].ty.LBrack?
      modifies this
      ensures Did(ok, e, Pratt.Led(tokens, old(pos) - 1, left, old(errors)))
      ensures ok ==> made == old(made) + ExpNodes(tokens, old(pos), 0, old(errors)) + 1
      decreases |tokens| - pos, 4
    {
      hide ParseExp, ExpNodes;
      e, ok := ParseExpression(0);
      if !ok || pos >= |tokens| {
        ok := false;
        return;
      }
      Expect(RBrack);
      e := Index(left, e);
      Make();
    }

    /** The arguments of a call, after its opening token. */
    method ParseCall(left: Exp) returns (e: Exp, ok: bool)
      requires 0 < pos <= |tokens|
      modifies this
      ensures Did(ok, e, Called(tokens, old(pos) - 1, left, old(errors)))
      ensures ok ==> made == old(made) + CalledNodes(tokens, old(pos) - 1, old(errors))
      decreases |tokens| - pos, 4
    {
      hide ParseExp, ExpNodes;
      e, ok := Missing, false;
      if pos >= |tokens| {
        return;
      }
      var args: seq<Exp> := [];
      if tokens[pos].ty.RParen? {
        pos := pos + 1;
        Make();
        return Call(left, []), true;
      }
      ghost var pos0, errors0 := pos, errors;
      while true
        invariant pos0 <= pos <= |tokens|
        invariant ParseArgs(tokens, pos0, errors0) == Before(args, ParseArgs(tokens, pos, errors))
        invariant made + ArgsNodes(tokens, pos, errors) == old(made) + ArgsNodes(tokens, pos0, errors0)
        decreases |tokens| - pos
      {
        ghost var rest := ParseArgs(tokens, pos, errors);
        var arg, fine := ParseExpression(0);
        if !fine || arg.Missing? || pos >= |tokens| {
          return;
        }
        if tokens[pos].ty.RParen? {
          args := args + [arg];
          break;
        }
        Expect(Comma);
        Regroup(args, arg, ParseArgs(tokens, pos, errors));
        args := args + [arg];
      }
      Expect(RParen);
      Make();
      return Call(left, args), true;
    }

    method ParseArray() returns (e: Exp, ok: bool)
      requires pos <= |tokens|
      modifies this
      ensures var values := ParseValues(tokens, old(pos), old(errors));
        if values.ListFault? then !ok
        else ok && e == Array(values.nodes) && (pos, errors) == Pratt.Expect(tokens, values.pos, RBrack, values.errors)
      ensures ok ==> made == old(made) + ValuesNodes(tokens, old(pos), old(errors)) + 1
      decreases |tokens| - pos, 3
    {
      hide ParseExp, ExpNodes;
      e, ok := Missing, false;
      var values: seq<Exp> := [];
      ghost var pos0, errors0 := pos, errors;
      assert Before([], ParseValues(tokens, pos, errors)) == ParseValues(tokens, pos, errors);
      while pos < |tokens| && !tokens[pos].ty.RBrack?
        invariant pos0 <= pos <= |tokens|
        invariant ParseValues(tokens, pos0, errors0) == Before(values, ParseValues(tokens, pos, errors))
        invariant made + ValuesNodes(tokens, pos, errors) == old(made) + ValuesNodes(tokens, pos0, errors0)
        decreases |tokens| - pos
      {
        var value, fine := ParseExpression(0);
        if !fine || value.Missing? || pos >= |tokens| {
          return;
        }
        if !tokens[pos].ty.RBrack? {
          Expect(Comma);
        }
        Regroup(values, value, ParseValues(tokens, pos, errors));
        values := values + [value];
      }
      if pos >= |tokens| {
        return;
      }
      Expect(RBrack);
      assert values + [] == values;
      Make();
      return Array(values), true;
    }

    method ParseKeyValueList() returns (e: Exp, ok: bool)
      requires pos <= |tokens|
      modifies this
      ensures var items := ParseItems(tokens, old(pos), old(errors));
        if items.ListFault? then !ok
        else ok && e == KeyValueList(items.nodes) && pos == items.pos && errors == items.errors
      ensures ok ==> made == old(made) + ItemsNodes(tokens, old(pos), old(errors)) + 1
      decreases |tokens| - pos, 4
    {
      hide ParseItem, ItemNodes;
      e, ok := Missing, false;
      var items: seq<Exp> := [];
      ghost var pos0, errors0 := pos, errors;
      assert Before([], ParseItems(tokens, pos, errors)) == ParseItems(tokens, pos, errors);
      while pos < |tokens| && !tokens[pos].ty.RBrace?
        invariant pos0 <= pos <= |tokens|
        invariant ParseItems(tokens, pos0, errors0) == Before(items, ParseItems(tokens, pos, errors))
        invariant made + ItemsNodes(tokens, pos, errors) == old(made) + ItemsNodes(tokens, pos0, errors0)
        decreases |tokens| - pos
      {
        var item, fine := ParseKeyValue();
        if !fine || pos >= |tokens| {
          return;
        }
        if !tokens[pos].ty.RBrace? {
          Expect(Comma);
        }
        Regroup(items, item, ParseItems(tokens, pos, errors));
        items := items + [item];
      }
      if pos >= |tokens| {
        return;
      }
      assert items + [] == items;
      Make();
      return KeyValueList(items), true;
    }

    method ParseKeyValue() returns (e: Exp, ok: bool)
      requires pos < |tokens|
      modifies this
      ensures Did(ok, e, ParseItem(tokens, old(pos), old(errors)))
      ensures ok ==> made == old(made) + ItemNodes(tokens, old(pos), old(errors))
      decreases |tokens| - pos, 3
    {
      var first, fine := ParseExpression(0);
      if !fine || pos >= |tokens| {
        return Missing, false;
      }
      if tokens[pos].ty.Colon? {
        pos := pos + 1;
        e, ok := ParseExpression(0);
        e := KeyValue(first, e);
      } else {
        e, ok := KeyValue(Missing, first), true;
      }
      Make();
    }

    /** Reading one expression from the start: without an error the tree respects the
        binding powers and is spelled by the tokens read, and every tree that does is
        found. */
    method ReadExpression(rbp: int) returns (e: Exp, ok: bool)
      requires rbp >= 0 && pos == 0 && errors == [] && Lexed(tokens)
      modifies this
      ensures ok && errors == [] ==> Accepted(tokens, e, pos, rbp)
      ensures forall t :: Offered(tokens, t, rbp) ==> ok && e == t && pos == |Flatten(t)| && errors == []
    {
      e, ok := ParseExpression(rbp);
      if ok && errors == [] {
        Soundness(tokens, 0, rbp, []);
      }
      forall t | Offered(tokens, t, rbp) ensures ok && e == t && pos == |Flatten(t)| && errors == [] {
        var rest := tokens[|Flatten(t)|..];
        assert tokens == Flatten(t) + rest;
        Completeness(t, rbp, rest, []);
      }
    }
  }

  /** The tree an error-free parse must deliver: respecting `rbp`, spelled by the
      tokens up to `p`, and not to be continued by the next one. */
  ghost predicate Accepted(ts: seq<Token>, e: Exp, p: nat, rbp: int) {
    && p < |ts| && Respects(e, rbp) && Kept(ts, 0, p) == Flatten(e)
    && BindingPower(ts[p].ty) <= rbp && CanFollow(e, ts[p].ty)
  }

  /** The tokens start with the spelling of `t`, a tree that respects `rbp` and that
      the token after it does not continue. */
  ghost predicate Offered(ts: seq<Token>, t: Exp, rbp: int) {
    var n := |Flatten(t)|;
    && Respects(t, rbp) && n < |ts| && ts[..n] == Flatten(t)
    && BindingPower(ts[n].ty) <= rbp && CanFollow(t, ts[n].ty)
  }

  /** A parsed list with nodes already read put in front. */
  function Before(done: seq<Exp>, r: ParsedList): ParsedList {
    if r.ListFault? then r else List(done + r.nodes, r.pos, r.errors)
  }

  lemma Regroup(done: seq<Exp>, e: Exp, r: ParsedList)
    ensures Before(done, Before([e], r)) == Before(done + [e], r)
  {
    if r.List? {
      assert done + ([e] + r.nodes) == (done + [e]) + r.nodes;
    }
  }
}
