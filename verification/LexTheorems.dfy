/** What holds of the lexer on whole sources, and of lexer and parser together. */
module LexTheorems {
  import opened Tokens
  import Pratt
  import Grammar
  import PrattComplete
  import PrattSound
  import opened Lexing
  import opened Printing

  /** The same tokens, and newlines in the same gaps. */
  ghost predicate SameLines(a: seq<Item>, b: seq<Item>) {
    |a| == |b| && forall i :: 0 <= i < |a| ==> SameItem(a[i], b[i])
  }

  predicate SameItem(a: Item, b: Item) {
    a.token == b.token && ('\n' in a.gap <==> '\n' in b.gap)
  }

  lemma {:induction false} SameExpected(a: seq<Item>, b: seq<Item>, semi: bool)
    requires SameLines(a, b)
    ensures Expected(a, semi) == Expected(b, semi) && LastFlag(a, semi) == LastFlag(b, semi)
  {
    if a != [] {
      assert SameItem(a[0], b[0]);
      forall i | 0 <= i < |a[1..]| ensures SameItem(a[1..][i], b[1..][i]) {
        assert SameItem(a[i + 1], b[i + 1]);
      }
      SameExpected(a[1..], b[1..], FlagAfter(a[0].token, semi && !Breaks(a[0].gap, semi)));
    }
  }

  /** Layout invariance: only which gaps hold a newline matters, not what else is in
      them or how long they are. */
  lemma LayoutInvariant(a: seq<Item>, b: seq<Item>, tail: string)
    requires Readable(a, tail) && Readable(b, tail) && SameLines(a, b)
    ensures LexAll(Layout(a, tail), false) == LexAll(Layout(b, tail), false)
  {
    LexOfLayout(a, tail, false);
    LexOfLayout(b, tail, false);
    SameExpected(a, b, false);
  }

  // ---------- what the lexer can produce ----------

  /** A printable token, an illegal character, or an illegal octal number. */
  ghost predicate Canonical(t: Token) {
    Printable(t) || t == Token(Illegal, "") || t == Token(Int, "")
  }

  lemma {:induction false} MantissaDigits(s: string, base: int)
    ensures AllDigits(s[..MantissaLength(s, base)], base)
  {
    var n := MantissaLength(s, base);
    if n > 0 {
      MantissaDigits(s[1..], base);
      assert s[..n] == [s[0]] + s[1..][..n - 1];
    }
  }

  lemma {:induction false} WordChars(s: string)
    ensures AllWord(s[..WordLength(s)])
  {
    var n := WordLength(s);
    if n > 0 {
      WordChars(s[1..]);
      assert s[..n] == [s[0]] + s[1..][..n - 1];
    }
  }

  lemma {:induction false} StringChars(s: string)
    requires StringLength(s) >= 0
    ensures NoQuote(s[..StringLength(s)])
  {
    var n := StringLength(s);
    if n > 0 {
      StringChars(s[1..]);
      assert s[..n] == [s[0]] + s[1..][..n - 1];
    }
  }

  lemma WordCanonical(s: string, semi: bool)
    requires s != "" && IsLetter(s[0])
    ensures Canonical(LexWord(s, semi).token)
  {
    WordChars(s[1..]);
    var n := 1 + WordLength(s[1..]);
    assert s[..n] == [s[0]] + s[1..][..n - 1];
    KeywordSpelled(s[..n]);
  }

  lemma KeywordSpelled(w: string)
    ensures KeywordOf(w).Ident? || (IsKeyword(KeywordOf(w)) && w == TokenName(KeywordOf(w)))
  {
  }

  lemma FractionCanonical(whole: string, s: string)
    requires s != "" && AllDigits(whole, 10)
    ensures Canonical(LexFraction(whole, s).0)
  {
    var n := MantissaLength(s[1..], 10);
    MantissaDigits(s[1..], 10);
    var v := whole + "." + s[1..1 + n];
    assert s[1..][..n] == s[1..1 + n];
    assert v[|whole|] == '.' && v[..|whole|] == whole && v[|whole| + 1..] == s[1..1 + n];
    assert IsFraction(v);
  }

  lemma NumberCanonical(s: string)
    requires s != "" && IsDigit(s[0])
    ensures Canonical(LexNumber(s).0)
  {
    if s[0] == '0' {
      if At(s, 1) == 'x' || At(s, 1) == 'X' {
        MantissaDigits(s[2..], 16);
        assert s[2..][..MantissaLength(s[2..], 16)] == s[2..2 + MantissaLength(s[2..], 16)];
      } else {
        ZeroCanonical(s[1..]);
      }
    } else {
      DecimalCanonical(s);
    }
  }

  lemma DecimalCanonical(s: string)
    requires s != "" && IsDigit(s[0]) && s[0] != '0'
    ensures Canonical(LexNumber(s).0)
  {
    var n := MantissaLength(s, 10);
    MantissaDigits(s, 10);
    assert n > 0;
    if At(s, n) == '.' {
      FractionCanonical(s[..n], s[n..]);
    }
  }

  lemma ZeroCanonical(s: string)
    ensures Canonical(LexZero(s).0)
  {
    var n := MantissaLength(s, 8);
    MantissaDigits(s, 8);
    if At(s, n) == '8' || At(s, n) == '9' {
      var k := n + MantissaLength(s[n..], 10);
      MantissaDigits(s[n..], 10);
      assert s[..k] == s[..n] + s[n..][..k - n];
      if At(s, k) == '.' {
        FractionCanonical(s[..k], s[k..]);
      }
    } else if At(s, n) == '.' {
      FractionCanonical(s[..n], s[n..]);
    }
  }

  lemma SymbolCanonical(a: char, b: char, c: char)
    ensures var t := Symbol(a, b, c).0; IsSymbol(t) || t.Illegal?
  {
    if a < ':' {
      LowCanonical(a, b, c);
    } else {
      HighCanonical(a, b, c);
    }
  }

  lemma LowCanonical(a: char, b: char, c: char)
    requires a < ':'
    ensures var t := Symbol(a, b, c).0; IsSymbol(t) || t.Illegal?
  {
  }

  lemma HighCanonical(a: char, b: char, c: char)
    requires a >= ':'
    ensures var t := Symbol(a, b, c).0; IsSymbol(t) || t.Illegal?
  {
  }

  lemma TokenCanonical(s: string, semi: bool)
    requires LexToken(s, semi).Next?
    ensures Canonical(LexToken(s, semi).token)
  {
    if IsLetter(s[0]) {
      WordCanonical(s, semi);
    } else if IsDigit(s[0]) {
      NumberCanonical(s);
    } else if s[0] == '"' {
      var n := StringLength(s[1..]);
      StringChars(s[1..]);
      assert s[1..][..n] == s[1..1 + n];
    } else {
      SymbolCanonical(s[0], At(s, 1), At(s, 2));
    }
  }

  /** Every source lexes to canonical tokens and one end token, which is last. */
  lemma {:induction false} LexCanonical(s: string, semi: bool)
    requires LexAll(s, semi).Tokens?
    ensures var ts := LexAll(s, semi).ts;
      && |ts| > 0 && ts[|ts| - 1] == Token(End, "")
      && forall i :: 0 <= i < |ts| - 1 ==> Canonical(ts[i])
    decreases |s|
  {
    if s != "" {
      var step := LexToken(SkipBlanks(s, semi), semi);
      TokenCanonical(SkipBlanks(s, semi), semi);
      LexCanonical(step.rest, step.semi);
    }
  }

  lemma MarkCanonical(t: Token)
    requires Canonical(t) && PrattSound.IsMark(t.ty)
    ensures t == Grammar.Mark(t.ty)
  {
  }

  /** What the parser assumes of punctuation holds of every lexed source. */
  lemma LexedSource(s: string)
    requires LexAll(s, false).Tokens?
    ensures PrattSound.Lexed(LexAll(s, false).ts)
  {
    LexCanonical(s, false);
    var ts := LexAll(s, false).ts;
    forall i | 0 <= i < |ts| && PrattSound.IsMark(ts[i].ty) ensures ts[i] == Grammar.Mark(ts[i].ty) {
      if i < |ts| - 1 { MarkCanonical(ts[i]); }
    }
  }

  // ---------- one space between tokens ----------

  /** Tokens with one space before each but the first. */
  function Spaced(ts: seq<Token>, gap: string): seq<Item> {
    if ts == [] then [] else [Item(gap, ts[0])] + Spaced(ts[1..], " ")
  }

  function Print(ts: seq<Token>): string { Layout(Spaced(ts, ""), "") }

  lemma SpaceEnds(t: Token)
    requires Printable(t)
    ensures Ends(t, ' ') && Ends(t, NUL)
  {
  }

  lemma {:induction false} SpacedSound(ts: seq<Token>, gap: string)
    requires gap == "" || gap == " "
    requires forall i :: 0 <= i < |ts| ==> Printable(ts[i])
    ensures Readable(Spaced(ts, gap), "")
    ensures gap == " " ==> At(Layout(Spaced(ts, gap), ""), 0) == if ts == [] then NUL else ' '
    ensures forall semi :: Expected(Spaced(ts, gap), semi) == ts
  {
    if ts != [] {
      var items := Spaced(ts, gap);
      SpacedSound(ts[1..], " ");
      assert items[0] == Item(gap, ts[0]) && items[1..] == Spaced(ts[1..], " ");
      SpaceEnds(ts[0]);
      forall semi ensures Expected(items, semi) == ts {
        assert !Breaks(gap, semi);
        assert [] + ([ts[0]] + ts[1..]) == ts;
      }
    }
  }

  /** Round trip: printed tokens lex back to themselves. */
  lemma LexOfPrint(ts: seq<Token>)
    requires forall i :: 0 <= i < |ts| ==> Printable(ts[i])
    ensures LexAll(Print(ts), false) == Tokens(ts + [Token(End, "")])
  {
    SpacedSound(ts, "");
    LexOfLayout(Spaced(ts, ""), "", false);
    assert [] + [Token(End, "")] == [Token(End, "")];
  }

  /** Neither an illegal character nor an illegal octal number. */
  predicate Legal(t: Token) { t != Token(Illegal, "") && t != Token(Int, "") }

  lemma CanonicalPrintable(t: Token)
    requires Canonical(t) && Legal(t)
    ensures Printable(t)
  {
  }

  /** Printing what was lexed and lexing again changes nothing. */
  lemma LexAgain(s: string, ts: seq<Token>)
    requires LexAll(s, false) == Tokens(ts) && forall i :: 0 <= i < |ts| ==> Legal(ts[i])
    ensures |ts| > 0 && LexAll(Print(ts[..|ts| - 1]), false) == Tokens(ts)
  {
    hide LexAll, Layout, Printable;
    LexCanonical(s, false);
    var body := ts[..|ts| - 1];
    forall i | 0 <= i < |body| ensures Printable(body[i]) {
      CanonicalPrintable(ts[i]);
    }
    LexOfPrint(body);
    assert ts == body + [Token(End, "")];
  }

  // ---------- lexer and parser ----------

  /** What the parser makes of lexed source. */
  function ParseSource(s: string): Pratt.Parsed {
    match LexAll(s, false)
    case Tokens(ts) => Pratt.ParseExp(ts, 0, 0, [])
    case LexFault => Pratt.Fault
    case LexEscape => Pratt.Fault
  }

  /** Source to tree: any layout of a tree that respects the binding powers, without a
      newline where a statement could end, lexes and parses to exactly that tree. */
  lemma ParseOfLayout(e: Pratt.Exp, items: seq<Item>)
    requires Grammar.Respects(e, 0) && Grammar.CanFollow(e, End)
    requires Readable(items, "") && Expected(items, false) == Grammar.Flatten(e)
    ensures ParseSource(Layout(items, "")) == Pratt.Done(e, |Grammar.Flatten(e)|, [])
  {
    hide LexAll, Layout, Pratt.ParseExp;
    LexedTree(e, items);
    TreeParsed(e);
  }

  lemma LexedTree(e: Pratt.Exp, items: seq<Item>)
    requires Readable(items, "") && Expected(items, false) == Grammar.Flatten(e)
    ensures LexAll(Layout(items, ""), false) == Tokens(Grammar.Flatten(e) + [Token(End, "")])
  {
    hide LexAll, Layout, Readable, Expected, LastFlag;
    LexOfLayout(items, "", false);
    var rest := [Token(End, "")];
    assert [] + rest == rest;
  }

  lemma TreeParsed(e: Pratt.Exp)
    requires Grammar.Respects(e, 0) && Grammar.CanFollow(e, End)
    ensures Pratt.ParseExp(Grammar.Flatten(e) + [Token(End, "")], 0, 0, []) == Pratt.Done(e, |Grammar.Flatten(e)|, [])
  {
    PrattComplete.Completeness(e, 0, [Token(End, "")], []);
  }

  /** parse(lex(print(e))) == e. */
  lemma ParseOfPrint(e: Pratt.Exp)
    requires Grammar.Respects(e, 0) && Grammar.CanFollow(e, End)
    requires forall t :: t in Grammar.Flatten(e) ==> Printable(t)
    ensures ParseSource(Print(Grammar.Flatten(e))) == Pratt.Done(e, |Grammar.Flatten(e)|, [])
  {
    SpacedSound(Grammar.Flatten(e), "");
    ParseOfLayout(e, Spaced(Grammar.Flatten(e), ""));
  }

  /** Whatever source the parser accepts without an error, its tree respects the
      binding powers and is spelled by the lexed tokens it consumed. */
  lemma SourceSound(s: string)
    requires ParseSource(s).Done? && ParseSource(s).errors == []
    ensures LexAll(s, false).Tokens?
    ensures var ts := LexAll(s, false).ts;
      var o := ParseSource(s);
      Grammar.Respects(o.node, 0) && o.pos < |ts| && PrattSound.Kept(ts, 0, o.pos) == Grammar.Flatten(o.node)
  {
    LexedSource(s);
    PrattSound.Soundness(LexAll(s, false).ts, 0, 0, []);
  }

  // ---------- words and numbers by their characters ----------

  /** The keywords by their length; all other words are names. */
  function WordType(v: string): TokenType {
    if |v| == 2 then if v == "if" then If else Ident
    else if |v| == 3 then if v == "for" then For else if v == "var" then Var else Ident
    else if |v| == 4 then
      if v == "case" then Case else if v == "else" then Else else if v == "func" then Func
      else if v == "proc" then Proc else if v == "type" then Type else Ident
    else if |v| == 5 then if v == "break" then Break else if v == "const" then Const else if v == "defer" then Defer else Ident
    else if |v| == 6 then
      if v == "import" then Import else if v == "return" then Return else if v == "select" then Select
      else if v == "struct" then Struct else if v == "switch" then Switch else Ident
    else if |v| == 7 then if v == "default" then Default else Ident
    else if |v| == 8 then if v == "continue" then Continue else Ident
    else if |v| == 11 then if v == "fallthrough" then Fallthrough else Ident
    else Ident
  }

  lemma WordTypes(v: string)
    ensures KeywordOf(v) == WordType(v)
  {
    hide KeywordOf, WordType;
    if |v| <= 3 { ShortWords(v); }
    else if |v| == 4 { FourLetters(v); }
    else if |v| == 5 { FiveLetters(v); }
    else if |v| == 6 { SixLetters(v); }
    else { LongWords(v); }
  }

  lemma ShortWords(v: string)
    requires |v| <= 3
    ensures KeywordOf(v) == WordType(v)
  {
  }

  lemma FourLetters(v: string)
    requires |v| == 4
    ensures KeywordOf(v) == WordType(v)
  {
  }

  lemma FiveLetters(v: string)
    requires |v| == 5
    ensures KeywordOf(v) == WordType(v)
  {
  }

  lemma SixLetters(v: string)
    requires |v| == 6
    ensures KeywordOf(v) == WordType(v)
  {
  }

  lemma LongWords(v: string)
    requires |v| > 6
    ensures KeywordOf(v) == WordType(v)
  {
  }

  /** A letter and all letters and digits behind it are one token: a keyword or a name. */
  lemma WordsAreRuns(v: string, rest: string, semi: bool)
    requires v != "" && ('a' <= v[0] <= 'z' || 'A' <= v[0] <= 'Z')
    requires forall i :: 0 <= i < |v| ==> 'a' <= v[i] <= 'z' || 'A' <= v[i] <= 'Z' || '0' <= v[i] <= '9'
    requires rest == "" || !('a' <= rest[0] <= 'z' || 'A' <= rest[0] <= 'Z' || '0' <= rest[0] <= '9')
    ensures var o := LexToken(v + rest, semi);
      && o.Next? && o.rest == rest
      && o.token == Token(WordType(v), v)
      && o.semi == (semi || WordType(v).Ident? || v == "break" || v == "continue" || v == "fallthrough" || v == "return")
  {
    hide KeywordOf, WordType, LexNumber, LexString, LexSymbol;
    WordTypes(v);
    WordFlags(v);
    assert (v + rest)[0] == v[0];
    WordRead(v, rest, semi);
  }

  lemma WordFlags(v: string)
    ensures WordType(v).Break? <==> v == "break"
    ensures WordType(v).Continue? <==> v == "continue"
    ensures WordType(v).Fallthrough? <==> v == "fallthrough"
    ensures WordType(v).Return? <==> v == "return"
  {
  }

  /** Digits of which the first is not 0, up to a character that is no digit and no point, are
      one number. */
  lemma NumbersAreRuns(v: string, rest: string, semi: bool)
    requires v != "" && v[0] != '0' && forall i :: 0 <= i < |v| ==> '0' <= v[i] <= '9'
    requires rest == "" || (rest[0] != '.' && !('0' <= rest[0] <= '9'))
    ensures LexToken(v + rest, semi) == Next(Token(Int, v), rest, true)
  {
    ReadsInt(Token(Int, v), rest, semi);
  }

  /** A zero and an `x`, small or capital, and digits up to another character are one number:
      the letters of a hexadecimal number are not read. */
  lemma HexesAre(x: char, v: string, rest: string, semi: bool)
    requires (x == 'x' || x == 'X') && forall i :: 0 <= i < |v| ==> '0' <= v[i] <= '9'
    requires rest == "" || !('0' <= rest[0] <= '9')
    ensures LexToken("0" + [x] + v + rest, semi) == Next(Token(Hex, v), rest, true)
  {
    var s := "0" + [x] + v + rest;
    assert s[2..] == v + rest;
    MantissaExact(v, 16, rest);
    Halves(v, rest);
    assert s[2..2 + |v|] == v && s[2 + |v|..] == rest;
  }

  /** A zero with octal digits behind it is one number, unless it goes on with an 8 or a 9: then
      the number has no value. */
  lemma ZerosAre(v: string, more: string, rest: string, semi: bool)
    requires forall i :: 0 <= i < |v| ==> '0' <= v[i] <= '7'
    requires (forall i :: 0 <= i < |more| ==> '0' <= more[i] <= '9') && (more != "" ==> more[0] >= '8')
    requires rest == "" || !('0' <= rest[0] <= '9' || rest[0] == '.')
    requires v == more == "" && rest != "" ==> rest[0] != 'x' && rest[0] != 'X'
    ensures LexToken("0" + v + more + rest, semi) == Next(if more == "" then Token(Octal, v) else Token(Int, ""), rest, true)
  {
    hide LexZero, KeywordOf, LexSymbol;
    var s, tail := "0" + v + more + rest, v + (more + rest);
    assert s[1..] == tail;
    ZeroRead(v, more, rest);
    assert At(s, 1) == At(tail, 0);
  }

  lemma ZeroRead(v: string, more: string, rest: string)
    requires forall i :: 0 <= i < |v| ==> '0' <= v[i] <= '7'
    requires (forall i :: 0 <= i < |more| ==> '0' <= more[i] <= '9') && (more != "" ==> more[0] >= '8')
    requires rest == "" || !('0' <= rest[0] <= '9' || rest[0] == '.')
    ensures LexZero(v + (more + rest)) == (if more == "" then Token(Octal, v) else Token(Int, ""), rest)
  {
    hide MantissaLength;
    var tail := more + rest;
    MantissaExact(v, 8, tail);
    MantissaExact(more, 10, rest);
    Halves(v, tail);
    Halves(more, rest);
    assert (v + tail)[|v| + |more|..] == rest && At(v + tail, |v| + |more|) == At(rest, 0);
    assert more != "" ==> At(tail, 0) == more[0];
  }

  /** Two points that no third follows are one token, and the same as one. */
  lemma PointsAre(rest: string, semi: bool)
    ensures LexToken(".." + rest, semi) ==
      if rest != "" && rest[0] == '.' then Next(Token(Ellipse, ""), rest[1..], semi) else Next(Token(Period, ""), rest, semi)
  {
    var s := ".." + rest;
    assert s[2..] == rest && At(s, 2) == At(rest, 0);
    if rest != "" {
      assert s[3..] == rest[1..];
    }
  }

  /** Symbols by their characters. */
  function SymbolType(v: string): TokenType {
    if |v| == 1 then Single(v[0])
    else if |v| == 2 && v[1] == '=' then Assigned(v[0])
    else if |v| == 2 then Paired(v[0], v[1])
    else if |v| == 3 && v[2] == '=' then
      if v[0] == v[1] == '<' then ShlAssign else if v[0] == v[1] == '>' then ShrAssign
      else if v[0] == '&' && v[1] == '^' then AndNotAssign else Illegal
    else if |v| == 3 && v[0] == v[1] == v[2] == '.' then Ellipse
    else Illegal
  }

  function Single(c: char): TokenType {
    match c
    case ';' => Semi
    case ':' => Colon
    case '.' => Period
    case ',' => Comma
    case '(' => LParen
    case ')' => RParen
    case '[' => LBrack
    case ']' => RBrack
    case '{' => LBrace
    case '}' => RBrace
    case '+' => Add
    case '-' => Sub
    case '*' => Mul
    case '/' => Quo
    case '%' => Rem
    case '^' => Xor
    case '<' => Lss
    case '>' => Gtr
    case '=' => Assign
    case '!' => Not
    case '&' => And
    case '|' => Or
    case _ => Illegal
  }

  /** With `=` behind it. */
  function Assigned(c: char): TokenType {
    match c
    case ':' => Define
    case '+' => AddAssign
    case '-' => SubAssign
    case '*' => MulAssign
    case '/' => QuoAssign
    case '%' => RemAssign
    case '^' => XorAssign
    case '&' => AndAssign
    case '|' => OrAssign
    case '<' => Leq
    case '>' => Geq
    case '=' => Eql
    case '!' => Neq
    case _ => Illegal
  }

  function Paired(c: char, d: char): TokenType {
    if c == '-' && d == '>' then Arrow
    else if c == '&' && d == '^' then AndNot
    else if c != d then Illegal
    else
      match c
      case ':' => DoubleColon
      case '+' => Inc
      case '-' => Dec
      case '<' => Shl
      case '>' => Shr
      case '&' => Land
      case '|' => Lor
      case _ => Illegal
  }

  /** A symbol is written by its spelling, and read back as longest match has it. */
  lemma SymbolsAre(t: TokenType, rest: string, semi: bool)
    requires IsSymbol(t) && Ends(Token(t, ""), At(rest, 0))
    ensures SymbolType(TokenName(t)) == t
    ensures var o := LexToken(TokenName(t) + rest, semi); o.Next? && o.token == Token(t, "") && o.rest == rest
  {
    hide SymbolType, TokenName, Ends;
    SymbolSpelled(t);
    SymbolText(t);
    ReadsToken(Token(t, ""), rest, semi);
  }

  lemma SymbolText(t: TokenType)
    requires IsSymbol(t)
    ensures Printable(Token(t, "")) && Text(Token(t, "")) == TokenName(t)
  {
    hide TokenName;
  }

  lemma SymbolSpelled(t: TokenType)
    requires IsSymbol(t)
    ensures SymbolType(TokenName(t)) == t
  {
    hide SymbolType, TokenName;
    if IsBracket(t) { BracketSpelled(t); }
    else if IsMark(t) { MarkSpelled(t); }
    else if IsArithmetic(t) { ArithmeticSpelled(t); }
    else if IsStep(t) { StepSpelled(t); }
    else { OtherSpelled(t); }
  }

  predicate IsBracket(t: TokenType) { t.LParen? || t.RParen? || t.LBrack? || t.RBrack? || t.LBrace? || t.RBrace? }

  predicate IsMark(t: TokenType) {
    t.Semi? || t.Colon? || t.DoubleColon? || t.Define? || t.Period? || t.Ellipse? || t.Comma? || t.Arrow?
  }

  predicate IsArithmetic(t: TokenType) { t.Add? || t.Sub? || t.Mul? || t.Quo? || t.Rem? }

  predicate IsStep(t: TokenType) {
    t.AddAssign? || t.SubAssign? || t.MulAssign? || t.QuoAssign? || t.RemAssign? || t.Inc? || t.Dec?
  }

  lemma BracketSpelled(t: TokenType)
    requires IsBracket(t)
    ensures SymbolType(TokenName(t)) == t
  {
  }

  lemma MarkSpelled(t: TokenType)
    requires IsMark(t)
    ensures SymbolType(TokenName(t)) == t
  {
  }

  lemma ArithmeticSpelled(t: TokenType)
    requires IsArithmetic(t)
    ensures SymbolType(TokenName(t)) == t
  {
  }

  lemma StepSpelled(t: TokenType)
    requires IsStep(t)
    ensures SymbolType(TokenName(t)) == t
  {
  }

  lemma OtherSpelled(t: TokenType)
    requires IsSymbol(t) && !IsBracket(t) && !IsMark(t) && !IsArithmetic(t) && !IsStep(t)
    ensures SymbolType(TokenName(t)) == t
  {
  }
}
