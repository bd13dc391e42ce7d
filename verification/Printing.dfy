/** Tokens written out as source text, with any white space between them, and what
    the lexer reads back. */
module Printing {
  import opened Tokens
  import opened Lexing

  // ---------- how a token is written ----------

  // The characters of words and numbers, as the language has them.

  predicate Letter(c: char) { 'a' <= c <= 'z' || 'A' <= c <= 'Z' }
  predicate Digit(c: char) { '0' <= c <= '9' }
  predicate WordChar(c: char) { 'a' <= c <= 'z' || 'A' <= c <= 'Z' || '0' <= c <= '9' }

  predicate AllDigits(s: string, base: int) {
    forall i :: 0 <= i < |s| ==> Digit(s[i]) && s[i] as int < '0' as int + base
  }

  predicate AllWord(s: string) {
    forall i :: 0 <= i < |s| ==> WordChar(s[i])
  }

  /** A number with one point. */
  ghost predicate IsFraction(s: string) {
    exists i :: 0 <= i < |s| && s[i] == '.' && AllDigits(s[..i], 10) && AllDigits(s[i + 1..], 10)
  }

  predicate NoQuote(s: string) {
    forall i :: 0 <= i < |s| ==> s[i] != '"' && s[i] != '\\'
  }

  /** Tokens that have a spelling: every kind the lexer makes except illegal ones. */
  ghost predicate Printable(t: Token) {
    if t.ty.Ident? then t.value != "" && Letter(t.value[0]) && AllWord(t.value) && KeywordOf(t.value).Ident?
    else if t.ty.Int? then t.value != "" && t.value[0] != '0' && AllDigits(t.value, 10)
    else if t.ty.Hex? then AllDigits(t.value, 16)
    else if t.ty.Octal? then AllDigits(t.value, 8)
    else if t.ty.Float? then IsFraction(t.value)
    else if t.ty.String? then NoQuote(t.value)
    else if IsKeyword(t.ty) then t.value == TokenName(t.ty)
    else IsSymbol(t.ty) && t.value == ""
  }

  function Text(t: Token): string {
    if t.ty.Ident? || t.ty.Int? || IsKeyword(t.ty) then t.value
    else if t.ty.Hex? then "0x" + t.value
    else if t.ty.Octal? || t.ty.Float? then "0" + t.value
    else if t.ty.String? then "\"" + t.value + "\""
    else TokenName(t.ty)
  }

  /** Does the token end when `c` comes next? At the end of the text `c` is NUL. */
  predicate Ends(t: Token, c: char) {
    match t.ty
    case Ident => !WordChar(c)
    case Int => !Digit(c) && c != '.'
    case Hex => !Digit(c)
    case Octal => !Digit(c) && c != '.' && (t.value == "" ==> c != 'x' && c != 'X')
    case Float => !Digit(c)
    case String => true
    case Colon => c != '=' && c != ':'
    case Period => c != '.'
    case Add => c != '=' && c != '+'
    case Sub => c != '=' && c != '-' && c != '>'
    case Mul => c != '='
    case Quo => c != '='
    case Rem => c != '='
    case Xor => c != '='
    case Lss => c != '=' && c != '<'
    case Shl => c != '='
    case Gtr => c != '=' && c != '>'
    case Shr => c != '='
    case Assign => c != '='
    case Not => c != '='
    case And => c != '=' && c != '&' && c != '^'
    case AndNot => c != '='
    case Or => c != '=' && c != '|'
    case _ => IsKeyword(t.ty) ==> !WordChar(c)
  }

  /** The newline flag after a token. */
  function FlagAfter(t: Token, semi: bool): bool {
    match t.ty
    case LBrace => false
    case Ident => true
    case Break => true
    case Continue => true
    case Fallthrough => true
    case Return => true
    case RParen => true
    case RBrack => true
    case RBrace => true
    case Inc => true
    case Dec => true
    case _ => semi || IsLiteral(t.ty)
  }

  // ---------- the lexer reads one token back ----------

  lemma {:induction false} WordExact(v: string, rest: string)
    requires AllWord(v) && !IsWordChar(At(rest, 0))
    ensures WordLength(v + rest) == |v|
  {
    if v == "" {
      assert v + rest == rest;
    } else {
      assert (v + rest)[1..] == v[1..] + rest;
      WordExact(v[1..], rest);
    }
  }

  lemma {:induction false} MantissaExact(v: string, base: int, rest: string)
    requires AllDigits(v, base) && !(IsDigit(At(rest, 0)) && DigitValue(At(rest, 0)) < base)
    ensures MantissaLength(v + rest, base) == |v|
  {
    if v == "" {
      assert v + rest == rest;
    } else {
      assert (v + rest)[1..] == v[1..] + rest;
      MantissaExact(v[1..], base, rest);
    }
  }

  lemma {:induction false} StringExact(v: string, rest: string)
    requires NoQuote(v)
    ensures StringLength(v + "\"" + rest) == |v|
  {
    if v == "" {
      assert v + "\"" + rest == "\"" + rest;
    } else {
      assert (v + "\"" + rest)[1..] == v[1..] + "\"" + rest;
      StringExact(v[1..], rest);
    }
  }

  lemma Halves(a: string, b: string)
    ensures (a + b)[..|a|] == a && (a + b)[|a|..] == b
    ensures At(a + b, |a|) == At(b, 0)
  {
  }

  lemma ReadsWord(t: Token, rest: string, semi: bool)
    requires Printable(t) && (t.ty.Ident? || IsKeyword(t.ty)) && !IsWordChar(At(rest, 0))
    ensures LexToken(Text(t) + rest, semi) == Next(t, rest, FlagAfter(t, semi))
  {
    hide KeywordOf, TokenName, LexWord, LexNumber, LexString, LexSymbol, FlagAfter;
    KeywordText(t);
    WordSpelled(t);
    assert (t.value + rest)[0] == t.value[0];
    WordRead(t.value, rest, semi);
    WordFlag(t, semi);
  }

  lemma WordSpelled(t: Token)
    requires Printable(t) && (t.ty.Ident? || IsKeyword(t.ty))
    ensures Text(t) == t.value
  {
  }

  lemma WordRead(v: string, rest: string, semi: bool)
    requires v != "" && AllWord(v) && !IsWordChar(At(rest, 0))
    ensures var t := KeywordOf(v);
      LexWord(v + rest, semi) == Next(Token(t, v), rest, semi || t.Ident? || t.Break? || t.Continue? || t.Fallthrough? || t.Return?)
  {
    hide KeywordOf;
    var s := v + rest;
    Halves(v, rest);
    assert s[1..] == v[1..] + rest;
    WordExact(v[1..], rest);
  }

  lemma WordFlag(t: Token, semi: bool)
    requires t.ty.Ident? || IsKeyword(t.ty)
    ensures FlagAfter(t, semi) == (semi || t.ty.Ident? || t.ty.Break? || t.ty.Continue? || t.ty.Fallthrough? || t.ty.Return?)
  {
  }

  lemma KeywordText(t: Token)
    requires Printable(t) && (t.ty.Ident? || IsKeyword(t.ty))
    ensures t.value != "" && IsLetter(t.value[0]) && AllWord(t.value) && KeywordOf(t.value) == t.ty
  {
    if !t.ty.Ident? {
      KeywordWord(t.ty);
      KeywordFound(t.ty);
    }
  }

  predicate IsWord(n: string) { n != "" && IsLetter(n[0]) && AllWord(n) }

  lemma KeywordWord(t: TokenType)
    requires IsKeyword(t)
    ensures IsWord(TokenName(t))
  {
  }

  lemma KeywordFound(t: TokenType)
    requires IsKeyword(t)
    ensures KeywordOf(TokenName(t)) == t
  {
    if t.Break? || t.Case? || t.Const? || t.Continue? || t.Default? || t.Defer? {
      EarlyKeyword(t);
    } else if t.Else? || t.Fallthrough? || t.For? || t.Func? || t.Proc? || t.If? {
      MiddleKeyword(t);
    } else if t.Import? || t.Return? || t.Select? {
      LaterKeyword(t);
    } else {
      LastKeyword(t);
    }
  }

  lemma EarlyKeyword(t: TokenType)
    requires t.Break? || t.Case? || t.Const? || t.Continue? || t.Default? || t.Defer?
    ensures KeywordOf(TokenName(t)) == t
  {
  }

  lemma MiddleKeyword(t: TokenType)
    requires t.Else? || t.Fallthrough? || t.For? || t.Func? || t.Proc? || t.If?
    ensures KeywordOf(TokenName(t)) == t
  {
    var w := TokenName(t);
    assert |w| > 1 && (w[0] == 'e' || w[0] == 'f' || w[0] == 'p' || w[0] == 'i');
    if w[0] == 'f' {
      assert w[1] == 'a' || w[1] == 'o' || w[1] == 'u';
    }
  }

  lemma LaterKeyword(t: TokenType)
    requires t.Import? || t.Return? || t.Select?
    ensures KeywordOf(TokenName(t)) == t
  {
    var w := TokenName(t);
    assert |w| == 6 && (w[0] == 'i' || w[0] == 'r' || w[0] == 's');
  }

  lemma LastKeyword(t: TokenType)
    requires t.Struct? || t.Switch? || t.Type? || t.Var?
    ensures KeywordOf(TokenName(t)) == t
  {
    var w := TokenName(t);
    if t.Struct? {
      assert |w| == 6 && w[0] == 's' && w[1] == 't';
    } else if t.Switch? {
      assert |w| == 6 && w[0] == 's' && w[1] == 'w';
    } else if t.Type? {
      assert |w| == 4 && w[0] == 't';
    } else {
      assert |w| == 3 && w[0] == 'v';
    }
  }

  lemma ReadsInt(t: Token, rest: string, semi: bool)
    requires Printable(t) && t.ty.Int? && Ends(t, At(rest, 0))
    ensures LexToken(Text(t) + rest, semi) == Next(t, rest, true)
  {
    MantissaExact(t.value, 10, rest);
    Halves(t.value, rest);
  }

  lemma ReadsHex(t: Token, rest: string, semi: bool)
    requires Printable(t) && t.ty.Hex? && Ends(t, At(rest, 0))
    ensures LexToken(Text(t) + rest, semi) == Next(t, rest, true)
  {
    var s := "0x" + t.value + rest;
    assert s[2..] == t.value + rest;
    MantissaExact(t.value, 16, rest);
    Halves(t.value, rest);
    assert s[2..2 + |t.value|] == t.value && s[2 + |t.value|..] == rest;
  }

  lemma ReadsOctal(t: Token, rest: string, semi: bool)
    requires Printable(t) && t.ty.Octal? && Ends(t, At(rest, 0))
    ensures LexToken(Text(t) + rest, semi) == Next(t, rest, true)
  {
    hide TokenName, MantissaLength;
    var s := "0" + t.value + rest;
    assert s[1..] == t.value + rest;
    MantissaExact(t.value, 8, rest);
    Halves(t.value, rest);
    assert s[1..1 + |t.value|] == t.value && s[1 + |t.value|..] == rest;
    assert At(s, 1 + |t.value|) == At(rest, 0);
    assert At(s, 1) != 'x' && At(s, 1) != 'X' by {
      if t.value != "" { assert s[1] == t.value[0] && IsDigit(t.value[0]); } else { assert At(s, 1) == At(rest, 0); }
    }
  }

  /** Reading decimal digits as octal stops at the first 8 or 9, if there is one. */
  lemma {:induction false} OctalPrefix(v: string, rest: string)
    requires AllDigits(v, 10) && !IsDigit(At(rest, 0))
    ensures var n := MantissaLength(v + rest, 8);
      && n <= |v| && (n < |v| ==> v[n] == '8' || v[n] == '9')
  {
    if v == "" {
      assert v + rest == rest;
    } else {
      assert (v + rest)[1..] == v[1..] + rest;
      OctalPrefix(v[1..], rest);
    }
  }

  lemma SplitFraction(v: string) returns (a: string, b: string)
    requires IsFraction(v)
    ensures v == a + "." + b && AllDigits(a, 10) && AllDigits(b, 10)
  {
    var i :| 0 <= i < |v| && v[i] == '.' && AllDigits(v[..i], 10) && AllDigits(v[i + 1..], 10);
    a, b := v[..i], v[i + 1..];
  }

  lemma ReadsFloat(t: Token, rest: string, semi: bool)
    requires Printable(t) && t.ty.Float? && Ends(t, At(rest, 0))
    ensures LexToken(Text(t) + rest, semi) == Next(t, rest, true)
  {
    hide IsFraction;
    var a, b := SplitFraction(t.value);
    var s := Text(t) + rest;
    assert s[1..] == a + ("." + b + rest) by {
      assert t.value + rest == a + ("." + b + rest);
      assert s[1..] == t.value + rest;
    }
    FloatRead(a, b, rest, s);
  }

  lemma FloatRead(a: string, b: string, rest: string, s: string)
    requires AllDigits(a, 10) && AllDigits(b, 10) && !IsDigit(At(rest, 0))
    requires s != "" && s[0] == '0' && s[1..] == a + ("." + b + rest)
    ensures LexNumber(s) == (Token(Float, a + "." + b), rest)
  {
    FractionRead(a, b, rest);
    WholeRead(a, "." + b + rest, s);
    NotHex(a, "." + b + rest, s);
  }

  lemma NotHex(a: string, tail: string, s: string)
    requires AllDigits(a, 10) && tail != "" && tail[0] == '.' && s != "" && s[1..] == a + tail
    ensures At(s, 1) != 'x' && At(s, 1) != 'X'
  {
    assert s[1] == (a + tail)[0];
    if a != "" { assert s[1] == a[0] && IsDigit(a[0]); }
  }

  lemma FractionRead(a: string, b: string, rest: string)
    requires AllDigits(b, 10) && !IsDigit(At(rest, 0))
    ensures LexFraction(a, "." + b + rest) == (Token(Float, a + "." + b), rest)
  {
    var s := "." + b + rest;
    assert s[1..] == b + rest;
    MantissaExact(b, 10, rest);
    assert s[1..1 + |b|] == b && s[1 + |b|..] == rest;
  }

  /** The whole part of a number after its leading zero, whether or not it could be octal. */
  lemma WholeRead(a: string, tail: string, s: string)
    requires AllDigits(a, 10) && tail != "" && tail[0] == '.'
    requires |s| > 0 && s[1..] == a + tail
    ensures var n := MantissaLength(s[1..], 8);
      if At(s, 1 + n) == '8' || At(s, 1 + n) == '9'
      then var k := n + MantissaLength(s[1 + n..], 10); k == |a| && s[1..1 + k] == a && s[1 + k..] == tail && At(s, 1 + k) == '.'
      else n == |a| && s[1..1 + n] == a && s[1 + n..] == tail && At(s, 1 + n) == '.'
  {
    OctalPrefix(a, tail);
    var n := MantissaLength(s[1..], 8);
    Halves(a, tail);
    assert s[1..1 + |a|] == a && s[1 + |a|..] == tail;
    if n < |a| {
      var u := s[1..];
      assert u[n] == a[n] && u[n] == s[1 + n];
      assert s[1 + n..] == u[n..] && u[n..] == a[n..] + tail;
      MantissaExact(a[n..], 10, tail);
    }
  }

  lemma ReadsString(t: Token, rest: string, semi: bool)
    requires Printable(t) && t.ty.String?
    ensures LexToken(Text(t) + rest, semi) == Next(t, rest, true)
  {
    var s := "\"" + t.value + "\"" + rest;
    assert Text(t) + rest == s;
    assert s[1..] == t.value + "\"" + rest;
    StringExact(t.value, rest);
    assert s[1..1 + |t.value|] == t.value && s[2 + |t.value|..] == rest;
  }

  /** A symbol's name and the character after it decide the symbol. */
  lemma SymbolNamed(t: TokenType, c: char, d: char)
    requires IsSymbol(t) && Ends(Token(t, ""), c)
    ensures var n := TokenName(t);
      && 1 <= |n| <= 3
      && Symbol(n[0], if |n| > 1 then n[1] else c, if |n| > 2 then n[2] else if |n| > 1 then c else d) == (t, |n|)
      && !IsLetter(n[0]) && !IsDigit(n[0]) && n[0] != '"' && n[0] != '\n'
      && SymbolSemi(n[0], t, false) == FlagAfter(Token(t, ""), false)
      && SymbolSemi(n[0], t, true) == FlagAfter(Token(t, ""), true)
  {
    SymbolRead(t, c, d);
    SymbolStarts(t);
  }

  /** Longest match gives the symbol whose name it is. */
  lemma SymbolRead(t: TokenType, c: char, d: char)
    requires IsSymbol(t) && Ends(Token(t, ""), c)
    ensures var n := TokenName(t);
      && 1 <= |n| <= 3
      && Symbol(n[0], if |n| > 1 then n[1] else c, if |n| > 2 then n[2] else if |n| > 1 then c else d) == (t, |n|)
  {
  }

  lemma SymbolStarts(t: TokenType)
    requires IsSymbol(t)
    ensures var n := TokenName(t);
      && n != "" && !IsLetter(n[0]) && !IsDigit(n[0]) && n[0] != '"' && n[0] != '\n'
      && SymbolSemi(n[0], t, false) == FlagAfter(Token(t, ""), false)
      && SymbolSemi(n[0], t, true) == FlagAfter(Token(t, ""), true)
  {
    SymbolFirst(t);
    SymbolFlag(t, TokenName(t)[0]);
  }

  lemma SymbolFirst(t: TokenType)
    requires IsSymbol(t)
    ensures PlainName(TokenName(t))
  {
    hide TokenName, PlainName;
    if Bracketing(t) {
      BracketFirst(t);
    } else if Comparing(t) {
      ComparisonFirst(t);
    } else {
      OperatorFirst(t);
    }
  }

  /** Begins with no letter, digit, quote or newline. */
  predicate PlainName(n: string) {
    n != "" && !IsLetter(n[0]) && !IsDigit(n[0]) && n[0] != '"' && n[0] != '\n'
  }

  predicate Bracketing(t: TokenType) {
    || t.Define? || t.Semi? || t.Colon? || t.DoubleColon? || t.Ellipse? || t.Period? || t.Comma? || t.LParen?
    || t.RParen? || t.LBrack? || t.RBrack? || t.LBrace? || t.RBrace?
  }

  predicate Comparing(t: TokenType) {
    || t.Gtr? || t.Geq? || t.Lss? || t.Leq? || t.Shl? || t.ShlAssign? || t.Shr? || t.ShrAssign?
    || t.Assign? || t.Eql? || t.Not? || t.Neq?
  }

  lemma BracketFirst(t: TokenType)
    requires Bracketing(t)
    ensures PlainName(TokenName(t))
  {
    var n := TokenName(t);
    if t.Define? || t.Colon? || t.DoubleColon? {
      assert n != "" && n[0] == ':';
    } else if t.Ellipse? || t.Period? {
      assert n != "" && n[0] == '.';
    } else {
      assert |n| == 1;
    }
  }

  lemma ComparisonFirst(t: TokenType)
    requires Comparing(t)
    ensures PlainName(TokenName(t))
  {
    hide TokenName, PlainName;
    if t.Gtr? || t.Geq? || t.Shr? || t.ShrAssign? {
      GreaterFirst(t);
    } else if t.Lss? || t.Leq? || t.Shl? || t.ShlAssign? {
      LessFirst(t);
    } else {
      EqualFirst(t);
    }
  }

  lemma GreaterFirst(t: TokenType)
    requires t.Gtr? || t.Geq? || t.Shr? || t.ShrAssign?
    ensures PlainName(TokenName(t))
  {
  }

  lemma LessFirst(t: TokenType)
    requires t.Lss? || t.Leq? || t.Shl? || t.ShlAssign?
    ensures PlainName(TokenName(t))
  {
  }

  lemma EqualFirst(t: TokenType)
    requires t.Assign? || t.Eql? || t.Not? || t.Neq?
    ensures PlainName(TokenName(t))
  {
  }

  lemma OperatorFirst(t: TokenType)
    requires IsSymbol(t) && !Bracketing(t) && !Comparing(t)
    ensures PlainName(TokenName(t))
  {
  }

  lemma SymbolFlag(t: TokenType, c: char)
    requires IsSymbol(t) && c != '\n'
    ensures SymbolSemi(c, t, false) == FlagAfter(Token(t, ""), false)
    ensures SymbolSemi(c, t, true) == FlagAfter(Token(t, ""), true)
  {
  }

  lemma ReadsSymbol(t: Token, rest: string, semi: bool)
    requires Printable(t) && IsSymbol(t.ty) && Ends(t, At(rest, 0))
    ensures LexToken(Text(t) + rest, semi) == Next(t, rest, FlagAfter(t, semi))
  {
    var n := TokenName(t.ty);
    var s := n + rest;
    SymbolNamed(t.ty, At(rest, 0), At(rest, 1));
    Halves(n, rest);
    assert At(s, |n| + 1) == At(rest, 1);
    assert s[0] == n[0] && (|n| > 1 ==> At(s, 1) == n[1]) && (|n| > 2 ==> At(s, 2) == n[2]);
  }

  /** One printed token is read back, whatever comes after it that does not continue it. */
  lemma ReadsToken(t: Token, rest: string, semi: bool)
    requires Printable(t) && Ends(t, At(rest, 0))
    ensures LexToken(Text(t) + rest, semi) == Next(t, rest, FlagAfter(t, semi))
  {
    if t.ty.Ident? || IsKeyword(t.ty) {
      ReadsWord(t, rest, semi);
    } else if t.ty.Int? {
      ReadsInt(t, rest, semi);
    } else if t.ty.Hex? {
      ReadsHex(t, rest, semi);
    } else if t.ty.Octal? {
      ReadsOctal(t, rest, semi);
    } else if t.ty.Float? {
      ReadsFloat(t, rest, semi);
    } else if t.ty.String? {
      ReadsString(t, rest, semi);
    } else {
      ReadsSymbol(t, rest, semi);
    }
  }

  /** A printed token starts with something that is not white space. */
  lemma TextStarts(t: Token)
    requires Printable(t)
    ensures Text(t) != "" && !IsSpace(Text(t)[0])
  {
    if IsSymbol(t.ty) {
      SymbolNamed(t.ty, 'a', NUL);
    } else if t.ty.Ident? || IsKeyword(t.ty) {
      KeywordText(t);
    }
  }

  // ---------- layouts ----------

  predicate IsSpace(c: char) {
    c == ' ' || c == '\t' || c == '\n' || c == '\r'
  }

  predicate AllSpace(s: string) {
    forall i :: 0 <= i < |s| ==> IsSpace(s[i])
  }

  /** White space and then a token. */
  datatype Item = Item(gap: string, token: Token)

  function Layout(items: seq<Item>, tail: string): string {
    if items == [] then tail
    else items[0].gap + (Text(items[0].token) + Layout(items[1..], tail))
  }

  /** Gaps are white space, possibly none where the tokens stay apart without it. */
  ghost predicate Readable(items: seq<Item>, tail: string) {
    if items == [] then AllSpace(tail)
    else
      && AllSpace(items[0].gap) && Printable(items[0].token)
      && Ends(items[0].token, At(Layout(items[1..], tail), 0))
      && Readable(items[1..], tail)
  }

  /** A newline in a gap is a semicolon when one is due, and only once. */
  function Breaks(gap: string, semi: bool): bool { semi && '\n' in gap }

  /** The tokens of a layout: its own, and a semicolon where a line ends a statement. */
  function Expected(items: seq<Item>, semi: bool): seq<Token> {
    if items == [] then []
    else
      var b := Breaks(items[0].gap, semi);
      (if b then [Token(Semi, "")] else []) + ([items[0].token] + Expected(items[1..], FlagAfter(items[0].token, semi && !b)))
  }

  /** The flag after the last token of a layout. */
  function LastFlag(items: seq<Item>, semi: bool): bool {
    if items == [] then semi
    else LastFlag(items[1..], FlagAfter(items[0].token, semi && !Breaks(items[0].gap, semi)))
  }

  lemma {:induction false} SkipsGap(gap: string, rest: string, semi: bool)
    requires AllSpace(gap) && (semi ==> '\n' !in gap) && (rest == "" || !IsSpace(rest[0]))
    ensures SkipBlanks(gap + rest, semi) == rest
  {
    if gap == "" {
      assert gap + rest == rest;
    } else {
      assert (gap + rest)[1..] == gap[1..] + rest;
      SkipsGap(gap[1..], rest, semi);
    }
  }

  /** Up to its first newline a gap is skipped; there a semicolon is made of it. */
  lemma {:induction false} SkipsToBreak(gap: string, rest: string)
    requires AllSpace(gap) && '\n' in gap
    ensures exists after :: AllSpace(after) && |after| < |gap| && SkipBlanks(gap + rest, true) == "\n" + (after + rest)
  {
    assert (gap + rest)[0] == gap[0] && (gap + rest)[1..] == gap[1..] + rest;
    if gap[0] == '\n' {
      assert gap + rest == "\n" + (gap[1..] + rest);
      assert AllSpace(gap[1..]);
    } else {
      SkipsToBreak(gap[1..], rest);
    }
  }

  /** The lexer at a gap: at most one semicolon, then on to what follows. */
  lemma LexesGap(gap: string, rest: string, semi: bool)
    requires AllSpace(gap) && rest != "" && !IsSpace(rest[0])
    ensures LexAll(gap + rest, semi) ==
      if Breaks(gap, semi) then Cons(Token(Semi, ""), LexAll(rest, false)) else LexAll(rest, semi)
  {
    assert SkipBlanks(rest, semi) == rest && SkipBlanks(rest, false) == rest;
    if Breaks(gap, semi) {
      SkipsToBreak(gap, rest);
      var after :| AllSpace(after) && |after| < |gap| && SkipBlanks(gap + rest, true) == "\n" + (after + rest);
      NewlineStep(after + rest, true);
      SkipsGap(after, rest, false);
      assert after + rest != "";
      assert LexAll(after + rest, false) == LexAll(rest, false);
    } else {
      SkipsGap(gap, rest, semi);
    }
  }

  lemma NewlineStep(rest: string, semi: bool)
    ensures LexToken("\n" + rest, semi) == Next(Token(Semi, ""), rest, false)
  {
    assert ("\n" + rest)[1..] == rest;
  }

  function Cons(t: Token, o: Outcome): Outcome {
    if o.Tokens? then Tokens([t] + o.ts) else o
  }

  function Prepend(ts: seq<Token>, o: Outcome): Outcome {
    if o.Tokens? then Tokens(ts + o.ts) else o
  }

  // ---------- the end of the source ----------

  /** White space at the end is read without going past the NUL exactly when there is
      none, or when it is skipped up to a newline that makes a semicolon and is last. */
  predicate GoodTail(tail: string, semi: bool) {
    tail == "" || (semi && tail[|tail| - 1] == '\n' && '\n' !in tail[..|tail| - 1])
  }

  lemma LexesTail(tail: string, semi: bool)
    requires AllSpace(tail)
    ensures LexAll(tail, semi) ==
      if !GoodTail(tail, semi) then LexFault
      else Tokens((if tail == "" then [] else [Token(Semi, "")]) + [Token(End, "")])
  {
    if tail != "" {
      if semi && '\n' in tail {
        SkipsToBreak(tail, "");
        var after :| AllSpace(after) && |after| < |tail| && SkipBlanks(tail + "", true) == "\n" + (after + "");
        assert tail + "" == tail && after + "" == after;
        NewlineStep(after, true);
        TailBreak(tail, after);
        if after != "" {
          SkipsGap(after, "", false);
          assert after + "" == after;
        }
      } else {
        SkipsGap(tail, "", semi);
        assert tail + "" == tail;
      }
    }
  }

  lemma {:induction false} TailBreak(tail: string, after: string)
    requires AllSpace(tail) && '\n' in tail && SkipBlanks(tail, true) == "\n" + after
    ensures after == "" <==> (tail[|tail| - 1] == '\n' && '\n' !in tail[..|tail| - 1])
  {
    if tail[0] == '\n' {
      assert tail == "\n" + after;
      if after != "" { assert tail[..|tail| - 1][0] == '\n'; }
    } else {
      TailBreak(tail[1..], after);
      assert tail[..|tail| - 1] == [tail[0]] + tail[1..][..|tail| - 2];
    }
  }

  /** A token with nothing to skip before it. */
  lemma LexesText(t: Token, rest: string, semi: bool)
    requires Printable(t) && Ends(t, At(rest, 0))
    ensures var text := Text(t) + rest; text != "" && !IsSpace(text[0])
    ensures LexAll(Text(t) + rest, semi) == Cons(t, LexAll(rest, FlagAfter(t, semi)))
  {
    var text := Text(t) + rest;
    TextStarts(t);
    assert text[0] == Text(t)[0];
    assert SkipBlanks(text, semi) == text;
    ReadsToken(t, rest, semi);
  }

  /** A gap and a token. */
  lemma LexesItem(i: Item, rest: string, semi: bool)
    requires AllSpace(i.gap) && Printable(i.token) && Ends(i.token, At(rest, 0))
    ensures var b := Breaks(i.gap, semi);
      LexAll(i.gap + (Text(i.token) + rest), semi) ==
        Prepend((if b then [Token(Semi, "")] else []) + [i.token], LexAll(rest, FlagAfter(i.token, semi && !b)))
  {
    var b := Breaks(i.gap, semi);
    LexesText(i.token, rest, semi && !b);
    LexesGap(i.gap, Text(i.token) + rest, semi);
    ConsPrepend(b, i.token, LexAll(rest, FlagAfter(i.token, semi && !b)));
  }

  lemma ConsPrepend(b: bool, t: Token, o: Outcome)
    ensures (if b then Cons(Token(Semi, ""), Cons(t, o)) else Cons(t, o)) ==
      Prepend((if b then [Token(Semi, "")] else []) + [t], o)
  {
    if b && o.Tokens? {
      assert [Token(Semi, "")] + ([t] + o.ts) == ([Token(Semi, "")] + [t]) + o.ts;
    } else {
      assert [] + [t] == [t];
    }
  }

  /** The tokens `ts` and then what white space `tail` at the end of the source gives. */
  function Ending(ts: seq<Token>, tail: string, semi: bool): Outcome {
    if GoodTail(tail, semi) then Tokens(ts + ((if tail == "" then [] else [Token(Semi, "")]) + [Token(End, "")]))
    else LexFault
  }

  lemma EndingMore(a: seq<Token>, b: seq<Token>, tail: string, semi: bool)
    ensures Prepend(a, Ending(b, tail, semi)) == Ending(a + b, tail, semi)
  {
    var e := (if tail == "" then [] else [Token(Semi, "")]) + [Token(End, "")];
    assert a + (b + e) == (a + b) + e;
  }

  /** The lexer reads a printed layout back: its tokens, semicolons exactly where a
      newline meets the flag, and the end token. It stays inside the source exactly
      when the white space at the end is good. */
  lemma {:induction false} LexOfLayout(items: seq<Item>, tail: string, semi: bool)
    requires Readable(items, tail)
    ensures LexAll(Layout(items, tail), semi) == Ending(Expected(items, semi), tail, LastFlag(items, semi))
  {
    if items == [] {
      LexesTail(tail, semi);
      var e := (if tail == "" then [] else [Token(Semi, "")]) + [Token(End, "")];
      assert [] + e == e;
    } else {
      var i := items[0];
      var b := Breaks(i.gap, semi);
      var flag := FlagAfter(i.token, semi && !b);
      LexesItem(i, Layout(items[1..], tail), semi);
      LexOfLayout(items[1..], tail, flag);
      var first := (if b then [Token(Semi, "")] else []);
      EndingMore(first + [i.token], Expected(items[1..], flag), tail, LastFlag(items, semi));
      assert (first + [i.token]) + Expected(items[1..], flag) == first + ([i.token] + Expected(items[1..], flag));
    }
  }

  lemma Cancelled(a: seq<Token>, b: seq<Token>, rest: seq<Token>)
    ensures a + rest == b + rest <==> a == b
  {
    if a + rest == b + rest {
      assert |a| == |b|;
      assert (a + rest)[..|a|] == a && (b + rest)[..|b|] == b;
    }
  }
}
