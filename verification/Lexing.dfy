/** The specification of the lexer. A text is what is left of the source; the NUL
    that ends it is read as the character after the last one. */
module Lexing {
  import opened Tokens

  const NUL: char := '\0'

  function At(s: string, k: nat): char { if k < |s| then s[k] else NUL }

  predicate IsDigit(c: char) { '0' <= c <= '9' }
  predicate IsLetter(c: char) { 'a' <= c <= 'z' || 'A' <= c <= 'Z' }
  predicate IsWordChar(c: char) { IsLetter(c) || IsDigit(c) }

  /** White space to skip; a newline only counts when no semicolon is due. */
  predicate IsBlank(c: char, semi: bool) {
    c == ' ' || c == '\t' || (c == '\n' && !semi) || c == '\r'
  }

  function SkipBlanks(s: string, semi: bool): (r: string)
    ensures |r| <= |s|
    ensures r == "" || !IsBlank(r[0], semi)
  {
    if s != "" && IsBlank(s[0], semi) then SkipBlanks(s[1..], semi) else s
  }

  /** Length of the longest prefix of word characters. */
  function WordLength(s: string): (n: nat)
    ensures n <= |s|
  {
    if s != "" && IsWordChar(s[0]) then 1 + WordLength(s[1..]) else 0
  }

  function DigitValue(c: char): int
    requires IsDigit(c)
  {
    c as int - '0' as int
  }

  /** Length of the longest prefix of decimal digits below `base`. */
  function MantissaLength(s: string, base: int): (n: nat)
    ensures n <= |s|
  {
    if s != "" && IsDigit(s[0]) && DigitValue(s[0]) < base then 1 + MantissaLength(s[1..], base) else 0
  }

  /** One lexed token, what is left, and whether a newline now ends a statement.
      `Fault`: the C code reads past the NUL. `Escape`: a backslash in a string,
      which is not modelled. */
  datatype Step = Next(token: Token, rest: string, semi: bool) | Fault | Escape

  function KeywordOf(w: string): TokenType {
    if w == "break" then Break
    else if w == "case" then Case
    else if w == "const" then Const
    else if w == "continue" then Continue
    else if w == "default" then Default
    else if w == "defer" then Defer
    else if w == "else" then Else
    else if w == "fallthrough" then Fallthrough
    else if w == "for" then For
    else if w == "func" then Func
    else if w == "proc" then Proc
    else if w == "if" then If
    else if w == "import" then Import
    else if w == "return" then Return
    else if w == "select" then Select
    else if w == "struct" then Struct
    else if w == "switch" then Switch
    else if w == "type" then Type
    else if w == "var" then Var
    else Ident
  }

  function LexWord(s: string, semi: bool): Step
    requires s != ""
  {
    var n := 1 + WordLength(s[1..]);
    var t := KeywordOf(s[..n]);
    Next(Token(t, s[..n]), s[n..], semi || t.Ident? || t.Break? || t.Continue? || t.Fallthrough? || t.Return?)
  }

  /** Type, value and rest of a number. */
  function LexNumber(s: string): (r: (Token, string))
    requires s != "" && IsDigit(s[0])
    ensures |r.1| < |s|
  {
    if s[0] == '0' then
      if At(s, 1) == 'x' || At(s, 1) == 'X' then
        var n := MantissaLength(s[2..], 16);
        (Token(Hex, s[2..2 + n]), s[2 + n..])
      else
        LexZero(s[1..])
    else
      var n := MantissaLength(s, 10);
      if At(s, n) == '.' then LexFraction(s[..n], s[n..])
      else (Token(Int, s[..n]), s[n..])
  }

  /** Does an 8 or a 9 follow the octal digits? */
  predicate PastOctal(s: string) {
    var n := MantissaLength(s, 8);
    At(s, n) == '8' || At(s, n) == '9'
  }

  function ZeroLength(s: string): (k: nat)
    ensures k <= |s|
  {
    var n := MantissaLength(s, 8);
    if PastOctal(s) then n + MantissaLength(s[n..], 10) else n
  }

  /** The rest of a number after a zero that starts no hex number: octal digits, or
      the digits of a decimal fraction. */
  function LexZero(s: string): (r: (Token, string))
    ensures |r.1| <= |s|
  {
    var k := ZeroLength(s);
    if At(s, k) == '.' then LexFraction(s[..k], s[k..])
    else if PastOctal(s) then (Token(Int, ""), s[k..])
    else (Token(Octal, s[..k]), s[k..])
  }

  /** The part of a number from its point on. */
  function LexFraction(whole: string, s: string): (r: (Token, string))
    requires s != ""
    ensures |r.1| < |s|
  {
    var n := MantissaLength(s[1..], 10);
    (Token(Float, whole + "." + s[1..1 + n]), s[1 + n..])
  }

  /** Length of a string's contents, -1 if it has no end, -2 if it has an escape. */
  function StringLength(s: string): (n: int)
    ensures -2 <= n < |s| || (s == "" && n == -1)
  {
    if s == "" then -1
    else if s[0] == '"' then 0
    else if s[0] == '\\' then -2
    else
      var n := StringLength(s[1..]);
      if n < 0 then n else n + 1
  }

  function LexString(s: string): Step
    requires s != ""
  {
    var n := StringLength(s[1..]);
    if n == -1 then Fault
    else if n == -2 then Escape
    else Next(Token(String, s[1..1 + n]), s[2 + n..], true)
  }

  function Switch2(b: char, t0: TokenType, t1: TokenType): (TokenType, nat) {
    if b == '=' then (t1, 2) else (t0, 1)
  }

  function Switch3(b: char, t0: TokenType, t1: TokenType, ch: char, t2: TokenType): (TokenType, nat) {
    if b == '=' then (t1, 2) else if b == ch then (t2, 2) else (t0, 1)
  }

  function Switch4(b: char, c: char, t0: TokenType, t1: TokenType, ch: char, t2: TokenType, t3: TokenType): (TokenType, nat) {
    if b == '=' then (t1, 2)
    else if b == ch then if c == '=' then (t3, 3) else (t2, 2)
    else (t0, 1)
  }

  /** Type and length of the symbol that starts with `a`, `b`, `c`. */
  function Symbol(a: char, b: char, c: char): (TokenType, nat) {
    match a
    case '\n' => (Semi, 1)
    case ':' => Switch3(b, Colon, Define, ':', DoubleColon)
    // two points are one period token
    case '.' => if b == '.' then if c == '.' then (Ellipse, 3) else (Period, 2) else (Period, 1)
    case ',' => (Comma, 1)
    case ';' => (Semi, 1)
    case '(' => (LParen, 1)
    case ')' => (RParen, 1)
    case '[' => (LBrack, 1)
    case ']' => (RBrack, 1)
    case '{' => (LBrace, 1)
    case '}' => (RBrace, 1)
    case '+' => Switch3(b, Add, AddAssign, '+', Inc)
    case '-' => if b == '>' then (Arrow, 2) else Switch3(b, Sub, SubAssign, '-', Dec)
    case '*' => Switch2(b, Mul, MulAssign)
    case '/' => Switch2(b, Quo, QuoAssign)
    case '%' => Switch2(b, Rem, RemAssign)
    case '^' => Switch2(b, Xor, XorAssign)
    case '<' => Switch4(b, c, Lss, Leq, '<', Shl, ShlAssign)
    case '>' => Switch4(b, c, Gtr, Geq, '>', Shr, ShrAssign)
    case '=' => Switch2(b, Assign, Eql)
    case '!' => Switch2(b, Not, Neq)
    case '&' => if b == '^' then if c == '=' then (AndNotAssign, 3) else (AndNot, 2) else Switch3(b, And, AndAssign, '&', Land)
    case '|' => Switch3(b, Or, OrAssign, '|', Lor)
    case _ => (Illegal, 1)
  }

  /** The flag after a symbol: some set it, an opening brace and a newline clear it,
      the others leave it as it is. */
  function SymbolSemi(a: char, t: TokenType, semi: bool): bool {
    if a == '\n' || t.LBrace? then false
    else semi || t.RParen? || t.RBrack? || t.RBrace? || t.Inc? || t.Dec?
  }

  function LexSymbol(s: string, semi: bool): Step
    requires s != ""
  {
    var (t, n) := Symbol(s[0], At(s, 1), At(s, 2));
    assert n <= |s|;
    Next(Token(t, ""), s[n..], SymbolSemi(s[0], t, semi))
  }

  /** The token at the start of `s`, where no white space is left to skip. At the NUL
      the code takes an illegal token and steps past the end. */
  function LexToken(s: string, semi: bool): (r: Step)
    ensures r.Next? ==> |r.rest| < |s|
  {
    if s == "" then Fault
    else if IsLetter(s[0]) then LexWord(s, semi)
    else if IsDigit(s[0]) then
      var (t, rest) := LexNumber(s);
      Next(t, rest, true)
    else if s[0] == '"' then LexString(s)
    else LexSymbol(s, semi)
  }

  datatype Outcome = Tokens(ts: seq<Token>) | LexFault | LexEscape

  /** The whole source, ended by the end-of-file token. */
  function LexAll(s: string, semi: bool): Outcome
    decreases |s|
  {
    if s == "" then Tokens([Token(End, "")])
    else
      match LexToken(SkipBlanks(s, semi), semi)
      case Fault => LexFault
      case Escape => LexEscape
      case Next(t, rest, semi') =>
        var more := LexAll(rest, semi');
        if more.Tokens? then Tokens([t] + more.ts) else more
  }
}
