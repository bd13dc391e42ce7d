/** The lexer itself: it walks the source from the front, and remembers whether a
    newline would end a statement. */
module Lexer {
  import opened Tokens
  import opened Lexing
  import opened Printing

  class SourceLexer {
    var source: string    // what is left to read
    var semi: bool

    constructor (s: string)
      ensures source == s && !semi
    {
      source, semi := s, false;
    }

    /** The character `k` places ahead. */
    function Peek(k: nat): char
      reads this
    {
      At(source, k)
    }

    method Skip(n: nat)
      requires n <= |source|
      modifies `source
      ensures source == old(source)[n..]
    {
      source := source[n..];
    }

    method ClearWhitespace()
      modifies `source
      ensures source == SkipBlanks(old(source), semi)
    {
      ghost var start := source;
      while source != "" && IsBlank(source[0], semi)
        invariant SkipBlanks(source, semi) == SkipBlanks(start, semi)
        decreases |source|
      {
        Skip(1);
      }
    }

    /** A letter and the word characters after it. */
    method Word() returns (w: string)
      requires source != ""
      modifies `source
      ensures var n := 1 + WordLength(old(source)[1..]); w == old(source)[..n] && source == old(source)[n..]
    {
      ghost var start := source;
      var n := 1;
      while n < |source| && IsWordChar(source[n])
        invariant 1 <= n <= |source|
        invariant 1 + WordLength(start[1..]) == n + WordLength(start[n..])
      {
        n := n + 1;
      }
      w := source[..n];
      Skip(n);
    }

    /** The digits below `base` at the front, which are also returned. */
    method ExtractMantissa(base: int) returns (digits: string)
      modifies `source
      ensures var n := MantissaLength(old(source), base); digits == old(source)[..n] && source == old(source)[n..]
    {
      ghost var start := source;
      var n := 0;
      while n < |source| && IsDigit(source[n]) && DigitValue(source[n]) < base
        invariant 0 <= n <= |source|
        invariant MantissaLength(start, base) == n + MantissaLength(start[n..], base)
      {
        n := n + 1;
      }
      digits := source[..n];
      Skip(n);
    }

    method Number() returns (t: Token)
      requires source != "" && IsDigit(source[0])
      modifies `source
      ensures (t, source) == LexNumber(old(source))
    {
      if source[0] == '0' {
        t := Prefixed();
        return;
      }
      var digits := ExtractMantissa(10);
      if Peek(0) == '.' {
        t := Fraction(digits);
      } else {
        t := Token(Int, digits);
      }
    }

    /** A number that starts with a zero. */
    method Prefixed() returns (t: Token)
      requires source != "" && source[0] == '0'
      modifies `source
      ensures (t, source) == LexNumber(old(source))
    {
      ghost var s := source;
      Skip(1);
      if Peek(0) == 'x' || Peek(0) == 'X' {
        Skip(1);
        Tail(s, 1, 1);
        var digits := ExtractMantissa(16);
        Tail(s, 2, |digits|);
        return Token(Hex, digits);
      }
      t := Zero();
    }

    /** What follows a zero that starts no hex number. */
    method Zero() returns (t: Token)
      modifies `source
      ensures (t, source) == LexZero(old(source))
    {
      ghost var s := source;
      var digits, octal := ZeroDigits();
      assert source == s[|digits|..];
      if Peek(0) == '.' {
        t := Fraction(digits);
      } else {
        t := if octal then Token(Octal, digits) else Token(Int, "");
      }
    }

    /** Its digits: decimal ones may follow the octal ones. */
    method ZeroDigits() returns (digits: string, octal: bool)
      modifies `source
      ensures octal == !PastOctal(old(source))
      ensures digits == old(source)[..ZeroLength(old(source))] && source == old(source)[ZeroLength(old(source))..]
    {
      ghost var s := source;
      octal := true;
      digits := ExtractMantissa(8);
      if Peek(0) == '8' || Peek(0) == '9' {
        octal := false;
        ghost var n := |digits|;
        var more := ExtractMantissa(10);
        Tail(s, n, |more|);
        digits := digits + more;
        assert digits == s[..n + |more|];
      }
    }

    method Fraction(whole: string) returns (t: Token)
      requires source != ""
      modifies `source
      ensures (t, source) == LexFraction(whole, old(source))
    {
      ghost var s := source;
      Skip(1);
      var digits := ExtractMantissa(10);
      Tail(s, 1, |digits|);
      t := Token(Float, whole + "." + digits);
    }

    /** A token of one character, or of two when the next one is `=`. */
    method Switch2(t0: TokenType, t1: TokenType) returns (t: TokenType)
      requires source != ""
      modifies `source
      ensures var (r, n) := Lexing.Switch2(At(old(source), 1), t0, t1); n <= |old(source)| && t == r && source == old(source)[n..]
    {
      Skip(1);
      if Peek(0) == '=' {
        Skip(1);
        return t1;
      }
      return t0;
    }

    method Switch3(t0: TokenType, t1: TokenType, ch: char, t2: TokenType) returns (t: TokenType)
      requires source != "" && ch != NUL
      modifies `source
      ensures var (r, n) := Lexing.Switch3(At(old(source), 1), t0, t1, ch, t2); n <= |old(source)| && t == r && source == old(source)[n..]
    {
      Skip(1);
      if Peek(0) == '=' {
        Skip(1);
        return t1;
      }
      if Peek(0) == ch {
        Skip(1);
        return t2;
      }
      return t0;
    }

    method Switch4(t0: TokenType, t1: TokenType, ch: char, t2: TokenType, t3: TokenType) returns (t: TokenType)
      requires source != "" && ch != NUL
      modifies `source
      ensures var (r, n) := Lexing.Switch4(At(old(source), 1), At(old(source), 2), t0, t1, ch, t2, t3);
        n <= |old(source)| && t == r && source == old(source)[n..]
    {
      Skip(1);
      if Peek(0) == '=' {
        Skip(1);
        return t1;
      }
      if Peek(0) == ch {
        Skip(1);
        if Peek(0) == '=' {
          Skip(1);
          return t3;
        }
        return t2;
      }
      return t0;
    }

    /** One, two or three points; two are still one period. */
    method Points() returns (t: TokenType)
      requires source != "" && source[0] == '.'
      modifies `source
      ensures Reads(t, source, old(source))
    {
      ghost var s := source;
      t := Period;
      Skip(1);
      if Peek(0) == '.' {
        Skip(1);
        if Peek(0) == '.' {
          Skip(1);
          t := Ellipse;
        }
      }
      assert source == s[Symbol(s[0], At(s, 1), At(s, 2)).1..];
    }

    method Minus() returns (t: TokenType)
      requires source != "" && source[0] == '-'
      modifies `source
      ensures Reads(t, source, old(source))
    {
      if Peek(1) == '>' {
        t := Arrow;
        Skip(2);
      } else {
        t := Switch3(Sub, SubAssign, '-', Dec);
      }
    }

    method Ampersand() returns (t: TokenType)
      requires source != "" && source[0] == '&'
      modifies `source
      ensures Reads(t, source, old(source))
    {
      ghost var s := source;
      if Peek(1) == '^' {
        Skip(1);
        t := Switch2(AndNot, AndNotAssign);
        assert source == s[Symbol(s[0], At(s, 1), At(s, 2)).1..];
      } else {
        t := Switch3(And, AndAssign, '&', Land);
      }
    }

    method Arithmetic() returns (t: TokenType)
      requires source != "" && IsArithmetic(source[0])
      modifies `source
      ensures Reads(t, source, old(source))
    {
      match source[0]
      case '+' => t := Switch3(Add, AddAssign, '+', Inc);
      case '*' => t := Switch2(Mul, MulAssign);
      case '/' => t := Switch2(Quo, QuoAssign);
      case '%' => t := Switch2(Rem, RemAssign);
      case _ => t := Switch2(Xor, XorAssign);
    }

    method Comparison() returns (t: TokenType)
      requires source != "" && IsComparison(source[0])
      modifies `source
      ensures Reads(t, source, old(source))
    {
      match source[0]
      case '<' => t := Switch4(Lss, Leq, '<', Shl, ShlAssign);
      case '>' => t := Switch4(Gtr, Geq, '>', Shr, ShrAssign);
      case '=' => t := Switch2(Assign, Eql);
      case _ => t := Switch2(Not, Neq);
    }

    method Punctuation() returns (t: TokenType)
      requires source != "" && !IsArithmetic(source[0]) && !IsComparison(source[0])
      requires source[0] != '.' && source[0] != '-' && source[0] != '&' && source[0] != '|' && source[0] != ':'
      modifies `source
      ensures Reads(t, source, old(source))
    {
      match source[0] {
        case '\n' => t := Semi;
        case ',' => t := Comma;
        case ';' => t := Semi;
        case '(' => t := LParen;
        case ')' => t := RParen;
        case '[' => t := LBrack;
        case ']' => t := RBrack;
        case '{' => t := LBrace;
        case '}' => t := RBrace;
        case _ => t := Illegal;
      }
      Skip(1);
    }

    method SymbolToken() returns (t: TokenType)
      requires source != ""
      modifies `source
      ensures Reads(t, source, old(source))
    {
      match source[0]
      case ':' => t := Switch3(Colon, Define, ':', DoubleColon);
      case '.' => t := Points();
      case '-' => t := Minus();
      case '&' => t := Ampersand();
      case '|' => t := Switch3(Or, OrAssign, '|', Lor);
      case _ =>
        if IsArithmetic(source[0]) {
          t := Arithmetic();
        } else if IsComparison(source[0]) {
          t := Comparison();
        } else {
          t := Punctuation();
        }
    }

    /** A string up to its closing quote; `fault` past the end, `escape` at a backslash. */
    method StringToken() returns (t: Token, fault: bool, escape: bool)
      requires source != "" && source[0] == '"'
      modifies `source
      ensures match LexString(old(source))
        case Fault => fault
        case Escape => escape && !fault
        case Next(token, rest, _) => !fault && !escape && t == token && source == rest
    {
      ghost var s := source;
      var n := 1;
      t, fault, escape := Token(String, ""), false, false;
      while n < |source| && source[n] != '"' && source[n] != '\\'
        invariant 1 <= n <= |source|
        invariant StringLength(s[1..]) == (if StringLength(s[n..]) < 0 then StringLength(s[n..]) else n - 1 + StringLength(s[n..]))
      {
        n := n + 1;
      }
      if n == |source| {
        fault := true;
      } else if source[n] == '\\' {
        escape := true;
      } else {
        t := Token(String, source[1..n]);
        Skip(n + 1);
      }
    }

    /** The token at the front, where no white space is left to skip. */
    method NextToken() returns (t: Token, fault: bool, escape: bool)
      requires source != ""
      modifies this
      ensures match LexToken(old(source), old(semi))
        case Fault => fault
        case Escape => escape && !fault
        case Next(token, rest, flag) => !fault && !escape && t == token && source == rest && semi == flag
    {
      fault, escape := false, false;
      if IsLetter(source[0]) {
        var w := Word();
        var ty := KeywordOf(w);
        t := Token(ty, w);
        if ty.Ident? || ty.Break? || ty.Continue? || ty.Fallthrough? || ty.Return? {
          semi := true;
        }
      } else if IsDigit(source[0]) {
        semi := true;
        t := Number();
      } else if source[0] == '"' {
        semi := true;
        t, fault, escape := StringToken();
      } else {
        var newline := source[0] == '\n';
        var ty := SymbolToken();
        t := Token(ty, "");
        if newline || ty.LBrace? {
          semi := false;
        } else if ty.RParen? || ty.RBrack? || ty.RBrace? || ty.Inc? || ty.Dec? {
          semi := true;
        }
      }
    }

    /** Tokens of the whole source. When it faults or meets an escape there are none. */
    method Lex() returns (o: Outcome)
      requires !semi
      modifies this
      ensures o == LexAll(old(source), false)
    {
      ghost var s := source;
      var tokens: seq<Token> := [];
      while source != ""
        invariant LexAll(s, false) == After(tokens, LexAll(source, semi))
        decreases |source|
      {
        ghost var before, flag := source, semi;
        ClearWhitespace();
        if source == "" {
          return LexFault;
        }
        var t, fault, escape := NextToken();
        if fault {
          return LexFault;
        }
        if escape {
          return LexEscape;
        }
        assert LexAll(before, flag) == After([t], LexAll(source, semi));
        Regroup(tokens, t, LexAll(source, semi));
        tokens := tokens + [t];
      }
      o := Tokens(tokens + [Token(End, "")]);
    }

    /** A printed layout is read back, with a semicolon for each newline that ends a
        statement, whatever the amount of white space. */
    method LexPrinted(ghost items: seq<Item>, ghost tail: string) returns (o: Outcome)
      requires !semi && source == Layout(items, tail) && Readable(items, tail)
      modifies this
      ensures o == Ending(Expected(items, false), tail, LastFlag(items, false))
    {
      LexOfLayout(items, tail, false);
      o := Lex();
    }
  }

  function After(done: seq<Token>, o: Outcome): Outcome {
    if o.Tokens? then Tokens(done + o.ts) else o
  }

  lemma Regroup(done: seq<Token>, t: Token, o: Outcome)
    ensures After(done, After([t], o)) == After(done + [t], o)
  {
    if o.Tokens? {
      assert done + ([t] + o.ts) == (done + [t]) + o.ts;
    }
  }

  predicate IsArithmetic(c: char) { c == '+' || c == '*' || c == '/' || c == '%' || c == '^' }

  predicate IsComparison(c: char) { c == '<' || c == '>' || c == '=' || c == '!' }

  /** `t` and `rest` are what the symbol at the start of `s` gives. */
  ghost predicate Reads(t: TokenType, rest: string, s: string)
    requires s != ""
  {
    var (r, n) := Symbol(s[0], At(s, 1), At(s, 2));
    n <= |s| && t == r && rest == s[n..]
  }

  lemma Tail(s: string, i: nat, n: nat)
    requires i + n <= |s|
    ensures s[i..][..n] == s[i..i + n] && s[i..][n..] == s[i + n..]
  {
  }
}
