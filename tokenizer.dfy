/** The `tokenizer` module of the scanner: the closed set of token kinds, the
    one error kind, their canonical renderings (`Display`) and the
    classification of a single character (`TryFrom<char>`). */
module Tokenizer {
  import opened Decimal

  datatype Token =
    | LeftParen
    | RightParen
    | LeftBrace
    | RightBrace
    | Star
    | Dot
    | Plus
    | Minus
    | Comma
    | Equal
    | EqualEqual
    | Semicolon

  /** `UnexpectedCharacter(line, c)`; the line is a `usize`, modelled as a `nat`. */
  datatype TokenizeError = UnexpectedCharacter(line: nat, c: char)

  /** Rust's `Result`, as returned by `try_from`. */
  datatype Result<T, E> = Ok(value: T) | Err(error: E)

  datatype Option<T> = None | Some(value: T)

  /** The eleven characters that `try_from` accepts. */
  predicate IsSymbol(c: char) {
    c == '(' || c == ')' || c == '{' || c == '}' || c == '+' || c == '-' ||
    c == ',' || c == ';' || c == '.' || c == '*' || c == '='
  }

  /** The source text a token stands for. */
  function Lexeme(t: Token): string {
    match t
    case LeftParen => "("
    case RightParen => ")"
    case LeftBrace => "{"
    case RightBrace => "}"
    case Star => "*"
    case Dot => "."
    case Plus => "+"
    case Minus => "-"
    case Comma => ","
    case Semicolon => ";"
    case Equal => "="
    case EqualEqual => "=="
  }

  /** Distinct tokens stand for distinct source texts. */
  lemma {:induction false} LexemeInjective(a: Token, b: Token)
    requires Lexeme(a) == Lexeme(b)
    ensures a == b
  {
  }

  /** The upper-case kind name that starts the printed line of a token. */
  function KindName(t: Token): (n: string)
    ensures |n| > 0 && n[|n| - 1] != ' '
  {
    match t
    case LeftParen => "LEFT_PAREN"
    case RightParen => "RIGHT_PAREN"
    case LeftBrace => "LEFT_BRACE"
    case RightBrace => "RIGHT_BRACE"
    case Star => "STAR"
    case Dot => "DOT"
    case Plus => "PLUS"
    case Minus => "MINUS"
    case Comma => "COMMA"
    case Semicolon => "SEMICOLON"
    case Equal => "EQUAL"
    case EqualEqual => "EQUAL_EQUAL"
  }

  /** `Display for Token`: the fixed line printed for each token, which is its
      kind name, its lexeme and the literal `null`, separated by single spaces. */
  function TokenString(t: Token): string {
    KindName(t) + " " + Lexeme(t) + " null"
  }

  /** The printed line of a token ends with that token's lexeme and `null`,
      after a space that the kind name itself never ends with. */
  lemma {:induction false} TokenStringShowsLexeme(t: Token)
    ensures |TokenString(t)| > |Lexeme(t)| + 6
    ensures TokenString(t)[|TokenString(t)| - |Lexeme(t)| - 6..] == " " + Lexeme(t) + " null"
    ensures TokenString(t)[|TokenString(t)| - |Lexeme(t)| - 7] != ' '
  {
    LineTail(KindName(t), Lexeme(t));
  }

  /** A line `name lexeme null` ends with ` lexeme null`, preceded by the last
      character of the name. */
  lemma {:induction false} LineTail(name: string, lexeme: string)
    requires |name| > 0
    ensures (name + " " + lexeme + " null")[|name|..] == " " + lexeme + " null"
    ensures (name + " " + lexeme + " null")[|name| - 1] == name[|name| - 1]
  {
    assert name + " " + lexeme + " null" == name + (" " + lexeme + " null");
  }

  /** `TryFrom<char> for Token`: one of the eleven symbols becomes its
      one-character token; anything else is an unexpected character, always
      reported on line 1. */
  function TryFromChar(c: char): (r: Result<Token, TokenizeError>)
    ensures r.Ok? <==> IsSymbol(c)
    ensures r.Ok? ==> Lexeme(r.value) == [c] && r.value != EqualEqual
    ensures r.Err? ==> r.error == UnexpectedCharacter(1, c)
  {
    match c
    case '(' => Ok(LeftParen)
    case ')' => Ok(RightParen)
    case '}' => Ok(RightBrace)
    case '{' => Ok(LeftBrace)
    case '+' => Ok(Plus)
    case '-' => Ok(Minus)
    case ',' => Ok(Comma)
    case ';' => Ok(Semicolon)
    case '.' => Ok(Dot)
    case '*' => Ok(Star)
    case '=' => Ok(Equal)
    case _ => Err(UnexpectedCharacter(1, c))
  }

  /** Every token but `EqualEqual` is what `try_from` makes of its own lexeme. */
  lemma {:induction false} ClassifyLexeme(t: Token)
    requires t != EqualEqual
    ensures |Lexeme(t)| == 1 && TryFromChar(Lexeme(t)[0]) == Ok(t)
  {
  }

  /** Distinct tokens are printed as distinct lines. */
  lemma {:induction false} TokenStringInjective(a: Token, b: Token)
    requires TokenString(a) == TokenString(b)
    ensures a == b
  {
    TokenStringShowsLexeme(a);
    TokenStringShowsLexeme(b);
    LexemeHasNoSpace(a);
    LexemeHasNoSpace(b);
    SpaceFreeTails(TokenString(a), Lexeme(a), Lexeme(b));
    LexemeInjective(a, b);
  }

  lemma {:induction false} LexemeHasNoSpace(t: Token)
    ensures forall k :: 0 <= k < |Lexeme(t)| ==> Lexeme(t)[k] != ' '
  {
  }

  /** A line has only one ending of the form ` x null` with `x` free of spaces. */
  lemma {:induction false} SpaceFreeTails(s: string, x: string, y: string)
    requires forall k :: 0 <= k < |x| ==> x[k] != ' '
    requires forall k :: 0 <= k < |y| ==> y[k] != ' '
    requires |s| > |x| + 6 && s[|s| - |x| - 6..] == " " + x + " null"
    requires |s| > |y| + 6 && s[|s| - |y| - 6..] == " " + y + " null"
    ensures x == y
  {
    TailChars(s, x);
    TailChars(s, y);
    if |x| == |y| {
      assert x == (" " + x + " null")[1..|x| + 1] == y;
    }
  }

  /** Where the ending ` x null` starts there is a space, and `x`'s characters follow it. */
  lemma {:induction false} TailChars(s: string, x: string)
    requires |s| > |x| + 6 && s[|s| - |x| - 6..] == " " + x + " null"
    ensures s[|s| - |x| - 6] == ' '
    ensures forall k :: 0 <= k < |x| ==> s[|s| - |x| - 5 + k] == x[k]
  {
    var tail := s[|s| - |x| - 6..];
    assert s[|s| - |x| - 6] == tail[0];
    forall k | 0 <= k < |x|
      ensures s[|s| - |x| - 5 + k] == x[k]
    {
      assert s[|s| - |x| - 5 + k] == tail[k + 1];
    }
  }

  const LinePrefix: string := "[line "
  const MessageInfix: string := "] Error: Unexpected character: "

  /** `Display for TokenizeError`. */
  function ErrorString(e: TokenizeError): (s: string)
    ensures |s| > |LinePrefix| + |MessageInfix| && s[..|LinePrefix|] == LinePrefix
    ensures s[|s| - 1] == e.c
  {
    LinePrefix + ToDecimal(e.line) + MessageInfix + [e.c]
  }

  /** Reads an error line back; the inverse of `ErrorString`. */
  function ParseErrorString(s: string): Option<TokenizeError> {
    if |s| < |LinePrefix| || s[..|LinePrefix|] != LinePrefix then None
    else
      var rest := s[|LinePrefix|..];
      var digits := TakeDigits(rest);
      var tail := rest[|digits|..];
      if digits != [] && |tail| == |MessageInfix| + 1 && tail[..|MessageInfix|] == MessageInfix
      then Some(UnexpectedCharacter(FromDecimal(digits), tail[|MessageInfix|]))
      else None
  }

  lemma {:induction false} ErrorStringRoundTrip(e: TokenizeError)
    ensures ParseErrorString(ErrorString(e)) == Some(e)
  {
    var s := ErrorString(e);
    var d := ToDecimal(e.line);
    var rest := s[|LinePrefix|..];
    assert rest == d + (MessageInfix + [e.c]);
    TakeDigitsOfNumeral(d, MessageInfix + [e.c]);
    assert rest[|d|..] == MessageInfix + [e.c];
    FromToDecimal(e.line);
  }

  /** Distinct errors are printed as distinct lines. */
  lemma {:induction false} ErrorStringInjective(a: TokenizeError, b: TokenizeError)
    requires ErrorString(a) == ErrorString(b)
    ensures a == b
  {
    ErrorStringRoundTrip(a);
    ErrorStringRoundTrip(b);
  }
}
