/** What one tokenizer call yields on a line, as a function of the line alone. */
module Tokens {
  import opened Text

  datatype Problem =
    | LetterExpected
    | InvalidWordCharacter
    | InvalidUnquotedCharacter
    | QuoteExpected
    | MissingClosingQuote
    | SpaceExpected

  datatype Token = End | Bad(problem: Problem) | Word(text: string, rest: string)

  /** The two kinds of token that extend to the next white space. */
  datatype Style = Name | Unquoted

  predicate ValidFirst(style: Style, c: char) {
    match style
    case Name => IsAlpha(c)
    case Unquoted => c > ' ' && c != '"' && c != '\''
  }

  predicate ValidNext(style: Style, c: char) {
    match style
    case Name => IsAlpha(c) || IsDigit(c) || c == '_'
    case Unquoted => ValidFirst(Unquoted, c)
  }

  function FirstProblem(style: Style): Problem {
    match style
    case Name => LetterExpected
    case Unquoted => InvalidUnquotedCharacter
  }

  function NextProblem(style: Style): Problem {
    match style
    case Name => InvalidWordCharacter
    case Unquoted => InvalidUnquotedCharacter
  }

  /** The first position from `i` on that does not continue a token. */
  function Scan(style: Style, s: string, i: nat): (r: nat)
    requires i <= |s|
    ensures i <= r <= |s|
    decreases |s| - i
  {
    if i == |s| || IsSpace(s[i]) || !ValidNext(style, s[i]) then i else Scan(style, s, i + 1)
  }

  function BareToken(style: Style, s: string): Token {
    if s == [] then End
    else if !ValidFirst(style, s[0]) then Bad(FirstProblem(style))
    else
      var n := Scan(style, s, 1);
      if n == |s| then Word(s, [])
      else if IsSpace(s[n]) then Word(s[..n], Chug(s[n + 1..]))
      else Bad(NextProblem(style))
  }

  datatype Quotation = Unterminated | Quotation(text: string, rest: string)

  /** The text up to the closing quote, backslashes removed, and what follows the quote. */
  function Unquote(s: string): Quotation {
    if s == [] then Unterminated
    else if s[0] == '"' then Quotation([], s[1..])
    else if s[0] != '\\' then Prepend(s[0], Unquote(s[1..]))
    else if |s| == 1 then Unterminated
    else Prepend(s[1], Unquote(s[2..]))
  }

  function Prepend(c: char, q: Quotation): Quotation {
    match q
    case Unterminated => Unterminated
    case Quotation(text, rest) => Quotation([c] + text, rest)
  }

  function StringToken(s: string): Token {
    if s == [] then End
    else if s[0] != '"' then Bad(QuoteExpected)
    else
      match Unquote(s[1..])
      case Unterminated => Bad(MissingClosingQuote)
      case Quotation(text, rest) =>
        if rest != [] && !IsSpace(rest[0]) then Bad(SpaceExpected) else Word(text, Chug(rest))
  }

  function ParamToken(s: string): Token {
    if s != [] && s[0] == '"' then StringToken(s) else BareToken(Unquoted, s)
  }
}
