/** What the three kinds of token are on any line, with the characters spelled out. */
module TokenLaws {
  import opened Text
  import opened Tokens
  import opened CommandLine

  /** Space, tab, newline, form feed and carriage return end a token. */
  predicate White(c: char) {
    c == ' ' || c == '\t' || c == '\n' || c == '\r' || c as int == 12
  }

  /** A command starts with a letter; an unquoted word with anything printable but a quote. */
  predicate Starts(style: Style, c: char) {
    match style
    case Name => 'a' <= c <= 'z' || 'A' <= c <= 'Z'
    case Unquoted => c >= '!' && c != '"' && c != '\''
  }

  predicate Continues(style: Style, c: char) {
    Starts(style, c) || (style == Name && ('0' <= c <= '9' || c == '_'))
  }

  /** `rest` is what follows the white space that `s` starts with. */
  predicate Skipped(s: string, rest: string) {
    && |rest| <= |s|
    && var n := |s| - |rest|;
       && s[n..] == rest && (forall k :: 0 <= k < n ==> White(s[k])) && (rest != [] ==> !White(rest[0]))
  }

  lemma ChugSkips(s: string, rest: string)
    ensures Chug(s) == rest <==> Skipped(s, rest)
  {
    if Skipped(s, rest) {
      LeadingSpacesUnique(s, |s| - |rest|);
    }
  }

  lemma {:induction false} ScanExactly(style: Style, s: string, i: nat)
    requires i <= |s|
    ensures var n := Scan(style, s, i);
            && (forall k :: i <= k < n ==> Continues(style, s[k]) && !White(s[k]))
            && (n < |s| ==> White(s[n]) || !Continues(style, s[n]))
    decreases |s| - i
  {
    if !(i == |s| || IsSpace(s[i]) || !ValidNext(style, s[i])) {
      ScanExactly(style, s, i + 1);
    }
  }

  /** On every line: nothing is there exactly at its end. A word is as long as the characters
      that continue it reach, white space or the end must follow, and the white space is
      skipped. Otherwise the first character is wrong, or a later one is. */
  lemma BareTokenExactly(style: Style, s: string)
    ensures var token := BareToken(style, s);
            && (token.End? <==> s == [])
            && (token.Word? ==>
                  var n := |token.text|;
                  && 0 < n <= |s| && token.text == s[..n] && Starts(style, s[0])
                  && (forall k :: 1 <= k < n ==> Continues(style, s[k]) && !White(s[k]))
                  && (n < |s| ==> White(s[n]))
                  && Skipped(s[n..], token.rest))
            && (token.Bad? && !Starts(style, s[0]) ==>
                  token.problem == if style == Name then LetterExpected else InvalidUnquotedCharacter)
            && (token.Bad? && Starts(style, s[0]) ==>
                  && token.problem == (if style == Name then InvalidWordCharacter else InvalidUnquotedCharacter)
                  && exists n :: 1 <= n < |s| && BrokenAt(style, s, n))
  {
    hide Scan, IsSpace, IsAlpha, IsDigit, Chug, Skipped;
    Characters(style);
    if s != [] && ValidFirst(style, s[0]) {
      var n := Scan(style, s, 1);
      ScanExactly(style, s, 1);
      if n < |s| && IsSpace(s[n]) {
        SkipsAfter(s, n);
      } else if n < |s| {
        assert BrokenAt(style, s, n);
      } else {
        assert s[..n] == s && s[n..] == [];
        assert Skipped([], []) by { EmptySkip(); }
      }
    }
  }

  lemma EmptySkip()
    ensures Skipped([], [])
  {
  }

  lemma Characters(style: Style)
    ensures forall c :: IsSpace(c) <==> White(c)
    ensures forall c :: ValidFirst(style, c) <==> Starts(style, c)
    ensures forall c :: ValidNext(style, c) <==> Continues(style, c)
  {
  }

  lemma SkipsAfter(s: string, n: nat)
    requires n < |s| && White(s[n])
    ensures Skipped(s[n..], Chug(s[n + 1..]))
  {
    var rest := Chug(s[n + 1..]);
    ChugSkips(s[n + 1..], rest);
    var gap := |s| - n - |rest|;
    assert s[n..][gap..] == s[n + 1..][gap - 1..];
    forall k | 0 <= k < gap
      ensures White(s[n..][k])
    {
      assert k > 0 ==> s[n..][k] == s[n + 1..][k - 1];
    }
  }

  /** The token that starts the line runs into a character that neither continues nor ends it. */
  predicate BrokenAt(style: Style, s: string, n: nat) {
    && 1 <= n < |s| && Starts(style, s[0])
    && (forall k :: 1 <= k < n ==> Continues(style, s[k]) && !White(s[k]))
    && !Continues(style, s[n]) && !White(s[n])
  }

  // ------------------------------------------------------------------------ quotes

  /** Text between quotes with some characters escaped that need not be. */
  function Quoted(text: string, escaped: seq<bool>): string
    requires |text| == |escaped|
  {
    if text == [] then []
    else (if escaped[0] || text[0] == '"' || text[0] == '\\' then ['\\', text[0]] else [text[0]])
         + Quoted(text[1..], escaped[1..])
  }

  lemma {:induction false} UnquotesQuoted(text: string, escaped: seq<bool>, tail: string)
    requires |text| == |escaped|
    ensures Unquote(Quoted(text, escaped) + tail) == Prepended(text, Unquote(tail))
  {
    hide Unquote;
    if text == [] {
      assert Quoted(text, escaped) + tail == tail;
      PrependedNothing(Unquote(tail));
    } else {
      var rest := Quoted(text[1..], escaped[1..]) + tail;
      UnquotesQuoted(text[1..], escaped[1..], tail);
      var c := text[0];
      if escaped[0] || c == '"' || c == '\\' {
        assert Quoted(text, escaped) + tail == ['\\', c] + rest;
        UnquoteEscaped(c, rest);
      } else {
        assert Quoted(text, escaped) + tail == [c] + rest;
        UnquotePlain(c, rest);
      }
      PrependedMore(text, Unquote(tail));
    }
  }

  function Prepended(text: string, q: Quotation): Quotation {
    if q.Unterminated? then q else Quotation(text + q.text, q.rest)
  }

  lemma PrependedNothing(q: Quotation)
    ensures Prepended([], q) == q
  {
  }

  lemma PrependedMore(text: string, q: Quotation)
    requires text != []
    ensures Prepend(text[0], Prepended(text[1..], q)) == Prepended(text, q)
  {
    if q.Quotation? {
      assert [text[0]] + (text[1..] + q.text) == text + q.text;
    }
  }

  lemma UnquoteEscaped(c: char, rest: string)
    ensures Unquote(['\\', c] + rest) == Prepend(c, Unquote(rest))
  {
    var s := ['\\', c] + rest;
    assert s[0] == '\\' && s[1] == c && s[2..] == rest && |s| >= 2;
  }

  lemma UnquotePlain(c: char, rest: string)
    requires c != '"' && c != '\\'
    ensures Unquote([c] + rest) == Prepend(c, Unquote(rest))
  {
    assert ([c] + rest)[1..] == rest;
  }

  /** A quoted parameter is its text without the backslashes, whichever characters are escaped.
      White space or the end of the line must follow, and a quote must close it. */
  lemma QuotedTokenExactly(text: string, escaped: seq<bool>, after: string, rest: string)
    requires |text| == |escaped| && Skipped(after, rest)
    ensures ParamToken(['"'] + Quoted(text, escaped) + ['"'] + after)
            == if after == [] || White(after[0]) then Word(text, rest) else Bad(SpaceExpected)
    ensures ParamToken(['"'] + Quoted(text, escaped)) == Bad(MissingClosingQuote)
    ensures ParamToken(['"'] + Quoted(text, escaped) + ['\\']) == Bad(MissingClosingQuote)
  {
    hide Quoted, Unquote, Chug;
    ChugSkips(after, rest);
    var q := Quoted(text, escaped);
    assert (['"'] + q + ['"'] + after)[1..] == q + (['"'] + after);
    assert (['"'] + q)[1..] == q + [];
    assert (['"'] + q + ['\\'])[1..] == q + ['\\'];
    UnquotesQuoted(text, escaped, ['"'] + after);
    UnquotesQuoted(text, escaped, []);
    UnquotesQuoted(text, escaped, ['\\']);
    QuoteEnds(after);
    assert text + [] == text;
    Characters(Name);
  }

  lemma QuoteEnds(after: string)
    ensures Unquote(['"'] + after) == Quotation([], after)
    ensures Unquote([]) == Unterminated && Unquote(['\\']) == Unterminated
  {
    assert (['"'] + after)[1..] == after;
  }

  /** Only a double quote makes a parameter a quoted one. */
  lemma UnquotedParam(s: string)
    ensures (s != [] && s[0] == '"') || ParamToken(s) == BareToken(Unquoted, s)
    ensures s != [] && s[0] != '"' ==> StringToken(s) == Bad(QuoteExpected)
  {
  }

  // ---------------------------------------------------------------------- lines

  /** The argument loop, word by word: the first 15 tokens decide. */
  predicate Reads(s: string, words: seq<string>, end: string)
    decreases |words|
  {
    if words == [] then s == end
    else ParamToken(s).Word? && ParamToken(s).text == words[0] && Reads(ParamToken(s).rest, words[1..], end)
  }

  lemma {:induction false} ArgumentsRead(s: string, words: seq<string>, end: string, room: nat)
    requires Reads(s, words, end)
    ensures var a := ReadArguments(s, room);
            if |words| >= room then a.ending.Full?
            else if ParamToken(end).End? then a == Arguments(words, Finished)
            else if ParamToken(end).Bad? then a == Arguments(words, Failed(ParamToken(end).problem))
            else true
    decreases |words|
  {
    hide ParamToken;
    if words != [] && room > 0 {
      ArgumentsRead(ParamToken(s).rest, words[1..], end, room - 1);
      assert [words[0]] + words[1..] == words;
    }
  }

  lemma NothingLeft()
    ensures ParamToken([]).End?
  {
  }

  /** A line is a command name and words. With 15 of them or more there are too many, whatever
      follows; before that the line must end, and not with a bad word. */
  lemma LineExactly(line: string, name: string, rest: string, words: seq<string>, end: string)
    requires BareToken(Name, line) == Word(name, rest) && Reads(rest, words, end)
    ensures |words| >= 15 ==> ReadCommand(line) == TooManyArguments
    ensures |words| <= 14 && end == [] ==> ReadCommand(line) == Argv([name] + words)
    ensures |words| <= 14 && ParamToken(end).Bad? ==> ReadCommand(line) == BadArgument(ParamToken(end).problem)
  {
    hide BareToken, ReadArguments, ParamToken, Reads;
    NothingLeft();
    ArgumentsRead(rest, words, end, 15);
  }

  lemma NoName(line: string)
    ensures ReadCommand(line) == NoCommand <==> line == []
    ensures BareToken(Name, line).Bad? ==> ReadCommand(line) == BadCommand(BareToken(Name, line).problem)
  {
    hide ReadArguments;
  }
}
