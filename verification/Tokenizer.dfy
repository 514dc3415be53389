/** tokenizer.c: the tokenizers that cut up the caller's buffer in place. A `char *` is an
    index into the buffer; a NUL marks the end of the string an index points to. */
module Tokenizer {
  import opened Text
  import opened Tokens

  /** `s` is the C string at position `p` of the buffer. */
  predicate HoldsAt(buf: array<char>, p: nat, s: string)
    reads buf
  {
    && p + |s| < buf.Length
    && (forall i :: p <= i < p + |s| ==> buf[i] == s[i - p])
    && buf[p + |s|] == NUL
    && NUL !in s
  }

  /** Nothing below `from` and nothing behind `to` changed. */
  twostate predicate OnlyWithin(buf: array<char>, from: nat, to: nat)
    reads buf
  {
    forall i :: 0 <= i < buf.Length && (i < from || to < i) ==> buf[i] == old(buf[i])
  }

  twostate predicate Unchanged(buf: array<char>)
    reads buf
  {
    forall i :: 0 <= i < buf.Length ==> buf[i] == old(buf[i])
  }

  /** The position of the first character of the string at `p` that is no white space. */
  method SkipSpaces(buf: array<char>, p: nat, ghost s: string) returns (start: nat)
    requires HoldsAt(buf, p, s)
    ensures start == p + LeadingSpaces(s)
  {
    start := p;
    while IsSpace(buf[start])
      invariant p <= start <= p + |s|
      invariant forall k :: 0 <= k < start - p ==> IsSpace(s[k])
      decreases p + |s| - start
    {
      assert start < p + |s|;
      start := start + 1;
    }
    assert start < p + |s| ==> buf[start] == s[start - p];
    LeadingSpacesUnique(s, start - p);
  }

  /** `memmove` of the string at `from`, with its terminator, down to `to`. */
  method MoveDown(buf: array<char>, to: nat, from: nat, ghost s: string)
    requires to <= from && HoldsAt(buf, from, s)
    modifies buf
    ensures HoldsAt(buf, to, s)
    ensures OnlyWithin(buf, to, to + |s|)
  {
    var n := 0;
    while buf[from + n] != NUL
      invariant 0 <= n <= |s|
      invariant buf[from + n] == NUL <==> n == |s|
      invariant forall i :: to <= i < to + n ==> buf[i] == s[i - to]
      invariant forall i :: 0 <= i < buf.Length && (i < to || to + n <= i) ==> buf[i] == old(buf[i])
      decreases |s| - n
    {
      assert buf[from + n] == old(buf[from + n]);
      buf[to + n] := buf[from + n];
      n := n + 1;
    }
    buf[to + n] := NUL;
  }

  /** `g_strchug`: the tail moves down to the same address, the pointer does not advance. */
  method Strchug(buf: array<char>, p: nat, ghost s: string)
    requires HoldsAt(buf, p, s)
    modifies buf
    ensures HoldsAt(buf, p, Chug(s))
    ensures OnlyWithin(buf, p, p + |s|)
  {
    var start := SkipSpaces(buf, p, s);
    MoveDown(buf, p, start, Chug(s));
  }

  /** The outcome of a call agrees with the token that the text `s` at `p` starts with. A word
      sits where the input was and ends before the new input position; the rest of the line is
      the string there. Without a word the character at the new position is NUL exactly when
      the line had ended. */
  predicate Yields(buf: array<char>, p: nat, s: string, token: Token,
                   word: Option<nat>, problem: Option<Problem>, next: nat)
    reads buf
  {
    && p <= next <= p + |s| < buf.Length
    && match token
       case End => word.None? && problem.None? && next == p && buf[next] == NUL
       case Bad(e) => word.None? && problem == Some(e) && buf[next] != NUL
       case Word(text, rest) =>
         && word == Some(p) && problem.None?
         && HoldsAt(buf, p, text)
         && HoldsAt(buf, next, rest)
         && next + |rest| <= p + |s|
         && (p + |text| < next || (rest == [] && p + |text| == next))
  }

  /** The white space at `input` ends a word: terminate it and close up the gap behind it. */
  method EndWord(buf: array<char>, p: nat, input: nat, ghost s: string)
    requires HoldsAt(buf, p, s) && p <= input < p + |s|
    modifies buf
    ensures OnlyWithin(buf, input, p + |s|)
    ensures HoldsAt(buf, p, s[..input - p])
    ensures HoldsAt(buf, input + 1, Chug(s[input - p + 1..]))
  {
    ghost var n := input - p;
    buf[input] := NUL;
    assert HoldsAt(buf, input + 1, s[n + 1..]);
    Strchug(buf, input + 1, s[n + 1..]);
  }

  /** The loop of the bare tokenizers: stops at white space, a foreign character or the end. */
  method ScanBare(style: Style, buf: array<char>, p: nat, ghost s: string) returns (input: nat)
    requires HoldsAt(buf, p, s) && s != []
    ensures p < input <= p + |s| && input == p + Scan(style, s, 1)
  {
    input := p + 1;
    while buf[input] != NUL
      invariant p + 1 <= input <= p + |s|
      invariant Scan(style, s, input - p) == Scan(style, s, 1)
      decreases p + |s| - input
    {
      assert buf[input] == s[input - p];
      if IsSpace(buf[input]) || !ValidNext(style, buf[input]) {
        return;
      }
      input := input + 1;
    }
    assert input == p + |s|;
  }

  /** `tokenizer_next_word` and `tokenizer_next_unquoted`, which differ in the characters they
      accept. Returns the word's position, the problem, and the new `*input_p`. */
  method NextBare(style: Style, buf: array<char>, p: nat, ghost s: string)
      returns (word: Option<nat>, problem: Option<Problem>, next: nat)
    requires HoldsAt(buf, p, s)
    modifies buf
    ensures OnlyWithin(buf, p, p + |s|)
    ensures Yields(buf, p, s, BareToken(style, s), word, problem, next)
    ensures s == [] ==> Unchanged(buf)
  {
    hide Scan, Chug;
    if buf[p] == NUL {
      assert s == [];
      return None, None, p;
    }
    if !ValidFirst(style, buf[p]) {
      return None, Some(FirstProblem(style)), p;
    }
    var input := ScanBare(style, buf, p, s);
    if buf[input] == NUL {
      assert input == p + |s|;
      return Some(p), None, input;
    }
    assert buf[input] == s[input - p];
    if !IsSpace(buf[input]) {
      return None, Some(NextProblem(style)), input;
    }
    EndWord(buf, p, input, s);
    return Some(p), None, input + 1;
  }

  /** The loop of `tokenizer_next_string`: copies the quoted text down over the opening quote.
      Returns the position behind the copy and that of the closing quote, or of the character
      before the terminator when there is no closing quote. */
  method CopyQuoted(buf: array<char>, p: nat, ghost s: string)
      returns (closed: bool, dest: nat, input: nat, ghost text: string)
    requires HoldsAt(buf, p, s) && s != [] && s[0] == '"'
    modifies buf
    ensures OnlyWithin(buf, p, p + |s|)
    ensures closed == Unquote(s[1..]).Quotation?
    ensures p < p + |s| < buf.Length
    ensures !closed ==> p <= input < p + |s| && buf[input] != NUL
    ensures closed ==>
              && p <= dest < input < p + |s| && dest == p + |text| && NUL !in text
              && Unquote(s[1..]) == Quotation(text, s[input - p + 1..])
              && (forall i :: p <= i < dest ==> buf[i] == text[i - p])
              && (forall i :: input <= i < buf.Length ==> buf[i] == old(buf[i]))
  {
    hide PrependAll, Prepend, Unquote;
    dest, input, text := p, p + 1, [];
    PrependNothing(Unquote(s[1..]));
    while buf[input] != '"'
      invariant p <= dest < input <= p + |s|
      invariant dest == p + |text| && NUL !in text
      invariant forall i :: p <= i < dest ==> buf[i] == text[i - p]
      invariant forall i :: 0 <= i < buf.Length && (i < p || dest <= i) ==> buf[i] == old(buf[i])
      invariant Unquote(s[1..]) == PrependAll(text, Unquote(s[input - p..]))
      decreases p + |s| - input
    {
      UnquoteAt(s, input - p);
      PrependAllEmpty(text, []);
      if buf[input] == NUL {
        assert input == p + |s|;
        return false, dest, input - 1, text;
      }
      if buf[input] == '\\' {
        if buf[input + 1] == NUL {
          assert input + 1 == p + |s|;
          return false, dest, input, text;
        }
        input := input + 1;
      }
      assert buf[input] == s[input - p];
      PrependAllStep(text, buf[input], Unquote(s[input + 1 - p..]));
      text := text + [buf[input]];
      buf[dest] := buf[input];
      dest, input := dest + 1, input + 1;
    }
    closed := true;
    UnquoteAt(s, input - p);
    PrependAllEmpty(text, s[input - p + 1..]);
  }

  /** The character at position `j` of quoted text decides how reading goes on. */
  lemma UnquoteAt(s: string, j: nat)
    requires j <= |s|
    ensures j == |s| ==> Unquote(s[j..]) == Unterminated
    ensures j < |s| && s[j] == '"' ==> Unquote(s[j..]) == Quotation([], s[j + 1..])
    ensures j < |s| && s[j] != '"' && s[j] != '\\' ==> Unquote(s[j..]) == Prepend(s[j], Unquote(s[j + 1..]))
    ensures j == |s| - 1 && s[j] == '\\' ==> Unquote(s[j..]) == Unterminated
    ensures j < |s| - 1 && s[j] == '\\' ==> Unquote(s[j..]) == Prepend(s[j + 1], Unquote(s[j + 2..]))
  {
    if j < |s| {
      assert s[j..][1..] == s[j + 1..];
      if j < |s| - 1 {
        assert s[j..][2..] == s[j + 2..];
      }
    }
  }

  /** `tokenizer_next_string`. */
  method NextString(buf: array<char>, p: nat, ghost s: string)
      returns (word: Option<nat>, problem: Option<Problem>, next: nat)
    requires HoldsAt(buf, p, s)
    modifies buf
    ensures OnlyWithin(buf, p, p + |s|)
    ensures Yields(buf, p, s, StringToken(s), word, problem, next)
    ensures s == [] ==> Unchanged(buf)
  {
    if buf[p] == NUL {
      assert s == [];
      return None, None, p;
    }
    if buf[p] != '"' {
      return None, Some(QuoteExpected), p;
    }
    var closed, dest, input;
    ghost var text;
    closed, dest, input, text := CopyQuoted(buf, p, s);
    if !closed {
      return None, Some(MissingClosingQuote), input;
    }
    word, problem, next := EndQuoted(buf, p, dest, input + 1, text, s[input - p + 1..]);
  }

  /** The end of `tokenizer_next_string`: white space or the end of the line must follow. */
  method EndQuoted(buf: array<char>, p: nat, dest: nat, input: nat, ghost text: string, ghost rest: string)
      returns (word: Option<nat>, problem: Option<Problem>, next: nat)
    requires p <= dest < input && HoldsAt(buf, input, rest)
    requires dest == p + |text| && NUL !in text
    requires forall i :: p <= i < dest ==> buf[i] == text[i - p]
    modifies buf
    ensures OnlyWithin(buf, p, input + |rest|)
    ensures input + |rest| < buf.Length
    ensures if rest != [] && !IsSpace(rest[0])
            then word.None? && problem == Some(SpaceExpected) && next == input && buf[next] != NUL
            else word == Some(p) && problem.None? && next == input
                 && HoldsAt(buf, p, text) && HoldsAt(buf, next, Chug(rest))
  {
    assert buf[input] == if rest == [] then NUL else rest[0];
    if buf[input] != NUL && !IsSpace(buf[input]) {
      return None, Some(SpaceExpected), input;
    }
    buf[dest] := NUL;
    assert HoldsAt(buf, input, rest);
    Strchug(buf, input, rest);
    return Some(p), None, input;
  }

  function PrependAll(cs: string, q: Quotation): Quotation {
    match q
    case Unterminated => Unterminated
    case Quotation(text, rest) => Quotation(cs + text, rest)
  }

  lemma PrependNothing(q: Quotation)
    ensures PrependAll([], q) == q
  {
  }

  lemma PrependAllEmpty(cs: string, rest: string)
    ensures PrependAll(cs, Quotation([], rest)) == Quotation(cs, rest)
    ensures PrependAll(cs, Unterminated) == Unterminated
  {
    assert cs + [] == cs;
  }

  lemma PrependAllStep(cs: string, c: char, q: Quotation)
    ensures PrependAll(cs, Prepend(c, q)) == PrependAll(cs + [c], q)
  {
    if q.Quotation? {
      assert cs + ([c] + q.text) == cs + [c] + q.text;
    }
  }

  /** `tokenizer_next_param`. */
  method NextParam(buf: array<char>, p: nat, ghost s: string)
      returns (word: Option<nat>, problem: Option<Problem>, next: nat)
    requires HoldsAt(buf, p, s)
    modifies buf
    ensures OnlyWithin(buf, p, p + |s|)
    ensures Yields(buf, p, s, ParamToken(s), word, problem, next)
    ensures s == [] ==> Unchanged(buf)
  {
    if buf[p] == '"' {
      assert s[0] == '"';
      word, problem, next := NextString(buf, p, s);
    } else {
      word, problem, next := NextBare(Unquoted, buf, p, s);
    }
  }
}
