/** A command on its way from the client's argument list to the server's argv: `escape` and
    `mpdcron_send_commandv` print it, the server reads one line and `command_process` cuts it up. */
module CommandLine {
  import opened Text
  import opened Tokens
  import opened Tokenizer

  /** `COMMAND_ARGV_MAX`. */
  const ARGV_MAX: nat := 16

  // ------------------------------------------------------------------- reading

  datatype Ending = Finished | Full | Failed(problem: Problem)

  datatype Arguments = Arguments(words: seq<string>, ending: Ending)

  function Cons(word: string, a: Arguments): Arguments {
    Arguments([word] + a.words, a.ending)
  }

  /** The words of `s`, at most `room` of them, and what stopped the loop. */
  function ReadArguments(s: string, room: nat): Arguments
    decreases room
  {
    if room == 0 then Arguments([], Full)
    else
      match ParamToken(s)
      case End => Arguments([], Finished)
      case Bad(e) => Arguments([], Failed(e))
      case Word(text, rest) => Cons(text, ReadArguments(rest, room - 1))
  }

  /** What `command_process` makes of a line before it looks the command up. */
  datatype Reading =
    | NoCommand
    | BadCommand(problem: Problem)
    | TooManyArguments
    | BadArgument(problem: Problem)
    | Argv(argv: seq<string>)

  function ReadCommand(line: string): Reading {
    match BareToken(Name, line)
    case End => NoCommand
    case Bad(e) => BadCommand(e)
    case Word(name, rest) =>
      var a := ReadArguments(rest, ARGV_MAX - 1);
      match a.ending
      case Full => TooManyArguments
      case Failed(e) => BadArgument(e)
      case Finished => Argv([name] + a.words)
  }

  /** `s` is the C string at position `p` of the bytes of a buffer. */
  predicate HoldsIn(bytes: seq<char>, p: nat, s: string) {
    p + |s| < |bytes| && bytes[p..p + |s|] == s && bytes[p + |s|] == NUL && NUL !in s
  }

  /** The strings at the positions `at` are `words`, and all of them end before `limit`. */
  predicate WordsIn(bytes: seq<char>, at: seq<nat>, words: seq<string>, limit: nat) {
    && |at| == |words|
    && forall k :: 0 <= k < |at| ==> at[k] + |words[k]| < limit && HoldsIn(bytes, at[k], words[k])
  }

  /** Words that end before the input position survive a change behind it. */
  lemma WordsStay(before: seq<char>, after: seq<char>, at: seq<nat>, words: seq<string>, limit: nat)
    requires WordsIn(before, at, words, limit)
    requires |before| == |after| && forall i :: 0 <= i < |before| && i < limit ==> before[i] == after[i]
    ensures WordsIn(after, at, words, limit)
  {
    forall k | 0 <= k < |at|
      ensures HoldsIn(after, at[k], words[k])
    {
      assert HoldsIn(before, at[k], words[k]);
      assert after[at[k]..at[k] + |words[k]|] == before[at[k]..at[k] + |words[k]|];
    }
  }

  /** One turn of the argument loop: the words so far stay, and the next token is read. */
  method NextArgument(buf: array<char>, p: nat, ghost s: string,
                      ghost at: seq<nat>, ghost words: seq<string>, ghost limit: nat)
      returns (word: Option<nat>, problem: Option<Problem>, next: nat)
    requires HoldsAt(buf, p, s)
    requires WordsIn(buf[..], at, words, limit) && (limit <= p || s == [])
    modifies buf
    ensures Yields(buf, p, s, ParamToken(s), word, problem, next)
    ensures WordsIn(buf[..], at, words, limit)
  {
    hide ParamToken;
    ghost var before := buf[..];
    word, problem, next := NextParam(buf, p, s);
    WordsStay(before, buf[..], at, words, limit);
  }

  /** The argument loop of `command_process`, entered with the command's name in argv[0]. */
  method CollectArguments(buf: array<char>, p: nat, ghost s: string, argv0: nat, ghost name: string)
      returns (argv: seq<nat>, problem: Option<Problem>, next: nat)
    requires HoldsAt(buf, p, s) && WordsIn(buf[..], [argv0], [name], if s == [] then p + 1 else p)
    modifies buf
    ensures 1 <= |argv| <= ARGV_MAX && next < buf.Length
    ensures var a := ReadArguments(s, ARGV_MAX - 1);
            && WordsIn(buf[..], argv, [name] + a.words, p + |s| + 1)
            && (a.ending.Full? <==> |argv| == ARGV_MAX)
            && (a.ending.Finished? ==> buf[next] == NUL)
            && (a.ending.Failed? ==> problem == Some(a.ending.problem) && buf[next] != NUL)
  {
    hide ParamToken;
    argv, problem, next := [argv0], None, p;
    ghost var all := ReadArguments(s, ARGV_MAX - 1);
    ghost var words, rest := [name], s;
    while |argv| < ARGV_MAX
      invariant 1 <= |argv| <= ARGV_MAX
      invariant p <= next && next + |rest| <= p + |s| && HoldsAt(buf, next, rest)
      invariant WordsIn(buf[..], argv, words, if rest == [] then next + 1 else next)
      invariant Progress(name, all, words, ReadArguments(rest, ARGV_MAX - |argv|))
      decreases ARGV_MAX - |argv|
    {
      ghost var a := ReadArguments(rest, ARGV_MAX - |argv|);
      ghost var before := next;
      var word;
      word, problem, next := NextArgument(buf, next, rest, argv, words, if rest == [] then next + 1 else next);
      if word.None? {
        return;
      }
      assert word == Some(before);
      argv := argv + [word.value];
      ghost var text := ParamToken(rest).text;
      assert words + a.words == words + [text] + a.words[1..];
      words := words + [text];
      rest := ParamToken(rest).rest;
    }
  }

  /** The words found so far, followed by those still to come, are all words. */
  predicate Progress(name: string, all: Arguments, words: seq<string>, tocome: Arguments) {
    all.ending == tocome.ending && [name] + all.words == words + tocome.words
  }

  datatype InPlace =
    | NothingGiven
    | NameProblem(problem: Problem)
    | Overfull
    | ArgumentProblem(problem: Problem)
    | Words(argv: seq<nat>)

  /** The first half of `command_process`: the line is cut up in its own buffer, and argv ends
      up pointing at exactly the words that `ReadCommand` finds in the line. */
  method CutCommand(buf: array<char>, ghost line: string) returns (cut: InPlace)
    requires HoldsAt(buf, 0, line)
    modifies buf
    ensures match ReadCommand(line)
            case NoCommand => cut == NothingGiven
            case BadCommand(e) => cut == NameProblem(e)
            case TooManyArguments => cut == Overfull
            case BadArgument(e) => cut == ArgumentProblem(e)
            case Argv(words) => cut.Words? && WordsIn(buf[..], cut.argv, words, buf.Length)
  {
    hide Scan, ReadArguments;
    var name, problem, next := NextBare(Name, buf, 0, line);
    if name.None? {
      if buf[next] == NUL {
        return NothingGiven;
      }
      return NameProblem(problem.value);
    }
    ghost var token := BareToken(Name, line);
    assert HoldsIn(buf[..], 0, token.text);
    var argv;
    argv, problem, next := CollectArguments(buf, next, token.rest, name.value, token.text);
    if |argv| >= ARGV_MAX {
      return Overfull;
    }
    if buf[next] != NUL {
      return ArgumentProblem(problem.value);
    }
    return Words(argv);
  }

  // ------------------------------------------------------------------ printing

  /** `escape`: a backslash before every quote and backslash. */
  function Escape(s: string): string {
    if s == [] then []
    else (if s[0] == '"' || s[0] == '\\' then ['\\', s[0]] else [s[0]]) + Escape(s[1..])
  }

  function PrintedArguments(args: seq<string>): string {
    if args == [] then [] else " \"" + Escape(args[0]) + "\"" + PrintedArguments(args[1..])
  }

  function Printed(name: string, args: seq<string>): string {
    name + PrintedArguments(args)
  }

  lemma {:induction false} EscapeAppend(a: string, b: string)
    ensures Escape(a + b) == Escape(a) + Escape(b)
  {
    if a == [] {
      assert a + b == b;
    } else {
      assert (a + b)[1..] == a[1..] + b;
      EscapeAppend(a[1..], b);
    }
  }

  lemma {:induction false} PrintedAppend(a: seq<string>, b: seq<string>)
    ensures PrintedArguments(a + b) == PrintedArguments(a) + PrintedArguments(b)
  {
    if a == [] {
      assert a + b == b;
    } else {
      assert (a + b)[1..] == a[1..] + b;
      PrintedAppend(a[1..], b);
    }
  }

  /** The loop of `escape`. */
  method EscapeString(src: string) returns (dest: string)
    ensures dest == Escape(src)
  {
    dest := [];
    for i := 0 to |src|
      invariant dest == Escape(src[..i])
    {
      assert src[..i + 1] == src[..i] + [src[i]];
      EscapeAppend(src[..i], [src[i]]);
      if src[i] == '"' || src[i] == '\\' {
        dest := dest + ['\\'];
      }
      dest := dest + [src[i]];
    }
    assert src[..|src|] == src;
  }

  /** `mpdcron_send_commandv`: what goes to the server, newline included. */
  method SendCommand(name: string, args: seq<string>) returns (sent: string)
    ensures sent == Printed(name, args) + [LF]
  {
    sent := name;
    for i := 0 to |args|
      invariant sent == Printed(name, args[..i])
    {
      assert args[..i + 1] == args[..i] + [args[i]];
      PrintedAppend(args[..i], [args[i]]);
      assert [args[i]][1..] == [];
      var escaped := EscapeString(args[i]);
      sent := sent + " ";
      sent := sent + "\"";
      sent := sent + escaped;
      sent := sent + "\"";
    }
    assert args[..|args|] == args;
    sent := sent + [LF];
  }

  /** The line the server reads: everything up to the first newline. */
  function Received(sent: string): string {
    sent[..IndexOf(sent, LF)]
  }

  // ---------------------------------------------------------------- round trip

  predicate Letter(c: char) {
    'a' <= c <= 'z' || 'A' <= c <= 'Z'
  }

  /** A letter, and then letters, digits and underscores. */
  predicate ValidName(name: string) {
    && name != [] && Letter(name[0])
    && forall k :: 1 <= k < |name| ==> Letter(name[k]) || '0' <= name[k] <= '9' || name[k] == '_'
  }

  /** One escaped character in front of quoted text. */
  lemma UnquoteOne(c: char, tail: string)
    ensures Escape([c]) + tail != [] && Unquote(Escape([c]) + tail) == Prepend(c, Unquote(tail))
  {
    assert Escape([c][1..]) == [];
    var s := Escape([c]) + tail;
    if c == '"' || c == '\\' {
      assert Escape([c]) == ['\\', c] + [];
      assert s[0] == '\\' && s[1] == c && s[2..] == tail;
    } else {
      assert Escape([c]) == [c] + [];
      assert s[0] == c && s[1..] == tail;
    }
  }

  lemma EscapeOne(arg: string)
    requires arg != []
    ensures Escape(arg) == Escape([arg[0]]) + Escape(arg[1..])
  {
    assert arg == [arg[0]] + arg[1..];
    EscapeAppend([arg[0]], arg[1..]);
  }

  /** Only quotes and backslashes are escaped; text without them is printed as it is. */
  lemma {:induction false} EscapeExactly(text: string, c: char)
    requires '"' !in text && '\\' !in text
    ensures Escape(text) == text
    ensures Escape([c]) == if c == '"' || c == '\\' then ['\\', c] else [c]
  {
    assert [c][1..] == [];
    if text != [] {
      EscapeExactly(text[1..], c);
      assert text == [text[0]] + text[1..];
    }
  }

  lemma UnquoteClosed(rest: string)
    ensures Unquote(Escape([]) + ['"'] + rest) == Quotation([], rest)
  {
    assert (['"'] + rest)[1..] == rest;
  }

  lemma {:induction false} UnquoteEscape(arg: string, rest: string)
    ensures Unquote(Escape(arg) + ['"'] + rest) == Quotation(arg, rest)
  {
    hide Unquote, Escape;
    if arg == [] {
      UnquoteClosed(rest);
    } else {
      UnquoteEscape(arg[1..], rest);
      EscapeOne(arg);
      var tail := Escape(arg[1..]) + ['"'] + rest;
      UnquoteOne(arg[0], tail);
      assert Escape(arg) + ['"'] + rest == Escape([arg[0]]) + tail;
      assert [arg[0]] + arg[1..] == arg;
    }
  }

  lemma {:induction false} UnquoteOpen(arg: string)
    ensures Unquote(Escape(arg)) == Unterminated
  {
    if arg != [] {
      UnquoteOpen(arg[1..]);
      EscapeOne(arg);
      UnquoteOne(arg[0], Escape(arg[1..]));
    }
  }

  lemma ChugSpaceQuote(s: string)
    ensures Chug(" \"" + s) == ['"'] + s
  {
    LeadingSpacesUnique(" \"" + s, 1);
  }

  /** A printed argument reads back as itself, whatever it contains. */
  lemma ReadsArgument(arg: string, tail: string)
    requires tail == [] || tail[0] == ' '
    ensures ParamToken(Chug(" \"" + Escape(arg) + "\"" + tail)) == Word(arg, Chug(tail))
  {
    var s := Escape(arg) + ['"'] + tail;
    assert " \"" + Escape(arg) + "\"" + tail == " \"" + s;
    ChugSpaceQuote(s);
    assert (['"'] + s)[1..] == s;
    UnquoteEscape(arg, tail);
  }

  function Prefix(words: seq<string>, a: Arguments): Arguments {
    Arguments(words + a.words, a.ending)
  }

  lemma ReadStep(s: string, room: nat, word: string, rest: string)
    requires ParamToken(s) == Word(word, rest) && room > 0
    ensures ReadArguments(s, room) == Prefix([word], ReadArguments(rest, room - 1))
  {
  }

  /** Printed arguments, up to the room there is, followed by what the rest of the line holds. */
  lemma {:induction false} ReadsArguments(args: seq<string>, tail: string, room: nat)
    requires tail == [] || tail[0] == ' '
    ensures var a := ReadArguments(Chug(PrintedArguments(args) + tail), room);
            if |args| <= room then a == Prefix(args, ReadArguments(Chug(tail), room - |args|)) else a.ending == Full
    decreases room, |args|
  {
    hide ParamToken, Chug, Escape;
    if args == [] {
      assert PrintedArguments(args) + tail == tail;
      assert Prefix([], ReadArguments(Chug(tail), room)) == ReadArguments(Chug(tail), room);
    } else if room > 0 {
      var rest := PrintedArguments(args[1..]) + tail;
      assert PrintedArguments(args) + tail == " \"" + Escape(args[0]) + "\"" + rest;
      ReadsArgument(args[0], rest);
      ReadStep(Chug(PrintedArguments(args) + tail), room, args[0], Chug(rest));
      ReadsArguments(args[1..], tail, room - 1);
      if |args| <= room {
        PrefixCons(args, ReadArguments(Chug(tail), room - |args|));
      }
    }
  }

  lemma PrefixCons(words: seq<string>, a: Arguments)
    requires words != []
    ensures Prefix([words[0]], Prefix(words[1..], a)) == Prefix(words, a)
  {
    assert [words[0]] + (words[1..] + a.words) == words + a.words;
  }

  lemma {:induction false} ScanName(name: string, tail: string, i: nat)
    requires ValidName(name) && 1 <= i <= |name|
    requires tail == [] || tail[0] == ' '
    ensures Scan(Name, name + tail, i) == |name|
    decreases |name| - i
  {
    if i < |name| {
      ScanName(name, tail, i + 1);
    }
  }

  lemma ReadsName(name: string, tail: string)
    requires ValidName(name) && (tail == [] || tail[0] == ' ')
    ensures BareToken(Name, name + tail) == Word(name, Chug(tail))
  {
    var s := name + tail;
    ScanName(name, tail, 1);
    assert s[0] == name[0];
    if tail == [] {
      assert s == name;
    } else {
      assert s[..|name|] == name && s[|name|] == ' ';
      assert s[|name| + 1..] == tail[1..];
      assert tail == [' '] + tail[1..];
      ChugSpace(tail[1..]);
    }
  }

  lemma ChugSpace(s: string)
    ensures Chug([' '] + s) == Chug(s)
  {
    var t := [' '] + s;
    assert t[1..] == s;
    assert LeadingSpaces(t) == 1 + LeadingSpaces(s);
  }

  /** The server's reading of a printed command followed by `tail`. */
  lemma {:induction false} ReadsPrinted(name: string, args: seq<string>, tail: string)
    requires ValidName(name) && (tail == [] || tail[0] == ' ')
    ensures var a := ReadArguments(Chug(PrintedArguments(args) + tail), ARGV_MAX - 1);
            ReadCommand(Printed(name, args) + tail) ==
              match a.ending
              case Full => TooManyArguments
              case Failed(e) => BadArgument(e)
              case Finished => Argv([name] + a.words)
  {
    hide ReadArguments, Chug, Scan;
    assert Printed(name, args) + tail == name + (PrintedArguments(args) + tail);
    ReadsName(name, PrintedArguments(args) + tail);
  }

  lemma ReadsWhole(name: string, args: seq<string>)
    requires ValidName(name)
    ensures ReadCommand(Printed(name, args)) ==
              if |args| < ARGV_MAX - 1 then Argv([name] + args) else TooManyArguments
  {
    assert Printed(name, args) + [] == Printed(name, args);
    ReadsPrinted(name, args, []);
    ReadsArguments(args, [], ARGV_MAX - 1);
    assert Chug([]) == [];
    assert args + [] == args;
  }

  // ------------------------------------------------------------------- newlines

  predicate LineFree(args: seq<string>) {
    forall k :: 0 <= k < |args| ==> LF !in args[k]
  }

  lemma {:induction false} EscapeLineFree(s: string)
    ensures LF in Escape(s) <==> LF in s
  {
    if s != [] {
      EscapeLineFree(s[1..]);
      assert s == [s[0]] + s[1..];
    }
  }

  lemma {:induction false} PrintedLineFree(args: seq<string>)
    requires LineFree(args)
    ensures LF !in PrintedArguments(args)
  {
    if args != [] {
      EscapeLineFree(args[0]);
      PrintedLineFree(args[1..]);
    }
  }

  lemma NameLineFree(name: string)
    requires ValidName(name)
    ensures LF !in name
  {
    forall k | 0 <= k < |name|
      ensures name[k] != LF
    {
      assert k == 0 || ValidNext(Name, name[k]);
    }
  }

  /** The first argument with a newline, and what stands before that newline. */
  lemma {:induction false} FirstNewline(args: seq<string>) returns (k: nat, i: nat)
    requires !LineFree(args)
    ensures k < |args| && LineFree(args[..k])
    ensures i < |args[k]| && args[k][i] == LF && LF !in args[k][..i]
  {
    if LF in args[0] {
      k, i := 0, IndexOf(args[0], LF);
    } else {
      k, i := FirstNewline(args[1..]);
      assert args[..k + 1] == [args[0]] + args[1..][..k];
      k := k + 1;
    }
  }

  /** The line that arrives when argument `k` has its first newline at `i`. */
  lemma ReceivedCut(name: string, args: seq<string>, k: nat, i: nat)
    requires ValidName(name)
    requires k < |args| && LineFree(args[..k])
    requires i < |args[k]| && args[k][i] == LF && LF !in args[k][..i]
    ensures Received(Printed(name, args) + [LF]) == Printed(name, args[..k]) + (" \"" + Escape(args[k][..i]))
  {
    hide Escape, PrintedArguments, IndexOf;
    var head, open := PrintedArguments(args[..k]), Escape(args[k][..i]);
    var after := Escape(args[k][i + 1..]);
    var others := PrintedArguments(args[k + 1..]);
    NameLineFree(name);
    PrintedLineFree(args[..k]);
    EscapeLineFree(args[k][..i]);
    PrintedCut(args, k, i);
    Regroup(name, head, open, after, others);
    CutAtNewline(name + head + (" \"" + open), after + "\"" + others + [LF]);
  }

  lemma Regroup(name: string, head: string, open: string, after: string, others: string)
    ensures name + (head + (" \"" + open + [LF] + after + "\"" + others)) + [LF]
            == name + head + (" \"" + open) + [LF] + (after + "\"" + others + [LF])
  {
  }

  lemma CutAtNewline(line: string, after: string)
    requires LF !in line
    ensures Received(line + [LF] + after) == line
  {
    var sent := line + [LF] + after;
    assert sent[|line|] == LF && sent[..|line|] == line;
    IndexOfUnique(sent, LF, |line|);
  }

  lemma PrintedCut(args: seq<string>, k: nat, i: nat)
    requires k < |args| && i < |args[k]| && args[k][i] == LF
    ensures PrintedArguments(args) == PrintedArguments(args[..k]) +
              (" \"" + Escape(args[k][..i]) + [LF] + Escape(args[k][i + 1..]) + "\"" + PrintedArguments(args[k + 1..]))
  {
    hide Escape, PrintedArguments;
    var tail := args[k..];
    assert args == args[..k] + tail;
    PrintedAppend(args[..k], tail);
    assert tail[0] == args[k] && tail[1..] == args[k + 1..];
    PrintedFirst(tail);
    var before, after := args[k][..i], args[k][i + 1..];
    assert args[k] == before + ([LF] + after);
    EscapeAppend(before, [LF] + after);
    EscapeNewline(after);
  }

  lemma PrintedFirst(args: seq<string>)
    requires args != []
    ensures PrintedArguments(args) == " \"" + Escape(args[0]) + "\"" + PrintedArguments(args[1..])
  {
  }

  lemma EscapeNewline(after: string)
    ensures Escape([LF] + after) == [LF] + Escape(after)
  {
    assert ([LF] + after)[1..] == after;
  }

  /** A newline in an argument cuts the command inside its quotes; the server never sees the
      command as complete. */
  lemma {:induction false} NewlineRejected(name: string, args: seq<string>)
    requires ValidName(name) && !LineFree(args)
    ensures !ReadCommand(Received(Printed(name, args) + [LF])).Argv?
  {
    var k, i := FirstNewline(args);
    ReceivedCut(name, args, k, i);
    var open := Escape(args[k][..i]);
    var tail := " \"" + open;
    ReadsPrinted(name, args[..k], tail);
    ReadsArguments(args[..k], tail, ARGV_MAX - 1);
    ChugSpaceQuote(open);
    assert (['"'] + open)[1..] == open;
    UnquoteOpen(args[k][..i]);
    assert ParamToken(Chug(tail)) == Bad(MissingClosingQuote);
  }

  /** The command round trip: the argv the server assembles from what the client sent is the
      client's argument list exactly when there are at most 14 arguments and none of them
      contains a newline; quotes, backslashes, spaces and empty arguments all survive. */
  lemma {:induction false} CommandRoundTrip(name: string, args: seq<string>)
    requires ValidName(name)
    ensures ReadCommand(Received(Printed(name, args) + [LF])) == Argv([name] + args)
            <==> |args| <= 14 && LineFree(args)
  {
    if LineFree(args) {
      var line := Printed(name, args);
      NameLineFree(name);
      PrintedLineFree(args);
      IndexOfUnique(line + [LF], LF, |line|);
      assert Received(line + [LF]) == line;
      ReadsWhole(name, args);
    } else {
      NewlineRejected(name, args);
    }
  }
}
