/** The way back: the lines the list, listinfo and listtags handlers print, and the client's
    parsers for them. The four printers of a view and the four parsers differ in the keys of
    the names they carry; `Kind` says which. */
module Responses {
  import opened Text

  datatype Kind = SongKind | AlbumKind | ArtistKind | GenreKind

  datatype View = ListView | InfoView | TagsView

  /** A row as the server selected it. Only an album's artist may be NULL. `tags` are the pieces
      of its tags column. */
  datatype Entity = Entity(id: int, name: string, artist: Option<string>, playCount: int, love: int, kill: int,
                           rating: int, karma: int, lastPlayed: Option<string>, tags: seq<string>)

  /** `struct mpdcron_song` and `struct mpdcron_entity`; NULL strings are None. The date is kept
      as the text that arrived. */
  datatype Item = Item(id: int, name: Option<string>, artist: Option<string>, playCount: int, love: int, kill: int,
                       rating: int, karma: int, lastPlayed: Option<string>, tags: seq<string>)

  /** `g_new0` and the id. */
  function NewItem(id: int): Item {
    Item(id, None, None, 0, 0, 0, 0, 0, None, [])
  }

  function NameKey(k: Kind): string {
    match k
    case SongKind => "file"
    case AlbumKind => "Album"
    case ArtistKind => "Artist"
    case GenreKind => "Genre"
  }

  // -------------------------------------------------------------------- printing

  datatype Pair = Pair(key: string, value: string)

  function PairLine(p: Pair): string {
    p.key + ": " + p.value
  }

  function IntPair(key: string, n: int): Pair {
    Pair(key, IntText(n))
  }

  /** What `%s` prints for a string that may be NULL. */
  function Shown(s: Option<string>): string {
    s.GetOr("(null)")
  }

  function TagPairs(tags: seq<string>): seq<Pair> {
    if tags == [] then []
    else TagPairs(tags[..|tags| - 1]) + if tags[|tags| - 1] == [] then [] else [Pair("Tag", tags[|tags| - 1])]
  }

  function NamePairs(k: Kind, e: Entity): seq<Pair> {
    [Pair(NameKey(k), e.name)] + if k == AlbumKind then [Pair("Artist", Shown(e.artist))] else []
  }

  function InfoPairs(k: Kind, e: Entity): seq<Pair> {
    [IntPair("Play Count", e.playCount), IntPair("Love", e.love), IntPair("Kill", e.kill), IntPair("Rating", e.rating)]
    + (if k == SongKind then
         [IntPair("Karma", e.karma)] + if e.lastPlayed.Some? then [Pair("Last Played", e.lastPlayed.value)] else []
       else [])
  }

  /** What a handler prints for one row after its id. */
  function DetailPairs(k: Kind, v: View, e: Entity): seq<Pair> {
    NamePairs(k, e)
    + match v
      case ListView => []
      case InfoView => InfoPairs(k, e)
      case TagsView => TagPairs(e.tags)
  }

  function EntityPairs(k: Kind, v: View, e: Entity): seq<Pair> {
    [IntPair("id", e.id)] + DetailPairs(k, v, e)
  }

  function AllPairs(k: Kind, v: View, rows: seq<Entity>): seq<Pair> {
    if rows == [] then [] else EntityPairs(k, v, rows[0]) + AllPairs(k, v, rows[1..])
  }

  /** `command_puts` adds the newline. */
  function PairsText(pairs: seq<Pair>): string {
    if pairs == [] then [] else PairLine(pairs[0]) + [LF] + PairsText(pairs[1..])
  }

  /** The whole answer, with the final OK. */
  function ResponseText(k: Kind, v: View, rows: seq<Entity>): string {
    PairsText(AllPairs(k, v, rows)) + "OK" + [LF]
  }

  lemma {:induction false} PairsTextAppend(a: seq<Pair>, b: seq<Pair>)
    ensures PairsText(a + b) == PairsText(a) + PairsText(b)
  {
    if a == [] {
      assert a + b == b;
    } else {
      assert (a + b)[1..] == a[1..] + b;
      PairsTextAppend(a[1..], b);
    }
  }

  lemma {:induction false} AllPairsAppend(k: Kind, v: View, rows: seq<Entity>, e: Entity)
    ensures AllPairs(k, v, rows + [e]) == AllPairs(k, v, rows) + EntityPairs(k, v, e)
  {
    if rows == [] {
      assert [] + [e] == [e] && [e][1..] == [];
    } else {
      assert (rows + [e])[1..] == rows[1..] + [e];
      AllPairsAppend(k, v, rows[1..], e);
    }
  }

  /** `command_puts` of one pair. */
  method Puts(output: string, ghost before: seq<Pair>, p: Pair) returns (r: string)
    requires output == PairsText(before)
    ensures r == PairsText(before + [p])
  {
    PairsTextAppend(before, [p]);
    assert [p][1..] == [];
    r := output + p.key + ": " + p.value + [LF];
  }

  /** The row loop that every handler of the view shares. */
  method PrintRows(k: Kind, v: View, rows: seq<Entity>) returns (output: string)
    ensures output == ResponseText(k, v, rows)
  {
    hide EntityPairs, PairLine;
    output := [];
    for i := 0 to |rows|
      invariant output == PairsText(AllPairs(k, v, rows[..i]))
    {
      assert rows[..i + 1] == rows[..i] + [rows[i]];
      AllPairsAppend(k, v, rows[..i], rows[i]);
      output := PrintRow(k, v, rows[i], output, AllPairs(k, v, rows[..i]));
    }
    assert rows[..|rows|] == rows;
    output := output + "OK" + [LF];
  }

  method PrintRow(k: Kind, v: View, e: Entity, output: string, ghost before: seq<Pair>) returns (r: string)
    requires output == PairsText(before)
    ensures r == PairsText(before + EntityPairs(k, v, e))
  {
    hide PairsText, IntText;
    ghost var done := before;
    r := Puts(output, done, IntPair("id", e.id));
    done := done + [IntPair("id", e.id)];
    r := Puts(r, done, Pair(NameKey(k), e.name));
    done := done + [Pair(NameKey(k), e.name)];
    if k == AlbumKind {
      r := Puts(r, done, Pair("Artist", Shown(e.artist)));
      done := done + [Pair("Artist", Shown(e.artist))];
    }
    assert done == before + ([IntPair("id", e.id)] + NamePairs(k, e));
    match v {
      case ListView =>
        assert done == before + EntityPairs(k, v, e);
      case InfoView =>
        r := PrintInfo(k, e, r, done);
        assert done + InfoPairs(k, e) == before + EntityPairs(k, v, e);
      case TagsView =>
        r := PrintTags(e.tags, r, done);
        assert done + TagPairs(e.tags) == before + EntityPairs(k, v, e);
    }
  }

  method PrintInfo(k: Kind, e: Entity, output: string, ghost before: seq<Pair>) returns (r: string)
    requires output == PairsText(before)
    ensures r == PairsText(before + InfoPairs(k, e))
  {
    hide PairsText, IntText;
    var counts := [IntPair("Play Count", e.playCount), IntPair("Love", e.love), IntPair("Kill", e.kill),
                         IntPair("Rating", e.rating)];
    r := Puts(output, before, counts[0]);
    r := Puts(r, before + [counts[0]], counts[1]);
    r := Puts(r, before + [counts[0]] + [counts[1]], counts[2]);
    r := Puts(r, before + [counts[0]] + [counts[1]] + [counts[2]], counts[3]);
    assert before + [counts[0]] + [counts[1]] + [counts[2]] + [counts[3]] == before + counts;
    if k == SongKind {
      ghost var karma := IntPair("Karma", e.karma);
      r := Puts(r, before + counts, IntPair("Karma", e.karma));
      if e.lastPlayed.Some? {
        r := Puts(r, before + counts + [karma], Pair("Last Played", e.lastPlayed.value));
        assert before + counts + [karma] + [Pair("Last Played", e.lastPlayed.value)] == before + InfoPairs(k, e);
      } else {
        assert before + counts + [karma] == before + InfoPairs(k, e);
      }
    } else {
      assert before + counts == before + InfoPairs(k, e);
    }
  }

  method PrintTags(tags: seq<string>, output: string, ghost before: seq<Pair>) returns (r: string)
    requires output == PairsText(before)
    ensures r == PairsText(before + TagPairs(tags))
  {
    hide PairsText;
    r := output;
    assert before + [] == before;
    for i := 0 to |tags|
      invariant r == PairsText(before + TagPairs(tags[..i]))
    {
      assert tags[..i + 1][..i] == tags[..i];
      if tags[i] != [] {
        r := Puts(r, before + TagPairs(tags[..i]), Pair("Tag", tags[i]));
        assert before + TagPairs(tags[..i]) + [Pair("Tag", tags[i])] == before + TagPairs(tags[..i + 1]);
      } else {
        assert TagPairs(tags[..i + 1]) == TagPairs(tags[..i]) + [] == TagPairs(tags[..i]);
      }
    }
    assert tags[..|tags|] == tags;
  }

  // --------------------------------------------------------------------- reading

  datatype Fed =
    | Success
    | ServerError(code: int, at: int, message: Option<string>)
    | Malformed
    | NameValue(name: string, value: string)

  const ERROR_SERVER_UNKNOWN: int := 5

  function SkipBlanks(s: string): string {
    if s != [] && s[0] == ' ' then SkipBlanks(s[1..]) else s
  }

  function From(s: string, i: nat): string {
    if i <= |s| then s[i..] else []
  }

  /** The part of an ACK line behind the bracket: the braces are skipped, then blanks. */
  function AckMessage(p: string): Option<string> {
    var close := IndexOf(p, '}');
    var q := if '{' in p && close < |p| then p[close + 1..] else p;
    var m := SkipBlanks(q);
    if m == [] then None else Some(m)
  }

  function FeedAck(line: string): Fed {
    var i := IndexOf(line, '[');
    if i == |line| then ServerError(ERROR_SERVER_UNKNOWN, 0, None)
    else
      var code := Strtol(line[i + 1..]);
      var at := if code.1 != [] && code.1[0] == '@' then Strtol(code.1[1..]) else (0, code.1);
      var close := IndexOf(at.1, ']');
      if close == |at.1| then Malformed
      else ServerError(code.0, at.0, AckMessage(at.1[close + 1..]))
  }

  /** `mpdcron_parser_feed`. */
  function Feed(line: string): Fed {
    if line == "OK" then Success
    else if "ACK" <= line then FeedAck(line)
    else
      var i := IndexOf(line, ':');
      if i + 1 >= |line| || line[i + 1] != ' ' then Malformed
      else NameValue(line[..i], line[i + 2..])
  }

  /** The key/value chain of the four parsers after "id"; None is a key they do not know. */
  function SetField(k: Kind, x: Item, name: string, value: string): Option<Item> {
    if name == NameKey(k) then Some(x.(name := Some(value)))
    else if k == AlbumKind && name == "Artist" then Some(x.(artist := Some(value)))
    else if name == "Love" then Some(x.(love := Atoi(value)))
    else if name == "Kill" then Some(x.(kill := Atoi(value)))
    else if name == "Rating" then Some(x.(rating := Atoi(value)))
    else if name == "Play Count" then Some(x.(playCount := Atoi(value)))
    else if k == SongKind && name == "Karma" then Some(x.(karma := Atoi(value)))
    else if k == SongKind && name == "Last Played" then Some(x.(lastPlayed := Some(value)))
    else if name == "Tag" then Some(x.(tags := [value] + x.tags))
    else None
  }

  /** The state of a parser between two lines: the list so far, newest first, and the item
      being filled. */
  datatype Parser = Parser(values: seq<Item>, current: Option<Item>)

  function Flush(p: Parser): seq<Item> {
    match p.current
    case None => p.values
    case Some(x) => [x] + p.values
  }

  datatype Result =
    | Parsed(values: seq<Item>)
    | Eof
    | Refused(code: int, message: Option<string>)
    | Garbled
    | AssertionFailed

  datatype Next = Continue(parser: Parser) | Stop(result: Result)

  /** One line of `mpdcron_parse_songs` and its siblings. */
  function ParseLine(k: Kind, p: Parser, line: string): Next {
    match Feed(line)
    case Success => Stop(Parsed(Flush(p)))
    case ServerError(code, _, message) => Stop(Refused(code, message))
    case Malformed => Stop(Garbled)
    case NameValue(name, value) =>
      if name == "id" then Continue(Parser(Flush(p), Some(NewItem(Atoi(value)))))
      else if SetField(k, NewItem(0), name, value).None? then Stop(Garbled)
      else if p.current.None? then Stop(AssertionFailed)
      else Continue(p.(current := SetField(k, p.current.value, name, value)))
  }

  /** The parser on what the connection delivers. */
  function Parse(k: Kind, p: Parser, input: string): Result
    decreases |input|
  {
    if input == [] then Eof
    else
      var i := IndexOf(input, LF);
      match ParseLine(k, p, input[..i])
      case Stop(r) => r
      case Continue(next) => Parse(k, next, From(input, i + 1))
  }

  /** `mpdcron_parse_songs`, `_albums`, `_artists` and `_genres`, with an empty list. */
  method ParseResponse(k: Kind, input: string) returns (r: Result)
    ensures r == Parse(k, Parser([], None), input)
  {
    var rest := input;
    var values: seq<Item> := [];
    var current: Option<Item> := None;
    while rest != []
      invariant Parse(k, Parser([], None), input) == Parse(k, Parser(values, current), rest)
      decreases |rest|
    {
      var i := IndexOf(rest, LF);
      var line := rest[..i];
      match Feed(line) {
        case Success =>
          if current.Some? {
            values := [current.value] + values;
          }
          return Parsed(values);
        case ServerError(code, _, message) =>
          return Refused(code, message);
        case Malformed =>
          return Garbled;
        case NameValue(name, value) =>
          if name == "id" {
            if current.Some? {
              values := [current.value] + values;
            }
            current := Some(NewItem(Atoi(value)));
          } else {
            if SetField(k, NewItem(0), name, value).None? {
              return Garbled;
            }
            if current.None? {
              return AssertionFailed;
            }
            current := SetField(k, current.value, name, value);
          }
      }
      rest := From(rest, i + 1);
    }
    return Eof;
  }
}
