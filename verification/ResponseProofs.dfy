/** The client reads back what the server printed. */
module ResponseProofs {
  import opened Text
  import opened Responses
  import opened TagStrings

  // ------------------------------------------------------------------- one line

  /** A key that starts neither OK nor ACK. */
  predicate KeyWord(key: string) {
    |key| >= 2 && ':' !in key && LF !in key && key[0] != 'O' && key[1] != 'C'
  }

  lemma FeedsPair(p: Pair)
    requires KeyWord(p.key)
    ensures Feed(PairLine(p)) == NameValue(p.key, p.value)
  {
    var line := PairLine(p);
    assert line[0] == p.key[0] && line[1] == p.key[1];
    assert "OK"[0] == 'O' && "ACK"[1] == 'C';
    assert line[|p.key|] == ':' && line[|p.key| + 1] == ' ';
    IndexOfUnique(line, ':', |p.key|);
    assert line[..|p.key|] == p.key && line[|p.key| + 2..] == p.value;
  }

  lemma ParsesFirstLine(k: Kind, p: Parser, line: string, rest: string)
    requires LF !in line
    ensures Parse(k, p, line + [LF] + rest) ==
              var step := ParseLine(k, p, line);
              if step.Stop? then step.result else Parse(k, step.parser, rest)
  {
    hide ParseLine;
    var input := line + [LF] + rest;
    assert input[|line|] == LF;
    IndexOfUnique(input, LF, |line|);
    assert input[..|line|] == line && From(input, |line| + 1) == rest;
  }

  // ------------------------------------------------------------------ one entity

  /** A pair that the parser of the kind stores in an item. */
  predicate FieldPair(k: Kind, p: Pair) {
    && KeyWord(p.key) && p.key != "id" && LF !in p.value
    && SetField(k, NewItem(0), p.key, p.value).Some?
  }

  predicate FieldPairs(k: Kind, pairs: seq<Pair>) {
    forall i :: 0 <= i < |pairs| ==> FieldPair(k, pairs[i])
  }

  function Store(k: Kind, x: Item, p: Pair): Item {
    SetField(k, x, p.key, p.value).GetOr(x)
  }

  function StoreAll(k: Kind, x: Item, pairs: seq<Pair>): Item {
    if pairs == [] then x else Store(k, StoreAll(k, x, pairs[..|pairs| - 1]), pairs[|pairs| - 1])
  }

  lemma {:induction false} StoreAppend(k: Kind, x: Item, a: seq<Pair>, b: seq<Pair>)
    ensures StoreAll(k, x, a + b) == StoreAll(k, StoreAll(k, x, a), b)
  {
    if b == [] {
      assert a + b == a;
    } else {
      var n := |b| - 1;
      assert (a + b)[..|a + b| - 1] == a + b[..n];
      StoreAppend(k, x, a, b[..n]);
    }
  }

  lemma PairLineFree(p: Pair)
    requires KeyWord(p.key) && LF !in p.value
    ensures LF !in PairLine(p)
  {
  }

  /** Whether a parser knows a key does not depend on the item it fills. */
  lemma KnownKey(k: Kind, x: Item, y: Item, p: Pair)
    ensures SetField(k, x, p.key, p.value).Some? <==> SetField(k, y, p.key, p.value).Some?
  {
  }

  lemma ParsesField(k: Kind, values: seq<Item>, x: Item, p: Pair, rest: string)
    requires FieldPair(k, p)
    ensures Parse(k, Parser(values, Some(x)), PairLine(p) + [LF] + rest)
            == Parse(k, Parser(values, Some(Store(k, x, p))), rest)
  {
    hide Parse, Feed, PairLine, SetField, KeyWord;
    FeedsPair(p);
    PairLineFree(p);
    KnownKey(k, x, NewItem(0), p);
    ParsesFirstLine(k, Parser(values, Some(x)), PairLine(p), rest);
  }

  lemma {:induction false} ParsesFields(k: Kind, values: seq<Item>, x: Item, pairs: seq<Pair>, rest: string)
    requires FieldPairs(k, pairs)
    ensures Parse(k, Parser(values, Some(x)), PairsText(pairs) + rest)
            == Parse(k, Parser(values, Some(StoreAll(k, x, pairs))), rest)
    decreases |pairs|
  {
    hide Parse, SetField, FieldPair, PairLine;
    if pairs == [] {
      assert PairsText(pairs) + rest == rest;
    } else {
      var more := PairsText(pairs[1..]) + rest;
      assert PairsText(pairs) + rest == PairLine(pairs[0]) + [LF] + more;
      ParsesField(k, values, x, pairs[0], more);
      ParsesFields(k, values, Store(k, x, pairs[0]), pairs[1..], rest);
      assert pairs == [pairs[0]] + pairs[1..];
      StoreAppend(k, x, [pairs[0]], pairs[1..]);
      assert [pairs[0]][..0] == [];
      assert StoreAll(k, x, [pairs[0]]) == Store(k, StoreAll(k, x, []), pairs[0]);
    }
  }

  lemma ParsesId(k: Kind, p: Parser, id: int, rest: string)
    ensures Parse(k, p, PairLine(IntPair("id", id)) + [LF] + rest)
            == Parse(k, Parser(Flush(p), Some(NewItem(id))), rest)
  {
    hide Parse, Feed, SetField, PairLine, IntText;
    IntTextClean(id);
    AtoiOfIntText(id);
    FeedsPair(IntPair("id", id));
    PairLineFree(IntPair("id", id));
    ParsesFirstLine(k, p, PairLine(IntPair("id", id)), rest);
  }

  /** What the client should know of a row after a view: the names always, the numbers or the
      tags as the view shows them, and the defaults otherwise. Tags come out newest first, and
      empty pieces of the tags column are not tags. */
  function Image(k: Kind, v: View, e: Entity): Item {
    var x := NewItem(e.id).(name := Some(e.name), artist := if k == AlbumKind then Some(Shown(e.artist)) else None);
    match v
    case ListView => x
    case InfoView =>
      x.(playCount := e.playCount, love := e.love, kill := e.kill, rating := e.rating,
         karma := if k == SongKind then e.karma else 0,
         lastPlayed := if k == SongKind then e.lastPlayed else None)
    case TagsView => x.(tags := Reversed(NonEmpty(e.tags)))
  }

  function Reversed<T>(s: seq<T>): (r: seq<T>)
    ensures |r| == |s| && forall i :: 0 <= i < |s| ==> r[i] == s[|s| - 1 - i]
  {
    if s == [] then [] else [s[|s| - 1]] + Reversed(s[..|s| - 1])
  }

  /** Names, dates and tags that a line can carry. */
  predicate LineFreeEntity(e: Entity) {
    && LF !in e.name && LF !in Shown(e.artist) && (e.lastPlayed.Some? ==> LF !in e.lastPlayed.value)
    && forall i :: 0 <= i < |e.tags| ==> LF !in e.tags[i]
  }

  lemma StoresPlayCount(k: Kind, x: Item, n: int)
    ensures FieldPair(k, IntPair("Play Count", n)) && Store(k, x, IntPair("Play Count", n)) == x.(playCount := n)
  {
    hide IntText, Atoi;
    IntTextClean(n);
    AtoiOfIntText(n);
  }

  lemma StoresLove(k: Kind, x: Item, n: int)
    ensures FieldPair(k, IntPair("Love", n)) && Store(k, x, IntPair("Love", n)) == x.(love := n)
  {
    hide IntText, Atoi;
    IntTextClean(n);
    AtoiOfIntText(n);
  }

  lemma StoresKill(k: Kind, x: Item, n: int)
    ensures FieldPair(k, IntPair("Kill", n)) && Store(k, x, IntPair("Kill", n)) == x.(kill := n)
  {
    hide IntText, Atoi;
    IntTextClean(n);
    AtoiOfIntText(n);
  }

  lemma StoresRating(k: Kind, x: Item, n: int)
    ensures FieldPair(k, IntPair("Rating", n)) && Store(k, x, IntPair("Rating", n)) == x.(rating := n)
  {
    hide IntText, Atoi;
    IntTextClean(n);
    AtoiOfIntText(n);
  }

  lemma StoresKarma(x: Item, n: int)
    ensures FieldPair(SongKind, IntPair("Karma", n)) && Store(SongKind, x, IntPair("Karma", n)) == x.(karma := n)
  {
    hide IntText, Atoi;
    IntTextClean(n);
    AtoiOfIntText(n);
  }

  lemma StoresDate(x: Item, date: string)
    requires LF !in date
    ensures var p := Pair("Last Played", date);
            FieldPair(SongKind, p) && Store(SongKind, x, p) == x.(lastPlayed := Some(date))
  {
  }

  lemma StoresTag(k: Kind, x: Item, tag: string)
    requires LF !in tag
    ensures var p := Pair("Tag", tag);
            FieldPair(k, p) && Store(k, x, p) == x.(tags := [tag] + x.tags)
  {
  }

  lemma StoreNone(k: Kind, x: Item)
    ensures FieldPairs(k, []) && StoreAll(k, x, []) == x
  {
  }

  lemma StoreNext(k: Kind, x: Item, pairs: seq<Pair>, p: Pair)
    requires FieldPairs(k, pairs) && FieldPair(k, p)
    ensures FieldPairs(k, pairs + [p])
    ensures StoreAll(k, x, pairs + [p]) == Store(k, StoreAll(k, x, pairs), p)
  {
    hide FieldPair;
    assert (pairs + [p])[..|pairs|] == pairs;
  }

  lemma NameFields(k: Kind, e: Entity, x: Item)
    requires LineFreeEntity(e)
    ensures FieldPairs(k, NamePairs(k, e))
    ensures StoreAll(k, x, NamePairs(k, e))
            == x.(name := Some(e.name), artist := if k == AlbumKind then Some(Shown(e.artist)) else x.artist)
  {
    var p := Pair(NameKey(k), e.name);
    assert FieldPair(k, p);
    StoreOne(k, x, p);
    if k == AlbumKind {
      var q := Pair("Artist", Shown(e.artist));
      assert FieldPair(k, q);
      StoreAppend(k, x, [p], [q]);
      StoreOne(k, Store(k, x, p), q);
    } else {
      assert NamePairs(k, e) == [p];
    }
  }

  lemma StoreOne(k: Kind, x: Item, p: Pair)
    ensures StoreAll(k, x, [p]) == Store(k, x, p)
  {
    assert [p][..0] == [];
    assert StoreAll(k, x, []) == x;
  }

  lemma InfoFields(k: Kind, e: Entity, x: Item)
    requires LineFreeEntity(e)
    ensures FieldPairs(k, InfoPairs(k, e))
    ensures StoreAll(k, x, InfoPairs(k, e))
            == x.(playCount := e.playCount, love := e.love, kill := e.kill, rating := e.rating,
                  karma := if k == SongKind then e.karma else x.karma,
                  lastPlayed := if k == SongKind && e.lastPlayed.Some? then e.lastPlayed else x.lastPlayed)
  {
    hide Store, FieldPair, FieldPairs, IntPair, StoreAll;
    var pairs: seq<Pair> := [];
    var y := x;
    StoreNone(k, x);
    StoresPlayCount(k, y, e.playCount);
    StoreNext(k, x, pairs, IntPair("Play Count", e.playCount));
    pairs, y := pairs + [IntPair("Play Count", e.playCount)], y.(playCount := e.playCount);
    StoresLove(k, y, e.love);
    StoreNext(k, x, pairs, IntPair("Love", e.love));
    pairs, y := pairs + [IntPair("Love", e.love)], y.(love := e.love);
    StoresKill(k, y, e.kill);
    StoreNext(k, x, pairs, IntPair("Kill", e.kill));
    pairs, y := pairs + [IntPair("Kill", e.kill)], y.(kill := e.kill);
    StoresRating(k, y, e.rating);
    StoreNext(k, x, pairs, IntPair("Rating", e.rating));
    pairs, y := pairs + [IntPair("Rating", e.rating)], y.(rating := e.rating);
    if k == SongKind {
      StoresKarma(y, e.karma);
      StoreNext(k, x, pairs, IntPair("Karma", e.karma));
      pairs, y := pairs + [IntPair("Karma", e.karma)], y.(karma := e.karma);
      if e.lastPlayed.Some? {
        StoresDate(y, e.lastPlayed.value);
        StoreNext(k, x, pairs, Pair("Last Played", e.lastPlayed.value));
        pairs := pairs + [Pair("Last Played", e.lastPlayed.value)];
      }
    }
    assert pairs == InfoPairs(k, e);
  }

  lemma {:induction false} TagFields(k: Kind, tags: seq<string>, x: Item)
    requires forall i :: 0 <= i < |tags| ==> LF !in tags[i]
    ensures FieldPairs(k, TagPairs(tags))
    ensures StoreAll(k, x, TagPairs(tags)) == x.(tags := Reversed(NonEmpty(tags)) + x.tags)
  {
    hide Store, FieldPair, FieldPairs, StoreAll, Reversed;
    if tags == [] {
      StoreNone(k, x);
      assert Reversed(NonEmpty(tags)) == [];
      assert [] + x.tags == x.tags;
    } else {
      var n := |tags| - 1;
      TagFields(k, tags[..n], x);
      if tags[n] == [] {
        assert TagPairs(tags) == TagPairs(tags[..n]) + [] == TagPairs(tags[..n]);
        assert NonEmpty(tags) == NonEmpty(tags[..n]) + [] == NonEmpty(tags[..n]);
      } else {
        StoresTag(k, StoreAll(k, x, TagPairs(tags[..n])), tags[n]);
        StoreNext(k, x, TagPairs(tags[..n]), Pair("Tag", tags[n]));
        ReversedAppend(NonEmpty(tags[..n]), tags[n]);
        var before := Reversed(NonEmpty(tags[..n]));
        assert [tags[n]] + (before + x.tags) == [tags[n]] + before + x.tags;
      }
    }
  }

  lemma ReversedAppend(s: seq<string>, last: string)
    ensures Reversed(s + [last]) == [last] + Reversed(s)
  {
    assert (s + [last])[..|s|] == s;
  }

  lemma FieldPairsAppend(k: Kind, a: seq<Pair>, b: seq<Pair>)
    requires FieldPairs(k, a) && FieldPairs(k, b)
    ensures FieldPairs(k, a + b)
  {
    hide FieldPair;
  }

  /** The lines of one row turn a new item into the row's image. */
  lemma DetailFields(k: Kind, v: View, e: Entity)
    requires LineFreeEntity(e)
    ensures FieldPairs(k, DetailPairs(k, v, e))
    ensures StoreAll(k, NewItem(e.id), DetailPairs(k, v, e)) == Image(k, v, e)
  {
    hide FieldPair, Store, NamePairs, InfoPairs;
    var x := NewItem(e.id);
    NameFields(k, e, x);
    var y := StoreAll(k, x, NamePairs(k, e));
    match v {
      case ListView =>
        assert NamePairs(k, e) + [] == NamePairs(k, e);
      case InfoView =>
        InfoFields(k, e, y);
        StoreAppend(k, x, NamePairs(k, e), InfoPairs(k, e));
        FieldPairsAppend(k, NamePairs(k, e), InfoPairs(k, e));
      case TagsView =>
        TagFields(k, e.tags, y);
        StoreAppend(k, x, NamePairs(k, e), TagPairs(e.tags));
        FieldPairsAppend(k, NamePairs(k, e), TagPairs(e.tags));
        assert Reversed(NonEmpty(e.tags)) + [] == Reversed(NonEmpty(e.tags));
    }
  }

  lemma ParsesEntity(k: Kind, v: View, e: Entity, p: Parser, rest: string)
    requires LineFreeEntity(e)
    ensures Parse(k, p, PairsText(EntityPairs(k, v, e)) + rest)
            == Parse(k, Parser(Flush(p), Some(Image(k, v, e))), rest)
  {
    hide Parse, DetailPairs, LineFreeEntity, IntPair, Image, PairLine;
    var details := DetailPairs(k, v, e);
    var id := IntPair("id", e.id);
    DetailFields(k, v, e);
    assert EntityPairs(k, v, e)[1..] == details;
    assert PairsText(EntityPairs(k, v, e)) + rest == PairLine(id) + [LF] + (PairsText(details) + rest);
    ParsesId(k, p, e.id, PairsText(details) + rest);
    ParsesFields(k, Flush(p), NewItem(e.id), details, rest);
  }

  // ---------------------------------------------------------------- whole responses

  function Images(k: Kind, v: View, rows: seq<Entity>): seq<Item> {
    if rows == [] then [] else Images(k, v, rows[..|rows| - 1]) + [Image(k, v, rows[|rows| - 1])]
  }

  lemma ParsesOk(k: Kind, p: Parser)
    ensures Parse(k, p, "OK" + [LF]) == Parsed(Flush(p))
  {
    assert "OK" + [LF] == "OK" + [LF] + [];
    ParsesFirstLine(k, p, "OK", []);
  }

  /** What the parser holds after some rows, all but the newest already in the list. */
  function Fold(k: Kind, v: View, p: Parser, rows: seq<Entity>): Parser
    decreases |rows|
  {
    if rows == [] then p else Fold(k, v, Parser(Flush(p), Some(Image(k, v, rows[0]))), rows[1..])
  }

  lemma {:induction false} ParsesRows(k: Kind, v: View, rows: seq<Entity>, p: Parser, rest: string)
    requires forall i :: 0 <= i < |rows| ==> LineFreeEntity(rows[i])
    ensures Parse(k, p, PairsText(AllPairs(k, v, rows)) + rest) == Parse(k, Fold(k, v, p, rows), rest)
    decreases |rows|
  {
    hide Parse, LineFreeEntity, EntityPairs, Image, PairLine;
    if rows == [] {
      assert PairsText(AllPairs(k, v, rows)) + rest == rest;
    } else {
      var first, more := PairsText(EntityPairs(k, v, rows[0])), PairsText(AllPairs(k, v, rows[1..]));
      var next := Parser(Flush(p), Some(Image(k, v, rows[0])));
      PairsTextAppend(EntityPairs(k, v, rows[0]), AllPairs(k, v, rows[1..]));
      assert PairsText(AllPairs(k, v, rows)) == first + more;
      assert first + more + rest == first + (more + rest);
      ParsesEntity(k, v, rows[0], p, more + rest);
      ParsesRows(k, v, rows[1..], next, rest);
      assert Fold(k, v, p, rows) == Fold(k, v, next, rows[1..]);
    }
  }

  lemma NoImages(k: Kind, v: View)
    ensures Images(k, v, []) == []
  {
  }

  lemma {:induction false} FoldCollects(k: Kind, v: View, p: Parser, rows: seq<Entity>)
    ensures Flush(Fold(k, v, p, rows)) == Reversed(Images(k, v, rows)) + Flush(p)
    decreases |rows|
  {
    hide Image, Images;
    if rows == [] {
      NoImages(k, v);
      assert [] + Flush(p) == Flush(p);
    } else {
      var x := Image(k, v, rows[0]);
      FoldCollects(k, v, Parser(Flush(p), Some(x)), rows[1..]);
      ImagesCons(k, v, rows);
      ReversedCons(x, Images(k, v, rows[1..]));
      assert Reversed(Images(k, v, rows[1..])) + ([x] + Flush(p)) == Reversed(Images(k, v, rows[1..])) + [x] + Flush(p);
    }
  }

  lemma {:induction false} ImagesCons(k: Kind, v: View, rows: seq<Entity>)
    requires rows != []
    ensures Images(k, v, rows) == [Image(k, v, rows[0])] + Images(k, v, rows[1..])
    decreases |rows|
  {
    hide Image;
    if |rows| > 1 {
      var n := |rows| - 1;
      ImagesCons(k, v, rows[..n]);
      assert rows[..n][1..] == rows[1..][..n - 1];
    }
  }

  lemma ReversedCons(x: Item, s: seq<Item>)
    ensures Reversed([x] + s) == Reversed(s) + [x]
  {
    var a, b := Reversed([x] + s), Reversed(s) + [x];
    assert |a| == |b|;
    assert forall i :: 0 <= i < |a| ==> a[i] == b[i];
  }

  /** The response round trip, for all twelve pairs of printer and parser: the client ends up
      with the images of the server's rows, newest first, and never trips an assertion. */
  lemma ResponseRoundTrip(k: Kind, v: View, rows: seq<Entity>)
    requires forall i :: 0 <= i < |rows| ==> LineFreeEntity(rows[i])
    ensures Parse(k, Parser([], None), ResponseText(k, v, rows)) == Parsed(Reversed(Images(k, v, rows)))
  {
    hide Parse, AllPairs, LineFreeEntity;
    var p := Parser([], None);
    assert ResponseText(k, v, rows) == PairsText(AllPairs(k, v, rows)) + ("OK" + [LF]);
    ParsesRows(k, v, rows, p, "OK" + [LF]);
    ParsesOk(k, Fold(k, v, p, rows));
    FoldCollects(k, v, p, rows);
    assert Reversed(Images(k, v, rows)) + [] == Reversed(Images(k, v, rows));
  }

  /** From the tags column to the client: after any history of addtag and rmtag commands on a
      row, listing it delivers the tags it keeps, newest first. For songs, artists and genres
      they are the tags the commands left; for an album they are, if and only if no removal
      named a tag that had been added before. */
  lemma ListedTagsAreCurrent(k: Kind, e: Entity, history: seq<Change>)
    requires LineFreeEntity(e) && e.tags == Pieces(ColumnAfter(k, history))
    ensures Parse(k, Parser([], None), ResponseText(k, TagsView, [e]))
            == Parsed([NewItem(e.id).(name := Some(e.name),
                                      artist := if k == AlbumKind then Some(Shown(e.artist)) else None,
                                      tags := Reversed(Kept(k, history)))])
    ensures Reversed(Kept(k, history)) == Reversed(TagsAfter(history)) <==> k != AlbumKind || RemovesNothing(history)
  {
    hide Parse, ResponseText;
    ColumnRefinesTags(k, history);
    AddedOutlasts(history);
    ResponseRoundTrip(k, TagsView, [e]);
    assert [e][..0] == [];
    assert Images(k, TagsView, [e]) == [] + [Image(k, TagsView, e)];
  }

  // ----------------------------------------------------------------- on the wire

  /** The lines of one row, spelled out, without the tags. */
  function RowLines(k: Kind, v: View, e: Entity): seq<string> {
    ["id: " + IntText(e.id),
     (match k
      case SongKind => "file: "
      case AlbumKind => "Album: "
      case ArtistKind => "Artist: "
      case GenreKind => "Genre: ") + e.name]
    + (if k == AlbumKind then ["Artist: " + if e.artist.Some? then e.artist.value else "(null)"] else [])
    + (if v != InfoView then []
       else
         ["Play Count: " + IntText(e.playCount), "Love: " + IntText(e.love), "Kill: " + IntText(e.kill),
          "Rating: " + IntText(e.rating)]
         + (if k != SongKind then []
            else ["Karma: " + IntText(e.karma)]
                 + if e.lastPlayed.Some? then ["Last Played: " + e.lastPlayed.value] else []))
  }

  function Lines(lines: seq<string>): string {
    if lines == [] then [] else lines[0] + [LF] + Lines(lines[1..])
  }

  lemma {:induction false} PairsAreLines(pairs: seq<Pair>, lines: seq<string>)
    requires |pairs| == |lines| && forall i :: 0 <= i < |pairs| ==> PairLine(pairs[i]) == lines[i]
    ensures PairsText(pairs) == Lines(lines)
  {
    hide PairLine;
    if pairs != [] {
      PairsAreLines(pairs[1..], lines[1..]);
    }
  }

  /** What the server sends for one row without tags, byte for byte. */
  lemma AnswerSpelled(k: Kind, v: View, e: Entity)
    requires v == TagsView ==> e.tags == []
    ensures ResponseText(k, v, [e]) == Lines(RowLines(k, v, e)) + "OK" + [LF]
  {
    hide IntText, PairsText, Lines;
    var pairs, lines := EntityPairs(k, v, e), RowLines(k, v, e);
    assert [e][1..] == [] && pairs + [] == pairs;
    assert AllPairs(k, v, [e]) == pairs;
    NameLines(k, e);
    InfoLines(k, e);
    PairsAreLines(pairs, lines);
  }

  lemma NameLines(k: Kind, e: Entity)
    ensures PairLine(IntPair("id", e.id)) == "id: " + IntText(e.id)
    ensures PairLine(Pair("Artist", Shown(e.artist)))
            == "Artist: " + if e.artist.Some? then e.artist.value else "(null)"
    ensures PairLine(Pair(NameKey(k), e.name)) ==
              (match k
               case SongKind => "file: "
               case AlbumKind => "Album: "
               case ArtistKind => "Artist: "
               case GenreKind => "Genre: ") + e.name
  {
    hide IntText;
    assert "id" + ": " == "id: " && "file" + ": " == "file: " && "Album" + ": " == "Album: ";
    assert "Artist" + ": " == "Artist: " && "Genre" + ": " == "Genre: ";
  }

  lemma InfoLines(k: Kind, e: Entity)
    ensures PairLine(IntPair("Play Count", e.playCount)) == "Play Count: " + IntText(e.playCount)
    ensures PairLine(IntPair("Love", e.love)) == "Love: " + IntText(e.love)
    ensures PairLine(IntPair("Kill", e.kill)) == "Kill: " + IntText(e.kill)
    ensures PairLine(IntPair("Rating", e.rating)) == "Rating: " + IntText(e.rating)
    ensures PairLine(IntPair("Karma", e.karma)) == "Karma: " + IntText(e.karma)
    ensures e.lastPlayed.Some? ==>
              PairLine(Pair("Last Played", e.lastPlayed.value)) == "Last Played: " + e.lastPlayed.value
  {
    hide IntText;
    assert "Play Count" + ": " == "Play Count: " && "Love" + ": " == "Love: " && "Kill" + ": " == "Kill: ";
    assert "Rating" + ": " == "Rating: " && "Karma" + ": " == "Karma: " && "Last Played" + ": " == "Last Played: ";
  }

  // ------------------------------------------------------------------------ errors

  /** `command_error_v`. */
  function AckLine(code: int, command: string, message: string): string {
    "ACK [" + IntText(code) + "] {" + command + "} " + message
  }

  lemma SkipsBlanks(message: string)
    ensures SkipBlanks([' '] + message) == SkipBlanks(message)
    ensures SkipBlanks(message) == message <==> message == [] || message[0] != ' '
  {
    assert ([' '] + message)[1..] == message;
    ShorterBlanks(message);
  }

  lemma ShorterBlanks(s: string)
    ensures |SkipBlanks(s)| <= |s|
    ensures s != [] && s[0] == ' ' ==> |SkipBlanks(s)| < |s|
  {
  }

  lemma ReadsMessage(command: string, message: string)
    requires '}' !in command
    ensures var m := SkipBlanks(message);
            AckMessage(" {" + command + "} " + message) == if m == [] then None else Some(m)
  {
    var tail := " {" + command + "} " + message;
    var close := |command| + 2;
    assert tail == " {" + command + ['}'] + ([' '] + message);
    assert tail[1] == '{' && tail[close] == '}';
    assert forall i :: 0 <= i < close ==> tail[i] != '}';
    IndexOfUnique(tail, '}', close);
    assert tail[close + 1..] == [' '] + message;
    SkipsBlanks(message);
  }

  /** The bracketed code of an ACK line. */
  lemma ReadsCode(code: int, tail: string)
    ensures Feed("ACK [" + (IntText(code) + ("]" + tail))) == ServerError(code, 0, AckMessage(tail))
  {
    hide AckMessage, IntText;
    var rest := "]" + tail;
    var line := "ACK [" + (IntText(code) + rest);
    assert line[0] == 'A' && line[4] == '[';
    assert line[..3] == "ACK";
    IndexOfUnique(line, '[', 4);
    assert line[5..] == IntText(code) + rest;
    StrtolOfIntText(code, rest);
    IndexOfUnique(rest, ']', 0);
    assert rest[1..] == tail;
  }

  lemma FeedsAck(code: int, command: string, message: string)
    requires '}' !in command
    ensures var m := SkipBlanks(message);
            Feed(AckLine(code, command, message)) == ServerError(code, 0, if m == [] then None else Some(m))
  {
    hide Feed, AckMessage, IntText;
    var tail := " {" + command + "} " + message;
    assert AckLine(code, command, message) == "ACK [" + (IntText(code) + ("]" + tail));
    ReadsCode(code, tail);
    ReadsMessage(command, message);
  }

  /** An error answer decodes to the server's code whatever the message, and to the message
      itself exactly when it is not empty and does not start with a blank. */
  lemma AckRoundTrip(code: int, command: string, message: string)
    requires '}' !in command
    ensures var fed := Feed(AckLine(code, command, message));
            && fed.ServerError? && fed.code == code
            && (fed.message == Some(message) <==> message != [] && message[0] != ' ')
  {
    FeedsAck(code, command, message);
    SkipsBlanks(message);
  }

  /** A code with a position: both are read. Without a bracket the code is unknown; without the
      closing one the line makes no sense. */
  lemma AckForms(code: int, at: int, tail: string, plain: string)
    requires '[' !in plain && ']' !in plain
    ensures Feed("ACK [" + (IntText(code) + ("@" + (IntText(at) + ("]" + tail)))))
            == ServerError(code, at, AckMessage(tail))
    ensures Feed("ACK" + plain) == ServerError(5, 0, None)
    ensures Feed("ACK [" + (IntText(code) + (" " + plain))) == Malformed
  {
    hide AckMessage, IntText;
    ReadsAt(code, at, tail);
    var line := "ACK" + plain;
    assert line[0] == 'A' && line[..3] == "ACK";
    IndexOfUnique(line, '[', |line|);
    NoClosingBracket(code, plain);
  }

  /** The message is what follows the first closing brace, if there is an opening one, too, and
      otherwise all that follows the bracket; blanks before it do not count. */
  lemma MessageExactly(before: string, after: string, braceless: string)
    requires '}' !in before && '}' !in braceless
    ensures var tail := before + ['}'] + after;
            var m := SkipBlanks(if '{' in before || '{' in after then after else tail);
            AckMessage(tail) == if m == [] then None else Some(m)
    ensures var m := SkipBlanks(braceless); AckMessage(braceless) == if m == [] then None else Some(m)
  {
    hide SkipBlanks;
    var tail := before + ['}'] + after;
    assert tail[|before|] == '}';
    IndexOfUnique(tail, '}', |before|);
    assert tail[|before| + 1..] == after;
    IndexOfUnique(braceless, '}', |braceless|);
  }

  lemma ReadsAt(code: int, at: int, tail: string)
    ensures Feed("ACK [" + (IntText(code) + ("@" + (IntText(at) + ("]" + tail)))))
            == ServerError(code, at, AckMessage(tail))
  {
    hide AckMessage, IntText, Strtol;
    var after := IntText(at) + ("]" + tail);
    var rest := "@" + after;
    BracketedLine(IntText(code) + rest);
    StrtolOfIntText(code, rest);
    assert rest[0] == '@' && rest[1..] == after;
    StrtolOfIntText(at, "]" + tail);
    IndexOfUnique("]" + tail, ']', 0);
    assert ("]" + tail)[1..] == tail;
  }

  lemma NoClosingBracket(code: int, plain: string)
    requires ']' !in plain
    ensures Feed("ACK [" + (IntText(code) + (" " + plain))) == Malformed
  {
    hide AckMessage, IntText, Strtol;
    var rest := " " + plain;
    BracketedLine(IntText(code) + rest);
    StrtolOfIntText(code, rest);
    IndexOfUnique(rest, ']', |rest|);
  }

  lemma BracketedLine(s: string)
    ensures var line := "ACK [" + s;
            line != "OK" && "ACK" <= line && IndexOf(line, '[') == 4 && line[5..] == s
  {
    var line := "ACK [" + s;
    assert line[0] == 'A' && line[4] == '[' && line[..3] == "ACK";
    IndexOfUnique(line, '[', 4);
  }

  lemma AckLineFree(code: int, command: string, message: string)
    requires LF !in command && LF !in message
    ensures LF !in AckLine(code, command, message)
  {
    IntTextClean(code);
  }

  // ---------------------------------------------------------------- unhappy endings

  lemma ParsesAck(k: Kind, p: Parser, code: int, command: string, message: string, rest: string)
    requires '}' !in command && LF !in command && LF !in message
    ensures var m := SkipBlanks(message);
            Parse(k, p, AckLine(code, command, message) + [LF] + rest)
            == Refused(code, if m == [] then None else Some(m))
  {
    hide Parse, Feed, AckLine;
    FeedsAck(code, command, message);
    AckLineFree(code, command, message);
    ParsesFirstLine(k, p, AckLine(code, command, message), rest);
  }

  /** An error line refuses the command, however many rows came before it: no row is returned,
      the code is the server's, and so is the message when it is not empty and does not start
      with a blank. */
  lemma ErrorRefuses(k: Kind, v: View, rows: seq<Entity>, code: int, command: string, message: string, rest: string)
    requires forall i :: 0 <= i < |rows| ==> LineFreeEntity(rows[i])
    requires '}' !in command && LF !in command && LF !in message
    ensures var ack := AckLine(code, command, message) + [LF] + rest;
            var r := Parse(k, Parser([], None), PairsText(AllPairs(k, v, rows)) + ack);
            && r.Refused? && r.code == code
            && (r.message == Some(message) <==> message != [] && message[0] != ' ')
  {
    hide Parse, AllPairs, LineFreeEntity, AckLine;
    var p := Parser([], None);
    ParsesRows(k, v, rows, p, AckLine(code, command, message) + [LF] + rest);
    ParsesAck(k, Fold(k, v, p, rows), code, command, message, rest);
    SkipsBlanks(message);
  }

  /** The keys of the pairs a parser knows, beside the id. */
  predicate Known(k: Kind, name: string) {
    || name in {"Love", "Kill", "Rating", "Play Count", "Tag"}
    || match k
       case SongKind => name in {"file", "Karma", "Last Played"}
       case AlbumKind => name in {"Album", "Artist"}
       case ArtistKind => name == "Artist"
       case GenreKind => name == "Genre"
  }

  lemma KnownExactly(k: Kind, x: Item, name: string, value: string)
    ensures SetField(k, x, name, value).Some? <==> Known(k, name)
  {
  }

  /** A line that is neither OK nor an error: no colon with a blank behind it. */
  predicate NoPair(line: string) {
    && line != "OK" && !("ACK" <= line)
    && forall i :: 0 <= i < |line| && line[i] == ':' && ':' !in line[..i] ==> i + 1 == |line| || line[i + 1] != ' '
  }

  lemma FeedsNoPair(line: string)
    requires NoPair(line)
    ensures Feed(line) == Malformed
  {
    var i := IndexOf(line, ':');
    assert ':' !in line[..i];
  }

  /** A line that makes no sense, or a key the parser does not know, spoils the answer, however
      many rows came before it. */
  lemma NonsenseGarbles(k: Kind, v: View, rows: seq<Entity>, line: string, p: Pair, rest: string)
    requires forall i :: 0 <= i < |rows| ==> LineFreeEntity(rows[i])
    requires LF !in line
    requires NoPair(line) || (line == PairLine(p) && KeyWord(p.key) && p.key != "id" && !Known(k, p.key))
    ensures Parse(k, Parser([], None), PairsText(AllPairs(k, v, rows)) + (line + [LF] + rest)) == Garbled
  {
    hide Parse, AllPairs, LineFreeEntity, NoPair, Feed, SetField, Known;
    var q := Parser([], None);
    ParsesRows(k, v, rows, q, line + [LF] + rest);
    ParsesFirstLine(k, Fold(k, v, q, rows), line, rest);
    if NoPair(line) {
      FeedsNoPair(line);
    } else {
      FeedsPair(p);
      KnownExactly(k, NewItem(0), p.key, p.value);
    }
  }

  /** A connection that ends after some rows ends the reading, too: no row is returned. */
  lemma EndIsNoSuccess(k: Kind, v: View, rows: seq<Entity>)
    requires forall i :: 0 <= i < |rows| ==> LineFreeEntity(rows[i])
    ensures Parse(k, Parser([], None), PairsText(AllPairs(k, v, rows))) == Eof
  {
    hide AllPairs, LineFreeEntity, Fold;
    var p := Parser([], None);
    ParsesRows(k, v, rows, p, []);
    assert PairsText(AllPairs(k, v, rows)) + [] == PairsText(AllPairs(k, v, rows));
    assert Parse(k, Fold(k, v, p, rows), []) == Eof;
  }

  /** A known pair before the first id trips an assertion of the client. */
  lemma PairBeforeIdAborts(k: Kind, p: Pair, rest: string)
    requires KeyWord(p.key) && p.key != "id" && Known(k, p.key) && LF !in p.value
    ensures Parse(k, Parser([], None), PairLine(p) + [LF] + rest) == AssertionFailed
  {
    hide Parse, Feed, SetField, Known;
    FeedsPair(p);
    PairLineFree(p);
    KnownExactly(k, NewItem(0), p.key, p.value);
    ParsesFirstLine(k, Parser([], None), PairLine(p), rest);
  }
}
