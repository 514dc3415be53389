/** The rows `db_process` keeps: one per song, artist, album and genre, with their play counts
    and the songs' karma. A table is the list of its rows in the order of their ids. */
module Ledger {
  import opened Text
  import opened PlayerEvents
  import Songs
  import Karma

  datatype Table = SongTable | ArtistTable | AlbumTable | GenreTable

  datatype Row = Row(key: string, plays: nat, karma: int)

  /** One call of `db_process`. Its statements work on the tables in order; `reach` says how
      many of the four steps succeed, so 4 is a call that returns true. */
  datatype Call = Call(song: Song, increment: bool, percent: int, reach: nat)

  function Step(t: Table): nat {
    match t
    case SongTable => 1
    case ArtistTable => 2
    case AlbumTable => 3
    case GenreTable => 4
  }

  /** The key a call touches in a table: none without the required tags, without the tag in
      question, or when an earlier statement failed. */
  function KeyOf(t: Table, c: Call): Option<string> {
    match Songs.CheckTags(c.song)
    case None => None
    case Some(tags) =>
      if c.reach < Step(t) then None
      else
        match t
        case SongTable => Some(c.song.uri)
        case ArtistTable => Some(tags.artist)
        case AlbumTable => c.song.album
        case GenreTable => c.song.genre
  }

  /** Which rows a call touches: by how far it gets, the song's by its address, the artist's by
      its name, and then those of album and genre, if the song has them. */
  lemma KeysExactly(c: Call)
    ensures var tags := Songs.CheckTags(c.song);
            && KeyOf(SongTable, c) == (if tags.Some? && c.reach > 0 then Some(c.song.uri) else None)
            && KeyOf(ArtistTable, c) == (if tags.Some? && c.reach > 1 then Some(tags.value.artist) else None)
            && KeyOf(AlbumTable, c) == (if tags.Some? && c.reach > 2 then c.song.album else None)
            && KeyOf(GenreTable, c) == (if tags.Some? && c.reach > 3 then c.song.genre else None)
  {
  }

  // --------------------------------------------------------------------- one table

  /** `db_has_song` and its siblings: the id of the last row with the key. */
  function Find(rows: seq<Row>, key: string): (i: Option<nat>)
    ensures i.Some? ==> i.value < |rows| && rows[i.value].key == key
    ensures i.None? ==> forall k :: 0 <= k < |rows| ==> rows[k].key != key
  {
    if rows == [] then None
    else if rows[|rows| - 1].key == key then Some(|rows| - 1)
    else Find(rows[..|rows| - 1], key)
  }

  function Increment(c: Call): nat {
    if c.increment then 1 else 0
  }

  /** Insert the key's row or update it. */
  function Touch(rows: seq<Row>, key: string, c: Call): seq<Row> {
    match Find(rows, key)
    case None => rows + [Row(key, Increment(c), Karma.Played(Karma.DEFAULT, c.percent))]
    case Some(i) => rows[i := Row(key, rows[i].plays + Increment(c), Karma.Played(rows[i].karma, c.percent))]
  }

  function Record(t: Table, rows: seq<Row>, c: Call): seq<Row> {
    match KeyOf(t, c)
    case None => rows
    case Some(key) => Touch(rows, key, c)
  }

  /** A table after a history of calls, starting empty. */
  function RowsAfter(t: Table, calls: seq<Call>): seq<Row> {
    if calls == [] then [] else Record(t, RowsAfter(t, calls[..|calls| - 1]), calls[|calls| - 1])
  }

  // ------------------------------------------------------------------- the database

  class Store {
    var songs: seq<Row>
    var artists: seq<Row>
    var albums: seq<Row>
    var genres: seq<Row>

    ghost predicate Holds(calls: seq<Call>)
      reads this
    {
      && songs == RowsAfter(SongTable, calls) && artists == RowsAfter(ArtistTable, calls)
      && albums == RowsAfter(AlbumTable, calls) && genres == RowsAfter(GenreTable, calls)
    }

    constructor ()
      ensures Holds([])
    {
      songs, artists, albums, genres := [], [], [], [];
    }

    /** The row loop of `db_has_song` and its siblings. */
    static method Has(rows: seq<Row>, key: string) returns (id: Option<nat>)
      ensures id == Find(rows, key)
    {
      id := None;
      for i := 0 to |rows|
        invariant id == Find(rows[..i], key)
      {
        assert rows[..i + 1][..i] == rows[..i];
        if rows[i].key == key {
          id := Some(i);
        }
      }
      assert rows[..|rows|] == rows;
    }

    static method Upsert(rows: seq<Row>, key: string, c: Call) returns (r: seq<Row>)
      ensures r == Touch(rows, key, c)
    {
      var id := Has(rows, key);
      if id.None? {
        r := rows + [Row(key, if c.increment then 1 else 0, Karma.Played(Karma.DEFAULT, c.percent))];
      } else {
        var row := rows[id.value];
        r := rows[id.value := Row(key, row.plays + if c.increment then 1 else 0, Karma.Played(row.karma, c.percent))];
      }
    }

    /** `db_process`. */
    method Process(c: Call, ghost calls: seq<Call>) returns (ok: bool)
      requires Holds(calls)
      modifies this
      ensures Holds(calls + [c])
      ensures ok <==> c.reach >= 4 || Songs.CheckTags(c.song).None?
    {
      hide Songs.CheckTags;
      assert (calls + [c])[..|calls|] == calls;
      var tags := Songs.CheckTags(c.song);
      if tags.None? {
        return true;
      }
      if c.reach < 1 {
        return false;
      }
      songs := Upsert(songs, c.song.uri, c);
      if c.reach < 2 {
        return false;
      }
      artists := Upsert(artists, tags.value.artist, c);
      if c.reach < 3 {
        return false;
      }
      if c.song.album.Some? {
        albums := Upsert(albums, c.song.album.value, c);
      }
      if c.reach < 4 {
        return false;
      }
      if c.song.genre.Some? {
        genres := Upsert(genres, c.song.genre.value, c);
      }
      return true;
    }
  }

  // -------------------------------------------------------------------- properties

  predicate UniqueKeys(rows: seq<Row>) {
    forall i, j :: 0 <= i < j < |rows| ==> rows[i].key != rows[j].key
  }

  function Total(rows: seq<Row>): nat {
    if rows == [] then 0 else Total(rows[..|rows| - 1]) + rows[|rows| - 1].plays
  }

  lemma {:induction false} TotalUpdate(rows: seq<Row>, i: nat, row: Row)
    requires i < |rows|
    ensures Total(rows[i := row]) == Total(rows) - rows[i].plays + row.plays
  {
    var n := |rows| - 1;
    var u := rows[i := row];
    if i == n {
      assert u[..n] == rows[..n];
    } else {
      assert u[..n] == rows[..n][i := row];
      TotalUpdate(rows[..n], i, row);
    }
  }

  lemma TouchEffect(rows: seq<Row>, key: string, c: Call)
    requires UniqueKeys(rows)
    ensures var r := Touch(rows, key, c);
            UniqueKeys(r) && Total(r) == Total(rows) + Increment(c)
  {
    match Find(rows, key)
    case None =>
      var row := Row(key, Increment(c), Karma.Played(Karma.DEFAULT, c.percent));
      assert (rows + [row])[..|rows|] == rows;
    case Some(i) =>
      TotalUpdate(rows, i, Touch(rows, key, c)[i]);
  }

  /** What the calls did to a key: how many named it, how many of those counted, and the
      percentages in order. */
  function Named(t: Table, calls: seq<Call>, key: string): seq<Call> {
    if calls == [] then []
    else
      var n := |calls| - 1;
      Named(t, calls[..n], key) + if KeyOf(t, calls[n]) == Some(key) then [calls[n]] else []
  }

  function Counted(calls: seq<Call>): nat {
    if calls == [] then 0 else Counted(calls[..|calls| - 1]) + Increment(calls[|calls| - 1])
  }

  function Percents(calls: seq<Call>): seq<int> {
    if calls == [] then [] else Percents(calls[..|calls| - 1]) + [calls[|calls| - 1].percent]
  }

  /** The row that a key has after the calls that named it. */
  function RowOf(key: string, named: seq<Call>): Row {
    Row(key, Counted(named), Karma.After(Karma.DEFAULT, Percents(named)))
  }

  predicate KeyIn(rows: seq<Row>, key: string) {
    exists i :: 0 <= i < |rows| && rows[i].key == key
  }

  lemma RowOfMore(key: string, named: seq<Call>, c: Call)
    ensures var row := RowOf(key, named);
            RowOf(key, named + [c]) == Row(key, row.plays + Increment(c), Karma.Played(row.karma, c.percent))
  {
    assert (named + [c])[..|named|] == named;
    assert Percents(named + [c]) == Percents(named) + [c.percent];
    assert (Percents(named) + [c.percent])[..|Percents(named)|] == Percents(named);
  }

  /** The table is what the history says, for one key. */
  predicate Agrees(rows: seq<Row>, key: string, named: seq<Call>) {
    && (KeyIn(rows, key) <==> named != [])
    && forall i :: 0 <= i < |rows| && rows[i].key == key ==> rows[i] == RowOf(key, named)
  }

  lemma TouchInserts(rows: seq<Row>, touched: string, c: Call, key: string, named: seq<Call>)
    requires Find(rows, touched).None? && Agrees(rows, key, named)
    ensures Agrees(Touch(rows, touched, c), key, if touched == key then named + [c] else named)
  {
    hide RowOf;
    var r := Touch(rows, touched, c);
    assert r[|rows|].key == touched;
    assert forall k :: 0 <= k < |rows| ==> r[k] == rows[k];
    if touched == key {
      assert !KeyIn(rows, key);
      RowOfMore(key, [], c);
      EmptyRow(key);
      assert named + [c] == [] + [c];
    } else if KeyIn(rows, key) {
      var i :| 0 <= i < |rows| && rows[i].key == key;
      assert r[i].key == key;
    }
  }

  lemma EmptyRow(key: string)
    ensures RowOf(key, []) == Row(key, 0, Karma.DEFAULT)
  {
  }

  lemma TouchUpdates(rows: seq<Row>, touched: string, c: Call, key: string, named: seq<Call>)
    requires UniqueKeys(rows) && Find(rows, touched).Some? && Agrees(rows, key, named)
    ensures Agrees(Touch(rows, touched, c), key, if touched == key then named + [c] else named)
  {
    hide RowOf;
    var r := Touch(rows, touched, c);
    var i := Find(rows, touched).value;
    assert forall k :: 0 <= k < |rows| ==> r[k].key == rows[k].key;
    assert forall k :: 0 <= k < |rows| && k != i ==> r[k] == rows[k];
    assert KeyIn(r, key) <==> KeyIn(rows, key) by {
      if KeyIn(rows, key) {
        var k :| 0 <= k < |rows| && rows[k].key == key;
        assert r[k].key == key;
      }
      if KeyIn(r, key) {
        var k :| 0 <= k < |r| && r[k].key == key;
        assert rows[k].key == key;
      }
    }
    if touched == key {
      RowOfMore(key, named, c);
    }
  }

  lemma TouchAgrees(rows: seq<Row>, touched: string, c: Call, key: string, named: seq<Call>)
    requires UniqueKeys(rows) && Agrees(rows, key, named)
    ensures Agrees(Touch(rows, touched, c), key, if touched == key then named + [c] else named)
  {
    if Find(rows, touched).None? {
      TouchInserts(rows, touched, c, key, named);
    } else {
      TouchUpdates(rows, touched, c, key, named);
    }
  }

  /** The ledger, over every history of calls, failed ones included: keys are unique, a key has
      a row exactly when some call named it, the row's count is the number of counting calls
      that named it, and its karma is the default moved by their percentages. */
  lemma {:induction false} LedgerExact(t: Table, calls: seq<Call>, key: string)
    ensures UniqueKeys(RowsAfter(t, calls))
    ensures Agrees(RowsAfter(t, calls), key, Named(t, calls, key))
  {
    if calls != [] {
      var n := |calls| - 1;
      LedgerExact(t, calls[..n], key);
      var rows := RowsAfter(t, calls[..n]);
      match KeyOf(t, calls[n])
      case None => assert Named(t, calls, key) == Named(t, calls[..n], key);
      case Some(touched) =>
        TouchEffect(rows, touched, calls[n]);
        TouchAgrees(rows, touched, calls[n], key, Named(t, calls[..n], key));
        assert touched != key ==> Named(t, calls, key) == Named(t, calls[..n], key);
    }
  }

  /** The calls that touched a table at all. */
  function Touching(t: Table, calls: seq<Call>): seq<Call> {
    if calls == [] then []
    else Touching(t, calls[..|calls| - 1]) + if KeyOf(t, calls[|calls| - 1]).Some? then [calls[|calls| - 1]] else []
  }

  /** A table's counts add up to the number of counting calls that touched it. */
  lemma {:induction false} TotalExact(t: Table, calls: seq<Call>)
    ensures Total(RowsAfter(t, calls)) == Counted(Touching(t, calls))
  {
    if calls != [] {
      var n := |calls| - 1;
      TotalExact(t, calls[..n]);
      LedgerExact(t, calls[..n], "");
      var before := Touching(t, calls[..n]);
      match KeyOf(t, calls[n])
      case None => assert Touching(t, calls) == before;
      case Some(touched) =>
        TouchEffect(RowsAfter(t, calls[..n]), touched, calls[n]);
        assert Touching(t, calls)[..|before|] == before;
    }
  }

  /** The calls that failed between their song and their artist statement. */
  function TornCalls(calls: seq<Call>): seq<Call> {
    if calls == [] then []
    else
      var c := calls[|calls| - 1];
      TornCalls(calls[..|calls| - 1]) + if Songs.CheckTags(c.song).Some? && c.reach == 1 then [c] else []
  }

  lemma CountedMore(calls: seq<Call>, c: Call)
    ensures Counted(calls + [c]) == Counted(calls) + Increment(c)
    ensures calls + [] == calls
  {
    assert (calls + [c])[..|calls|] == calls;
  }

  lemma {:induction false} TornTouching(calls: seq<Call>)
    ensures Counted(Touching(SongTable, calls)) == Counted(Touching(ArtistTable, calls)) + Counted(TornCalls(calls))
  {
    hide Songs.CheckTags, Counted;
    if calls == [] {
      assert Counted([]) == 0 by { CountedNone(); }
    } else {
      var before, c := calls[..|calls| - 1], calls[|calls| - 1];
      TornTouching(before);
      CountedMore(Touching(SongTable, before), c);
      CountedMore(Touching(ArtistTable, before), c);
      CountedMore(TornCalls(before), c);
    }
  }

  lemma CountedNone()
    ensures Counted([]) == 0
  {
  }

  /** The songs' counts exceed the artists' counts by exactly the counting calls that failed
      between the two statements. */
  lemma SongsAndArtistsBalance(calls: seq<Call>)
    ensures Total(RowsAfter(SongTable, calls)) - Total(RowsAfter(ArtistTable, calls)) == Counted(TornCalls(calls))
  {
    TotalExact(SongTable, calls);
    TotalExact(ArtistTable, calls);
    TornTouching(calls);
  }

  /** Every song's karma stays in 1..100. */
  lemma {:induction false} SongKarmaInRange(calls: seq<Call>, i: nat)
    requires i < |RowsAfter(SongTable, calls)|
    ensures 1 <= RowsAfter(SongTable, calls)[i].karma <= 100
  {
    var row := RowsAfter(SongTable, calls)[i];
    LedgerExact(SongTable, calls, row.key);
    Karma.PlaysStayInRange(Karma.DEFAULT, Percents(Named(SongTable, calls, row.key)));
  }
}
