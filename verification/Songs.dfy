/** What a started or ended song means to the two modules: `song_check_tags`, the calls of
    `as_now_playing`, `as_songchange` and `db_process`, and how they meet the scrobbler. */
module Songs {
  import opened Text
  import opened Records
  import opened PlayerEvents
  import PlayerProofs

  datatype Tags = Tags(artist: string, title: Option<string>)

  /** `song_check_tags`. A stream that only has a title is split at the first dash; the title
      keeps the dash, or the space behind it. An artist without a title passes. */
  function CheckTags(song: Song): Option<Tags> {
    match (song.artist, song.title)
    case (None, None) => None
    case (Some(artist), title) => Some(Tags(artist, title))
    case (None, Some(title)) =>
      var p := IndexOf(title, '-');
      if p == 0 || p == |title| then None
      else Some(Tags(if title[p - 1] == ' ' then title[..p - 1] else title[..p],
                     Some(if p + 1 < |title| && title[p + 1] == ' ' then title[p + 1..] else title[p..])))
  }

  /** The record `as_now_playing` offers for a song that starts. */
  function Announcement(song: Song): Option<Record> {
    match CheckTags(song)
    case None => None
    case Some(t) =>
      Some(Record(Some(t.artist), t.title, song.album, song.track, song.mbid, None, song.duration, NoSource))
  }

  /** `as_songchange`: refuses an empty artist or title. `clock` is the current time stamp. */
  function SongChange(uri: string, t: Tags, song: Song, length: int, clock: string): Option<Record> {
    if t.artist == "" || t.title.None? || t.title.value == "" then None
    else Some(Record(Some(t.artist), t.title, song.album, song.track, song.mbid, Some(clock), length,
                     if HasScheme(uri) then Radio else Player))
  }

  /** The record `song_ended` of the scrobbler pushes, if any. */
  function Submitted(song: Song, seconds: int, clock: string): Option<Record> {
    match CheckTags(song)
    case None => None
    case Some(t) =>
      if !PlayedLongEnough(seconds, song.duration) then None
      else SongChange(song.uri, t, song, if song.duration > 0 then song.duration else seconds, clock)
  }

  /** The increment and the percentage `song_ended` of the stats module passes to `db_process`. */
  function Processed(song: Song, seconds: int): (bool, int) {
    (PlayedLongEnough(seconds, song.duration), if song.duration > 0 then seconds * 100 / song.duration else 100)
  }

  // ------------------------------------------------------------------- properties

  /** An announced record lacks something only when the song has an artist but no title. */
  lemma AnnouncementDefined(song: Song)
    requires Announcement(song).Some?
    ensures Defined(Announcement(song).value) <==> song.title.Some?
  {
  }

  /** A pushed record is complete, with a source, as the journal and the protocol require. */
  lemma SubmittedComplete(song: Song, seconds: int, clock: string)
    requires Submitted(song, seconds, clock).Some?
    ensures var r := Submitted(song, seconds, clock).value;
            && Defined(r) && r.artist.value != "" && r.track.value != "" && r.time.Some?
            && (r.source == Radio <==> HasScheme(song.uri)) && r.source != NoSource
  {
  }

  /** The artist and the title of a stream title `a-b`: a blank before the dash does not belong
      to the artist, and of a dash with a blank behind it only the blank belongs to the title. */
  lemma StreamTitleSplit(song: Song, a: string, b: string)
    requires song.artist.None? && song.title == Some(a + "-" + b) && '-' !in a && a != ""
    ensures CheckTags(song) ==
              Some(Tags(if a[|a| - 1] == ' ' then a[..|a| - 1] else a,
                        Some(if b != "" && b[0] == ' ' then b else "-" + b)))
  {
    var title := a + "-" + b;
    IndexOfUnique(title, '-', |a|);
    assert title[..|a|] == a && title[|a|..] == "-" + b && title[|a| + 1..] == b;
    assert title[..|a| - 1] == a[..|a| - 1];
  }

  /** Whose tags a song's records carry: its own, or those split off its title. */
  lemma TagsExactly(song: Song)
    ensures song.artist.Some? ==> CheckTags(song) == Some(Tags(song.artist.value, song.title))
    ensures song.artist.None? && (song.title.None? || '-' !in song.title.value || song.title.value[0] == '-') ==>
              CheckTags(song).None?
  {
    if song.artist.None? && song.title.Some? {
      var title := song.title.value;
      assert '-' in title <==> IndexOf(title, '-') < |title|;
    }
  }

  /** Which field of a song goes into which field of the records made from it. */
  lemma RecordFieldsExactly(song: Song, seconds: int, clock: string)
    ensures Announcement(song).Some? ==>
              var r, t := Announcement(song).value, CheckTags(song).value;
              && r.artist == Some(t.artist) && r.track == t.title && r.album == song.album
              && r.number == song.track && r.mbid == song.mbid && r.time.None? && r.length == song.duration
    ensures Submitted(song, seconds, clock).Some? ==>
              var r, t := Submitted(song, seconds, clock).value, CheckTags(song).value;
              && r.artist == Some(t.artist) && r.track == t.title && r.album == song.album
              && r.number == song.track && r.mbid == song.mbid && r.time == Some(clock)
              && r.length == (if song.duration == 0 then seconds else song.duration)
              && r.source == (if HasScheme(song.uri) then Radio else Player)
  {
  }

  /** The song names an artist and a title: by its tags, or as a stream title with a dash that
      has something other than one blank before it. */
  predicate Credited(song: Song) {
    if song.artist.Some? then song.artist.value != "" && song.title.Some? && song.title.value != ""
    else song.title.Some? && '-' in song.title.value && song.title.value[0] != '-' && !(" -" <= song.title.value)
  }

  /** More than four minutes, or more than half of at least thirty seconds, in microseconds. */
  predicate HeardEnough(heard: nat, duration: nat) {
    heard >= 241_000_000 || (duration >= 30 && heard >= (duration / 2 + 1) * 1_000_000)
  }

  lemma CreditedExactly(song: Song)
    ensures Credited(song) <==>
            CheckTags(song).Some? && SongChange(song.uri, CheckTags(song).value, song, 0, "").Some?
  {
    if song.artist.None? && song.title.Some? {
      var title := song.title.value;
      var p := IndexOf(title, '-');
      assert '-' in title <==> p < |title|;
      assert " -" <= title <==> |title| >= 2 && title[0] == ' ' && title[1] == '-';
      if 0 < p < |title| {
        assert p == 1 && title[0] == ' ' <==> " -" <= title;
        assert CheckTags(song).value.title.value[0] in [' ', '-'];
      }
    }
  }

  /** A song that ends is submitted if and only if it names an artist and a title and more than
      four minutes of it, or more than half of its at least thirty seconds, were really heard
      since it was opened. */
  lemma SubmittedExactly(which: Module, now: int, run: seq<PlayerProofs.Happening>, e: Event, i: nat, clock: string)
    requires PlayerProofs.ProperRun(run) && FromDispatcher(e)
    requires var w := PlayerProofs.Run(which, now, run);
             var after := Handle(which, w.machine, e).log;
             |w.machine.log| <= i < |after| && after[i].SongEnded?
    ensures var w := PlayerProofs.Run(which, now, run);
            var x := Handle(which, w.machine, e).log[i];
            Submitted(x.song, x.seconds, clock).Some? <==> Credited(x.song) && HeardEnough(w.heard, x.song.duration)
  {
    hide Handle, PlayerProofs.Run, CheckTags, Credited;
    PlayerProofs.EndsAreAccurate(which, now, run, e);
    CreditedExactly(Handle(which, PlayerProofs.Run(which, now, run).machine, e).log[i].song);
  }

  /** The statistics module counts a play under the same condition on what was heard, and the
      percentage it reports is that of the whole seconds heard. */
  lemma NothingCountedUnheard(which: Module, now: int, run: seq<PlayerProofs.Happening>, e: Event, i: nat)
    requires PlayerProofs.ProperRun(run) && FromDispatcher(e)
    requires var w := PlayerProofs.Run(which, now, run);
             var after := Handle(which, w.machine, e).log;
             |w.machine.log| <= i < |after| && after[i].SongEnded?
    ensures var w := PlayerProofs.Run(which, now, run);
            var x := Handle(which, w.machine, e).log[i];
            var (counted, percent) := Processed(x.song, x.seconds);
            && (counted <==> HeardEnough(w.heard, x.song.duration))
            && percent == if x.song.duration > 0 then w.heard / SECOND * 100 / x.song.duration else 100
  {
    hide Handle, PlayerProofs.Run;
    PlayerProofs.EndsAreAccurate(which, now, run, e);
  }

  /** The comment in `played_long_enough` asks for at least 240 seconds or half of the song.
      The code refuses just these plays that it describes: of a song under thirty seconds, up
      to 240 seconds; of a longer one, exactly half of it, or exactly 240 seconds. */
  lemma CommentDiffersExactly(seconds: int, duration: nat)
    ensures var asked := seconds >= 240 || 2 * seconds >= duration;
            && (PlayedLongEnough(seconds, duration) ==> asked)
            && (asked && !PlayedLongEnough(seconds, duration) <==>
                  seconds <= 240 &&
                  if duration < 30 then 2 * seconds >= duration
                  else 2 * seconds == duration || (seconds == 240 && duration > 480))
  {
  }
}
