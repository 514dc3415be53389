/** The player machine, the scrobbler and the ledger run together: what was played is what is
    announced, submitted and counted. */
module Playback {
  import opened Text
  import opened Records
  import opened PlayerEvents
  import opened Songs
  import PlayerProofs
  import Submission
  import SubmissionProofs
  import Announcements
  import Ledger

  // ------------------------------------------------------ player and scrobbler

  /** Time passes, mpd reports something while the wall clock shows `clock`, or a timer or a
      reply wakes the scrobbler. */
  datatype Happening =
    | Tick(d: nat)
    | Mpd(e: Event, clock: string)
    | Net(event: Submission.Event, replies: seq<Submission.Reply>)

  /** Both machines. `stamps` says what the wall clock showed at each entry of the player's log,
      `script` what the scrobbler has met with. */
  datatype Daemon = Daemon(player: PlayerProofs.World, scrobbler: Submission.State,
                           stamps: seq<string>, script: seq<Submission.Moment>)

  /** The call of `as_now_playing` or `as_songchange` that an entry leads to, if any. */
  function CallOf(x: Entry, clock: string): seq<Submission.Moment> {
    match x
    case SongStarted(song) =>
      if Announcement(song).None? then []
      else [Submission.Moment(Submission.NowPlayingSet(Announcement(song).value), [])]
    case SongEnded(song, seconds) =>
      if Submitted(song, seconds, clock).None? then []
      else [Submission.Moment(Submission.SongPushed(Submitted(song, seconds, clock).value), [])]
  }

  function CallsOf(entries: seq<Entry>, clock: string): seq<Submission.Moment> {
    if entries == [] then []
    else CallsOf(entries[..|entries| - 1], clock) + CallOf(entries[|entries| - 1], clock)
  }

  function RunScrobbler(d: Daemon, moments: seq<Submission.Moment>): Daemon {
    d.(scrobbler := Submission.Run(d.scrobbler, moments), script := d.script + moments)
  }

  function Next(d: Daemon, h: Happening): Daemon {
    match h
    case Tick(n) => d.(player := PlayerProofs.Next(ScrobblerModule, d.player, PlayerProofs.Tick(n)))
    case Mpd(e, clock) =>
      var p := PlayerProofs.Next(ScrobblerModule, d.player, PlayerProofs.Mpd(e));
      var before, after := d.player.machine.log, p.machine.log;
      var added := if |before| <= |after| then after[|before|..] else [];
      RunScrobbler(d.(player := p, stamps := d.stamps + seq(|added|, _ => clock)), CallsOf(added, clock))
    case Net(event, replies) => RunScrobbler(d, [Submission.Moment(event, replies)])
  }

  function Run(now: int, journal: seq<Record>, run: seq<Happening>): Daemon {
    if run == [] then Daemon(PlayerProofs.Begin(now), Submission.Start(journal), [], [])
    else Next(Run(now, journal, run[..|run| - 1]), run[|run| - 1])
  }

  /** mpd's events come from the dispatcher, and only the player announces and pushes songs. */
  predicate Proper(h: Happening) {
    match h
    case Tick(_) => true
    case Mpd(e, _) => FromDispatcher(e)
    case Net(event, _) => !event.SongPushed? && !event.NowPlayingSet?
  }

  predicate ProperRun(run: seq<Happening>) {
    forall k :: 0 <= k < |run| ==> Proper(run[k])
  }

  // ------------------------------------------------------- reading the player's log

  /** The records of the played songs: the `Submitted` images of the ended songs, in order. */
  function Plays(log: seq<Entry>, stamps: seq<string>): seq<Record>
    requires |log| == |stamps|
  {
    if log == [] then []
    else
      var n := |log| - 1;
      var x := log[n];
      Plays(log[..n], stamps[..n]) +
      if x.SongEnded? && Submitted(x.song, x.seconds, stamps[n]).Some?
      then [Submitted(x.song, x.seconds, stamps[n]).value] else []
  }

  /** The announcement of the song started last, among those that have one. */
  function LastStarted(log: seq<Entry>): Option<Record> {
    if log == [] then None
    else
      var x := log[|log| - 1];
      if x.SongStarted? && Announcement(x.song).Some? then Announcement(x.song) else LastStarted(log[..|log| - 1])
  }

  /** No started song has an artist without a title. */
  predicate TitledSongs(log: seq<Entry>) {
    forall x :: x in log && x.SongStarted? && x.song.artist.Some? ==> x.song.title.Some?
  }

  // ------------------------------------------------------------------ invariant

  lemma {:induction false} LastSetConcat(a: seq<Submission.Moment>, b: seq<Submission.Moment>)
    ensures Announcements.LastSet(a + b)
            == if Announcements.LastSet(b).Some? then Announcements.LastSet(b) else Announcements.LastSet(a)
    decreases |b|
  {
    if b == [] {
      assert a + b == a;
    } else {
      var n := |b| - 1;
      assert (a + b)[..|a + b| - 1] == a + b[..n];
      LastSetConcat(a, b[..n]);
    }
  }

  /** The script says of the scrobbler what the log says of the player. */
  predicate Matches(log: seq<Entry>, stamps: seq<string>, script: seq<Submission.Moment>) {
    && |log| == |stamps|
    && SubmissionProofs.PushedRecords(script) == Plays(log, stamps)
    && Announcements.LastSet(script) == LastStarted(log)
    && (TitledSongs(log) ==> SubmissionProofs.Titled(script))
  }

  lemma OneCall(x: Entry, clock: string)
    ensures var c := CallOf(x, clock);
            && SubmissionProofs.PushedRecords(c)
               == (if x.SongEnded? && Submitted(x.song, x.seconds, clock).Some?
                   then [Submitted(x.song, x.seconds, clock).value] else [])
            && Announcements.LastSet(c) == (if x.SongStarted? then Announcement(x.song) else None)
            && ((x.SongStarted? && x.song.artist.Some? ==> x.song.title.Some?) ==> SubmissionProofs.Titled(c))
  {
    hide CheckTags;
    var c := CallOf(x, clock);
    assert |c| <= 1;
    assert c != [] ==> c[..0] == [];
    if x.SongStarted? && Announcement(x.song).Some? {
      AnnouncementDefined(x.song);
      UntaggedIsSilent(x.song);
    }
  }

  lemma UntaggedIsSilent(song: Song)
    requires Announcement(song).Some?
    ensures song.artist.None? ==> song.title.Some?
  {
  }

  lemma EntryTitled(log: seq<Entry>, script: seq<Submission.Moment>, x: Entry, call: seq<Submission.Moment>)
    requires TitledSongs(log + [x])
    requires TitledSongs(log) ==> SubmissionProofs.Titled(script)
    requires (x.SongStarted? && x.song.artist.Some? ==> x.song.title.Some?) ==> SubmissionProofs.Titled(call)
    ensures SubmissionProofs.Titled(script + call)
  {
    assert x in log + [x];
    assert forall y :: y in log ==> y in log + [x];
  }

  lemma EntryMatches(log: seq<Entry>, stamps: seq<string>, script: seq<Submission.Moment>, x: Entry, clock: string)
    requires Matches(log, stamps, script)
    ensures Matches(log + [x], stamps + [clock], script + CallOf(x, clock))
  {
    hide Announcement, Submitted, CallOf, TitledSongs, SubmissionProofs.Titled,
         SubmissionProofs.PushedRecords, Announcements.LastSet;
    OneCall(x, clock);
    SubmissionProofs.PushedConcat(script, CallOf(x, clock));
    LastSetConcat(script, CallOf(x, clock));
    assert (log + [x])[..|log|] == log && (stamps + [clock])[..|log|] == stamps;
    if TitledSongs(log + [x]) {
      EntryTitled(log, script, x, CallOf(x, clock));
    }
  }

  lemma {:induction false} EntriesMatch(log: seq<Entry>, stamps: seq<string>, script: seq<Submission.Moment>,
                                        added: seq<Entry>, clock: string)
    requires Matches(log, stamps, script)
    ensures Matches(log + added, stamps + seq(|added|, _ => clock), script + CallsOf(added, clock))
    decreases |added|
  {
    hide Matches;
    if added == [] {
      assert log + added == log && stamps + seq(0, _ => clock) == stamps && script + CallsOf(added, clock) == script;
    } else {
      var n := |added| - 1;
      EntriesMatch(log, stamps, script, added[..n], clock);
      EntryMatches(log + added[..n], stamps + seq(n, _ => clock), script + CallsOf(added[..n], clock), added[n], clock);
      assert log + added[..n] + [added[n]] == log + added;
      assert stamps + seq(n, _ => clock) + [clock] == stamps + seq(|added|, _ => clock);
      assert script + CallsOf(added[..n], clock) + CallOf(added[n], clock) == script + CallsOf(added, clock);
    }
  }

  predicate Inv(d: Daemon, journal: seq<Record>) {
    && PlayerProofs.Inv(d.player)
    && d.scrobbler == Submission.Run(Submission.Start(journal), d.script)
    && Matches(d.player.machine.log, d.stamps, d.script)
  }

  lemma NetMatches(log: seq<Entry>, stamps: seq<string>, script: seq<Submission.Moment>, m: Submission.Moment)
    requires Matches(log, stamps, script)
    requires !m.event.SongPushed? && !m.event.NowPlayingSet?
    ensures Matches(log, stamps, script + [m])
  {
    assert (script + [m])[..|script|] == script;
  }

  lemma NextInv(d: Daemon, h: Happening, journal: seq<Record>)
    requires Inv(d, journal) && Proper(h)
    ensures Inv(Next(d, h), journal)
  {
    hide Matches, Submission.Run, PlayerProofs.Inv, Handle, CallsOf;
    match h
    case Tick(n) => PlayerProofs.NextInv(ScrobblerModule, d.player, PlayerProofs.Tick(n));
    case Mpd(e, clock) =>
      PlayerProofs.NextInv(ScrobblerModule, d.player, PlayerProofs.Mpd(e));
      PlayerProofs.EventEndsAccurately(ScrobblerModule, d.player, e);
      var before, after := d.player.machine.log, Handle(ScrobblerModule, d.player.machine, e).log;
      var added := after[|before|..];
      assert before + added == after;
      EntriesMatch(before, d.stamps, d.script, added, clock);
      SubmissionProofs.RunConcat(Submission.Start(journal), d.script, CallsOf(added, clock));
    case Net(event, replies) =>
      NetMatches(d.player.machine.log, d.stamps, d.script, Submission.Moment(event, replies));
      SubmissionProofs.RunConcat(Submission.Start(journal), d.script, [Submission.Moment(event, replies)]);
  }

  lemma {:induction false} RunInv(now: int, journal: seq<Record>, run: seq<Happening>)
    requires ProperRun(run)
    ensures Inv(Run(now, journal, run), journal)
  {
    hide Inv, Next;
    if run == [] {
      BeginInv(now, journal);
    } else {
      RunInv(now, journal, run[..|run| - 1]);
      NextInv(Run(now, journal, run[..|run| - 1]), run[|run| - 1], journal);
    }
  }

  lemma BeginInv(now: int, journal: seq<Record>)
    ensures Inv(Run(now, journal, []), journal)
  {
  }

  // ------------------------------------------------------------------ theorems

  /** From what was heard to what is submitted, over every run of both machines: the journal's
      records followed by the images of the songs that ended are the records the server has
      accepted followed by the queue, unless an assertion failed. One has failed if and only if
      a record without title met the scrobbler where `TripsAt` says, which takes a song that has
      an artist and no title. */
  lemma PlaysAreConserved(now: int, journal: seq<Record>, run: seq<Happening>)
    requires ProperRun(run)
    ensures var d := Run(now, journal, run);
            && |d.stamps| == |d.player.machine.log|
            && (!d.scrobbler.aborted ==>
                  journal + Plays(d.player.machine.log, d.stamps)
                  == SubmissionProofs.Delivered(d.scrobbler.wire) + d.scrobbler.queue)
            && (d.scrobbler.aborted <==>
                  exists k :: 0 <= k < |d.script| && SubmissionProofs.TripsAt(journal, d.script, k))
            && (TitledSongs(d.player.machine.log) ==> !d.scrobbler.aborted)
  {
    hide Run, Submission.Run, SubmissionProofs.Delivered, SubmissionProofs.SoundWire,
         SubmissionProofs.TripsAt, TitledSongs, SubmissionProofs.Titled;
    RunInv(now, journal, run);
    var d := Run(now, journal, run);
    SubmissionProofs.FifoConservation(journal, d.script);
    SubmissionProofs.RunAbortsExactly(journal, d.script);
    if TitledSongs(d.player.machine.log) {
      SubmissionProofs.TitledRunsNeverAbort(journal, d.script);
    }
  }

  /** When nothing waits to be announced and no assertion failed, the server was last told of
      the song that started last, if and only if it has a title and no OK for another song
      overtook it. */
  lemma LastSongIsAnnounced(now: int, journal: seq<Record>, run: seq<Happening>)
    requires ProperRun(run) && !Run(now, journal, run).scrobbler.aborted
    requires !Defined(Run(now, journal, run).scrobbler.nowPlaying)
    ensures var d := Run(now, journal, run);
            var last := LastStarted(d.player.machine.log);
            Announcements.LastAnnounced(d.scrobbler.wire) == last <==>
            (last.Some? ==> last.value.track.Some?) && !Announcements.Overtaken(journal, d.script)
  {
    hide Run, Submission.Run, Announcements.LastAnnounced, Announcements.Overtaken, Announcement;
    RunInv(now, journal, run);
    var d := Run(now, journal, run);
    if LastStarted(d.player.machine.log).Some? {
      StartedHasArtist(d.player.machine.log);
    }
    Announcements.LastAnnouncedExactly(journal, d.script);
  }

  lemma {:induction false} StartedHasArtist(log: seq<Entry>)
    requires LastStarted(log).Some?
    ensures LastStarted(log).value.artist.Some?
  {
    hide CheckTags;
    var x := log[|log| - 1];
    if !(x.SongStarted? && Announcement(x.song).Some?) {
      StartedHasArtist(log[..|log| - 1]);
    }
  }

  lemma {:induction false} PlaysComplete(log: seq<Entry>, stamps: seq<string>, r: Record)
    requires |log| == |stamps| && r in Plays(log, stamps)
    ensures Defined(r) && r.source != NoSource
  {
    hide Submitted;
    var n := |log| - 1;
    if r in Plays(log[..n], stamps[..n]) {
      PlaysComplete(log[..n], stamps[..n], r);
    } else {
      SubmittedComplete(log[n].song, log[n].seconds, stamps[n]);
    }
  }

  /** Every record that is ever queued or delivered has artist, track and source, so the
      assertion of `journal_write_record` never fails and a saved queue loses no record for
      missing tags. */
  lemma QueuedRecordsComplete(now: int, journal: seq<Record>, run: seq<Happening>, r: Record)
    requires ProperRun(run)
    requires forall j :: j in journal ==> Defined(j) && j.source != NoSource
    requires var s := Run(now, journal, run).scrobbler;
             !s.aborted && (r in s.queue || r in SubmissionProofs.Delivered(s.wire))
    ensures Defined(r) && r.source != NoSource
  {
    hide Run, SubmissionProofs.Delivered;
    PlaysAreConserved(now, journal, run);
    var d := Run(now, journal, run);
    assert r in SubmissionProofs.Delivered(d.scrobbler.wire) + d.scrobbler.queue;
    if r !in journal {
      PlaysComplete(d.player.machine.log, d.stamps, r);
    }
  }

  lemma FirstSongStarts(song: Song, now: int)
    ensures Handle(ScrobblerModule, Init(now), Event(Playing, Some(song), 0)).log == [SongStarted(song)]
  {
    hide HasScheme;
  }

  lemma GreetedThenPlayed(song: Song, greeting: Submission.Reply, now: int, clock: string)
    requires Announcement(song).Some?
    ensures var h0 := Net(Submission.HandshakeTimerFires, [greeting]);
            Run(now, [], [h0, Mpd(Event(Playing, Some(song), 0), clock)]).script
            == [Submission.Moment(Submission.HandshakeTimerFires, [greeting]),
                Submission.Moment(Submission.NowPlayingSet(Announcement(song).value), [])]
  {
    hide Submission.Run, Submission.Start, Announcement, Handle;
    var h0 := Net(Submission.HandshakeTimerFires, [greeting]);
    var h1 := Mpd(Event(Playing, Some(song), 0), clock);
    assert [h0, h1][..1] == [h0] && [h0][..0] == [];
    var d := Run(now, [], [h0]);
    assert d == Next(Run(now, [], []), h0);
    assert d.player.machine == Init(now);
    FirstSongStarts(song, now);
    var after := Handle(ScrobblerModule, Init(now), h1.e).log;
    assert after[..0] == [] && after[0..] == after;
    assert CallsOf(after, clock) == CallsOf([], clock) + CallOf(after[0], clock);
  }

  /** Playing a song with an artist but no title announces a record that kills an idle scrobbler. */
  lemma UntitledPlaybackAborts(song: Song, greeting: Submission.Reply, now: int, clock: string)
    requires song.artist.Some? && song.title.None?
    requires Submission.HandshakeSession(greeting).Some?
    ensures var run := [Net(Submission.HandshakeTimerFires, [greeting]), Mpd(Event(Playing, Some(song), 0), clock)];
            ProperRun(run) && Run(now, [], run).scrobbler.aborted
  {
    hide Run, Submission.Run, Submission.HandshakeSession, Matches, PlayerProofs.Inv;
    RunInv(now, [], [Net(Submission.HandshakeTimerFires, [greeting]), Mpd(Event(Playing, Some(song), 0), clock)]);
    GreetedThenPlayed(song, greeting, now, clock);
    SubmissionProofs.UntitledSongAborts(greeting, Announcement(song).value);
  }

  // --------------------------------------------------------------------- ledger

  /** The calls of `db_process` for the songs that ended; `reach(k)` says how far the statements
      of call `k` get. */
  function LedgerCalls(log: seq<Entry>, reach: nat -> nat): seq<Ledger.Call> {
    if log == [] then []
    else
      var calls := LedgerCalls(log[..|log| - 1], reach);
      var x := log[|log| - 1];
      if x.SongStarted? then calls
      else calls + [Ledger.Call(x.song, Processed(x.song, x.seconds).0, Processed(x.song, x.seconds).1, reach(|calls|))]
  }

  /** What an observer writes down when a song ends: the song and how long it was heard. */
  datatype Listen = Listen(song: Song, heard: nat)

  function Ended(x: Entry, heard: nat): seq<Listen> {
    if x.SongEnded? then [Listen(x.song, heard)] else []
  }

  function Listens(now: int, run: seq<PlayerProofs.Happening>): seq<Listen> {
    if run == [] then []
    else
      var n := |run| - 1;
      var w := PlayerProofs.Run(StatsModule, now, run[..n]);
      Listens(now, run[..n]) +
      if run[n].Tick? then []
      else
        var before, after := w.machine.log, Handle(StatsModule, w.machine, run[n].e).log;
        if |before| < |after| then Ended(after[|before|], w.heard) else []
  }

  /** The database took note of this listen of the song with this address. */
  predicate Noted(x: Listen, reach: nat, uri: string) {
    x.song.uri == uri && CheckTags(x.song).Some? && reach >= 1
  }

  /** How many listens of the song were noted and long enough. */
  function HeardPlays(listens: seq<Listen>, reach: nat -> nat, uri: string): nat {
    if listens == [] then 0
    else
      var n := |listens| - 1;
      HeardPlays(listens[..n], reach, uri) +
      if Noted(listens[n], reach(n), uri) && HeardEnough(listens[n].heard, listens[n].song.duration) then 1 else 0
  }

  /** The calls are those of the listens, in order. */
  predicate CallsMatch(calls: seq<Ledger.Call>, listens: seq<Listen>, reach: nat -> nat) {
    && |calls| == |listens|
    && forall k :: 0 <= k < |calls| ==>
         && calls[k].song == listens[k].song && calls[k].reach == reach(k)
         && calls[k].increment == HeardEnough(listens[k].heard, listens[k].song.duration)
  }

  lemma LongEnoughIsHeardEnough(heard: nat, duration: nat)
    ensures PlayedLongEnough(heard / SECOND, duration) <==> HeardEnough(heard, duration)
  {
  }

  lemma EntryCalls(log: seq<Entry>, x: Entry, listens: seq<Listen>, heard: nat, reach: nat -> nat)
    requires CallsMatch(LedgerCalls(log, reach), listens, reach)
    requires x.SongEnded? ==> x.seconds == heard / SECOND
    ensures CallsMatch(LedgerCalls(log + [x], reach), listens + Ended(x, heard), reach)
  {
    assert (log + [x])[..|log|] == log;
    if x.SongEnded? {
      LongEnoughIsHeardEnough(heard, x.song.duration);
    }
  }

  lemma StartCalls(log: seq<Entry>, x: Entry, listens: seq<Listen>, reach: nat -> nat)
    requires CallsMatch(LedgerCalls(log, reach), listens, reach) && x.SongStarted?
    ensures CallsMatch(LedgerCalls(log + [x], reach), listens, reach)
  {
    assert (log + [x])[..|log|] == log;
  }

  lemma EventCalls(before: seq<Entry>, after: seq<Entry>, listens: seq<Listen>, heard: nat, reach: nat -> nat)
    requires CallsMatch(LedgerCalls(before, reach), listens, reach)
    requires before < after && |after| <= |before| + 2
    requires after[|before|].SongEnded? ==> after[|before|].seconds == heard / SECOND
    requires |after| == |before| + 2 ==> after[|before| + 1].SongStarted?
    ensures CallsMatch(LedgerCalls(after, reach), listens + Ended(after[|before|], heard), reach)
  {
    hide *;
    var n := |before|;
    EntryCalls(before, after[n], listens, heard, reach);
    if |after| == n + 1 {
      LastEntry(before, after);
    } else {
      LastEntry(before, after[..n + 1]);
      LastEntry(after[..n + 1], after);
      StartCalls(after[..n + 1], after[n + 1], listens + Ended(after[n], heard), reach);
    }
  }

  lemma LastEntry(before: seq<Entry>, after: seq<Entry>)
    requires before < after && |after| == |before| + 1
    ensures after == before + [after[|before|]]
  {
  }

  lemma {:induction false} RunCalls(now: int, run: seq<PlayerProofs.Happening>, reach: nat -> nat)
    requires PlayerProofs.ProperRun(run)
    ensures CallsMatch(LedgerCalls(PlayerProofs.Run(StatsModule, now, run).machine.log, reach),
                       Listens(now, run), reach)
  {
    hide Handle, CallsMatch, LedgerCalls, PlayerProofs.Inv;
    if run == [] {
      NoCalls(reach);
    } else {
      var n := |run| - 1;
      RunCalls(now, run[..n], reach);
      var w := PlayerProofs.Run(StatsModule, now, run[..n]);
      if run[n].Mpd? {
        PlayerProofs.RunInv(StatsModule, now, run[..n]);
        PlayerProofs.EventEndsAccurately(StatsModule, w, run[n].e);
        var after := Handle(StatsModule, w.machine, run[n].e).log;
        if after == w.machine.log {
          assert Listens(now, run) == Listens(now, run[..n]);
        } else {
          EventCalls(w.machine.log, after, Listens(now, run[..n]), w.heard, reach);
        }
      } else {
        assert Listens(now, run) == Listens(now, run[..n]);
      }
    }
  }

  lemma NoCalls(reach: nat -> nat)
    ensures CallsMatch(LedgerCalls([], reach), [], reach)
  {
  }

  lemma MoreNamed(calls: seq<Ledger.Call>, uri: string)
    requires calls != []
    ensures var n := |calls| - 1;
            var before := Ledger.Named(Ledger.SongTable, calls[..n], uri);
            var after := Ledger.Named(Ledger.SongTable, calls, uri);
            if Ledger.KeyOf(Ledger.SongTable, calls[n]) == Some(uri)
            then after != [] && Ledger.Counted(after) == Ledger.Counted(before) + Ledger.Increment(calls[n])
            else after == before
  {
    hide CheckTags;
    var before := Ledger.Named(Ledger.SongTable, calls[..|calls| - 1], uri);
    assert (before + [calls[|calls| - 1]])[..|before|] == before;
    assert before + [] == before;
  }

  lemma {:induction false} NamedPlays(calls: seq<Ledger.Call>, listens: seq<Listen>, reach: nat -> nat, uri: string)
    requires CallsMatch(calls, listens, reach)
    ensures var named := Ledger.Named(Ledger.SongTable, calls, uri);
            && Ledger.Counted(named) == HeardPlays(listens, reach, uri)
            && (named != [] <==> exists k :: 0 <= k < |listens| && Noted(listens[k], reach(k), uri))
  {
    hide CheckTags, HeardEnough, Ledger.Named, Ledger.Counted;
    if calls == [] {
      NoneNamed(uri);
    } else {
      var n := |calls| - 1;
      NamedPlays(calls[..n], listens[..n], reach, uri);
      var named := Ledger.Named(Ledger.SongTable, calls[..n], uri);
      assert forall k :: 0 <= k < n ==> listens[..n][k] == listens[k];
      MoreNamed(calls, uri);
      assert Ledger.KeyOf(Ledger.SongTable, calls[n]) == Some(uri) <==> Noted(listens[n], reach(n), uri);
      assert named != [] <==> exists k :: 0 <= k < n && Noted(listens[..n][k], reach(k), uri);
    }
  }

  lemma NoneNamed(uri: string)
    ensures Ledger.Named(Ledger.SongTable, [], uri) == [] && Ledger.Counted([]) == 0
  {
  }

  /** From what was heard to the database, over every run of the statistics module and whatever
      statements fail: a song has a row exactly when a listen of it was noted, and its count is
      the number of its noted listens that were long enough. */
  lemma CountsAreHeardPlays(now: int, run: seq<PlayerProofs.Happening>, reach: nat -> nat, uri: string, i: nat)
    requires PlayerProofs.ProperRun(run)
    ensures var calls := LedgerCalls(PlayerProofs.Run(StatsModule, now, run).machine.log, reach);
            var rows := Ledger.RowsAfter(Ledger.SongTable, calls);
            var listens := Listens(now, run);
            && (Ledger.KeyIn(rows, uri) <==> exists k :: 0 <= k < |listens| && Noted(listens[k], reach(k), uri))
            && (i < |rows| && rows[i].key == uri ==> rows[i].plays == HeardPlays(listens, reach, uri))
  {
    hide PlayerProofs.Run, Noted, LedgerCalls, Listens, Ledger.RowsAfter, Ledger.Named, HeardPlays;
    var calls := LedgerCalls(PlayerProofs.Run(StatsModule, now, run).machine.log, reach);
    RunCalls(now, run, reach);
    NamedPlays(calls, Listens(now, run), reach, uri);
    Ledger.LedgerExact(Ledger.SongTable, calls, uri);
  }
}
