/** Over every sequence of player events and clock ticks: songs open and close in turn, and the
    time a song is credited with is the time it was really heard. */
module PlayerProofs {
  import opened Text
  import opened PlayerEvents

  // ------------------------------------------------------------------ observation

  /** The machine beside an observer who knows nothing of timers: he adds up the time that
      passes while the last event said `Playing`, from zero whenever a song is opened. */
  datatype World = World(machine: State, playing: bool, heard: nat)

  datatype Happening = Tick(d: nat) | Mpd(e: Event)

  function Begin(now: int): World {
    World(Init(now), false, 0)
  }

  /** Something was opened between the logs `before` and `after`. */
  predicate Opens(before: seq<Entry>, after: seq<Entry>) {
    |after| > |before| && after[|after| - 1].SongStarted?
  }

  function Next(which: Module, w: World, h: Happening): World {
    match h
    case Tick(d) =>
      World(w.machine.(now := w.machine.now + d), w.playing, if w.playing then w.heard + d else w.heard)
    case Mpd(e) =>
      var m := Handle(which, w.machine, e);
      World(m, e.status == Playing, if Opens(w.machine.log, m.log) then 0 else w.heard)
  }

  function Run(which: Module, now: int, run: seq<Happening>): World {
    if run == [] then Begin(now) else Next(which, Run(which, now, run[..|run| - 1]), run[|run| - 1])
  }

  predicate ProperRun(run: seq<Happening>) {
    forall k :: 0 <= k < |run| && run[k].Mpd? ==> FromDispatcher(run[k].e)
  }

  // -------------------------------------------------------------------- bracketing

  /** Starts and ends alternate, and every end names the song that was started. */
  predicate Bracketed(log: seq<Entry>) {
    if log == [] then true
    else
      var n := |log| - 1;
      && Bracketed(log[..n])
      && (log[n].SongStarted? <==> n % 2 == 0)
      && (log[n].SongEnded? && n > 0 ==> log[n].song.id == log[n - 1].song.id)
  }

  predicate SongOpen(log: seq<Entry>) {
    log != [] && log[|log| - 1].SongStarted?
  }

  lemma BracketedStart(log: seq<Entry>, song: Song)
    requires Bracketed(log) && !SongOpen(log)
    ensures Bracketed(log + [SongStarted(song)])
  {
    assert (log + [SongStarted(song)])[..|log|] == log;
  }

  lemma BracketedEnd(log: seq<Entry>, song: Song, seconds: int)
    requires Bracketed(log) && SongOpen(log) && log[|log| - 1].song.id == song.id
    ensures Bracketed(log + [SongEnded(song, seconds)])
  {
    assert (log + [SongEnded(song, seconds)])[..|log|] == log;
  }

  lemma {:induction false} BracketedAt(log: seq<Entry>, i: nat)
    requires Bracketed(log) && i < |log|
    ensures log[i].SongStarted? <==> i % 2 == 0
    ensures log[i].SongEnded? ==> i > 0 && log[i].song.id == log[i - 1].song.id
  {
    if i < |log| - 1 {
      BracketedAt(log[..|log| - 1], i);
    }
  }

  // --------------------------------------------------------------------- invariant

  predicate Inv(w: World) {
    var m := w.machine;
    && !m.misused
    && Bracketed(m.log)
    && (m.prev.None? <==> m.lastId == NO_ID)
    && (m.prev.Some? <==> SongOpen(m.log))
    && (w.playing ==> m.prev.Some?)
    && (m.prev.Some? ==>
          && m.prev.value.id == m.lastId == m.log[|m.log| - 1].song.id
          && m.isRemote == HasScheme(m.log[|m.log| - 1].song.uri)
          && m.timer.active == w.playing == !m.wasPaused
          && m.timer.Elapsed(m.now) == w.heard)
  }

  lemma OpenInv(s: State, song: Song)
    requires Bracketed(s.log) && !SongOpen(s.log) && !s.misused && !s.wasPaused
    ensures Inv(World(Start(s, song).(lastId := song.id, prev := Some(song)), true, 0))
  {
    BracketedStart(s.log, song);
  }

  lemma PauseInv(which: Module, w: World, e: Event)
    requires Inv(w) && FromDispatcher(e) && e.status == Paused
    ensures Inv(Next(which, w, Mpd(e)))
  {
  }

  lemma StopInv(which: Module, w: World, e: Event)
    requires Inv(w) && FromDispatcher(e) && e.status == Stopped
    ensures Inv(Next(which, w, Mpd(e)))
  {
    var s := Transport(w.machine, e);
    if s.prev.Some? {
      BracketedEnd(s.log, s.prev.value, Seconds(s));
    }
  }

  /** A resumed or still running song is credited with what was heard. */
  lemma TransportInv(w: World, e: Event)
    requires Inv(w) && FromDispatcher(e) && e.status == Playing
    ensures var s := Transport(w.machine, e);
            && s == w.machine.(wasPaused := false, timer := s.timer)
            && (s.prev.Some? ==> s.timer.Elapsed(s.now) == w.heard)
            && (s.prev.Some? && s.prev.value.id == e.song.value.id ==> s.timer.active)
  {
  }

  lemma ReopenInv(s: State, ended: Song, song: Song)
    requires Bracketed(s.log) && SongOpen(s.log) && !s.misused && !s.wasPaused
    requires s.log[|s.log| - 1].song.id == ended.id
    ensures Inv(World(Start(End(s, ended), song).(lastId := song.id, prev := Some(song)), true, 0))
  {
    BracketedEnd(s.log, ended, Seconds(s));
    OpenInv(End(s, ended), song);
  }

  lemma {:induction false} PlayInv(which: Module, w: World, e: Event)
    requires Inv(w) && FromDispatcher(e) && e.status == Playing
    ensures Inv(Next(which, w, Mpd(e)))
  {
    hide HasScheme, Bracketed, Repeats, TitlesDiffer;
    TransportInv(w, e);
    var s := Transport(w.machine, e);
    var song := e.song.value;
    if s.prev.None? {
      OpenInv(s, song);
    } else if s.prev.value.id != song.id || Restarted(s, song) {
      ReopenInv(s, s.prev.value, song);
    } else if Repeats(which, song, e.elapsed, Seconds(s)) {
      ReopenInv(s, song, song);
    }
  }

  lemma {:induction false} NextInv(which: Module, w: World, h: Happening)
    requires Inv(w) && (h.Mpd? ==> FromDispatcher(h.e))
    ensures Inv(Next(which, w, h))
  {
    if h.Mpd? {
      match h.e.status
      case Playing => PlayInv(which, w, h.e);
      case Paused => PauseInv(which, w, h.e);
      case Stopped => StopInv(which, w, h.e);
    }
  }

  lemma {:induction false} RunInv(which: Module, now: int, run: seq<Happening>)
    requires ProperRun(run)
    ensures Inv(Run(which, now, run))
  {
    if run != [] {
      RunInv(which, now, run[..|run| - 1]);
      NextInv(which, Run(which, now, run[..|run| - 1]), run[|run| - 1]);
    }
  }

  // ---------------------------------------------------------------------- theorems

  /** Over every run `song_started` and `song_ended` alternate, an ended song is the one last
      started, `prev` is NULL exactly when `last_id` is -1 and otherwise has that id, and the
      timer is only ever continued when it is stopped. */
  lemma SongsAreBracketed(which: Module, now: int, run: seq<Happening>, i: nat)
    requires ProperRun(run) && i < |Run(which, now, run).machine.log|
    ensures var m := Run(which, now, run).machine;
            && (m.log[i].SongStarted? <==> i % 2 == 0)
            && (m.log[i].SongEnded? ==> i > 0 && m.log[i].song.id == m.log[i - 1].song.id)
            && (m.prev.None? <==> m.lastId == NO_ID)
            && (m.prev.Some? ==> m.prev.value.id == m.lastId)
            && (m.prev.Some? <==> |m.log| % 2 == 1)
            && !m.misused
  {
    hide Run;
    RunInv(which, now, run);
    var m := Run(which, now, run).machine;
    BracketedAt(m.log, i);
    BracketedAt(m.log, |m.log| - 1);
  }

  /** While a song is open the timer runs exactly while the player does and shows exactly what
      was heard, through any number of pauses. */
  lemma TimerIsAccurate(which: Module, now: int, run: seq<Happening>)
    requires ProperRun(run)
    ensures var w := Run(which, now, run);
            w.machine.prev.Some? ==>
              && (w.machine.timer.active <==> w.playing)
              && w.machine.timer.Elapsed(w.machine.now) == w.heard
  {
    RunInv(which, now, run);
  }

  lemma EventEndsAccurately(which: Module, w: World, e: Event)
    requires Inv(w) && FromDispatcher(e)
    ensures var before, after := w.machine.log, Handle(which, w.machine, e).log;
            && before <= after && |after| <= |before| + 2
            && (forall i :: |before| <= i < |after| && after[i].SongEnded? ==>
                  i == |before| && after[i].seconds == w.heard / SECOND)
  {
    if e.status == Playing {
      TransportInv(w, e);
    }
  }

  /** A song that ends is credited with the whole seconds that were heard of it, and at most
      one song ends per event. */
  lemma EndsAreAccurate(which: Module, now: int, run: seq<Happening>, e: Event)
    requires ProperRun(run) && FromDispatcher(e)
    ensures var w := Run(which, now, run);
            var before, after := w.machine.log, Handle(which, w.machine, e).log;
            && before <= after && |after| <= |before| + 2
            && (forall i :: |before| <= i < |after| && after[i].SongEnded? ==>
                  i == |before| && after[i].seconds == w.heard / SECOND)
  {
    RunInv(which, now, run);
    EventEndsAccurately(which, Run(which, now, run), e);
  }

  // ---------------------------------------------------------------------- restarts

  /** A song of this duration that was heard for `heard` seconds and now plays at `elapsed` has
      begun again. The scrobbler asks that it be in its first minute, and that what was heard
      beyond the new position be more than 240 seconds, or more than half of at least thirty;
      the statistics module only that more was heard. */
  predicate BeganAgain(which: Module, duration: nat, elapsed: nat, heard: int) {
    match which
    case ScrobblerModule =>
      elapsed < 60 && heard > elapsed
      && (heard - elapsed > 240 || (duration >= 30 && heard - elapsed > duration / 2))
    case StatsModule => heard > elapsed
  }

  predicate SchemeAt(uri: string, i: int) {
    0 <= i <= |uri| - 3 && uri[i..i + 3] == "://"
  }

  lemma SchemeExactly(uri: string)
    ensures HasScheme(uri) <==> exists i :: SchemeAt(uri, i)
  {
    if HasScheme(uri) {
      var i :| 0 <= i <= |uri| - 3 && uri[i] == ':' && uri[i + 1] == '/' && uri[i + 2] == '/';
      assert SchemeAt(uri, i);
    }
    if exists i :: SchemeAt(uri, i) {
      var i :| SchemeAt(uri, i);
      var s := uri[i..i + 3];
      assert uri[i] == s[0] && uri[i + 1] == s[1] && uri[i + 2] == s[2];
    }
  }

  /** A further `Playing` event for the open song restarts it if and only if the song was
      started as a stream and either record of it has a title, because titles are compared by
      address, or it began again. The song that ends is then the copy kept from the event
      before, or the new one. */
  lemma RestartsExactly(which: Module, now: int, run: seq<Happening>, e: Event)
    requires ProperRun(run) && FromDispatcher(e) && e.status == Playing
    requires var m := Run(which, now, run).machine; m.prev.Some? && e.song.value.id == m.lastId
    ensures var w := Run(which, now, run);
            var before, after := w.machine.log, Handle(which, w.machine, e).log;
            before != [] &&
            var song, prev := e.song.value, w.machine.prev.value;
            var byTitle := HasScheme(before[|before| - 1].song.uri) && (song.title.Some? || prev.title.Some?);
            && (after != before <==>
                  byTitle || BeganAgain(which, song.duration, e.elapsed, w.heard / SECOND))
            && (after != before ==>
                  after == before + [SongEnded(if byTitle then prev else song, w.heard / SECOND), SongStarted(song)])
  {
    hide Run, HasScheme, Bracketed, Repeats, BeganAgain;
    RunInv(which, now, run);
    TransportInv(Run(which, now, run), e);
    RepeatsExactly(which, e.song.value, e.elapsed, Run(which, now, run).heard / SECOND);
  }

  lemma RepeatsExactly(which: Module, song: Song, elapsed: nat, heard: int)
    ensures Repeats(which, song, elapsed, heard) <==> BeganAgain(which, song.duration, elapsed, heard)
  {
  }

  lemma SongPlays(which: Module, now: int, song: Song, first: nat, d: nat)
    ensures var w := Run(which, now, [Mpd(Event(Playing, Some(song), first)), Tick(d)]);
            && w.machine.log == [SongStarted(song)] && w.machine.prev == Some(song)
            && w.machine.lastId == song.id && w.heard == d
  {
    hide HasScheme, Repeats;
    var h0 := Mpd(Event(Playing, Some(song), first));
    assert [h0, Tick(d)][..1] == [h0] && [h0][..0] == [];
    assert Run(which, now, [h0]) == Next(which, Begin(now), h0);
  }

  /** What an open song that plays on from the start leaves in the log. */
  lemma PlayedOn(which: Module, now: int, song: Song, first: nat, d: nat, second: nat)
    ensures var run := [Mpd(Event(Playing, Some(song), first)), Tick(d), Mpd(Event(Playing, Some(song), second))];
            Run(which, now, run).machine.log ==
              if (HasScheme(song.uri) && song.title.Some?) || BeganAgain(which, song.duration, second, d / SECOND)
              then [SongStarted(song), SongEnded(song, d / SECOND), SongStarted(song)]
              else [SongStarted(song)]
  {
    hide HasScheme, BeganAgain, Handle;
    var begun := [Mpd(Event(Playing, Some(song), first)), Tick(d)];
    var e := Event(Playing, Some(song), second);
    assert [begun[0], begun[1], Mpd(e)][..2] == begun;
    SongPlays(which, now, song, first, d);
    RestartsExactly(which, now, begun, e);
  }

  /** A stream with a title that merely goes on playing is ended and started again. */
  lemma TitledStreamRestarts(which: Module, now: int, song: Song, first: nat, d: nat, second: nat)
    requires HasScheme(song.uri) && song.title.Some?
    ensures var run := [Mpd(Event(Playing, Some(song), first)), Tick(d), Mpd(Event(Playing, Some(song), second))];
            Run(which, now, run).machine.log
            == [SongStarted(song), SongEnded(song, d / SECOND), SongStarted(song)]
  {
    PlayedOn(which, now, song, first, d, second);
  }

  /** A song on repeat: heard for 195 of its 200 seconds and at its second second again, it is
      logged as ended and started by both modules; at its 70th, only by the statistics module. */
  lemma RepeatedSongRestarts(now: int, song: Song)
    requires !HasScheme(song.uri) && song.duration == 200
    ensures var started := Mpd(Event(Playing, Some(song), 0));
            var again := [started, Tick(195 * SECOND), Mpd(Event(Playing, Some(song), 2))];
            var back := [started, Tick(195 * SECOND), Mpd(Event(Playing, Some(song), 70))];
            var replayed := [SongStarted(song), SongEnded(song, 195), SongStarted(song)];
            && Run(ScrobblerModule, now, again).machine.log == replayed
            && Run(StatsModule, now, again).machine.log == replayed
            && Run(ScrobblerModule, now, back).machine.log == [SongStarted(song)]
            && Run(StatsModule, now, back).machine.log == replayed
  {
    hide Run, HasScheme;
    assert 195 * SECOND / SECOND == 195;
    PlayedOn(ScrobblerModule, now, song, 0, 195 * SECOND, 2);
    PlayedOn(StatsModule, now, song, 0, 195 * SECOND, 2);
    PlayedOn(ScrobblerModule, now, song, 0, 195 * SECOND, 70);
    PlayedOn(StatsModule, now, song, 0, 195 * SECOND, 70);
  }
}
