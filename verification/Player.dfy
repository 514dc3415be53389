/** The player-event machine that scrobbler-module.c and stats-module.c share: which song is
    open, when it started and ended, and how long it was really played. */
module PlayerEvents {
  import opened Text
  import opened Records

  // --------------------------------------------------------------------- GTimer

  /** `GTimer`, with a clock in microseconds. */
  datatype Timer = Timer(start: int, end: int, active: bool) {
    /** `g_timer_stop`. */
    function Stop(now: int): Timer {
      Timer(start, now, false)
    }

    /** `g_timer_continue`, which GLib refuses while the timer is active. */
    function Continue(now: int): Timer {
      if active then this else Timer(now - (end - start), end, true)
    }

    /** `g_timer_elapsed`. */
    function Elapsed(now: int): int {
      (if active then now else end) - start
    }
  }

  /** `g_timer_new` and `g_timer_start`. */
  function Started(now: int): Timer {
    Timer(now, now, true)
  }

  const SECOND: int := 1_000_000

  // ---------------------------------------------------------------------- songs

  /** The value of an unsigned `last_id` set to -1; no song has it. */
  const NO_ID: nat := 0xFFFF_FFFF

  type SongId = n: nat | n < NO_ID

  datatype Song = Song(id: SongId, uri: string, artist: Option<string>, title: Option<string>,
                       album: Option<string>, genre: Option<string>, track: Option<string>,
                       mbid: Option<string>, duration: nat)

  /** `strstr(uri, "://")`. */
  predicate HasScheme(uri: string) {
    exists i :: 0 <= i <= |uri| - 3 && uri[i] == ':' && uri[i + 1] == '/' && uri[i + 2] == '/'
  }

  /** The comparison of the two title pointers. `prev` is a copy, so two titles that are both
      present are never the same pointer, whatever they say. */
  predicate TitlesDiffer(song: Song, prev: Song) {
    song.title.Some? || prev.title.Some?
  }

  predicate PlayedLongEnough(elapsed: int, length: int) {
    elapsed > 240 || (length >= 30 && elapsed > length / 2)
  }

  /** `song_repeated` of the scrobbler. */
  predicate SongRepeated(song: Song, elapsed: int, prevElapsed: int) {
    elapsed < 60 && prevElapsed > elapsed && PlayedLongEnough(prevElapsed - elapsed, song.duration)
  }

  // -------------------------------------------------------------------- machine

  datatype Module = ScrobblerModule | StatsModule

  /** `song_started` and `song_ended` with the seconds the timer shows. */
  datatype Entry = SongStarted(song: Song) | SongEnded(song: Song, seconds: int)

  datatype Status = Playing | Paused | Stopped

  /** One player event. The dispatcher delivers a song while playing or paused, and only then. */
  datatype Event = Event(status: Status, song: Option<Song>, elapsed: nat)

  predicate FromDispatcher(e: Event) {
    e.song.Some? <==> e.status != Stopped
  }

  datatype State = State(lastId: nat, wasPaused: bool, isRemote: bool, prev: Option<Song>, timer: Timer,
                         now: int, log: seq<Entry>, misused: bool)

  function Init(now: int): State {
    State(NO_ID, false, false, None, Started(now), now, [], false)
  }

  function Seconds(s: State): int {
    s.timer.Elapsed(s.now) / SECOND
  }

  function Start(s: State, song: Song): State {
    s.(isRemote := HasScheme(song.uri), timer := Started(s.now), log := s.log + [SongStarted(song)])
  }

  function End(s: State, song: Song): State {
    s.(log := s.log + [SongEnded(song, Seconds(s))])
  }

  /** `song_playing`: the one difference between the two modules. */
  predicate Repeats(which: Module, song: Song, elapsed: nat, prevElapsed: int) {
    match which
    case ScrobblerModule => SongRepeated(song, elapsed, prevElapsed)
    case StatsModule => prevElapsed > elapsed
  }

  /** `song_paused`, `song_stopped` and the resume check at the top of `event_player`. */
  function Transport(s: State, e: Event): State {
    var t := if e.status == Stopped then s.(lastId := NO_ID, wasPaused := false) else s;
    if !t.wasPaused then t
    else if e.song.Some? && e.song.value.id == t.lastId then
      t.(wasPaused := false, timer := t.timer.Continue(t.now), misused := t.misused || t.timer.active)
    else t.(wasPaused := false)
  }

  predicate Restarted(s: State, song: Song) {
    s.isRemote && s.prev.Some? && TitlesDiffer(song, s.prev.value)
  }

  function CloseSong(s: State, song: Option<Song>): State {
    if s.prev.Some? && (song.None? || s.prev.value.id != song.value.id || Restarted(s, song.value))
    then End(s, s.prev.value) else s
  }

  function OpenSong(which: Module, s: State, song: Song, elapsed: nat): State {
    if song.id != s.lastId || Restarted(s, song) then Start(s, song).(lastId := song.id)
    else if Repeats(which, song, elapsed, Seconds(s)) then Start(End(s, song), song)
    else s
  }

  /** `event_player`. */
  function Handle(which: Module, s: State, e: Event): State {
    if e.status == Paused then
      if s.wasPaused then s else s.(wasPaused := true, timer := s.timer.Stop(s.now))
    else
      var t := CloseSong(Transport(s, e), e.song);
      var u := if e.song.Some? then OpenSong(which, t, e.song.value, e.elapsed) else t;
      u.(prev := e.song)
  }

  /** The module globals as an object; one instance is the loaded module. */
  class EventPlayer {
    const which: Module
    var lastId: nat
    var wasPaused: bool
    var isRemote: bool
    var prev: Option<Song>
    var timer: Timer
    var now: int
    ghost var log: seq<Entry>
    ghost var misused: bool

    ghost function View(): State
      reads this
    {
      State(lastId, wasPaused, isRemote, prev, timer, now, log, misused)
    }

    constructor (which: Module, now: int)
      ensures this.which == which && View() == Init(now)
    {
      this.which := which;
      this.now := now;
      lastId, wasPaused, isRemote, prev := NO_ID, false, false, None;
      timer := Started(now);
      log, misused := [], false;
    }

    method Tick(d: nat)
      modifies this`now
      ensures View() == old(View()).(now := old(now) + d)
    {
      now := now + d;
    }

    method StartSong(song: Song)
      modifies this`isRemote, this`timer, this`log
      ensures View() == Start(old(View()), song)
    {
      isRemote := HasScheme(song.uri);
      timer := Started(now);
      log := log + [SongStarted(song)];
    }

    method EndSong(song: Song)
      modifies this`log
      ensures View() == End(old(View()), song)
    {
      log := log + [SongEnded(song, timer.Elapsed(now) / SECOND)];
    }

    method SongPlaying(song: Song, elapsed: nat)
      modifies this`isRemote, this`timer, this`log
      ensures View() == if Repeats(which, song, elapsed, Seconds(old(View())))
                        then Start(End(old(View()), song), song) else old(View())
    {
      var prevElapsed := timer.Elapsed(now) / SECOND;
      if Repeats(which, song, elapsed, prevElapsed) {
        EndSong(song);
        StartSong(song);
      }
    }

    method SongPaused()
      modifies this`wasPaused, this`timer
      ensures View() == if old(wasPaused) then old(View())
                        else old(View()).(wasPaused := true, timer := old(timer).Stop(now))
    {
      if !wasPaused {
        timer := timer.Stop(now);
      }
      wasPaused := true;
    }

    /** The start of `event_player`: a stop forgets the song, and a pause ends. */
    method ResumeOrStop(e: Event)
      modifies this`lastId, this`wasPaused, this`timer, this`misused
      ensures View() == Transport(old(View()), e)
    {
      if e.status == Stopped {
        lastId := NO_ID;
        wasPaused := false;
      }
      if wasPaused {
        if e.song.Some? && e.song.value.id == lastId {
          misused := misused || timer.active;
          timer := timer.Continue(now);
        }
        wasPaused := false;
      }
    }

    /** `event_player`. */
    method OnEvent(e: Event)
      modifies this
      ensures View() == Handle(which, old(View()), e)
    {
      hide HasScheme, Repeats, Transport;
      if e.status == Paused {
        SongPaused();
        return;
      }
      ResumeOrStop(e);
      ghost var s := View();
      if prev.Some? && (e.song.None? || prev.value.id != e.song.value.id
                        || (isRemote && TitlesDiffer(e.song.value, prev.value))) {
        EndSong(prev.value);
      }
      ghost var t := View();
      assert t == CloseSong(s, e.song);
      if e.song.Some? {
        var song := e.song.value;
        if song.id != lastId || (isRemote && prev.Some? && TitlesDiffer(song, prev.value)) {
          StartSong(song);
          lastId := song.id;
        } else {
          SongPlaying(song, e.elapsed);
        }
        assert View() == OpenSong(which, t, song, e.elapsed);
      }
      prev := e.song;
    }
  }
}
