/** Which now-playing records are announced: exactly when one is lost, over single replies and
    over whole runs, and what a server that accepts everything ends up with. */
module Announcements {
  import opened Text
  import opened Records
  import opened PostData
  import opened Submission
  import opened SubmissionProofs

  /** The record of the newest notification on the wire. */
  function LastAnnounced(wire: seq<Message>): Option<Record> {
    if wire == [] then None
    else
      var n := |wire| - 1;
      if wire[n].Sent? && wire[n].request.NowPlaying? then Some(wire[n].request.record)
      else LastAnnounced(wire[..n])
  }

  /** An OK arrives for the notification of another record than the one now in the slot. */
  predicate Overtakes(s: State, e: Event) {
    && e.ReplyArrives? && SubmitVerdict(e.reply) == Accepted
    && s.phase == Submitting && s.pending == 0 && Defined(s.nowPlaying)
    && Outstanding(s.wire).Some?
    && var q := Outstanding(s.wire).value;
       q.NowPlaying? && q.record != s.nowPlaying
  }

  // -------------------------------------------------------------- single steps

  lemma AnnouncedAfter(wire: seq<Message>, m: Message)
    ensures LastAnnounced(wire + [m]) ==
            if m.Sent? && m.request.NowPlaying? then Some(m.request.record) else LastAnnounced(wire)
  {
    assert (wire + [m])[..|wire|] == wire;
  }

  /** A notification in flight is one for the record in the slot. */
  predicate Fresh(s: State) {
    s.phase == Submitting && Outstanding(s.wire).Some? && Outstanding(s.wire).value.NowPlaying? ==>
      Outstanding(s.wire).value.record == s.nowPlaying
  }

  /** Nothing was set, or a record with artist and track. */
  predicate Announceable(last: Option<Record>) {
    last.Some? ==> Defined(last.value)
  }

  /** How the slot and the wire stand to the record that was set last: it waits in the slot, or
      it was announced, or it was lost, or it lacks something and never will be announced. */
  predicate Story(s: State, last: Option<Record>, lost: bool) {
    if Defined(s.nowPlaying) then last == Some(s.nowPlaying) && !lost
    else LastAnnounced(s.wire) == last <==> !lost && Announceable(last)
  }

  lemma {:induction false} AnnouncedDefined(wire: seq<Message>)
    requires SoundWire(wire)
    ensures Announceable(LastAnnounced(wire))
  {
    if wire != [] {
      AnnouncedDefined(wire[..|wire| - 1]);
    }
  }

  lemma SubmitStory(s: State, last: Option<Record>, lost: bool)
    requires Looking(s) && Story(s, last, lost)
    ensures var t := Submit(s, []); Story(t, last, lost) && Fresh(t)
  {
    hide NextLine, Delivered, Failures, SoundWire, Backoff;
    if s.queue != [] {
      var batch := BatchOf(s);
      AnnouncedAfter(s.wire, Sent(Batch(s.submitUrl, s.session, Body(BatchFields(s.session, batch)), batch)));
    } else if Defined(s.nowPlaying) {
      var body := Body(NowPlayingFields(s.session, s.nowPlaying));
      AnnouncedAfter(s.wire, Sent(NowPlaying(s.nowPlayingUrl, s.session, body, s.nowPlaying)));
    }
  }

  lemma SubmitReplyStory(s: State, r: Reply, last: Option<Record>, lost: bool)
    requires Inv(s) && s.phase == Submitting && !MissingTitle(s, ReplyArrives(r)) && Story(s, last, lost)
    ensures var t := SubmitReply(s, r, []); Story(t, last, lost || Overtakes(s, ReplyArrives(r))) && Fresh(t)
  {
    hide NextLine, Delivered, Failures, SoundWire, Backoff;
    var t := Judged(s, r);
    AnnouncedAfter(s.wire, Got(r));
    if SubmitVerdict(r) == Accepted {
      if s.pending > 0 {
        BatchAccepted(s, r);
        SubmitStory(t.(interval := 1, queue := s.queue[s.pending..], pending := 0), last, lost);
      } else {
        NotificationAccepted(s, r);
        SubmitStory(t.(interval := 1, nowPlaying := WIPED), last, lost || Overtakes(s, ReplyArrives(r)));
      }
    }
  }

  lemma HandshakeReplyStory(s: State, r: Reply, last: Option<Record>, lost: bool)
    requires Inv(s) && s.phase == Handshaking && Story(s, last, lost)
    ensures var t := HandshakeReply(s, r, []); Story(t, last, lost) && Fresh(t)
  {
    hide NextLine, Delivered, Failures, SoundWire, Backoff;
    AnnouncedAfter(s.wire, Got(r));
    if HandshakeSession(r).Some? {
      HandshakeDone(s, r);
      var t := HandshakeFields(s.(phase := Nothing, wire := s.wire + [Got(r)]), r);
      SubmitStory(t.(phase := Ready, interval := 1), last, lost);
    }
  }

  /** A timer or a reply, with every further reply still to come. */
  lemma StepStory(s: State, e: Event, last: Option<Record>, lost: bool)
    requires Inv(s) && Enabled(s, e) && !MissingTitle(s, e) && !e.SongPushed? && !e.NowPlayingSet?
    requires Story(s, last, lost)
    ensures var t := Step(s, e, []); Story(t, last, lost || Overtakes(s, e)) && Fresh(t)
  {
    hide NextLine, Delivered, Failures, SoundWire, Backoff;
    match e
    case HandshakeTimerFires => AnnouncedAfter(s.wire, Sent(Handshake));
    case SubmitTimerFires => SubmitStory(s.(submitTimer := None), last, lost);
    case ReplyArrives(r) =>
      if s.phase == Handshaking {
        HandshakeReplyStory(s, r, last, lost);
      } else {
        SubmitReplyStory(s, r, last, lost);
      }
  }

  /** Synchronous replies answer requests of this very step, which never are out of date. */
  lemma {:induction false} DeliverAllStory(s: State, replies: seq<Reply>, last: Option<Record>, lost: bool)
    requires Inv(s) && SlotDefined(s) && Fresh(s) && Story(s, last, lost)
    ensures Story(DeliverAll(s, replies), last, lost)
    decreases |replies|
  {
    hide DeliverReply, Story, NextLine, Delivered, Failures, SoundWire, Backoff, SubmitVerdict;
    if replies != [] && Outstanding(s.wire).Some? {
      var e := ReplyArrives(replies[0]);
      StepInv(s, e);
      StepStory(s, e, last, lost);
      DeliverAllStory(DeliverReply(s, replies[0], []), replies[1..], last, lost);
    }
  }

  /** Of all steps only an OK that overtakes loses the record that was set last. */
  lemma FullStepStory(s: State, e: Event, replies: seq<Reply>, last: Option<Record>, lost: bool)
    requires Inv(s) && Enabled(s, e) && !MissingTitle(s, e) && Story(s, last, lost)
    ensures var t := Step(s, e, replies);
            if e.NowPlayingSet? then Story(t, Some(e.record), false)
            else Story(t, last, lost || Overtakes(s, e))
  {
    hide NextLine, Delivered, Failures, SoundWire, Backoff, SubmitVerdict;
    if !e.SongPushed? && !e.NowPlayingSet? {
      SynchronousRepliesDefer(s, e, replies);
      StepInv(s, e);
      StepStory(s, e, last, lost);
      DeliverAllStory(Step(s, e, []), replies, last, lost || Overtakes(s, e));
    } else if e.NowPlayingSet? {
      AnnouncedDefined(s.wire);
    }
  }

  /** An OK for a notification clears the slot whatever is in it. The record in the slot is the
      one announced last, then and after any further synchronous replies, if and only if it is
      the one the notification was for. */
  lemma AnnouncedExactly(s: State, r: Reply, replies: seq<Reply>)
    requires Inv(s) && s.phase == Submitting && s.pending == 0
    requires SubmitVerdict(r) == Accepted && Defined(s.nowPlaying)
    ensures var t := DeliverReply(s, r, replies);
            && !Defined(t.nowPlaying)
            && (LastAnnounced(t.wire) == Some(s.nowPlaying) <==>
                s.nowPlaying == Outstanding(s.wire).value.record)
  {
    FullStepStory(s, ReplyArrives(r), replies, Some(s.nowPlaying), false);
    SlotStaysEmpty(s, r, replies);
  }

  lemma {:induction false} EmptySlotStays(s: State, replies: seq<Reply>)
    requires Inv(s) && SlotDefined(s) && !Defined(s.nowPlaying)
    ensures !Defined(DeliverAll(s, replies).nowPlaying)
    decreases |replies|
  {
    hide NextLine, Delivered, Failures, SoundWire, Backoff, SubmitVerdict;
    if replies != [] && Outstanding(s.wire).Some? {
      StepInv(s, ReplyArrives(replies[0]));
      EmptySlotStays(DeliverReply(s, replies[0], []), replies[1..]);
    }
  }

  lemma SlotStaysEmpty(s: State, r: Reply, replies: seq<Reply>)
    requires Inv(s) && s.phase == Submitting && s.pending == 0
    requires SubmitVerdict(r) == Accepted && Defined(s.nowPlaying)
    ensures !Defined(DeliverReply(s, r, replies).nowPlaying)
  {
    hide NextLine, Delivered, Failures, SoundWire, Backoff;
    SynchronousRepliesDefer(s, ReplyArrives(r), replies);
    StepInv(s, ReplyArrives(r));
    EmptySlotStays(DeliverReply(s, r, []), replies);
  }

  // ----------------------------------------------------------------------- runs

  /** The record that was set last. */
  function LastSet(run: seq<Moment>): Option<Record> {
    if run == [] then None
    else
      var e := run[|run| - 1].event;
      if e.NowPlayingSet? then Some(e.record) else LastSet(run[..|run| - 1])
  }

  /** Since the last record was set, an OK for another record's notification arrived. */
  predicate Overtaken(journal: seq<Record>, run: seq<Moment>) {
    && run != []
    && var before, e := run[..|run| - 1], run[|run| - 1].event;
       && !e.NowPlayingSet?
       && (Overtaken(journal, before) ||
           var s := Run(Start(journal), before);
           Enabled(s, e) && Overtakes(s, e))
  }

  lemma {:induction false} RunStory(journal: seq<Record>, run: seq<Moment>)
    requires !Run(Start(journal), run).aborted
    ensures Story(Run(Start(journal), run), LastSet(run), Overtaken(journal, run))
  {
    hide Step, Overtakes, Story, Start, Inv, MissingTitle;
    if run == [] {
      StartStory(journal);
    } else {
      var n := |run| - 1;
      var s := Run(Start(journal), run[..n]);
      AliveBefore(journal, run);
      RunStory(journal, run[..n]);
      RunInv(journal, run[..n]);
      if Enabled(s, run[n].event) {
        AbortsExactly(s, run[n].event, run[n].replies);
        FullStepStory(s, run[n].event, run[n].replies, LastSet(run[..n]), Overtaken(journal, run[..n]));
      }
    }
  }

  lemma AliveBefore(journal: seq<Record>, run: seq<Moment>)
    requires run != [] && !Run(Start(journal), run).aborted
    ensures !Run(Start(journal), run[..|run| - 1]).aborted
  {
    hide Step, Start;
  }

  lemma StartStory(journal: seq<Record>)
    ensures Story(Start(journal), None, false)
  {
  }

  /** Over every run that fails no assertion and has nothing left to announce: the record that
      was set last is the one the server was told of last, if and only if it has artist and
      track and no OK for another record's notification arrived while it sat in the slot. */
  lemma LastAnnouncedExactly(journal: seq<Record>, run: seq<Moment>)
    requires !Run(Start(journal), run).aborted
    requires !Defined(Run(Start(journal), run).nowPlaying)
    ensures LastAnnounced(Run(Start(journal), run).wire) == LastSet(run)
            <==> Announceable(LastSet(run)) && !Overtaken(journal, run)
  {
    RunStory(journal, run);
  }

  // -------------------------------------------------------------------- progress

  function Oks(n: nat): (r: seq<Reply>)
    ensures |r| == n
  {
    if n == 0 then [] else [Response("OK")] + Oks(n - 1)
  }

  /** Everything that was ever on offer has been accepted and nothing is left to send. */
  predicate Drained(s: State) {
    s.phase == Ready && s.queue == [] && Delivered(s.wire) == s.offered && !Defined(s.nowPlaying) && s.submitTimer.None?
  }

  /** The event that makes progress, and the replies of a server that accepts everything. */
  function NextEvent(s: State, greeting: Reply): Event {
    match s.phase
    case Nothing => HandshakeTimerFires
    case Handshaking => ReplyArrives(greeting)
    case Ready => SubmitTimerFires
    case Submitting => ReplyArrives(Response("OK"))
  }

  lemma OkAccepts()
    ensures SubmitVerdict(Response("OK")) == Accepted
  {
    IndexOfUnique("OK", LF, 2);
    assert "OK"[..2] == "OK";
  }

  /** How many requests are needed at most. */
  function Backlog(s: State): nat {
    |s.queue| + (if Defined(s.nowPlaying) then 1 else 0)
  }

  lemma OkShrinksBacklog(s: State)
    requires Inv(s) && SlotDefined(s) && s.phase == Submitting
    ensures var t := DeliverReply(s, Response("OK"), []);
            Draining(t) && Backlog(t) < Backlog(s)
  {
    OkAccepts();
    AcceptedInv(s, Response("OK"));
  }

  lemma DeliverFirst(s: State, r: Reply, rest: seq<Reply>)
    requires !s.aborted && Outstanding(s.wire).Some?
    ensures DeliverAll(s, [r] + rest) == DeliverAll(DeliverReply(s, r, []), rest)
  {
    assert ([r] + rest)[1..] == rest;
  }

  lemma IdleIsDrained(s: State)
    requires Inv(s) && s.phase == Ready && s.submitTimer.None?
    ensures Drained(s)
  {
    assert Delivered(s.wire) + [] == Delivered(s.wire);
  }

  lemma OksStep(s: State, n: nat)
    requires n > 0 && !s.aborted && Outstanding(s.wire).Some?
    ensures DeliverAll(s, Oks(n)) == DeliverAll(DeliverReply(s, Response("OK"), []), Oks(n - 1))
  {
    DeliverFirst(s, Response("OK"), Oks(n - 1));
  }

  predicate Draining(s: State) {
    Inv(s) && SlotDefined(s) && (s.phase == Submitting || (s.phase == Ready && s.submitTimer.None?))
  }

  lemma {:induction false} OksDrain(s: State, n: nat)
    requires Draining(s) && n >= Backlog(s)
    ensures Drained(DeliverAll(s, Oks(n)))
    decreases n
  {
    hide DeliverReply;
    if s.phase == Ready {
      IdleIsDrained(s);
    } else {
      OkShrinksBacklog(s);
      OksStep(s, n);
      OksDrain(DeliverReply(s, Response("OK"), []), n - 1);
    }
  }

  /** The backlog part of the theorem below. */
  lemma WorkDrains(s: State, greeting: Reply, n: nat)
    requires Inv(s) && SlotDefined(s) && n > Backlog(s)
    requires HandshakeSession(greeting).Some?
    requires !Drained(s)
    ensures var e := NextEvent(s, greeting);
            Enabled(s, e) && Drained(Step(s, e, if s.phase == Nothing then [greeting] + Oks(n) else Oks(n)))
  {
    hide NextLine, Delivered, Failures, SoundWire, Backoff;
    var e := NextEvent(s, greeting);
    assert Enabled(s, e) by {
      if s.phase == Ready && s.submitTimer.None? {
        IdleIsDrained(s);
      }
    }
    var replies := if s.phase == Nothing then [greeting] + Oks(n) else Oks(n);
    SynchronousRepliesDefer(s, e, replies);
    StepInv(s, e);
    var t := Step(s, e, []);
    match s.phase {
      case Nothing =>
        StepInv(t, ReplyArrives(greeting));
        OksDrain(DeliverReply(t, greeting, []), n);
        DeliverFirst(t, greeting, Oks(n));
      case Handshaking => OksDrain(t, n);
      case Ready => OksDrain(t, n);
      case Submitting =>
        OkShrinksBacklog(s);
        OksDrain(t, n);
    }
  }

  /** What the last announcement should be once everything is sent. */
  function ToAnnounce(s: State): Option<Record> {
    if Defined(s.nowPlaying) then Some(s.nowPlaying) else LastAnnounced(s.wire)
  }

  /** Progress: from every state a titled run can reach, one enabled event (the one the state
      waits for) answered by a server that accepts everything submits the whole backlog, ten
      songs at a time. The record in the slot is then the one announced last, if and only if
      the event is not an OK for another record's notification; with an empty slot the last
      announcement stays what it was. */
  lemma EverythingDrains(s: State, greeting: Reply, n: nat)
    requires Inv(s) && SlotDefined(s) && n > Backlog(s)
    requires HandshakeSession(greeting).Some?
    requires !Drained(s)
    ensures var e := NextEvent(s, greeting);
            var t := Step(s, e, if s.phase == Nothing then [greeting] + Oks(n) else Oks(n));
            && Enabled(s, e) && Drained(t)
            && (LastAnnounced(t.wire) == ToAnnounce(s) <==> !Overtakes(s, e))
  {
    hide NextLine, Delivered, Failures, SoundWire, Backoff;
    WorkDrains(s, greeting, n);
    AnnouncedDefined(s.wire);
    var replies := if s.phase == Nothing then [greeting] + Oks(n) else Oks(n);
    FullStepStory(s, NextEvent(s, greeting), replies, ToAnnounce(s), false);
  }

  // --------------------------------------------------------------------- a loss

  lemma {:induction false} RunSnoc(s: State, run: seq<Moment>, m: Moment)
    requires Enabled(Run(s, run), m.event)
    ensures Run(s, run + [m]) == Step(Run(s, run), m.event, m.replies)
  {
    assert (run + [m])[..|run|] == run;
  }

  /** Two songs in quick succession: the second starts before the first one's notification is
      answered. */
  function Overtaking(greeting: Reply, first: Record, second: Record): seq<Moment> {
    [Moment(HandshakeTimerFires, [greeting])]
    + [Moment(NowPlayingSet(first), [])]
    + [Moment(SubmitTimerFires, [])]
    + [Moment(NowPlayingSet(second), [])]
    + [Moment(ReplyArrives(Response("OK")), [])]
  }

  lemma Greeted(greeting: Reply)
    requires HandshakeSession(greeting).Some?
    ensures var s := Run(Start([]), [Moment(HandshakeTimerFires, [greeting])]);
            && Inv(s) && s.phase == Ready && s.submitTimer.None? && s.queue == []
            && s.wire == [Sent(Handshake), Got(greeting)]
  {
    hide NextLine, Delivered, Failures, SoundWire, Backoff, HandshakeSession, Run;
    StartInv([]);
    assert Run(Start([]), []) == Start([]) by { StartsEmpty(); }
    assert [] + [Moment(HandshakeTimerFires, [greeting])] == [Moment(HandshakeTimerFires, [greeting])];
    RunSnoc(Start([]), [], Moment(HandshakeTimerFires, [greeting]));
    GreetedWire(greeting);
    AbortsExactly(Start([]), HandshakeTimerFires, [greeting]);
  }

  lemma StartsEmpty()
    ensures Run(Start([]), []) == Start([])
  {
  }

  lemma FirstWaits(greeting: Reply, first: Record)
    requires HandshakeSession(greeting).Some? && Defined(first)
    ensures var s := Run(Start([]), [Moment(HandshakeTimerFires, [greeting])] + [Moment(NowPlayingSet(first), [])]);
            && Inv(s) && s.phase == Ready && s.submitTimer.Some? && s.queue == [] && s.nowPlaying == first
            && s.wire == [Sent(Handshake), Got(greeting)]
  {
    hide NextLine, Delivered, Failures, SoundWire, Backoff, HandshakeSession, Run;
    var r0 := [Moment(HandshakeTimerFires, [greeting])];
    Greeted(greeting);
    RunSnoc(Start([]), r0, Moment(NowPlayingSet(first), []));
    AbortsExactly(Run(Start([]), r0), NowPlayingSet(first), []);
  }

  lemma FirstInFlight(greeting: Reply, first: Record)
    requires HandshakeSession(greeting).Some? && Defined(first)
    ensures var r1 := [Moment(HandshakeTimerFires, [greeting])] + [Moment(NowPlayingSet(first), [])];
            var s := Run(Start([]), r1 + [Moment(SubmitTimerFires, [])]);
            && Inv(s) && SlotDefined(s) && s.phase == Submitting && s.queue == [] && s.pending == 0
            && s.nowPlaying == first
            && |s.wire| == 3
            && s.wire[0] == Sent(Handshake) && s.wire[1] == Got(greeting)
            && s.wire[2].Sent? && s.wire[2].request.NowPlaying? && s.wire[2].request.record == first
  {
    hide NextLine, Delivered, Failures, SoundWire, Backoff, HandshakeSession, Run;
    var r1 := [Moment(HandshakeTimerFires, [greeting])] + [Moment(NowPlayingSet(first), [])];
    FirstWaits(greeting, first);
    RunSnoc(Start([]), r1, Moment(SubmitTimerFires, []));
    AbortsExactly(Run(Start([]), r1), SubmitTimerFires, []);
  }

  lemma GreetedWire(greeting: Reply)
    requires HandshakeSession(greeting).Some?
    ensures var t := HandshakeTimer(Start([]), [greeting]);
            && t.phase == Ready && t.submitTimer.None? && !t.aborted && t.queue == [] && t.pending == 0
            && t.wire == [Sent(Handshake), Got(greeting)]
  {
    hide NextLine;
    var t := StartHandshake(Start([]).(handshakeTimer := None), []);
    assert HandshakeTimer(Start([]), [greeting]) == HandshakeReply(t, greeting, []);
  }

  /** The condition is met: from the start of the scrobbler five events lose the second of any
      two different titled records. The wire ends up with one notification, for the first. */
  lemma SecondSongIsNeverAnnounced(greeting: Reply, first: Record, second: Record)
    requires HandshakeSession(greeting).Some? && Defined(first) && Defined(second) && first != second
    ensures var run := Overtaking(greeting, first, second);
            var s := Run(Start([]), run);
            && Drained(s) && LastSet(run) == Some(second) && Overtaken([], run)
            && |s.wire| == 4
            && s.wire[0] == Sent(Handshake) && s.wire[1] == Got(greeting)
            && s.wire[2].Sent? && s.wire[2].request.NowPlaying? && s.wire[2].request.record == first
            && s.wire[3] == Got(Response("OK"))
  {
    hide NextLine, Delivered, Failures, SoundWire, Backoff;
    var r1 := [Moment(HandshakeTimerFires, [greeting])] + [Moment(NowPlayingSet(first), [])];
    var r2 := r1 + [Moment(SubmitTimerFires, [])];
    FirstInFlight(greeting, first);
    var s2 := Run(Start([]), r2);
    RunSnoc(Start([]), r2, Moment(NowPlayingSet(second), []));
    AbortsExactly(s2, NowPlayingSet(second), []);
    var r3 := r2 + [Moment(NowPlayingSet(second), [])];
    var s3 := Run(Start([]), r3);
    var ok := ReplyArrives(Response("OK"));
    RunSnoc(Start([]), r3, Moment(ok, []));
    AbortsExactly(s3, ok, []);
    OkAccepts();
    var run := r3 + [Moment(ok, [])];
    assert run[..|run| - 1] == r3;
    assert r3[..|r3| - 1] == r2;
    IdleIsDrained(Run(Start([]), run));
  }
}
