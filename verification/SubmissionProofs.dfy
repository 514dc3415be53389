/** What the submission protocol guarantees over every run: control state, no lost wake-up,
    FIFO conservation, back-off, exactly when an assertion fails, and that replies which arrive
    while the request is being made change nothing. */
module SubmissionProofs {
  import opened Text
  import opened Records
  import opened PostData
  import opened Submission

  // ------------------------------------------------------ reading the wire log

  /** The songs of all batches that were answered with OK, in the order of the answers. */
  function Delivered(wire: seq<Message>): seq<Record> {
    if |wire| < 2 then []
    else
      var n := |wire|;
      if && wire[n - 2].Sent? && wire[n - 2].request.Batch?
         && wire[n - 1].Got? && SubmitVerdict(wire[n - 1].reply) == Accepted
      then Delivered(wire[..n - 2]) + wire[n - 2].request.records
      else Delivered(wire[..n - 1])
  }

  /** How many failures the log shows since the last success; a lost session is neither. */
  function Failures(wire: seq<Message>): nat {
    if |wire| < 2 then 0
    else
      var n := |wire|;
      if !(wire[n - 2].Sent? && wire[n - 1].Got?) then Failures(wire[..n - 1])
      else if wire[n - 2].request.Handshake? then
        if HandshakeSession(wire[n - 1].reply).Some? then 0 else Failures(wire[..n - 2]) + 1
      else
        match SubmitVerdict(wire[n - 1].reply)
        case Accepted => 0
        case Rejected => Failures(wire[..n - 2]) + 1
        case BadSession => Failures(wire[..n - 2])
  }

  /** The documented back-off: one second, then a minute, doubling up to two hours. */
  function Backoff(failures: nat): nat {
    if failures == 0 then 1
    else if 60 * Pow2(failures - 1) < 7200 then 60 * Pow2(failures - 1)
    else 7200
  }

  lemma BackoffDoubles(n: nat)
    ensures 1 <= Backoff(n) <= 7200
    ensures IncreaseInterval(Backoff(n)) == Backoff(n + 1)
  {
    assert n > 0 ==> Pow2(n) == 2 * Pow2(n - 1);
  }

  // ------------------------------------------------------------------ invariant

  predicate HasSession(s: State) {
    && s.session.Some?
    && s.nowPlayingUrl.Some? && s.nowPlayingUrl.value != ""
    && s.submitUrl.Some? && s.submitUrl.value != ""
  }

  predicate SoundRequest(q: Request) {
    match q
    case Handshake => true
    case Batch(url, session, body, records) =>
      && url.Some? && url.value != "" && session.Some?
      && 1 <= |records| <= MAX_SUBMIT_COUNT
      && body == Body(BatchFields(session, records))
    case NowPlaying(url, session, body, record) =>
      && url.Some? && url.value != "" && session.Some?
      && Defined(record)
      && body == Body(NowPlayingFields(session, record))
  }

  /** Requests and replies alternate, so there is never a second request in flight. */
  predicate SoundWire(wire: seq<Message>) {
    if wire == [] then true
    else
      var n := |wire| - 1;
      && SoundWire(wire[..n])
      && (wire[n].Sent? <==> n % 2 == 0)
      && (wire[n].Sent? ==> SoundRequest(wire[n].request))
  }

  /** What the answer `r` to `q` adds to the delivered songs. */
  function Receipt(q: Request, r: Reply): seq<Record> {
    if q.Batch? && SubmitVerdict(r) == Accepted then q.records else []
  }

  /** The failure count after the answer `r` to `q`, when it was `n` before. */
  function Recount(q: Request, r: Reply, n: nat): nat {
    if q.Handshake? then (if HandshakeSession(r).Some? then 0 else n + 1)
    else match SubmitVerdict(r)
         case Accepted => 0
         case Rejected => n + 1
         case BadSession => n
  }

  lemma SentOnWire(wire: seq<Message>, q: Request)
    requires SoundWire(wire) && Outstanding(wire).None? && SoundRequest(q)
    ensures var w := wire + [Sent(q)];
            && SoundWire(w) && Outstanding(w) == Some(q)
            && Delivered(w) == Delivered(wire) && Failures(w) == Failures(wire)
  {
    assert (wire + [Sent(q)])[..|wire|] == wire;
  }

  /** The two newest messages of a log that ends with an answered request. */
  lemma AnsweredWire(wire: seq<Message>, r: Reply)
    requires Outstanding(wire).Some?
    ensures var w := wire + [Got(r)];
            var n := |wire|;
            w[..n] == wire && w[..n - 1] == wire[..n - 1] && w[n - 1] == Sent(Outstanding(wire).value) && w[n] == Got(r)
  {
  }

  lemma UnansweredWire(wire: seq<Message>)
    requires Outstanding(wire).Some?
    ensures Delivered(wire) == Delivered(wire[..|wire| - 1])
    ensures Failures(wire) == Failures(wire[..|wire| - 1])
  {
  }

  lemma GotOnWire(wire: seq<Message>, r: Reply)
    requires SoundWire(wire) && Outstanding(wire).Some?
    ensures var w := wire + [Got(r)];
            var q := Outstanding(wire).value;
            && SoundWire(w) && Outstanding(w).None?
            && Delivered(w) == Delivered(wire) + Receipt(q, r)
            && Failures(w) == Recount(q, r, Failures(wire))
  {
    hide SubmitVerdict, HandshakeSession, SoundRequest;
    AnsweredWire(wire, r);
    UnansweredWire(wire);
  }

  /** What holds whatever the phase: counters, log, conservation and back-off. */
  predicate Books(s: State) {
    && !s.aborted
    && s.pending <= |s.queue| && s.pending <= MAX_SUBMIT_COUNT
    && SoundWire(s.wire)
    && Delivered(s.wire) + s.queue == s.offered
    && s.interval == Backoff(Failures(s.wire))
  }

  /** Which timer runs and which request is outstanding in each phase. */
  predicate Control(s: State) {
    match s.phase
    case Nothing =>
      s.handshakeTimer == Some(s.interval) && s.submitTimer.None? && Outstanding(s.wire).None?
    case Handshaking =>
      s.handshakeTimer.None? && s.submitTimer.None? && Outstanding(s.wire) == Some(Handshake)
    case Ready =>
      && s.handshakeTimer.None? && Outstanding(s.wire).None? && HasSession(s)
      && (if s.submitTimer.Some? then s.submitTimer == Some(s.interval)
          else s.queue == [] && !Defined(s.nowPlaying))
    case Submitting =>
      && s.handshakeTimer.None? && s.submitTimer.None? && Outstanding(s.wire).Some? && HasSession(s)
      && var q := Outstanding(s.wire).value;
         if 0 < s.pending <= |s.queue| then q.Batch? && q.records == s.queue[..s.pending] else q.NowPlaying?
  }

  predicate Inv(s: State) {
    Books(s) && Control(s)
  }

  /** The now-playing record is still there while its notification is in flight. */
  predicate SlotDefined(s: State) {
    s.phase == Submitting && s.pending == 0 ==> Defined(s.nowPlaying)
  }

  lemma StartInv(journal: seq<Record>)
    ensures Inv(Start(journal)) && SlotDefined(Start(journal))
  {
  }

  // ---------------------------------------------------- synchronous = deferred

  /** The same replies, delivered by the main loop one after the other. */
  function DeliverAll(s: State, replies: seq<Reply>): State
    decreases |replies|
  {
    if replies == [] || s.aborted || Outstanding(s.wire).None? then s
    else DeliverAll(DeliverReply(s, replies[0], []), replies[1..])
  }

  lemma {:induction false} SubmitDefers(s: State, replies: seq<Reply>)
    requires !s.aborted && Outstanding(s.wire).None?
    ensures Submit(s, replies) == DeliverAll(Submit(s, []), replies)
    decreases |replies|, 2
  {
    var t := Submit(s, []);
    if replies != [] && !t.aborted && Outstanding(t.wire).Some? {
      SubmitReplyDefers(t, replies[0], replies[1..]);
    }
  }

  lemma {:induction false} SubmitReplyDefers(s: State, r: Reply, replies: seq<Reply>)
    requires !s.aborted
    ensures SubmitReply(s, r, replies) == DeliverAll(SubmitReply(s, r, []), replies)
    decreases |replies|, 3
  {
    if s.phase == Submitting && SubmitVerdict(r) == Accepted {
      var t := s.(phase := Ready, wire := s.wire + [Got(r)]);
      if t.pending > 0 && t.pending <= |t.queue| {
        SubmitDefers(t.(interval := 1, queue := t.queue[t.pending..], pending := 0), replies);
      } else if t.pending == 0 && Defined(t.nowPlaying) {
        SubmitDefers(t.(interval := 1, nowPlaying := WIPED), replies);
      }
    }
  }

  lemma HandshakeReplyDefers(s: State, r: Reply, replies: seq<Reply>)
    requires !s.aborted
    ensures HandshakeReply(s, r, replies) == DeliverAll(HandshakeReply(s, r, []), replies)
  {
    if s.phase == Handshaking && HandshakeSession(r).Some? {
      var t := HandshakeFields(s.(phase := Nothing, wire := s.wire + [Got(r)]), r);
      SubmitDefers(t.(phase := Ready, interval := 1), replies);
    }
  }

  /** A reply that arrives inside `http_client_request` has the effect it would have had later:
      running an event with a script of synchronous replies equals running it with none and
      delivering the script afterwards. */
  lemma SynchronousRepliesDefer(s: State, e: Event, replies: seq<Reply>)
    requires Inv(s) && Enabled(s, e)
    ensures e.SongPushed? || e.NowPlayingSet? || Step(s, e, replies) == DeliverAll(Step(s, e, []), replies)
  {
    match e
    case HandshakeTimerFires =>
      if replies != [] {
        var t := StartHandshake(s.(handshakeTimer := None), []);
        HandshakeReplyDefers(t, replies[0], replies[1..]);
      }
    case SubmitTimerFires =>
      SubmitDefers(s.(submitTimer := None), replies);
    case ReplyArrives(r) =>
      if Outstanding(s.wire) == Some(Handshake) {
        HandshakeReplyDefers(s, r, replies);
      } else {
        SubmitReplyDefers(s, r, replies);
      }
    case SongPushed(_) =>
    case NowPlayingSet(_) =>
  }

  /** A reply that starts with FAILED has the same effect as a lost one, whatever reason it
      gives. */
  lemma FailedIsRejected(text: string)
    requires "FAILED" <= text
    ensures SubmitVerdict(Response(text)) == SubmitVerdict(Failure)
  {
    var i := IndexOf(text, LF);
    assert text[0] == 'F' && i != 0;
    assert text[..i][0] == 'F';
  }

  // --------------------------------------------------------------- single steps

  /** The one family of events that trips an assertion: a now-playing record without title
      reaching an idle scrobbler, or still in the slot when the reply to the notification it
      replaced arrives. */
  predicate MissingTitle(s: State, e: Event) {
    match e
    case NowPlayingSet(r) => s.phase == Ready && s.submitTimer.None? && !Defined(r)
    case ReplyArrives(r) =>
      && s.phase == Submitting && s.pending == 0 && !Defined(s.nowPlaying)
      && (SubmitVerdict(r) == Accepted || (SubmitVerdict(r) == Rejected && s.queue == []))
    case _ => false
  }

  /** A ready scrobbler with nothing outstanding and no timer, about to look for work. */
  predicate Looking(s: State) {
    && Books(s) && s.phase == Ready && HasSession(s)
    && s.handshakeTimer.None? && s.submitTimer.None? && Outstanding(s.wire).None?
  }

  lemma SubmitInv(s: State)
    requires Looking(s)
    ensures var t := Submit(s, []); Inv(t) && SlotDefined(t)
  {
    if s.queue != [] {
      var batch := BatchOf(s);
      var q := Batch(s.submitUrl, s.session, Body(BatchFields(s.session, batch)), batch);
      SentOnWire(s.wire, q);
      assert batch == s.queue[..|batch|];
    } else if Defined(s.nowPlaying) {
      var q := NowPlaying(s.nowPlayingUrl, s.session, Body(NowPlayingFields(s.session, s.nowPlaying)), s.nowPlaying);
      SentOnWire(s.wire, q);
    }
  }

  /** The state in which a submit reply is judged. */
  function Judged(s: State, r: Reply): State {
    s.(phase := Ready, wire := s.wire + [Got(r)])
  }

  lemma BatchAccepted(s: State, r: Reply)
    requires Inv(s) && s.phase == Submitting && SubmitVerdict(r) == Accepted && s.pending > 0
    ensures Looking(Judged(s, r).(interval := 1, queue := s.queue[s.pending..], pending := 0))
  {
    hide NextLine, Delivered, Failures, SoundWire;
    GotOnWire(s.wire, r);
    assert s.queue == s.queue[..s.pending] + s.queue[s.pending..];
  }

  lemma NotificationAccepted(s: State, r: Reply)
    requires Inv(s) && s.phase == Submitting && SubmitVerdict(r) == Accepted && s.pending == 0
    ensures Looking(Judged(s, r).(interval := 1, nowPlaying := WIPED))
  {
    hide NextLine, Delivered, Failures, SoundWire;
    GotOnWire(s.wire, r);
  }

  lemma AcceptedInv(s: State, r: Reply)
    requires Inv(s) && s.phase == Submitting && SubmitVerdict(r) == Accepted
    ensures var t := SubmitAccepted(Judged(s, r), []);
            && (t.aborted <==> s.pending == 0 && !Defined(s.nowPlaying))
            && (!t.aborted ==> Inv(t) && SlotDefined(t))
  {
    if s.pending > 0 {
      BatchAccepted(s, r);
      SubmitInv(Judged(s, r).(interval := 1, queue := s.queue[s.pending..], pending := 0));
    } else if Defined(s.nowPlaying) {
      NotificationAccepted(s, r);
      SubmitInv(Judged(s, r).(interval := 1, nowPlaying := WIPED));
    }
  }

  lemma RejectedInv(s: State, r: Reply)
    requires Inv(s) && s.phase == Submitting && SubmitVerdict(r) == Rejected
    ensures var t := ScheduleSubmit(Judged(s, r).(interval := IncreaseInterval(s.interval)));
            && (t.aborted <==> s.queue == [] && !Defined(s.nowPlaying))
            && (!t.aborted ==> Inv(t))
  {
    hide NextLine, Delivered, Failures, SoundWire, Backoff;
    GotOnWire(s.wire, r);
    BackoffDoubles(Failures(s.wire));
  }

  lemma BadSessionInv(s: State, r: Reply)
    requires Inv(s) && s.phase == Submitting && SubmitVerdict(r) == BadSession
    ensures Inv(ScheduleHandshake(Judged(s, r).(phase := Nothing)))
  {
    hide NextLine, Delivered, Failures, SoundWire, Backoff;
    GotOnWire(s.wire, r);
  }

  lemma SubmitReplyInv(s: State, r: Reply)
    requires Inv(s) && s.phase == Submitting
    ensures var t := SubmitReply(s, r, []);
            && (t.aborted <==> MissingTitle(s, ReplyArrives(r)))
            && (!t.aborted ==> Inv(t) && SlotDefined(t))
  {
    match SubmitVerdict(r)
    case Accepted => AcceptedInv(s, r);
    case Rejected => RejectedInv(s, r);
    case BadSession => BadSessionInv(s, r);
  }

  lemma HandshakeFailedInv(s: State, r: Reply)
    requires Inv(s) && s.phase == Handshaking && HandshakeSession(r).None?
    ensures Inv(HandshakeReply(s, r, []))
  {
    hide NextLine, Delivered, Failures, SoundWire, Backoff;
    GotOnWire(s.wire, r);
    BackoffDoubles(Failures(s.wire));
  }

  lemma HandshakeDone(s: State, r: Reply)
    requires Inv(s) && s.phase == Handshaking && HandshakeSession(r).Some?
    ensures Looking(HandshakeFields(s.(phase := Nothing, wire := s.wire + [Got(r)]), r).(phase := Ready, interval := 1))
  {
    hide NextLine;
    GotOnWire(s.wire, r);
  }

  lemma HandshakeReplyInv(s: State, r: Reply)
    requires Inv(s) && s.phase == Handshaking
    ensures var t := HandshakeReply(s, r, []); Inv(t) && SlotDefined(t)
  {
    if HandshakeSession(r).Some? {
      HandshakeDone(s, r);
      SubmitInv(HandshakeFields(s.(phase := Nothing, wire := s.wire + [Got(r)]), r).(phase := Ready, interval := 1));
    } else {
      HandshakeFailedInv(s, r);
    }
  }

  lemma PushInv(s: State, r: Record)
    requires Inv(s)
    ensures Inv(Push(s, r))
    ensures SlotDefined(s) ==> SlotDefined(Push(s, r))
  {
    assert Delivered(s.wire) + (s.queue + [r]) == s.offered + [r];
    assert (s.queue + [r])[..s.pending] == s.queue[..s.pending];
  }

  /** One event, with every reply still to come: the invariant survives, and an assertion
      fails exactly when a title is missing. */
  lemma StepInv(s: State, e: Event)
    requires Inv(s) && Enabled(s, e)
    ensures var t := Step(s, e, []);
            && (t.aborted <==> MissingTitle(s, e))
            && (!t.aborted ==> Inv(t) && (SlotDefined(t) || e.SongPushed? || e.NowPlayingSet?))
  {
    match e
    case HandshakeTimerFires => SentOnWire(s.wire, Handshake);
    case SubmitTimerFires => SubmitInv(s.(submitTimer := None));
    case ReplyArrives(r) =>
      if s.phase == Handshaking {
        HandshakeReplyInv(s, r);
      } else {
        SubmitReplyInv(s, r);
      }
    case SongPushed(r) => PushInv(s, r);
    case NowPlayingSet(r) =>
  }

  lemma {:induction false} DeliverAllInv(s: State, replies: seq<Reply>)
    requires Inv(s) && SlotDefined(s)
    ensures Inv(DeliverAll(s, replies)) && SlotDefined(DeliverAll(s, replies))
    decreases |replies|
  {
    if replies != [] && Outstanding(s.wire).Some? {
      StepInv(s, ReplyArrives(replies[0]));
      DeliverAllInv(DeliverReply(s, replies[0], []), replies[1..]);
    }
  }

  /** The same for an event with any script of synchronous replies. No assertion of the file
      (state, timer, queue or now-playing) can fail except in the `MissingTitle` cases. */
  lemma AbortsExactly(s: State, e: Event, replies: seq<Reply>)
    requires Inv(s) && Enabled(s, e)
    ensures Step(s, e, replies).aborted <==> MissingTitle(s, e)
    ensures !MissingTitle(s, e) ==> Inv(Step(s, e, replies))
    ensures !MissingTitle(s, e) && (SlotDefined(s) || !e.SongPushed?) && (e.NowPlayingSet? ==> Defined(e.record))
            ==> SlotDefined(Step(s, e, replies))
  {
    StepInv(s, e);
    if !e.SongPushed? && !e.NowPlayingSet? {
      SynchronousRepliesDefer(s, e, replies);
      if !MissingTitle(s, e) {
        DeliverAllInv(Step(s, e, []), replies);
      }
    } else if e.SongPushed? {
      PushInv(s, e.record);
    }
  }

  // ----------------------------------------------------------------------- runs

  lemma {:induction false} RunInv(journal: seq<Record>, run: seq<Moment>)
    ensures var s := Run(Start(journal), run); !s.aborted ==> Inv(s)
  {
    if run == [] {
      StartInv(journal);
    } else {
      RunInv(journal, run[..|run| - 1]);
      var t := Run(Start(journal), run[..|run| - 1]);
      var m := run[|run| - 1];
      if Enabled(t, m.event) {
        AbortsExactly(t, m.event, m.replies);
      }
    }
  }

  function Pushed(e: Event): seq<Record> {
    if e.SongPushed? then [e.record] else []
  }

  function PushedRecords(run: seq<Moment>): seq<Record> {
    if run == [] then [] else PushedRecords(run[..|run| - 1]) + Pushed(run[|run| - 1].event)
  }

  lemma {:induction false} RunConcat(s: State, a: seq<Moment>, b: seq<Moment>)
    ensures Run(s, a + b) == Run(Run(s, a), b)
    decreases |b|
  {
    if b == [] {
      assert a + b == a;
    } else {
      var n := |b| - 1;
      assert (a + b)[..|a + b| - 1] == a + b[..n];
      RunConcat(s, a, b[..n]);
    }
  }

  lemma {:induction false} PushedConcat(a: seq<Moment>, b: seq<Moment>)
    ensures PushedRecords(a + b)
            == PushedRecords(a) + PushedRecords(b)
    decreases |b|
  {
    if b == [] {
      assert a + b == a;
    } else {
      var n := |b| - 1;
      assert (a + b)[..|a + b| - 1] == a + b[..n];
      PushedConcat(a, b[..n]);
    }
  }

  lemma DeliveredStep(wire: seq<Message>, m: Message)
    ensures Delivered(wire) <= Delivered(wire + [m])
  {
    var w := wire + [m];
    var n := |w|;
    assert w[..n - 1] == wire;
    if n >= 2 {
      assert w[n - 2] == wire[n - 2];
      assert w[..n - 2] == wire[..n - 2];
    }
  }

  lemma {:induction false} DeliveredMonotone(a: seq<Message>, b: seq<Message>)
    requires a <= b
    ensures Delivered(a) <= Delivered(b)
    decreases |b|
  {
    if a != b {
      var n := |b| - 1;
      DeliveredMonotone(a, b[..n]);
      DeliveredStep(b[..n], b[n]);
      assert b == b[..n] + [b[n]];
    }
  }

  /** `t` has the songs on offer of `s` and a log that continues the one of `s`. */
  predicate Continues(s: State, t: State) {
    s.wire <= t.wire && t.offered == s.offered
  }

  lemma SubmitAppends(s: State)
    ensures Continues(s, Submit(s, []))
  {
  }

  lemma SubmitReplyAppends(s: State, r: Reply)
    ensures Continues(s, SubmitReply(s, r, []))
  {
    var t := Judged(s, r);
    if t.pending <= |t.queue| {
      SubmitAppends(t.(interval := 1, queue := t.queue[t.pending..], pending := 0));
    }
    SubmitAppends(t.(interval := 1, nowPlaying := WIPED));
  }

  lemma OutcomeAppends(s: State, ok: bool)
    ensures Continues(s, HandshakeOutcome(s, ok, []))
  {
    SubmitAppends(s.(phase := Ready, interval := 1));
  }

  lemma HandshakeReplyAppends(s: State, r: Reply)
    ensures Continues(s, HandshakeReply(s, r, []))
  {
    OutcomeAppends(HandshakeFields(s.(phase := Nothing, wire := s.wire + [Got(r)]), r), HandshakeSession(r).Some?);
  }

  /** A step only appends to the log, and only a push adds to the songs on offer. */
  lemma StepAppends(s: State, e: Event)
    ensures s.wire <= Step(s, e, []).wire
    ensures Step(s, e, []).offered == s.offered + Pushed(e)
  {
    match e
    case HandshakeTimerFires =>
    case SubmitTimerFires => SubmitAppends(s.(submitTimer := None));
    case ReplyArrives(r) =>
      SubmitReplyAppends(s, r);
      HandshakeReplyAppends(s, r);
    case SongPushed(_) =>
    case NowPlayingSet(_) =>
  }

  lemma {:induction false} DeliverAllAppends(s: State, replies: seq<Reply>)
    ensures s.wire <= DeliverAll(s, replies).wire
    ensures DeliverAll(s, replies).offered == s.offered
    decreases |replies|
  {
    if !(replies == [] || s.aborted || Outstanding(s.wire).None?) {
      StepAppends(s, ReplyArrives(replies[0]));
      DeliverAllAppends(DeliverReply(s, replies[0], []), replies[1..]);
    }
  }

  lemma FullStepAppends(s: State, e: Event, replies: seq<Reply>)
    requires Inv(s) && Enabled(s, e)
    ensures s.wire <= Step(s, e, replies).wire
    ensures Step(s, e, replies).offered == s.offered + Pushed(e)
  {
    StepAppends(s, e);
    if !e.SongPushed? && !e.NowPlayingSet? {
      SynchronousRepliesDefer(s, e, replies);
      DeliverAllAppends(Step(s, e, []), replies);
    }
  }

  lemma CancelPrefix(before: seq<Record>, after: seq<Record>, x: seq<Record>, y: seq<Record>)
    requires before <= after && after + x == before + y
    ensures after[|before|..] + x == y
  {
    assert after + x == before + (after[|before|..] + x);
    assert (before + y)[|before|..] == y;
  }

  /** A song leaves the queue only from its head and only because the step delivered it: what
      the step added to the delivered songs, followed by the new queue, is the old queue
      followed by the song that was pushed. */
  lemma SongsLeaveOnlyWhenDelivered(s: State, e: Event, replies: seq<Reply>)
    requires Inv(s) && Enabled(s, e) && !MissingTitle(s, e)
    ensures var t := Step(s, e, replies);
            && Delivered(s.wire) <= Delivered(t.wire)
            && Delivered(t.wire)[|Delivered(s.wire)|..] + t.queue == s.queue + Pushed(e)
  {
    AbortsExactly(s, e, replies);
    FullStepAppends(s, e, replies);
    var t := Step(s, e, replies);
    DeliveredMonotone(s.wire, t.wire);
    assert Delivered(t.wire) + t.queue == Delivered(s.wire) + (s.queue + Pushed(e));
    CancelPrefix(Delivered(s.wire), Delivered(t.wire), t.queue, s.queue + Pushed(e));
  }

  lemma {:induction false} RunOffers(journal: seq<Record>, run: seq<Moment>)
    ensures var s := Run(Start(journal), run); !s.aborted ==> s.offered == journal + PushedRecords(run)
  {
    if run != [] {
      var n := |run| - 1;
      RunOffers(journal, run[..n]);
      var t := Run(Start(journal), run[..n]);
      if !t.aborted {
        RunInv(journal, run[..n]);
        if Enabled(t, run[n].event) {
          FullStepAppends(t, run[n].event, run[n].replies);
        }
      }
    }
  }

  /** Over every run nothing is lost, duplicated or reordered: the journal's songs and all
      pushed songs are the batches the server accepted, in order, followed by the queue; and
      the batch in flight is the head of the queue, one to ten songs of it. */
  lemma FifoConservation(journal: seq<Record>, run: seq<Moment>)
    ensures var s := Run(Start(journal), run);
            !s.aborted ==>
              && journal + PushedRecords(run) == Delivered(s.wire) + s.queue
              && (Outstanding(s.wire).Some? && Outstanding(s.wire).value.Batch? ==>
                    && 1 <= s.pending <= MAX_SUBMIT_COUNT && s.pending <= |s.queue|
                    && Outstanding(s.wire).value.records == s.queue[..s.pending])
  {
    RunInv(journal, run);
    RunOffers(journal, run);
  }

  /** Nothing is queued or delivered but what the journal and the pushes brought. */
  lemma NothingInvented(journal: seq<Record>, run: seq<Moment>, r: Record)
    ensures var s := Run(Start(journal), run);
            !s.aborted && (r in s.queue || r in Delivered(s.wire)) ==> r in journal || r in PushedRecords(run)
  {
    FifoConservation(journal, run);
    var s := Run(Start(journal), run);
    if !s.aborted && (r in s.queue || r in Delivered(s.wire)) {
      assert r in Delivered(s.wire) + s.queue;
    }
  }

  /** At moment `k` of the run an event with a missing title takes place. */
  predicate TripsAt(journal: seq<Record>, run: seq<Moment>, k: nat)
    requires k < |run|
  {
    var s := Run(Start(journal), run[..k]);
    Enabled(s, run[k].event) && MissingTitle(s, run[k].event)
  }

  /** Over whole runs: an assertion has failed if and only if some event met the scrobbler in
      one of the `MissingTitle` situations. */
  lemma {:induction false} RunAbortsExactly(journal: seq<Record>, run: seq<Moment>)
    ensures Run(Start(journal), run).aborted <==> exists k :: 0 <= k < |run| && TripsAt(journal, run, k)
  {
    hide Step, Inv, MissingTitle, Start;
    if run == [] {
      StartInv(journal);
      StartsAlive(journal);
    } else {
      var n := |run| - 1;
      var before := run[..n];
      RunAbortsExactly(journal, before);
      var s := Run(Start(journal), before);
      if Enabled(s, run[n].event) {
        RunInv(journal, before);
        AbortsExactly(s, run[n].event, run[n].replies);
      }
      assert TripsAt(journal, run, n) <==> Enabled(s, run[n].event) && MissingTitle(s, run[n].event);
      assert Run(Start(journal), run).aborted <==> s.aborted || TripsAt(journal, run, n);
      EarlierTrips(journal, run);
    }
  }

  lemma StartsAlive(journal: seq<Record>)
    ensures !Start(journal).aborted
  {
  }

  lemma EarlierTrips(journal: seq<Record>, run: seq<Moment>)
    requires run != []
    ensures var n := |run| - 1;
            forall k :: 0 <= k < n ==> (TripsAt(journal, run, k) <==> TripsAt(journal, run[..n], k))
  {
    hide Run, MissingTitle, Enabled;
    var n := |run| - 1;
    forall k | 0 <= k < n
      ensures TripsAt(journal, run, k) <==> TripsAt(journal, run[..n], k)
    {
      assert run[..n][..k] == run[..k];
    }
  }

  /** A waiting song or notification always has a timer or a reply that will look at it again. */
  lemma NoLostWakeUp(journal: seq<Record>, run: seq<Moment>)
    ensures var s := Run(Start(journal), run);
            !s.aborted && (s.queue != [] || Defined(s.nowPlaying)) ==>
              s.handshakeTimer.Some? || s.submitTimer.Some? || Outstanding(s.wire).Some?
  {
    RunInv(journal, run);
  }

  /** The interval, and every armed timer, follows the closed back-off form of the failures
      since the last success and stays within two hours. */
  lemma BackoffOverRuns(journal: seq<Record>, run: seq<Moment>)
    ensures var s := Run(Start(journal), run);
            !s.aborted ==>
              && s.interval == Backoff(Failures(s.wire)) && 1 <= s.interval <= MAX_INTERVAL
              && (s.handshakeTimer.Some? ==> s.handshakeTimer == Some(s.interval))
              && (s.submitTimer.Some? ==> s.submitTimer == Some(s.interval))
  {
    RunInv(journal, run);
    BackoffDoubles(Failures(Run(Start(journal), run).wire));
  }

  lemma {:induction false} SoundWireAt(wire: seq<Message>, i: nat)
    requires SoundWire(wire) && i < |wire|
    ensures wire[i].Sent? <==> i % 2 == 0
    ensures wire[i].Sent? ==> SoundRequest(wire[i].request)
  {
    var n := |wire| - 1;
    if i < n {
      SoundWireAt(wire[..n], i);
    }
  }

  /** On the wire requests and replies strictly alternate, and every request names a session
      and a non-empty URL, carries one to ten songs and the body the protocol asks for. */
  lemma OneSoundRequestAtATime(journal: seq<Record>, run: seq<Moment>, i: nat)
    requires !Run(Start(journal), run).aborted
    requires i < |Run(Start(journal), run).wire|
    ensures var m := Run(Start(journal), run).wire[i];
            (m.Sent? <==> i % 2 == 0) && (m.Sent? ==> SoundRequest(m.request))
  {
    RunInv(journal, run);
    SoundWireAt(Run(Start(journal), run).wire, i);
  }

  /** Every now-playing record has an artist and a title. */
  predicate Titled(run: seq<Moment>) {
    forall m :: m in run && m.event.NowPlayingSet? ==> Defined(m.event.record)
  }

  /** No run of titled records ever fails an assertion. */
  lemma {:induction false} TitledRunsNeverAbort(journal: seq<Record>, run: seq<Moment>)
    requires Titled(run)
    ensures var s := Run(Start(journal), run); Inv(s) && SlotDefined(s)
  {
    if run == [] {
      StartInv(journal);
    } else {
      var n := |run| - 1;
      TitledRunsNeverAbort(journal, run[..n]);
      var t := Run(Start(journal), run[..n]);
      assert run[n] in run;
      if Enabled(t, run[n].event) {
        AbortsExactly(t, run[n].event, run[n].replies);
      }
    }
  }

  lemma RunTwo(s: State, m0: Moment, m1: Moment)
    requires Enabled(s, m0.event)
    requires Enabled(Step(s, m0.event, m0.replies), m1.event)
    ensures Run(s, [m0, m1]) == Step(Step(s, m0.event, m0.replies), m1.event, m1.replies)
  {
    assert [m0, m1][..1] == [m0] && [m0][..0] == [];
    assert Run(s, []) == s;
    assert Run(s, [m0]) == Step(s, m0.event, m0.replies);
  }

  lemma GreetedIdle(greeting: Reply)
    requires HandshakeSession(greeting).Some?
    ensures var t := HandshakeTimer(Start([]), [greeting]);
            t.phase == Ready && t.submitTimer.None? && !t.aborted
  {
    var t := StartHandshake(Start([]).(handshakeTimer := None), []);
    assert HandshakeTimer(Start([]), [greeting]) == HandshakeReply(t, greeting, []);
    assert t.queue == [] && !Defined(t.nowPlaying);
  }

  /** The hypothesis is needed: a record without title, announced to a scrobbler that just got
      its session and has nothing to submit, kills the daemon. */
  lemma UntitledSongAborts(greeting: Reply, record: Record)
    requires HandshakeSession(greeting).Some? && !Defined(record)
    ensures Run(Start([]), [Moment(HandshakeTimerFires, [greeting]), Moment(NowPlayingSet(record), [])]).aborted
  {
    var m0, m1 := Moment(HandshakeTimerFires, [greeting]), Moment(NowPlayingSet(record), []);
    RunTwo(Start([]), m0, m1);
    GreetedIdle(greeting);
    StartInv([]);
    AbortsExactly(Start([]), HandshakeTimerFires, [greeting]);
    AbortsExactly(Step(Start([]), HandshakeTimerFires, [greeting]), m1.event, []);
  }
}
