/** The scrobbler's submission protocol as a state machine on values: what each callback of
    scrobbler-submit.c does to one `struct scrobbler`. A failed assertion (or a pop from an
    empty queue) sets `aborted`.

    `http_client_request` may call the response or error handler before it returns. Every step
    therefore takes the list of replies that arrive synchronously: the first request issued is
    answered by the first of them, a request its handler issues by the second, and so on; the
    request issued when the list is used up stays outstanding. */
module Submission {
  import opened Text
  import opened Records
  import opened PostData

  const MAX_SUBMIT_COUNT: nat := 10
  const MAX_INTERVAL: nat := 60 * 60 * 2

  datatype Phase = Nothing | Handshaking | Ready | Submitting

  datatype Request =
    | Handshake
    | Batch(url: Option<string>, session: Option<string>, body: string, records: seq<Record>)
    | NowPlaying(url: Option<string>, session: Option<string>, body: string, record: Record)

  datatype Reply = Failure | Response(text: string)

  /** What goes over the wire, in order. */
  datatype Message = Sent(request: Request) | Got(reply: Reply)

  datatype State = State(
    phase: Phase,
    interval: nat,
    handshakeTimer: Option<nat>,
    submitTimer: Option<nat>,
    session: Option<string>,
    nowPlayingUrl: Option<string>,
    submitUrl: Option<string>,
    nowPlaying: Record,
    queue: seq<Record>,
    pending: nat,
    aborted: bool,
    // history
    wire: seq<Message>,
    offered: seq<Record>)

  function Abort(s: State): State {
    s.(aborted := true)
  }

  /** `scrobbler_new` and `scrobbler_new_callback`: the journal's records are queued and the
      first handshake is scheduled. */
  function Start(journal: seq<Record>): State {
    ScheduleHandshake(
      State(Nothing, 1, None, None, None, None, None, CLEARED, journal, 0, false, [], journal))
  }

  // ----------------------------------------------------------------- replies

  /** `scrobbler_increase_interval` on a 32-bit unsigned. */
  function IncreaseInterval(interval: nat): nat {
    var i := if interval < 60 then 60 else interval * 2 % 0x1_0000_0000;
    if i > MAX_INTERVAL then MAX_INTERVAL else i
  }

  datatype Verdict = Accepted | Rejected | BadSession

  /** `scrobbler_submit_response`'s reading of a body, and `scrobbler_submit_error`. */
  function SubmitVerdict(r: Reply): Verdict {
    match r
    case Failure => Rejected
    case Response(text) =>
      var line := text[..IndexOf(text, LF)];
      if line == "OK" then Accepted else if line == "BADSESSION" then BadSession else Rejected
  }

  datatype Lines = Lines(line: string, rest: string)

  /** `next_line`: without a newline the line is empty and nothing is consumed. */
  function NextLine(input: string): Lines {
    var i := IndexOf(input, LF);
    if i == |input| then Lines("", input) else Lines(CString(input[..i]), input[i + 1..])
  }

  datatype Session = Session(id: string, nowPlayingUrl: string, submitUrl: string)

  predicate GreetsOk(text: string) {
    "OK" <= NextLine(text).line
  }

  /** The second to fourth line of a handshake reply. */
  function SessionLines(text: string): Session {
    var l1 := NextLine(NextLine(text).rest);
    var l2 := NextLine(l1.rest);
    var l3 := NextLine(l2.rest);
    Session(l1.line, l2.line, l3.line)
  }

  predicate Usable(x: Session) {
    x.nowPlayingUrl != "" && x.submitUrl != ""
  }

  /** The session of a handshake reply, when its first line starts with OK and neither URL is empty. */
  function HandshakeSession(r: Reply): Option<Session> {
    if r.Response? && GreetsOk(r.text) && Usable(SessionLines(r.text)) then Some(SessionLines(r.text)) else None
  }

  function SetSession(s: State, id: Option<string>, nowPlayingUrl: Option<string>, submitUrl: Option<string>): State {
    s.(session := id, nowPlayingUrl := nowPlayingUrl, submitUrl := submitUrl)
  }

  /** What a handshake reply leaves in the three session fields: an OK reply with an empty URL
      clears them, any other failure leaves them alone. */
  function HandshakeFields(s: State, r: Reply): State {
    if HandshakeSession(r).Some? then
      var x := HandshakeSession(r).value;
      SetSession(s, Some(x.id), Some(x.nowPlayingUrl), Some(x.submitUrl))
    else if r.Response? && GreetsOk(r.text) then SetSession(s, None, None, None)
    else s
  }

  // --------------------------------------------------------------- callbacks

  function ScheduleHandshake(s: State): State {
    if s.phase != Nothing || s.handshakeTimer.Some? then Abort(s)
    else s.(handshakeTimer := Some(s.interval))
  }

  function ScheduleSubmit(s: State): State {
    if s.submitTimer.Some? || (s.queue == [] && !Defined(s.nowPlaying)) then Abort(s)
    else s.(submitTimer := Some(s.interval))
  }

  function BatchOf(s: State): seq<Record> {
    if |s.queue| < MAX_SUBMIT_COUNT then s.queue else s.queue[..MAX_SUBMIT_COUNT]
  }

  function Submit(s: State, replies: seq<Reply>): State
    decreases |replies|, 2
  {
    if s.phase != Ready || s.submitTimer.Some? then Abort(s)
    else if s.queue != [] then
      var batch := BatchOf(s);
      var request := Batch(s.submitUrl, s.session, Body(BatchFields(s.session, batch)), batch);
      AwaitSubmit(s.(phase := Submitting, pending := |batch|, wire := s.wire + [Sent(request)]), replies)
    else if Defined(s.nowPlaying) then
      var request := NowPlaying(s.nowPlayingUrl, s.session,
                                Body(NowPlayingFields(s.session, s.nowPlaying)), s.nowPlaying);
      AwaitSubmit(s.(phase := Submitting, wire := s.wire + [Sent(request)]), replies)
    else s
  }

  function AwaitSubmit(s: State, replies: seq<Reply>): State
    decreases |replies|, 1
  {
    if replies == [] then s else SubmitReply(s, replies[0], replies[1..])
  }

  /** An OK takes the `pending` songs off the queue, or else clears the now-playing slot,
      and the next request follows at once. */
  function SubmitAccepted(s: State, replies: seq<Reply>): State
    decreases |replies|, 3
  {
    if s.pending > |s.queue| then Abort(s)
    else if s.pending > 0 then
      Submit(s.(interval := 1, queue := s.queue[s.pending..], pending := 0), replies)
    else if !Defined(s.nowPlaying) then Abort(s)
    else Submit(s.(interval := 1, nowPlaying := WIPED), replies)
  }

  function SubmitReply(s: State, r: Reply, replies: seq<Reply>): State
    decreases |replies|, 4
  {
    if s.phase != Submitting then Abort(s) else
    var t := s.(phase := Ready, wire := s.wire + [Got(r)]);
    match SubmitVerdict(r)
    case Accepted => SubmitAccepted(t, replies)
    case Rejected => ScheduleSubmit(t.(interval := IncreaseInterval(t.interval)))
    case BadSession => ScheduleHandshake(t.(phase := Nothing))
  }

  function StartHandshake(s: State, replies: seq<Reply>): State {
    var t := s.(phase := Handshaking, wire := s.wire + [Sent(Handshake)]);
    if replies == [] then t else HandshakeReply(t, replies[0], replies[1..])
  }

  function HandshakeReply(s: State, r: Reply, replies: seq<Reply>): State {
    if s.phase != Handshaking then Abort(s) else
    HandshakeOutcome(HandshakeFields(s.(phase := Nothing, wire := s.wire + [Got(r)]), r),
                     HandshakeSession(r).Some?, replies)
  }

  /** Success: see whether there are songs to submit. Failure: back off and try again. */
  function HandshakeOutcome(s: State, ok: bool, replies: seq<Reply>): State {
    if ok then Submit(s.(phase := Ready, interval := 1), replies)
    else ScheduleHandshake(s.(interval := IncreaseInterval(s.interval)))
  }

  function HandshakeTimer(s: State, replies: seq<Reply>): State {
    if s.phase != Nothing then Abort(s) else StartHandshake(s.(handshakeTimer := None), replies)
  }

  function SubmitTimer(s: State, replies: seq<Reply>): State {
    if s.phase != Ready then Abort(s) else Submit(s.(submitTimer := None), replies)
  }

  function Wake(s: State): State {
    if s.phase == Ready && s.submitTimer.None? then ScheduleSubmit(s) else s
  }

  function Push(s: State, r: Record): State {
    Wake(s.(queue := s.queue + [r], offered := s.offered + [r]))
  }

  function SetNowPlaying(s: State, r: Record): State {
    Wake(s.(nowPlaying := r))
  }

  // --------------------------------------------------------------------- runs

  datatype Event =
    | HandshakeTimerFires
    | SubmitTimerFires
    | ReplyArrives(reply: Reply)
    | SongPushed(record: Record)
    | NowPlayingSet(record: Record)

  /** The request that still waits for its reply. */
  function Outstanding(wire: seq<Message>): Option<Request> {
    if wire != [] && wire[|wire| - 1].Sent? then Some(wire[|wire| - 1].request) else None
  }

  predicate Enabled(s: State, e: Event) {
    !s.aborted &&
    match e
    case HandshakeTimerFires => s.handshakeTimer.Some?
    case SubmitTimerFires => s.submitTimer.Some?
    case ReplyArrives(_) => Outstanding(s.wire).Some?
    case SongPushed(_) => true
    case NowPlayingSet(_) => true
  }

  /** A reply goes to the handler its request was made with. */
  function DeliverReply(s: State, r: Reply, replies: seq<Reply>): State {
    if Outstanding(s.wire) == Some(Handshake) then HandshakeReply(s, r, replies) else SubmitReply(s, r, replies)
  }

  function Step(s: State, e: Event, replies: seq<Reply>): State {
    match e
    case HandshakeTimerFires => HandshakeTimer(s, replies)
    case SubmitTimerFires => SubmitTimer(s, replies)
    case ReplyArrives(r) => DeliverReply(s, r, replies)
    case SongPushed(r) => Push(s, r)
    case NowPlayingSet(r) => SetNowPlaying(s, r)
  }

  datatype Moment = Moment(event: Event, replies: seq<Reply>)

  /** The state after a whole run; an event that is not enabled when its turn comes did not happen. */
  function Run(s: State, run: seq<Moment>): State {
    if run == [] then s
    else
      var t := Run(s, run[..|run| - 1]);
      var m := run[|run| - 1];
      if Enabled(t, m.event) then Step(t, m.event, m.replies) else t
  }
}
