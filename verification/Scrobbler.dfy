/** `struct scrobbler` with its callbacks in the form of scrobbler-submit.c. Each callback is
    proved to take the object exactly where the state machine of module Submission goes. */
module Scrobbling {
  import opened Text
  import opened Records
  import opened PostData
  import opened Submission

  class Scrobbler {
    var phase: Phase
    var interval: nat
    var handshakeTimer: Option<nat>
    var submitTimer: Option<nat>
    var session: Option<string>
    var nowPlayingUrl: Option<string>
    var submitUrl: Option<string>
    var nowPlaying: Record
    var queue: seq<Record>
    var pending: nat
    var aborted: bool
    ghost var wire: seq<Message>
    ghost var offered: seq<Record>

    ghost function View(): State
      reads this
    {
      State(phase, interval, handshakeTimer, submitTimer, session, nowPlayingUrl, submitUrl,
            nowPlaying, queue, pending, aborted, wire, offered)
    }

    /** `scrobbler_new` and `scrobbler_new_callback`. */
    constructor (journal: seq<Record>)
      ensures View() == Start(journal)
    {
      phase := Nothing;
      interval := 1;
      handshakeTimer, submitTimer := None, None;
      session, nowPlayingUrl, submitUrl := None, None, None;
      nowPlaying := CLEARED;
      queue := journal;
      pending := 0;
      aborted := false;
      wire := [];
      offered := journal;
      new;
      ScheduleHandshake();
    }

    method IncreaseInterval()
      modifies this`interval
      ensures View() == old(View()).(interval := Submission.IncreaseInterval(old(interval)))
    {
      if interval < 60 {
        interval := 60;
      } else {
        interval := interval * 2 % 0x1_0000_0000;
      }
      if interval > MAX_INTERVAL {
        interval := MAX_INTERVAL;
      }
    }

    method ScheduleHandshake()
      modifies this`aborted, this`handshakeTimer
      ensures View() == Submission.ScheduleHandshake(old(View()))
    {
      if phase != Nothing || handshakeTimer.Some? {
        aborted := true;
        return;
      }
      handshakeTimer := Some(interval);
    }

    method ScheduleSubmit()
      modifies this`aborted, this`submitTimer
      ensures View() == Submission.ScheduleSubmit(old(View()))
    {
      if submitTimer.Some? || (queue == [] && !Defined(nowPlaying)) {
        aborted := true;
        return;
      }
      submitTimer := Some(interval);
    }

    /** `scrobbler_queue_remove_oldest`. */
    method RemoveOldest(count: nat)
      requires count <= |queue|
      modifies this`queue
      ensures queue == old(queue)[count..]
    {
      var left := count;
      while left > 0
        invariant 0 <= left <= count
        invariant queue == old(queue)[count - left..]
      {
        queue := queue[1..];
        left := left - 1;
      }
    }

    /** The loop of `scrobbler_submit` that prints the first songs of the queue. */
    method PrintBatch() returns (body: string, count: nat)
      ensures count == |BatchOf(View())|
      ensures body == Body(BatchFields(session, BatchOf(View())))
    {
      body := Body([Field("s", None, session)]);
      count := 0;
      while count < |queue| && count < MAX_SUBMIT_COUNT
        invariant count <= |queue| && count <= MAX_SUBMIT_COUNT
        invariant body == Body(BatchFields(session, queue[..count]))
      {
        BodyAppend(BatchFields(session, queue[..count]), RecordFields(queue[count], count));
        assert queue[..count + 1][..count] == queue[..count];
        body := body + Body(RecordFields(queue[count], count));
        count := count + 1;
      }
      assert queue[..count] == BatchOf(View());
    }

    /** `http_client_request` with the submit handler: the reply may come before it returns. */
    method RequestSubmit(ghost request: Request, replies: seq<Reply>)
      modifies this
      ensures View() == AwaitSubmit(old(View()).(wire := old(wire) + [Sent(request)]), replies)
      decreases |replies|, 1
    {
      wire := wire + [Sent(request)];
      if replies != [] {
        match replies[0]
        case Failure => SubmitError(replies[1..]);
        case Response(text) => SubmitResponse(text, replies[1..]);
      }
    }

    method Submit(replies: seq<Reply>)
      modifies this
      ensures View() == Submission.Submit(old(View()), replies)
      decreases |replies|, 2
    {
      if phase != Ready || submitTimer.Some? {
        aborted := true;
        return;
      }
      if queue == [] {
        if Defined(nowPlaying) {
          phase := Submitting;
          var body := Body(NowPlayingFields(session, nowPlaying));
          RequestSubmit(NowPlaying(nowPlayingUrl, session, body, nowPlaying), replies);
        }
        return;
      }
      phase := Submitting;
      var body, count := PrintBatch();
      pending := count;
      RequestSubmit(Batch(submitUrl, session, body, BatchOf(View())), replies);
    }

    /** The AS_SUBMIT_OK case of `scrobbler_submit_response`. */
    method SubmitAccepted(replies: seq<Reply>)
      modifies this
      ensures View() == Submission.SubmitAccepted(old(View()), replies)
      decreases |replies|, 3
    {
      hide Body;
      if pending > |queue| {
        aborted := true;
        return;
      }
      if pending > 0 {
        interval := 1;
        RemoveOldest(pending);
        pending := 0;
      } else {
        if !Defined(nowPlaying) {
          aborted := true;
          return;
        }
        interval := 1;
        nowPlaying := WIPED;
      }
      Submit(replies);
    }

    /** `scrobbler_submit_response`. */
    method SubmitResponse(text: string, replies: seq<Reply>)
      modifies this
      ensures View() == SubmitReply(old(View()), Response(text), replies)
      decreases |replies|, 4
    {
      if phase != Submitting {
        aborted := true;
        return;
      }
      phase := Ready;
      wire := wire + [Got(Response(text))];
      match SubmitVerdict(Response(text)) {
        case Accepted =>
          SubmitAccepted(replies);
        case Rejected =>
          IncreaseInterval();
          ScheduleSubmit();
        case BadSession =>
          phase := Nothing;
          ScheduleHandshake();
      }
    }

    /** `scrobbler_submit_error`. */
    method SubmitError(ghost replies: seq<Reply>)
      modifies this
      ensures View() == SubmitReply(old(View()), Failure, replies)
      decreases |replies|, 4
    {
      if phase != Submitting {
        aborted := true;
        return;
      }
      phase := Ready;
      wire := wire + [Got(Failure)];
      IncreaseInterval();
      ScheduleSubmit();
    }

    /** `scrobbler_handshake`. */
    method SendHandshake(replies: seq<Reply>)
      modifies this
      ensures View() == StartHandshake(old(View()), replies)
    {
      phase := Handshaking;
      wire := wire + [Sent(Handshake)];
      if replies != [] {
        match replies[0]
        case Failure => HandshakeError(replies[1..]);
        case Response(text) => HandshakeResponse(text, replies[1..]);
      }
    }

    /** The part of `scrobbler_handshake_response` that reads the four lines of the reply. */
    method ReadSession(text: string) returns (ok: bool)
      modifies this`session, this`nowPlayingUrl, this`submitUrl
      ensures ok == HandshakeSession(Response(text)).Some?
      ensures View() == HandshakeFields(old(View()), Response(text))
    {
      if !GreetsOk(text) {
        return false;
      }
      var x := SessionLines(text);
      session, nowPlayingUrl, submitUrl := Some(x.id), Some(x.nowPlayingUrl), Some(x.submitUrl);
      if !Usable(x) {
        session, nowPlayingUrl, submitUrl := None, None, None;
        return false;
      }
      return true;
    }

    /** `scrobbler_handshake_response`. */
    method HandshakeResponse(text: string, replies: seq<Reply>)
      modifies this
      ensures View() == HandshakeReply(old(View()), Response(text), replies)
    {
      hide NextLine;
      if phase != Handshaking {
        aborted := true;
        return;
      }
      phase := Nothing;
      wire := wire + [Got(Response(text))];
      var ok := ReadSession(text);
      ghost var read := View();
      assert read == HandshakeFields(old(View()).(phase := Nothing, wire := wire), Response(text));
      if !ok {
        IncreaseInterval();
        ScheduleHandshake();
        return;
      }
      phase := Ready;
      interval := 1;
      assert View() == read.(phase := Ready, interval := 1);
      Submit(replies);
    }

    /** `scrobbler_handshake_error`. */
    method HandshakeError(ghost replies: seq<Reply>)
      modifies this
      ensures View() == HandshakeReply(old(View()), Failure, replies)
    {
      if phase != Handshaking {
        aborted := true;
        return;
      }
      phase := Nothing;
      wire := wire + [Got(Failure)];
      IncreaseInterval();
      ScheduleHandshake();
    }

    method HandshakeTimerCallback(replies: seq<Reply>)
      modifies this
      ensures View() == HandshakeTimer(old(View()), replies)
    {
      if phase != Nothing {
        aborted := true;
        return;
      }
      handshakeTimer := None;
      SendHandshake(replies);
    }

    method SubmitTimerCallback(replies: seq<Reply>)
      modifies this
      ensures View() == SubmitTimer(old(View()), replies)
    {
      if phase != Ready {
        aborted := true;
        return;
      }
      submitTimer := None;
      Submit(replies);
    }

    /** `scrobbler_push_callback`. */
    method PushCallback(record: Record)
      modifies this
      ensures View() == Push(old(View()), record)
    {
      queue := queue + [record];
      offered := offered + [record];
      if phase == Ready && submitTimer.None? {
        ScheduleSubmit();
      }
    }

    /** `scrobbler_schedule_now_playing_callback`. */
    method NowPlayingCallback(record: Record)
      modifies this
      ensures View() == SetNowPlaying(old(View()), record)
    {
      nowPlaying := record;
      if phase == Ready && submitTimer.None? {
        ScheduleSubmit();
      }
    }
  }
}
