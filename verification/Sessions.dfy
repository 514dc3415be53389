/** What the server's words mean to the scrobbler: verdicts, handshake replies, and over every
    run which address and session each request takes from which reply. */
module Sessions {
  import opened Text
  import opened Records
  import opened PostData
  import opened Submission
  import opened SubmissionProofs

  // -------------------------------------------------------------------- replies

  /** The verdict on a submission is decided by the first line alone, and by all of it. */
  lemma VerdictExactly(line: string, rest: string, r: Reply)
    requires LF !in line
    requires r == Response(line) || r == Response(line + [LF] + rest)
    ensures SubmitVerdict(r) == Accepted <==> line == "OK"
    ensures SubmitVerdict(r) == BadSession <==> line == "BADSESSION"
    ensures SubmitVerdict(Failure) == Rejected
  {
    IndexOfUnique(r.text, LF, |line|);
    assert r.text[..|line|] == line;
  }

  lemma ReadsLine(line: string, rest: string)
    requires LF !in line && NUL !in line
    ensures NextLine(line + [LF] + rest) == Lines(line, rest)
  {
    var input := line + [LF] + rest;
    IndexOfUnique(input, LF, |line|);
    assert input[..|line|] == line && input[|line| + 1..] == rest;
    IndexOfUnique(line, NUL, |line|);
  }

  lemma NoLine(input: string)
    requires LF !in input
    ensures NextLine(input) == Lines("", input)
  {
    IndexOfUnique(input, LF, |input|);
  }

  /** A handshake succeeds exactly when its first line starts with OK and neither address is
      empty. The second line is then the session, the third the address for notifications and
      the fourth the one for submissions. */
  lemma HandshakeReadsLines(first: string, id: string, np: string, sub: string, rest: string)
    requires forall s :: s in [first, id, np, sub] ==> LF !in s && NUL !in s
    ensures var r := Response(first + [LF] + (id + [LF] + (np + [LF] + (sub + [LF] + rest))));
            && (HandshakeSession(r).Some? <==> "OK" <= first && np != "" && sub != "")
            && (HandshakeSession(r).Some? ==>
                  var x := HandshakeSession(r).value;
                  x.id == id && x.nowPlayingUrl == np && x.submitUrl == sub)
  {
    hide NextLine;
    assert first in [first, id, np, sub] && id in [first, id, np, sub];
    assert np in [first, id, np, sub] && sub in [first, id, np, sub];
    ReadsLine(first, id + [LF] + (np + [LF] + (sub + [LF] + rest)));
    ReadsLine(id, np + [LF] + (sub + [LF] + rest));
    ReadsLine(np, sub + [LF] + rest);
    ReadsLine(sub, rest);
  }

  /** The fourth line needs its newline; a reply that stops before it fails. */
  lemma HandshakeNeedsNewline(first: string, id: string, np: string, sub: string)
    requires forall s :: s in [first, id, np, sub] ==> LF !in s && NUL !in s
    ensures HandshakeSession(Response(first + [LF] + (id + [LF] + (np + [LF] + sub)))).None?
  {
    hide NextLine;
    assert first in [first, id, np, sub] && id in [first, id, np, sub];
    assert np in [first, id, np, sub] && sub in [first, id, np, sub];
    ReadsLine(first, id + [LF] + (np + [LF] + sub));
    ReadsLine(id, np + [LF] + sub);
    ReadsLine(np, sub);
    NoLine(sub);
  }

  /** What a failed handshake leaves of the session: nothing after an OK with an empty address,
      and otherwise what there was. */
  lemma FailedHandshakeKeeps(s: State, first: string, id: string, np: string, sub: string, rest: string)
    requires s.phase == Handshaking
    requires forall x :: x in [first, id, np, sub] ==> LF !in x && NUL !in x
    requires !("OK" <= first) || np == "" || sub == ""
    ensures var t := HandshakeReply(s, Response(first + [LF] + (id + [LF] + (np + [LF] + (sub + [LF] + rest)))), []);
            if "OK" <= first then t.session.None? && t.nowPlayingUrl.None? && t.submitUrl.None?
            else t.session == s.session && t.nowPlayingUrl == s.nowPlayingUrl && t.submitUrl == s.submitUrl
    ensures var t := HandshakeReply(s, Failure, []);
            t.session == s.session && t.nowPlayingUrl == s.nowPlayingUrl && t.submitUrl == s.submitUrl
  {
    hide NextLine;
    assert first in [first, id, np, sub];
    HandshakeReadsLines(first, id, np, sub, rest);
    ReadsLine(first, id + [LF] + (np + [LF] + (sub + [LF] + rest)));
  }

  // ------------------------------------------------------------ reading the wire log

  /** The session of the last handshake on the wire that succeeded. */
  function LastSession(wire: seq<Message>): Option<Session> {
    if |wire| < 2 then None
    else
      var n := |wire|;
      if wire[n - 2] == Sent(Handshake) && wire[n - 1].Got? && HandshakeSession(wire[n - 1].reply).Some?
      then HandshakeSession(wire[n - 1].reply)
      else LastSession(wire[..n - 1])
  }

  /** The request goes where `x` says, under the session of `x`: batches to the submission
      address, notifications to the notification address. */
  predicate Addressed(q: Request, x: Option<Session>) {
    match q
    case Handshake => true
    case Batch(url, session, _, _) => x.Some? && url == Some(x.value.submitUrl) && session == Some(x.value.id)
    case NowPlaying(url, session, _, _) => x.Some? && url == Some(x.value.nowPlayingUrl) && session == Some(x.value.id)
  }

  predicate AddressedWire(wire: seq<Message>) {
    forall i :: 0 <= i < |wire| && wire[i].Sent? ==> Addressed(wire[i].request, LastSession(wire[..i]))
  }

  /** In the phases that submit, the three fields are those of the last session. */
  predicate Linked(s: State) {
    && AddressedWire(s.wire)
    && (s.phase == Ready || s.phase == Submitting ==>
          var x := LastSession(s.wire);
          && x.Some? && s.session == Some(x.value.id)
          && s.nowPlayingUrl == Some(x.value.nowPlayingUrl) && s.submitUrl == Some(x.value.submitUrl))
  }

  // ------------------------------------------------------------------- every step

  lemma Sending(wire: seq<Message>, q: Request)
    requires AddressedWire(wire) && Addressed(q, LastSession(wire))
    ensures AddressedWire(wire + [Sent(q)]) && LastSession(wire + [Sent(q)]) == LastSession(wire)
  {
    hide HandshakeSession, Addressed;
    var w := wire + [Sent(q)];
    assert w[..|wire|] == wire;
    forall i | 0 <= i < |w| && w[i].Sent?
      ensures Addressed(w[i].request, LastSession(w[..i]))
    {
      assert w[..i] == wire[..i];
      assert i == |wire| ==> wire[..i] == wire;
    }
  }

  lemma Getting(wire: seq<Message>, r: Reply)
    requires AddressedWire(wire) && Outstanding(wire).Some?
    ensures AddressedWire(wire + [Got(r)])
    ensures LastSession(wire + [Got(r)]) ==
              if Outstanding(wire).value.Handshake? && HandshakeSession(r).Some? then HandshakeSession(r)
              else LastSession(wire)
  {
    hide HandshakeSession, Addressed;
    var w := wire + [Got(r)];
    assert w[..|wire|] == wire;
    assert w[|w| - 2] == wire[|wire| - 1];
    forall i | 0 <= i < |w| && w[i].Sent?
      ensures Addressed(w[i].request, LastSession(w[..i]))
    {
      assert w[..i] == wire[..i];
    }
  }

  lemma SubmitLinks(s: State)
    requires Linked(s) && s.phase == Ready
    ensures Linked(Submit(s, []))
  {
    hide AddressedWire, LastSession, Body;
    if s.submitTimer.None? {
      if s.queue != [] {
        Sending(s.wire, Submit(s, []).wire[|s.wire|].request);
      } else if Defined(s.nowPlaying) {
        Sending(s.wire, Submit(s, []).wire[|s.wire|].request);
      }
    }
  }

  lemma SubmitReplyLinks(s: State, r: Reply)
    requires Linked(s) && s.phase == Submitting && Outstanding(s.wire).Some? && !Outstanding(s.wire).value.Handshake?
    ensures Linked(SubmitReply(s, r, []))
  {
    hide AddressedWire, LastSession, SubmitVerdict, Submit;
    Getting(s.wire, r);
    var t := Judged(s, r);
    if t.pending <= |t.queue| {
      SubmitLinks(t.(interval := 1, queue := t.queue[t.pending..], pending := 0));
    }
    SubmitLinks(t.(interval := 1, nowPlaying := WIPED));
  }

  lemma HandshakeReplyLinks(s: State, r: Reply)
    requires Linked(s) && s.phase == Handshaking && Outstanding(s.wire) == Some(Handshake)
    ensures Linked(HandshakeReply(s, r, []))
  {
    hide AddressedWire, LastSession, HandshakeSession, GreetsOk, Submit;
    Getting(s.wire, r);
    if HandshakeSession(r).Some? {
      var t := HandshakeFields(s.(phase := Nothing, wire := s.wire + [Got(r)]), r);
      SubmitLinks(t.(phase := Ready, interval := 1));
    }
  }

  lemma StepLinks(s: State, e: Event)
    requires Inv(s) && Linked(s) && Enabled(s, e)
    ensures Linked(Step(s, e, []))
  {
    hide AddressedWire, LastSession, SubmitReply, HandshakeReply, Submit, Books;
    match e
    case HandshakeTimerFires => Sending(s.wire, Handshake);
    case SubmitTimerFires => SubmitLinks(s.(submitTimer := None));
    case ReplyArrives(r) =>
      if s.phase == Handshaking {
        HandshakeReplyLinks(s, r);
      } else {
        SubmitReplyLinks(s, r);
      }
    case SongPushed(_) =>
    case NowPlayingSet(_) =>
  }

  lemma {:induction false} DeliverAllLinks(s: State, replies: seq<Reply>)
    requires Inv(s) && SlotDefined(s) && Linked(s)
    ensures Linked(DeliverAll(s, replies))
    decreases |replies|
  {
    hide DeliverReply, Linked, Inv;
    InvAlive(s);
    if replies != [] && Outstanding(s.wire).Some? {
      var e := ReplyArrives(replies[0]);
      NoMissingTitle(s, replies[0]);
      StepInv(s, e);
      StepLinks(s, e);
      DeliverAllLinks(DeliverReply(s, replies[0], []), replies[1..]);
    }
  }

  lemma InvAlive(s: State)
    requires Inv(s)
    ensures !s.aborted
  {
  }

  lemma NoMissingTitle(s: State, r: Reply)
    requires SlotDefined(s)
    ensures !MissingTitle(s, ReplyArrives(r))
  {
  }

  lemma FullStepLinks(s: State, e: Event, replies: seq<Reply>)
    requires Inv(s) && Linked(s) && Enabled(s, e) && !MissingTitle(s, e)
    ensures Linked(Step(s, e, replies))
  {
    hide Linked, Inv, MissingTitle, Step;
    StepLinks(s, e);
    if e.SongPushed? || e.NowPlayingSet? {
      NoReplies(s, e, replies);
    } else {
      SynchronousRepliesDefer(s, e, replies);
      StepInv(s, e);
      DeliverAllLinks(Step(s, e, []), replies);
    }
  }

  lemma NoReplies(s: State, e: Event, replies: seq<Reply>)
    requires e.SongPushed? || e.NowPlayingSet?
    ensures Step(s, e, replies) == Step(s, e, [])
  {
  }

  lemma {:induction false} RunLinks(journal: seq<Record>, run: seq<Moment>)
    requires !Run(Start(journal), run).aborted
    ensures Linked(Run(Start(journal), run))
  {
    hide Step, Linked, Start, Inv, MissingTitle;
    if run == [] {
      StartLinks(journal);
    } else {
      var n := |run| - 1;
      var s := Run(Start(journal), run[..n]);
      assert !s.aborted;
      RunLinks(journal, run[..n]);
      RunInv(journal, run[..n]);
      if Enabled(s, run[n].event) {
        AbortsExactly(s, run[n].event, run[n].replies);
        FullStepLinks(s, run[n].event, run[n].replies);
      }
    }
  }

  lemma StartLinks(journal: seq<Record>)
    ensures Linked(Start(journal))
  {
  }

  /** Over every run each batch goes to the address in the fourth line, and each notification to
      the one in the third line, of the last handshake reply before it that succeeded, and both
      carry the session in its second line. */
  lemma RequestsAreAddressed(journal: seq<Record>, run: seq<Moment>, i: nat)
    requires !Run(Start(journal), run).aborted
    requires i < |Run(Start(journal), run).wire| && Run(Start(journal), run).wire[i].Sent?
    ensures var wire := Run(Start(journal), run).wire;
            var q, x := wire[i].request, LastSession(wire[..i]);
            && (q.Batch? ==> x.Some? && q.url == Some(x.value.submitUrl) && q.session == Some(x.value.id))
            && (q.NowPlaying? ==> x.Some? && q.url == Some(x.value.nowPlayingUrl) && q.session == Some(x.value.id))
  {
    hide Run, LastSession;
    RunLinks(journal, run);
  }

  /** What a scrobbler that looks for work sends: songs come before the notification, and as
      many as there are, up to ten. */
  lemma SongsComeFirst(s: State)
    requires Looking(s)
    ensures var t := Submit(s, []);
            && (s.queue != [] ==>
                  && |t.wire| == |s.wire| + 1 && t.wire[|s.wire|].Sent? && t.wire[|s.wire|].request.Batch?
                  && var records := t.wire[|s.wire|].request.records;
                     && records <= s.queue && |records| == t.pending
                     && (records == s.queue || |records| == 10) && |records| <= 10)
            && (s.queue == [] && Defined(s.nowPlaying) ==>
                  && |t.wire| == |s.wire| + 1 && t.wire[|s.wire|].Sent? && t.wire[|s.wire|].request.NowPlaying?
                  && t.wire[|s.wire|].request.record == s.nowPlaying)
            && (s.queue == [] && !Defined(s.nowPlaying) ==> t == s)
  {
    hide Body, SoundWire, Delivered, Failures;
  }
}
