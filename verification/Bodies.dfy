/** From the songs to what a server reads: over every run the body of each request decodes to
    the variables of exactly the songs it carries. */
module Bodies {
  import opened Text
  import opened Records
  import opened PostData
  import opened Submission
  import opened SubmissionProofs

  // ----------------------------------------------------------------- byte values

  predicate ByteField(v: Option<string>) {
    v.Some? ==> Bytes(v.value)
  }

  predicate ByteRecord(r: Record) {
    && ByteField(r.artist) && ByteField(r.track) && ByteField(r.album)
    && ByteField(r.number) && ByteField(r.mbid) && ByteField(r.time)
  }

  predicate ByteRecords(records: seq<Record>) {
    forall r :: r in records ==> ByteRecord(r)
  }

  predicate ByteReply(r: Reply) {
    r.Response? ==> Bytes(r.text)
  }

  predicate ByteReplies(replies: seq<Reply>) {
    forall r :: r in replies ==> ByteReply(r)
  }

  predicate ByteMoment(m: Moment) {
    && ByteReplies(m.replies)
    && match m.event
       case ReplyArrives(r) => ByteReply(r)
       case SongPushed(r) => ByteRecord(r)
       case NowPlayingSet(r) => ByteRecord(r)
       case HandshakeTimerFires => true
       case SubmitTimerFires => true
  }

  predicate ByteRequest(q: Request) {
    match q
    case Handshake => true
    case Batch(_, session, _, records) => ByteField(session) && ByteRecords(records)
    case NowPlaying(_, session, _, record) => ByteField(session) && ByteRecord(record)
  }

  predicate ByteWire(wire: seq<Message>) {
    forall i :: 0 <= i < |wire| && wire[i].Sent? ==> ByteRequest(wire[i].request)
  }

  predicate ByteState(s: State) {
    ByteField(s.session) && ByteRecord(s.nowPlaying) && ByteRecords(s.queue) && ByteWire(s.wire)
  }

  // ------------------------------------------------------------------- every step

  lemma BatchBytes(s: State)
    requires ByteState(s)
    ensures ByteRecords(BatchOf(s))
  {
  }

  lemma {:induction false} SubmitBytes(s: State, replies: seq<Reply>)
    requires ByteState(s) && ByteReplies(replies)
    ensures ByteState(Submit(s, replies))
    decreases |replies|, 2
  {
    hide Body, SubmitReply, ByteRecord, ByteReply;
    BatchBytes(s);
    if s.phase == Ready && s.submitTimer.None? && (s.queue != [] || Defined(s.nowPlaying)) && replies != [] {
      SubmitReplyBytes(Submit(s, []), replies[0], replies[1..]);
    }
  }

  lemma {:induction false} SubmitReplyBytes(s: State, r: Reply, replies: seq<Reply>)
    requires ByteState(s) && ByteReplies(replies)
    ensures ByteState(SubmitReply(s, r, replies))
    decreases |replies|, 4
  {
    hide Submit, ByteRecord, ByteReply, SubmitVerdict;
    var t := Judged(s, r);
    assert ByteState(t);
    if t.pending <= |t.queue| {
      SubmitBytes(t.(interval := 1, queue := t.queue[t.pending..], pending := 0), replies);
    }
    assert ByteRecord(WIPED) by { WipedBytes(); }
    SubmitBytes(t.(interval := 1, nowPlaying := WIPED), replies);
  }

  lemma WipedBytes()
    ensures ByteRecord(WIPED) && ByteRecord(CLEARED)
  {
  }

  lemma NextLineBytes(input: string)
    requires Bytes(input)
    ensures Bytes(NextLine(input).line) && Bytes(NextLine(input).rest)
  {
  }

  lemma SessionBytes(r: Reply)
    requires ByteReply(r) && HandshakeSession(r).Some?
    ensures Bytes(HandshakeSession(r).value.id)
  {
    hide NextLine, Bytes;
    NextLineBytes(r.text);
    NextLineBytes(NextLine(r.text).rest);
  }

  lemma HandshakeReplyBytes(s: State, r: Reply, replies: seq<Reply>)
    requires ByteState(s) && ByteReply(r) && ByteReplies(replies)
    ensures ByteState(HandshakeReply(s, r, replies))
  {
    hide Submit, ByteRecord, HandshakeSession, GreetsOk;
    var t := HandshakeFields(s.(phase := Nothing, wire := s.wire + [Got(r)]), r);
    if HandshakeSession(r).Some? {
      SessionBytes(r);
    }
    assert ByteState(t);
    SubmitBytes(t.(phase := Ready, interval := 1), replies);
  }

  lemma StepBytes(s: State, e: Event, replies: seq<Reply>)
    requires ByteState(s) && ByteMoment(Moment(e, replies))
    ensures ByteState(Step(s, e, replies))
  {
    hide Submit, SubmitReply, HandshakeReply, ByteRecord, ByteReply;
    match e
    case HandshakeTimerFires =>
      var t := s.(handshakeTimer := None, phase := Handshaking, wire := s.wire + [Sent(Handshake)]);
      if replies != [] {
        HandshakeReplyBytes(t, replies[0], replies[1..]);
      }
    case SubmitTimerFires => SubmitBytes(s.(submitTimer := None), replies);
    case ReplyArrives(r) =>
      HandshakeReplyBytes(s, r, replies);
      SubmitReplyBytes(s, r, replies);
    case SongPushed(_) =>
    case NowPlayingSet(_) =>
  }

  predicate ByteRun(journal: seq<Record>, run: seq<Moment>) {
    ByteRecords(journal) && forall m :: m in run ==> ByteMoment(m)
  }

  lemma {:induction false} RunBytes(journal: seq<Record>, run: seq<Moment>)
    requires ByteRun(journal, run)
    ensures ByteState(Run(Start(journal), run))
  {
    hide Step, ByteMoment, ByteRecord;
    if run == [] {
      WipedBytes();
    } else {
      var n := |run| - 1;
      assert run[n] in run;
      RunBytes(journal, run[..n]);
      var s := Run(Start(journal), run[..n]);
      if Enabled(s, run[n].event) {
        StepBytes(s, run[n].event, run[n].replies);
      }
    }
  }

  // -------------------------------------------------------------------- the bodies

  lemma {:induction false} BatchClean(session: Option<string>, records: seq<Record>)
    requires ByteField(session) && ByteRecords(records)
    ensures forall f :: f in BatchFields(session, records) ==> CleanField(f)
  {
    hide CleanField, ByteRecord, RecordFields;
    if records == [] {
      SessionClean(session);
    } else {
      var last := |records| - 1;
      BatchClean(session, records[..last]);
      RecordClean(records[last], last);
    }
  }

  lemma SessionClean(session: Option<string>)
    requires ByteField(session)
    ensures CleanField(Field("s", None, session))
  {
  }

  lemma RecordClean(r: Record, i: nat)
    requires ByteRecord(r)
    ensures forall f :: f in RecordFields(r, i) ==> CleanField(f)
  {
    hide IntText;
    IntTextClean(r.length);
  }

  lemma NowPlayingClean(session: Option<string>, r: Record)
    requires ByteField(session) && ByteRecord(r)
    ensures forall f :: f in NowPlayingFields(session, r) ==> CleanField(f)
  {
    hide IntText;
    IntTextClean(r.length);
  }

  lemma {:induction false} PairsConcat(a: seq<Field>, b: seq<Field>)
    ensures FieldPairs(a + b) == FieldPairs(a) + FieldPairs(b)
    ensures |FieldPairs(a)| == |a|
  {
    hide FieldName;
    if a == [] {
      assert a + b == b;
    } else {
      assert (a + b)[1..] == a[1..] + b;
      PairsConcat(a[1..], b);
    }
  }

  /** The variables of the protocol for song `k` of a batch, as a server reads them. */
  function SongPairs(r: Record, k: nat): (pairs: seq<Pair>)
    ensures |pairs| == 9
  {
    var n := "[" + IntText(k) + "]";
    [Pair("a" + n, r.artist.GetOr("")), Pair("t" + n, r.track.GetOr("")), Pair("l" + n, IntText(r.length)),
     Pair("i" + n, r.time.GetOr("")),
     Pair("o" + n, if r.source == Radio then "R" else if r.source == Player then "P" else ""),
     Pair("r" + n, ""), Pair("b" + n, r.album.GetOr("")), Pair("n" + n, r.number.GetOr("")),
     Pair("m" + n, r.mbid.GetOr(""))]
  }

  /** The session, and song by song its nine variables under its index. */
  predicate Carries(pairs: seq<Pair>, session: Option<string>, records: seq<Record>) {
    && |pairs| == 1 + 9 * |records|
    && pairs[0] == Pair("s", session.GetOr(""))
    && forall k :: 0 <= k < |records| ==> pairs[1 + 9 * k..10 + 9 * k] == SongPairs(records[k], k)
  }

  /** The session and the seven variables of a notification. */
  predicate Announces(pairs: seq<Pair>, session: Option<string>, r: Record) {
    pairs == [Pair("s", session.GetOr("")), Pair("a", r.artist.GetOr("")), Pair("t", r.track.GetOr("")),
              Pair("b", r.album.GetOr("")), Pair("l", IntText(r.length)), Pair("n", r.number.GetOr("")),
              Pair("m", r.mbid.GetOr(""))]
  }

  lemma {:induction false} PairsAt(fields: seq<Field>, i: nat)
    requires i < |fields|
    ensures |FieldPairs(fields)| == |fields|
    ensures FieldPairs(fields)[i] == Pair(FieldName(fields[i]), fields[i].value.GetOr(""))
  {
    hide FieldName;
    PairsConcat(fields, []);
    if i > 0 {
      PairsAt(fields[1..], i - 1);
    }
  }

  lemma RecordPairs(r: Record, k: nat)
    ensures FieldPairs(RecordFields(r, k)) == SongPairs(r, k)
  {
    hide IntText, FieldPairs;
    var fields := RecordFields(r, k);
    var pairs, spelled := FieldPairs(fields), SongPairs(r, k);
    var n := "[" + IntText(k) + "]";
    PairsConcat(fields, []);
    forall i | 0 <= i < 9
      ensures pairs[i] == spelled[i]
    {
      PairsAt(fields, i);
    }
  }

  lemma NowPlayingPairs(session: Option<string>, r: Record)
    ensures Announces(FieldPairs(NowPlayingFields(session, r)), session, r)
  {
    hide IntText, FieldPairs;
    var fields := NowPlayingFields(session, r);
    PairsConcat(fields, []);
    forall i | 0 <= i < 7
      ensures FieldPairs(fields)[i] == Pair(fields[i].key, fields[i].value.GetOr(""))
    {
      PairsAt(fields, i);
      assert fields[i].key + [] == fields[i].key;
    }
  }

  lemma {:induction false} BatchCarries(session: Option<string>, records: seq<Record>)
    ensures Carries(FieldPairs(BatchFields(session, records)), session, records)
  {
    hide RecordFields;
    if records == [] {
      assert BatchFields(session, records)[1..] == [];
      assert FieldName(Field("s", None, session)) == "s";
    } else {
      var last := |records| - 1;
      var before, fields := FieldPairs(BatchFields(session, records[..last])), RecordFields(records[last], last);
      BatchCarries(session, records[..last]);
      PairsConcat(BatchFields(session, records[..last]), fields);
      RecordPairs(records[last], last);
      MoreCarried(before, session, records);
    }
  }

  lemma MoreCarried(before: seq<Pair>, session: Option<string>, records: seq<Record>)
    requires records != []
    requires Carries(before, session, records[..|records| - 1])
    ensures Carries(before + SongPairs(records[|records| - 1], |records| - 1), session, records)
  {
    hide SongPairs;
    var more := SongPairs(records[|records| - 1], |records| - 1);
    var pairs, last := before + more, |records| - 1;
    forall k | 0 <= k < |records|
      ensures pairs[1 + 9 * k..10 + 9 * k] == SongPairs(records[k], k)
    {
      if k < last {
        assert records[..last][k] == records[k];
        assert 10 + 9 * k <= |before|;
        assert pairs[1 + 9 * k..10 + 9 * k] == before[1 + 9 * k..10 + 9 * k];
      } else {
        assert |before| == 1 + 9 * k;
        assert pairs[1 + 9 * k..10 + 9 * k] == more;
      }
    }
  }

  /** Over every run in which journal, tags and replies are bytes: a server that reads the body
      of any batch finds the session and, for each song of the request, its nine variables under
      its index, each with the value the protocol asks for; and likewise in the body of a
      notification. */
  lemma BodiesAreReadBack(journal: seq<Record>, run: seq<Moment>, i: nat)
    requires ByteRun(journal, run) && !Run(Start(journal), run).aborted
    requires i < |Run(Start(journal), run).wire| && Run(Start(journal), run).wire[i].Sent?
    ensures var q := Run(Start(journal), run).wire[i].request;
            && (q.Batch? ==> Carries(ReadForm(q.body), q.session, q.records))
            && (q.NowPlaying? ==> Announces(ReadForm(q.body), q.session, q.record))
  {
    hide Run, ReadForm, Body, BatchFields, NowPlayingFields, FieldPairs, Carries, Announces, CleanField, ByteRecord;
    OneSoundRequestAtATime(journal, run, i);
    RunBytes(journal, run);
    var q := Run(Start(journal), run).wire[i].request;
    if q.Batch? {
      BatchClean(q.session, q.records);
      BodyRoundTrip(BatchFields(q.session, q.records));
      BatchCarries(q.session, q.records);
    } else if q.NowPlaying? {
      NowPlayingClean(q.session, q.record);
      BodyRoundTrip(NowPlayingFields(q.session, q.record));
      NowPlayingPairs(q.session, q.record);
    }
  }
}
