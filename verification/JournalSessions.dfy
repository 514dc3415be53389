/** Sessions of loads and saves: what the static flag that all journals share does to them. */
module JournalSessions {
  import opened Text
  import opened Records
  import opened Journal
  import opened JournalProofs

  // --------------------------------------------------------- records that are there

  lemma SameChunk(s: string, rest: string)
    requires s != [] && s[|s| - 1] == LF
    ensures ChunkLength(s + rest) == ChunkLength(s)
  {
    var i := IndexOf(s, LF);
    assert forall k :: 0 <= k <= i ==> (s + rest)[k] == s[k];
    IndexOfUnique(s + rest, LF, i);
  }

  lemma {:induction false} ReadsConcat(s: string, rest: string, st: Reader, iso: Calendar)
    requires s == [] || s[|s| - 1] == LF
    ensures ReadChunks(s + rest, st, iso) == ReadChunks(rest, ReadChunks(s, st, iso), iso)
    decreases |s|
  {
    hide Feed, ChunkLength;
    if s == [] {
      assert s + rest == rest;
    } else {
      var n := ChunkLength(s);
      SameChunk(s, rest);
      assert (s + rest)[..n] == s[..n] && (s + rest)[n..] == s[n..] + rest;
      ReadsConcat(s[n..], rest, Feed(st, s[..n], iso), iso);
    }
  }

  /** A printed line sets its key, whatever its value holds. */
  lemma LineHasKey(c: char, v: string)
    requires FieldKey(c)
    ensures var s := LineText(c, v);
            var x := ParseChunk(s[..ChunkLength(s)]);
            x.Some? && x.value.key == [c]
  {
    hide Strip;
    var s := LineText(c, v);
    assert s[0] == c && s[1] == ' ' && s[2] == '=' && s[3] == ' ';
    var chunk := s[..ChunkLength(s)];
    assert IndexOf(s, LF) >= 4;
    assert chunk[0] == c && chunk[1] == ' ' && chunk[2] == '=' && chunk[3] == ' ';
    var line := CString(chunk);
    assert IndexOf(chunk, NUL) >= 4;
    LeadingSpacesUnique(line, 0);
    IndexOfUnique(line, '=', 2);
    TrimmedLengthUnique(line[..2], 1);
    assert line[..2][..1] == [c];
  }

  /** A record is in the queue or on its way there. */
  predicate Live(st: Reader) {
    st.queue != [] || Defined(st.record)
  }

  predicate Named(st: Reader) {
    Live(st) || st.record.artist.Some?
  }

  lemma ApplyKeeps(st: Reader, x: Setting, iso: Calendar)
    ensures Live(st) ==> Live(Apply(st, x, iso))
    ensures Named(st) || x.key == "a" ==> Named(Apply(st, x, iso))
    ensures Named(st) && x.key == "t" ==> Live(Apply(st, x, iso))
  {
    hide ParseTimestamp, Atoi;
  }

  lemma {:induction false} ReadKeeps(s: string, st: Reader, iso: Calendar)
    ensures Live(st) ==> Live(ReadChunks(s, st, iso))
    ensures Named(st) ==> Named(ReadChunks(s, st, iso))
    decreases |s|
  {
    hide ParseChunk, Apply, Live, Named;
    if s != [] {
      var n := ChunkLength(s);
      if ParseChunk(s[..n]).Some? {
        ApplyKeeps(st, ParseChunk(s[..n]).value, iso);
      }
      ReadKeeps(s[n..], Feed(st, s[..n], iso), iso);
    }
  }

  lemma LineKeeps(c: char, v: string, st: Reader, iso: Calendar)
    requires FieldKey(c)
    ensures var t := ReadChunks(LineText(c, v), st, iso);
            && (c == 'a' ==> Named(t)) && (Named(st) && c == 't' ==> Live(t))
  {
    hide ParseChunk, ReadChunks, LineText, Apply, Live, Named;
    var s := LineText(c, v);
    LineHasKey(c, v);
    assert s != [] by { LineNotEmpty(c, v); }
    var n := ChunkLength(s);
    ReadsChunk(s, st, iso);
    ApplyKeeps(st, ParseChunk(s[..n]).value, iso);
    ReadKeeps(s[n..], Feed(st, s[..n], iso), iso);
  }

  lemma LineNotEmpty(c: char, v: string)
    ensures LineText(c, v) != [] && LineText(c, v)[|LineText(c, v)| - 1] == LF
  {
  }

  lemma PrintedIsLive(r: Record, rest: string, st: Reader, iso: Calendar)
    requires Defined(r)
    ensures Live(ReadChunks(RecordText(r) + rest, st, iso))
  {
    hide ReadChunks, LineText, IntText, Live, Named;
    RecordTextParts(r, rest);
    var a, t := LineText('a', r.artist.value), LineText('t', r.track.value);
    var more := FieldText('b', r.album) + (FieldText('n', r.number) + (FieldText('m', r.mbid) +
                (FieldText('i', r.time) + (LineText('l', IntText(r.length)) +
                (FieldText('o', SourceText(r.source)) + ([LF] + rest))))));
    assert RecordText(r) + rest == a + (t + more);
    LineNotEmpty('a', r.artist.value);
    LineNotEmpty('t', r.track.value);
    ReadsConcat(a, t + more, st, iso);
    LineKeeps('a', r.artist.value, st, iso);
    var x := ReadChunks(a, st, iso);
    ReadsConcat(t, more, x, iso);
    LineKeeps('t', r.track.value, x, iso);
    ReadKeeps(more, ReadChunks(t, x, iso), iso);
  }

  /** However long or odd the values are, a journal of complete records is empty only when the
      queue was. */
  lemma StoredIsThere(queue: seq<Record>, iso: Calendar)
    requires forall r :: r in queue ==> Defined(r)
    ensures ReadJournal(JournalText(queue), iso) == [] <==> queue == []
  {
    hide RecordText, ReadChunks;
    if queue == [] {
      ReadsNothing(Reader([], CLEARED), iso);
    } else {
      assert queue[0] in queue;
      PrintedIsLive(queue[0], JournalText(queue[1..]), Reader([], CLEARED), iso);
    }
  }

  // ------------------------------------------------------------------ sessions

  datatype Op = Load(path: string) | Save(path: string, queue: seq<Record>, canOpen: bool)

  function Perform(f: Files, op: Op, iso: Calendar): Files {
    match op
    case Load(path) => f.Load(path, iso)
    case Save(path, queue, canOpen) => f.Save(path, queue, canOpen)
  }

  /** The files after a session of loads and saves. */
  function After(f: Files, ops: seq<Op>, iso: Calendar): Files {
    if ops == [] then f else Perform(After(f, ops[..|ops| - 1], iso), ops[|ops| - 1], iso)
  }

  /** A session whose loads are over: scrobblers save, to one path or several. */
  predicate SavesOnly(ops: seq<Op>) {
    forall op :: op in ops ==> op.Save? && forall r :: r in op.queue ==> Defined(r)
  }

  /** The queue of the last save of a path that found its file. */
  function LastSaved(path: string, ops: seq<Op>): Option<seq<Record>> {
    if ops == [] then None
    else
      var op := ops[|ops| - 1];
      if op.Save? && op.path == path && op.canOpen then Some(op.queue) else LastSaved(path, ops[..|ops| - 1])
  }

  /** Some save of the path stored a record, or the file held one before. */
  predicate HeldRecords(f: Files, path: string, ops: seq<Op>, iso: Calendar) {
    || f.Stored(path, iso) != []
    || exists op :: op in ops && op.Save? && op.path == path && op.canOpen && op.queue != []
  }

  lemma {:induction false} HeldMore(f: Files, path: string, ops: seq<Op>, iso: Calendar)
    requires ops != []
    ensures var op := ops[|ops| - 1];
            HeldRecords(f, path, ops, iso) <==>
              || HeldRecords(f, path, ops[..|ops| - 1], iso)
              || (op.Save? && op.path == path && op.canOpen && op.queue != [])
  {
    var n := |ops| - 1;
    assert forall op :: op in ops <==> op in ops[..n] || op == ops[n];
  }

  lemma SavedStored(f: Files, path: string, queue: seq<Record>, canOpen: bool, other: string, iso: Calendar)
    ensures var g := f.Save(path, queue, canOpen);
            && g.fileEmpty == f.fileEmpty
            && g.Stored(other, iso) == if other == path && canOpen && (queue != [] || !f.fileEmpty)
                                       then ReadJournal(JournalText(queue), iso) else f.Stored(other, iso)
  {
    hide ReadJournal, JournalText;
  }

  lemma {:induction false} SavesStore(f: Files, path: string, ops: seq<Op>, iso: Calendar)
    requires SavesOnly(ops)
    ensures var g := After(f, ops, iso);
            && g.fileEmpty == f.fileEmpty
            && (LastSaved(path, ops).None? ==> g.Stored(path, iso) == f.Stored(path, iso))
            && (LastSaved(path, ops).Some? && (LastSaved(path, ops).value != [] || !f.fileEmpty) ==>
                  g.Stored(path, iso) == ReadJournal(JournalText(LastSaved(path, ops).value), iso))
            && (f.fileEmpty ==> (g.Stored(path, iso) != [] <==> HeldRecords(f, path, ops, iso)))
  {
    hide Defined, ReadJournal, JournalText;
    if ops != [] {
      var n := |ops| - 1;
      var op := ops[n];
      assert op in ops;
      SavesStore(f, path, ops[..n], iso);
      HeldMore(f, path, ops, iso);
      SavedStored(After(f, ops[..n], iso), op.path, op.queue, op.canOpen, path, iso);
      StoredIsThere(op.queue, iso);
    }
  }

  /** Over any sequence of saves of complete records, to this path and to others, some of which
      fail: the file holds what the queue saved last is printed as, if and only if that queue is
      not empty, or the flag is clear, or the file has never held a record. It then holds the
      queue itself if and only if its records are tidy and fit. */
  lemma SavesAgreeExactly(f: Files, path: string, ops: seq<Op>, iso: Calendar)
    requires SavesOnly(ops) && LastSaved(path, ops).Some?
    requires forall r :: r in LastSaved(path, ops).value ==> InInt(r.length)
    ensures var queue := LastSaved(path, ops).value;
            var saved := queue != [] || !f.fileEmpty || !HeldRecords(f, path, ops, iso);
            var stored := After(f, ops, iso).Stored(path, iso);
            && (stored == ReadJournal(JournalText(queue), iso) <==> saved)
            && (stored == queue <==> saved && forall r :: r in queue ==> TidyRecord(r, iso) && FitsRecord(r))
  {
    hide Defined, ReadJournal, JournalText, TidyRecord, FitsRecord, HeldRecords;
    var queue := LastSaved(path, ops).value;
    SavesStore(f, path, ops, iso);
    LastSavedDefined(path, ops);
    StoredIsThere(queue, iso);
    JournalRoundTrip(queue, iso);
  }

  lemma {:induction false} LastSavedDefined(path: string, ops: seq<Op>)
    requires SavesOnly(ops) && LastSaved(path, ops).Some?
    ensures forall r :: r in LastSaved(path, ops).value ==> Defined(r)
  {
    hide Defined;
    var op := ops[|ops| - 1];
    assert op in ops;
    if !(op.path == path && op.canOpen) {
      LastSavedDefined(path, ops[..|ops| - 1]);
    }
  }

  /** The flag is that of the journal that was loaded last, whichever scrobbler it belongs to. */
  lemma FlagIsTheLastLoaded(f: Files, ops: seq<Op>, path: string, saves: seq<Op>, iso: Calendar)
    requires SavesOnly(saves)
    ensures var before := After(f, ops, iso);
            After(f, ops + [Load(path)] + saves, iso).fileEmpty <==> before.Stored(path, iso) == []
  {
    var loaded := ops + [Load(path)];
    assert loaded[..|ops|] == ops;
    AfterConcat(f, loaded, saves, iso);
    SavesStore(After(f, loaded, iso), path, saves, iso);
  }

  lemma {:induction false} AfterConcat(f: Files, a: seq<Op>, b: seq<Op>, iso: Calendar)
    ensures After(f, a + b, iso) == After(After(f, a, iso), b, iso)
    decreases |b|
  {
    if b == [] {
      assert a + b == a;
    } else {
      var n := |b| - 1;
      assert (a + b)[..|a + b| - 1] == a + b[..n];
      AfterConcat(f, a, b[..n], iso);
    }
  }

  /** A session that loses the last save: the journal starts empty, a record is saved and then
      accepted, and the file keeps it. */
  lemma AcceptedSongsComeBack(path: string, r: Record, iso: Calendar)
    requires Defined(r)
    ensures var ops := [Load(path)] + [Save(path, [r], true), Save(path, [], true)];
            var stored := After(Files(false, map[]), ops, iso).Stored(path, iso);
            stored == ReadJournal(JournalText([r]), iso) && stored != []
  {
    hide ReadJournal, JournalText, Defined;
    var f := Files(false, map[]);
    var saves := [Save(path, [r], true), Save(path, [], true)];
    assert [Load(path)][..0] == [];
    AfterConcat(f, [Load(path)], saves, iso);
    var g := After(f, [Load(path)], iso);
    assert g == f.Load(path, iso);
    assert saves[..1] == [saves[0]] && [saves[0]][..0] == [];
    assert After(g, saves, iso) == After(g, [saves[0]], iso).Save(path, [], true);
    assert After(g, [saves[0]], iso) == g.Save(path, [r], true);
    SavedStored(g, path, [r], true, path, iso);
    SavedStored(g.Save(path, [r], true), path, [], true, path, iso);
    StoredIsThere([r], iso);
  }

  lemma SavedAfterLoads(f: Files, loads: seq<Op>, path: string, iso: Calendar)
    ensures After(f, loads + [Save(path, [], true)], iso) == After(f, loads, iso).Save(path, [], true)
  {
    assert (loads + [Save(path, [], true)])[..|loads|] == loads;
  }

  lemma TwoLoads(f: Files, first: string, second: string, iso: Calendar)
    ensures After(f, [Load(first), Load(second)], iso) == f.(fileEmpty := f.Stored(second, iso) == [])
  {
    hide ReadJournal;
    assert [Load(first), Load(second)][..1] == [Load(first)] && [Load(first)][..0] == [];
    assert After(f, [], iso) == f;
    assert After(f, [Load(first)], iso) == f.Load(first, iso);
  }

  /** Another scrobbler that starts later with an empty journal has the same effect on one that
      started with records: its emptied queue is not saved. In the other order it is. */
  lemma OtherJournalDecides(path: string, other: string, queue: seq<Record>, iso: Calendar)
    requires path != other && queue != [] && forall r :: r in queue ==> Defined(r)
    ensures var f := Files(false, map[path := JournalText(queue)]);
            var save := [Save(path, [], true)];
            var kept := After(f, [Load(path), Load(other)] + save, iso).Stored(path, iso);
            && kept == ReadJournal(JournalText(queue), iso) && kept != []
            && After(f, [Load(other), Load(path)] + save, iso).Stored(path, iso) == []
  {
    hide ReadJournal, JournalText, Defined, After;
    var f := Files(false, map[path := JournalText(queue)]);
    StoredIsThere(queue, iso);
    StoredIsThere([], iso);
    TwoLoads(f, path, other, iso);
    TwoLoads(f, other, path, iso);
    SavedAfterLoads(f, [Load(path), Load(other)], path, iso);
    SavedAfterLoads(f, [Load(other), Load(path)], path, iso);
  }
}
