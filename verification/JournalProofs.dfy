/** Reading a journal back: the round trip, the normal form of any file, and the limits. */
module JournalProofs {
  import opened Text
  import opened Records
  import opened Journal

  /** The longest value that survives: with its key and separator it just fills the buffer. */
  const MAX_VALUE: nat := 1019

  /** A value that can stand in one line of text. */
  predicate Plain(v: string) {
    NUL !in v && LF !in v
  }

  /** A value as the reader produces it. */
  predicate Tidy(v: string) {
    Stripped(v) && Plain(v)
  }

  predicate PlainField(v: Option<string>) {
    v.Some? ==> Plain(v.value)
  }

  predicate TidyField(v: Option<string>) {
    v.Some? ==> Tidy(v.value)
  }

  predicate FieldWithin(v: Option<string>, k: nat) {
    v.Some? ==> |v.value| <= k
  }

  predicate FitsField(v: Option<string>) {
    FieldWithin(v, MAX_VALUE)
  }

  /** A time stamp that reading leaves as it is: not legacy, or not convertible. */
  predicate Settled(iso: Calendar, time: Option<string>) {
    time.Some? ==> ParseTimestamp(iso, time.value) == time.value
  }

  predicate TidyRecord(r: Record, iso: Calendar) {
    && TidyField(r.artist) && TidyField(r.track) && TidyField(r.album)
    && TidyField(r.number) && TidyField(r.mbid) && TidyField(r.time)
    && r.source != NoSource && Settled(iso, r.time)
  }

  predicate RecordWithin(r: Record, k: nat) {
    && FieldWithin(r.artist, k) && FieldWithin(r.track, k) && FieldWithin(r.album, k)
    && FieldWithin(r.number, k) && FieldWithin(r.mbid, k) && FieldWithin(r.time, k)
  }

  predicate FitsRecord(r: Record) {
    RecordWithin(r, MAX_VALUE) && InInt(r.length)
  }

  predicate PlainRecord(r: Record) {
    && PlainField(r.artist) && PlainField(r.track) && PlainField(r.album)
    && PlainField(r.number) && PlainField(r.mbid) && PlainField(r.time)
    && r.source != NoSource
  }

  predicate Printable(r: Record) {
    Defined(r) && PlainRecord(r) && FitsRecord(r)
  }

  /** What a field comes back as. */
  function NormalField(v: Option<string>): Option<string> {
    if v.Some? then Some(Strip(v.value)) else None
  }

  function NormalTime(v: Option<string>, iso: Calendar): Option<string> {
    if v.Some? then Some(ParseTimestamp(iso, Strip(v.value))) else None
  }

  /** What a record comes back as: every value without the white space around it, a legacy time
      stamp converted. */
  function Normal(r: Record, iso: Calendar): Record {
    Record(NormalField(r.artist), NormalField(r.track), NormalField(r.album), NormalField(r.number),
           NormalField(r.mbid), NormalTime(r.time, iso), r.length, r.source)
  }

  function Normals(queue: seq<Record>, iso: Calendar): (r: seq<Record>)
    ensures |r| == |queue|
    ensures forall i :: 0 <= i < |queue| ==> r[i] == Normal(queue[i], iso)
  {
    if queue == [] then [] else [Normal(queue[0], iso)] + Normals(queue[1..], iso)
  }

  // ------------------------------------------------------------------ one line

  predicate FieldKey(c: char) {
    IsAlpha(c)
  }

  lemma CStringOfClean(s: string)
    requires NUL !in s
    ensures CString(s) == s
  {
    IndexOfUnique(s, NUL, |s|);
  }

  predicate Blank(s: string) {
    forall k :: 0 <= k < |s| ==> IsSpace(s[k])
  }

  lemma StripAround(pre: string, v: string, post: string)
    requires Blank(pre) && Blank(post)
    ensures Strip(pre + v + post) == Strip(v)
  {
    hide *;
    var a, b := StripParts(v);
    BlankAppend(pre, a);
    BlankAppend(b, post);
    Regroup(pre, a, Strip(v), b, post);
    BlankStripped(pre + a, Strip(v), b + post);
  }

  lemma StripParts(v: string) returns (a: string, b: string)
    ensures Blank(a) && Blank(b) && v == a + Strip(v) + b
  {
    var n := LeadingSpaces(v);
    var t := v[n..];
    var m := TrimmedLength(t);
    a, b := v[..n], t[m..];
    assert Strip(v) == t[..m];
  }

  lemma BlankAppend(a: string, b: string)
    requires Blank(a) && Blank(b)
    ensures Blank(a + b)
  {
  }

  lemma Regroup(pre: string, a: string, s: string, b: string, post: string)
    ensures pre + (a + s + b) + post == (pre + a) + s + (b + post)
  {
  }

  lemma BlankStripped(pre: string, s: string, post: string)
    requires Blank(pre) && Stripped(s) && Blank(post)
    ensures Strip(pre + s + post) == s
  {
    StripPadded(pre, s, post);
  }

  lemma StrippedExactly(v: string)
    ensures Strip(v) == v <==> Stripped(v)
  {
    if Stripped(v) {
      StripPadded([], v, []);
      assert [] + v + [] == v;
    }
  }

  /** A chunk that holds a key, the separator, a value and perhaps white space. */
  lemma ParsesLine(c: char, v: string, end: string)
    requires FieldKey(c) && Plain(v) && Blank(end) && NUL !in end
    ensures ParseChunk([c] + " = " + v + end) == Some(Setting([c], Strip(v)))
  {
    hide Strip, Stripped, CString;
    var s := [c] + " = " + v + end;
    CStringOfClean(s);
    LeadingSpacesUnique(s, 0);
    assert s[2] == '=' && s[0] == c && s[1] == ' ';
    IndexOfUnique(s, '=', 2);
    TrimmedLengthUnique(s[..2], 1);
    assert s[..2][..1] == [c];
    assert s[3..] == " " + v + end;
    StripAround(" ", v, end);
  }

  lemma ParsesBlank()
    ensures ParseChunk([LF]) == None
  {
    CStringOfClean([LF]);
    LeadingSpacesUnique([LF], 1);
  }

  lemma ReadsBlank(rest: string, st: Reader, iso: Calendar)
    ensures ReadChunks([LF] + rest, st, iso) == ReadChunks(rest, st, iso)
  {
    var s := [LF] + rest;
    IndexOfUnique(s, LF, 0);
    assert s[..1] == [LF] && s[1..] == rest;
    ParsesBlank();
  }

  /** A line whose value fits is one setting; at 1019 bytes the newline comes as a second,
      blank chunk. */
  lemma ReadsLine(c: char, v: string, rest: string, st: Reader, iso: Calendar)
    requires FieldKey(c) && Plain(v) && |v| <= MAX_VALUE
    ensures ReadChunks(LineText(c, v) + rest, st, iso)
            == ReadChunks(rest, Apply(st, Setting([c], Strip(v)), iso), iso)
  {
    var body := [c] + " = " + v;
    var s := LineText(c, v) + rest;
    assert s == body + [LF] + rest;
    assert s[|body|] == LF;
    IndexOfUnique(s, LF, |body|);
    if |v| < MAX_VALUE {
      assert s[..|body| + 1] == body + [LF] && s[|body| + 1..] == rest;
      ParsesLine(c, v, [LF]);
    } else {
      assert s[..|body|] == body + [] && s[|body|..] == [LF] + rest;
      ParsesLine(c, v, []);
      ReadsBlank(rest, Apply(st, Setting([c], Strip(v)), iso), iso);
    }
  }

  /** What a printed line is read as. A value of at most 1019 bytes is one setting. Of a longer
      one the first 1019 bytes are, and the rest is read as a line of its own. The setting has
      the value that was printed if and only if that has at most 1019 bytes and no white space
      around it. */
  lemma LineReadsExactly(c: char, v: string, rest: string, st: Reader, iso: Calendar)
    requires FieldKey(c) && Plain(v)
    ensures var kept := if |v| <= MAX_VALUE then v else v[..MAX_VALUE];
            var tail := if |v| <= MAX_VALUE then rest else v[MAX_VALUE..] + [LF] + rest;
            && ReadChunks(LineText(c, v) + rest, st, iso)
               == ReadChunks(tail, Apply(st, Setting([c], Strip(kept)), iso), iso)
            && (Strip(kept) == v <==> Stripped(v) && |v| <= MAX_VALUE)
  {
    hide Strip, Stripped, ParseChunk, ReadChunks, Apply;
    StrippedExactly(v);
    if |v| <= MAX_VALUE {
      ReadsLine(c, v, rest, st, iso);
    } else {
      var cut := v[..MAX_VALUE];
      assert |Strip(cut)| <= |cut|;
      LongLine(c, v, rest);
      ParsesLine(c, cut, []);
      var s := LineText(c, v) + rest;
      ReadsChunk(s, st, iso);
    }
  }

  lemma LongLine(c: char, v: string, rest: string)
    requires FieldKey(c) && Plain(v) && |v| > MAX_VALUE
    ensures var s := LineText(c, v) + rest;
            && s != [] && ChunkLength(s) == LINE_SIZE - 1
            && s[..LINE_SIZE - 1] == [c] + " = " + v[..MAX_VALUE] + []
            && s[LINE_SIZE - 1..] == v[MAX_VALUE..] + [LF] + rest
  {
    var body := [c] + " = " + v;
    var s := LineText(c, v) + rest;
    assert s == body + [LF] + rest && s[|body|] == LF;
    IndexOfUnique(s, LF, |body|);
  }

  lemma ReadsChunk(s: string, st: Reader, iso: Calendar)
    requires s != []
    ensures ReadChunks(s, st, iso) == ReadChunks(s[ChunkLength(s)..], Feed(st, s[..ChunkLength(s)], iso), iso)
  {
  }

  /** The rest of a long value can set another field, or the same one again. */
  lemma TailIsALine(c: char, w: string, d: char, v: string, rest: string, st: Reader, iso: Calendar)
    requires FieldKey(c) && FieldKey(d) && Plain(w) && |w| == MAX_VALUE && Plain(v) && |v| <= MAX_VALUE
    ensures ReadChunks(LineText(c, w + [d] + " = " + v) + rest, st, iso)
            == ReadChunks(rest, Apply(Apply(st, Setting([c], Strip(w)), iso), Setting([d], Strip(v)), iso), iso)
  {
    hide Strip, Stripped, ReadChunks, Apply;
    var long := w + [d] + " = " + v;
    assert long[..MAX_VALUE] == w;
    assert long[MAX_VALUE..] + [LF] + rest == LineText(d, v) + rest;
    LineReadsExactly(c, long, rest, st, iso);
    ReadsLine(d, v, rest, Apply(st, Setting([c], Strip(w)), iso), iso);
  }

  /** Any other line of a file: white space before and around the key does not matter, comments,
      lines without an equals sign and lines that start with one say nothing. */
  lemma SettingsExactly(gap: string, key: string, gap2: string, value: string)
    requires Blank(gap) && Blank(gap2) && Stripped(key) && '=' !in key
    requires NUL !in gap + key + gap2 + "=" + value
    ensures var x := ParseChunk(gap + (key + gap2 + "=" + value));
            x == if key == "" || key[0] == '#' then None else Some(Setting(key, Strip(value)))
    ensures key != "" ==> ParseChunk(gap + (key + gap2)) == None
  {
    hide Strip, CString;
    var line := key + gap2 + "=" + value;
    assert gap + line == gap + key + gap2 + "=" + value;
    CStringOfClean(gap + line);
    if key != "" {
      SettingOf(gap, key, gap2, value);
      NoSetting(gap, key, gap2);
    } else {
      BlankKey(gap, gap2, value);
    }
  }

  lemma SettingOf(gap: string, key: string, gap2: string, value: string)
    requires Blank(gap) && Blank(gap2) && Stripped(key) && '=' !in key && key != ""
    requires CString(gap + (key + gap2 + "=" + value)) == gap + (key + gap2 + "=" + value)
    ensures ParseChunk(gap + (key + gap2 + "=" + value))
            == if key[0] == '#' then None else Some(Setting(key, Strip(value)))
  {
    hide Strip, CString;
    var line := key + gap2 + "=" + value;
    assert line[0] == key[0];
    ChugGap(gap, line);
    var i := |key| + |gap2|;
    assert line[i] == '=' && line[..i] == key + gap2 && line[i + 1..] == value;
    assert forall k :: 0 <= k < |gap2| ==> gap2[k] != '=';
    assert forall k :: 0 <= k < i ==> line[k] == (key + gap2)[k];
    IndexOfUnique(line, '=', i);
    TrimmedLengthUnique(key + gap2, |key|);
    assert (key + gap2)[..|key|] == key;
  }

  lemma NoSetting(gap: string, key: string, gap2: string)
    requires Blank(gap) && Blank(gap2) && Stripped(key) && '=' !in key && key != "" && NUL !in gap + key + gap2
    ensures ParseChunk(gap + (key + gap2)) == None
  {
    hide Strip, CString;
    var line := key + gap2;
    assert gap + line == gap + key + gap2;
    CStringOfClean(gap + line);
    assert line[0] == key[0];
    ChugGap(gap, line);
    assert forall k :: 0 <= k < |gap2| ==> gap2[k] != '=';
    IndexOfUnique(line, '=', |line|);
  }

  lemma BlankKey(gap: string, gap2: string, value: string)
    requires Blank(gap) && Blank(gap2)
    requires CString(gap + ("" + gap2 + "=" + value)) == gap + ("" + gap2 + "=" + value)
    ensures ParseChunk(gap + ("" + gap2 + "=" + value)) == None
  {
    hide Strip, CString;
    var line := "=" + value;
    BlankAppend(gap, gap2);
    assert gap + ("" + gap2 + "=" + value) == (gap + gap2) + line;
    ChugGap(gap + gap2, line);
    IndexOfUnique(line, '=', 0);
  }

  /** A legacy time stamp is a date, a blank and a time: the calendar is asked for the two with
      a T between them. Every other time stamp stays as it is. */
  lemma TimestampExactly(iso: Calendar, date: string, time: string, other: string)
    requires |date| == 10 && (|other| <= 10 || other[10] != ' ')
    ensures ParseTimestamp(iso, date + " " + time) ==
              if iso(date + "T" + time).Some? then IntText(iso(date + "T" + time).value) else date + " " + time
    ensures ParseTimestamp(iso, other) == other
  {
    hide IntText;
    var p := date + " " + time;
    assert p[10] == ' ' && p[10 := 'T'] == date + "T" + time;
  }

  /** Keys without a meaning change nothing, and only a source that starts with R is one. */
  lemma OtherSettings(r: Record, x: Setting, iso: Calendar)
    ensures x.key !in ["a", "t", "b", "n", "m", "i", "l", "o"] ==> Set(r, x, iso) == r
    ensures x.key == "o" ==> Set(r, x, iso) == if x.value != "" && x.value[0] == 'R' then r.(source := Radio) else r
    ensures x.key == "l" ==> Set(r, x, iso) == r.(length := Atoi(x.value))
  {
    hide ParseTimestamp;
  }

  /** What a journal looks like, for a song of the player and for one from the radio that only
      has an artist and a track. */
  lemma RecordSpelled(artist: string, track: string, album: string, number: string, mbid: string, time: string,
                      length: int)
    ensures RecordText(Record(Some(artist), Some(track), Some(album), Some(number), Some(mbid), Some(time),
                              length, Player))
            == ("a = " + artist + "\n") + (("t = " + track + "\n") + (("b = " + album + "\n")
               + (("n = " + number + "\n") + (("m = " + mbid + "\n") + (("i = " + time + "\n")
               + (("l = " + IntText(length) + "\n") + ("o = P\n" + "\n")))))))
    ensures RecordText(Record(Some(artist), Some(track), None, None, None, None, length, Radio))
            == ("a = " + artist + "\n") + (("t = " + track + "\n")
               + (("l = " + IntText(length) + "\n") + ("o = R\n" + "\n")))
  {
    hide IntText;
    LineSpelled('a', artist);
    LineSpelled('t', track);
    LineSpelled('b', album);
    LineSpelled('n', number);
    LineSpelled('m', mbid);
    LineSpelled('i', time);
    LineSpelled('l', IntText(length));
    hide LineText;
    SourceSpelled();
    var tail := LineText('l', IntText(length)) + (FieldText('o', Some("R")) + [LF]);
    assert [] + tail == tail;
  }

  lemma LineSpelled(c: char, v: string)
    ensures LineText(c, v) == [c, ' ', '=', ' '] + v + "\n"
  {
  }

  lemma SourceSpelled()
    ensures LineText('o', "P") == "o = P\n" && LineText('o', "R") == "o = R\n"
  {
  }

  // ---------------------------------------------------------------- one record

  function SetIf(st: Reader, c: char, v: Option<string>, iso: Calendar): Reader {
    match v
    case None => st
    case Some(x) => Apply(st, Setting([c], Strip(x)), iso)
  }

  lemma ReadsField(c: char, v: Option<string>, rest: string, st: Reader, iso: Calendar)
    requires FieldKey(c) && PlainField(v) && FitsField(v)
    ensures ReadChunks(FieldText(c, v) + rest, st, iso) == ReadChunks(rest, SetIf(st, c, v, iso), iso)
  {
    match v
    case None => assert FieldText(c, v) + rest == rest;
    case Some(x) => ReadsLine(c, x, rest, st, iso);
  }

  lemma IntTextFits(n: int)
    requires InInt(n)
    ensures Tidy(IntText(n)) && |IntText(n)| <= MAX_VALUE
  {
    IntTextLength(n);
    IntTextClean(n);
  }

  lemma ReadsTitles(r: Record, rest: string, st: Reader, iso: Calendar)
    requires Printable(r)
    ensures ReadChunks(FieldText('a', r.artist) + (FieldText('t', r.track) + (FieldText('b', r.album) + rest)), st, iso)
            == ReadChunks(rest, Reader(Commit(st).queue,
                                       CLEARED.(artist := NormalField(r.artist), track := NormalField(r.track),
                                                album := NormalField(r.album))), iso)
  {
    hide ReadChunks, Plain, FieldText, Strip;
    var q := Commit(st).queue;
    var x := CLEARED.(artist := NormalField(r.artist));
    ReadsField('a', r.artist, FieldText('t', r.track) + (FieldText('b', r.album) + rest), st, iso);
    ReadsField('t', r.track, FieldText('b', r.album) + rest, Reader(q, x), iso);
    ReadsField('b', r.album, rest, Reader(q, x.(track := NormalField(r.track))), iso);
  }

  lemma {:induction false} ReadsIds(r: Record, rest: string, st: Reader, iso: Calendar)
    requires Printable(r)
    requires st.record.number.None? && st.record.mbid.None? && st.record.time.None?
    ensures ReadChunks(FieldText('n', r.number) + (FieldText('m', r.mbid) + (FieldText('i', r.time) + rest)), st, iso)
            == ReadChunks(rest, st.(record := st.record.(number := NormalField(r.number), mbid := NormalField(r.mbid),
                                                         time := NormalTime(r.time, iso))), iso)
  {
    hide ReadChunks, Plain, FieldText, ParseTimestamp, Strip;
    var x := st.record.(number := NormalField(r.number));
    ReadsField('n', r.number, FieldText('m', r.mbid) + (FieldText('i', r.time) + rest), st, iso);
    ReadsField('m', r.mbid, FieldText('i', r.time) + rest, st.(record := x), iso);
    ReadsField('i', r.time, rest, st.(record := x.(mbid := NormalField(r.mbid))), iso);
  }

  lemma {:induction false} ReadsNumbers(r: Record, rest: string, st: Reader, iso: Calendar)
    requires Printable(r) && st.record.source == Player
    ensures ReadChunks(LineText('l', IntText(r.length)) + (FieldText('o', SourceText(r.source)) + ([LF] + rest)),
                       st, iso)
            == ReadChunks(rest, st.(record := st.record.(length := r.length, source := r.source)), iso)
  {
    hide ReadChunks, Plain, Stripped, FieldText, IntText, Strip;
    IntTextFits(r.length);
    StrippedExactly(IntText(r.length));
    AtoiOfIntText(r.length);
    SourceTidy(r.source);
    ReadsLine('l', IntText(r.length), FieldText('o', SourceText(r.source)) + ([LF] + rest), st, iso);
    var y := st.(record := st.record.(length := r.length));
    ReadsField('o', SourceText(r.source), [LF] + rest, y, iso);
    ReadsBlank(rest, y.(record := y.record.(source := r.source)), iso);
  }

  lemma {:induction false} RecordTextParts(r: Record, rest: string)
    ensures RecordText(r) + rest ==
              FieldText('a', r.artist) + (FieldText('t', r.track) + (FieldText('b', r.album) +
              (FieldText('n', r.number) + (FieldText('m', r.mbid) + (FieldText('i', r.time) +
              (LineText('l', IntText(r.length)) + (FieldText('o', SourceText(r.source)) + ([LF] + rest))))))))
  {
    hide FieldText, IntText;
  }

  /** A printed record commits whatever was being filled and is then filled in completely. */
  lemma {:induction false} ReadsRecord(r: Record, rest: string, st: Reader, iso: Calendar)
    requires Printable(r)
    ensures ReadChunks(RecordText(r) + rest, st, iso) == ReadChunks(rest, Reader(Commit(st).queue, Normal(r, iso)), iso)
  {
    hide ReadChunks, FieldText, IntText, PlainRecord, FitsRecord, NormalField, NormalTime;
    RecordTextParts(r, rest);
    var s3 := LineText('l', IntText(r.length)) + (FieldText('o', SourceText(r.source)) + ([LF] + rest));
    var s2 := FieldText('n', r.number) + (FieldText('m', r.mbid) + (FieldText('i', r.time) + s3));
    var n := Normal(r, iso);
    var x := Reader(Commit(st).queue, CLEARED.(artist := n.artist, track := n.track, album := n.album));
    ReadsTitles(r, s2, st, iso);
    ReadsIds(r, s3, x, iso);
    ReadsNumbers(r, rest, x.(record := x.record.(number := n.number, mbid := n.mbid, time := n.time)), iso);
  }

  lemma SourceTidy(source: Source)
    ensures TidyField(SourceText(source)) && FitsField(SourceText(source))
    ensures NormalField(SourceText(source)) == SourceText(source)
  {
    if source != NoSource {
      StrippedExactly(SourceText(source).value);
    }
  }

  // -------------------------------------------------------------- whole journals

  lemma {:induction false} ReadsQueue(queue: seq<Record>, st: Reader, iso: Calendar)
    requires forall r :: r in queue ==> Printable(r)
    ensures Commit(ReadChunks(JournalText(queue), st, iso)).queue == Commit(st).queue + Normals(queue, iso)
    decreases |queue|
  {
    hide PlainRecord, FitsRecord, RecordText, ReadChunks, Normal, Commit;
    var before := Commit(st).queue;
    if queue == [] {
      ReadsNothing(st, iso);
      assert before + [] == before;
    } else {
      var r, n := queue[0], Normal(queue[0], iso);
      assert r in queue;
      ReadsRecord(r, JournalText(queue[1..]), st, iso);
      ReadsQueue(queue[1..], Reader(before, n), iso);
      CommitsNormal(before, r, iso);
      assert before + [n] + Normals(queue[1..], iso) == before + ([n] + Normals(queue[1..], iso));
    }
  }

  lemma ReadsNothing(st: Reader, iso: Calendar)
    ensures ReadChunks([], st, iso) == st
  {
  }

  lemma CommitsNormal(before: seq<Record>, r: Record, iso: Calendar)
    requires Defined(r)
    ensures Commit(Reader(before, Normal(r, iso))).queue == before + [Normal(r, iso)]
  {
  }

  lemma NormalExactly(r: Record, iso: Calendar)
    requires PlainRecord(r)
    ensures Normal(r, iso) == r <==> TidyRecord(r, iso)
  {
    hide Strip, Stripped, Plain, ParseTimestamp;
    StrippedFieldExactly(r.artist);
    StrippedFieldExactly(r.track);
    StrippedFieldExactly(r.album);
    StrippedFieldExactly(r.number);
    StrippedFieldExactly(r.mbid);
    StrippedFieldExactly(r.time);
    if r.time.Some? {
      SettlesExactly(iso, r.time.value);
    }
  }

  lemma StrippedFieldExactly(v: Option<string>)
    requires PlainField(v)
    ensures NormalField(v) == v <==> TidyField(v)
  {
    hide Strip, Stripped;
    if v.Some? {
      StrippedExactly(v.value);
    }
  }

  /** Every queue of printable records, of any length, is restored in the same order with its
      values stripped and its time stamps settled. */
  lemma {:induction false} PrintableRoundTrip(queue: seq<Record>, iso: Calendar)
    requires forall r :: r in queue ==> Printable(r)
    ensures ReadJournal(JournalText(queue), iso) == Normals(queue, iso)
  {
    hide ReadChunks, JournalText, PlainRecord, FitsRecord, Normal;
    ReadsQueue(queue, Reader([], CLEARED), iso);
  }

  lemma {:induction false} TidyRoundTrip(queue: seq<Record>, iso: Calendar)
    requires forall r :: r in queue ==> Defined(r) && TidyRecord(r, iso) && FitsRecord(r)
    ensures ReadJournal(JournalText(queue), iso) == queue
  {
    hide ReadJournal, JournalText, FitsRecord, Normal;
    forall r | r in queue
      ensures Printable(r) && Normal(r, iso) == r
    {
      NormalExactly(r, iso);
    }
    PrintableRoundTrip(queue, iso);
    var read := Normals(queue, iso);
    assert forall i :: 0 <= i < |queue| ==> queue[i] in queue && read[i] == queue[i];
  }

  // ----------------------------------------------------------------- normal form

  /** A chunk as `fgets` cuts it: a newline can only be its last byte. */
  predicate OneLine(chunk: string) {
    forall k :: 0 <= k < |chunk| - 1 ==> chunk[k] != LF
  }

  lemma StripDropsNewline(s: string)
    requires OneLine(s) && NUL !in s
    ensures Tidy(Strip(s))
  {
    var t := Chug(s);
    var d := |s| - |t|;
    assert forall k :: 0 <= k < |t| ==> t[k] == s[d + k];
    var n := TrimmedLength(t);
    assert Strip(s) == t[..n];
    assert n > 0 ==> t[n - 1] != LF;
    forall k | 0 <= k < n
      ensures t[..n][k] != LF && t[..n][k] != NUL
    {
      assert t[k] == s[d + k];
    }
  }

  lemma SliceOneLine(chunk: string, i: nat, j: nat)
    requires OneLine(chunk) && i <= j <= IndexOf(chunk, NUL)
    ensures OneLine(chunk[i..j]) && NUL !in chunk[i..j]
  {
    assert forall k :: 0 <= k < j - i ==> chunk[i..j][k] == chunk[i + k];
  }

  lemma {:induction false} ParsedTidy(chunk: string)
    requires OneLine(chunk)
    ensures ParseChunk(chunk).Some? ==> Tidy(ParseChunk(chunk).value.value)
  {
    hide OneLine, Strip, Tidy;
    var n := IndexOf(chunk, NUL);
    var line := Chug(CString(chunk));
    var d := n - |line|;
    assert line == chunk[d..n];
    var i := IndexOf(line, '=');
    if i < |line| {
      assert line[i + 1..] == chunk[d + i + 1..n];
      SliceOneLine(chunk, d + i + 1, n);
      StripDropsNewline(line[i + 1..]);
    }
  }

  lemma ChunkOneLine(s: string)
    requires s != []
    ensures OneLine(s[..ChunkLength(s)])
  {
  }

  lemma TimestampSettles(iso: Calendar, v: string)
    requires Tidy(v)
    ensures Tidy(ParseTimestamp(iso, v)) && Settled(iso, Some(ParseTimestamp(iso, v)))
  {
    if ParseTimestamp(iso, v) != v {
      var n := iso(v[10 := 'T']).value;
      IntTextClean(n);
      assert |IntText(n)| > 10 ==> IntText(n)[10] != ' ';
    }
  }

  lemma SettlesExactly(iso: Calendar, v: string)
    requires Plain(v)
    ensures ParseTimestamp(iso, Strip(v)) == v <==> Stripped(v) && ParseTimestamp(iso, v) == v
  {
    StrippedExactly(v);
    if ParseTimestamp(iso, Strip(v)) == v && !Stripped(v) {
      var n := iso(Strip(v)[10 := 'T']).value;
      IntTextClean(n);
      assert false;
    }
  }

  predicate TidyReader(st: Reader, iso: Calendar) {
    (forall r :: r in st.queue ==> Defined(r) && TidyRecord(r, iso)) && TidyRecord(st.record, iso)
  }

  lemma {:induction false} FeedTidy(st: Reader, chunk: string, iso: Calendar)
    requires OneLine(chunk) && TidyReader(st, iso)
    ensures TidyReader(Feed(st, chunk, iso), iso)
  {
    hide Strip, Tidy, ParseTimestamp;
    ParsedTidy(chunk);
    if ParseChunk(chunk).Some? {
      TimestampSettles(iso, ParseChunk(chunk).value.value);
    }
  }

  lemma {:induction false} ReadTidy(s: string, st: Reader, iso: Calendar)
    requires TidyReader(st, iso)
    ensures TidyReader(ReadChunks(s, st, iso), iso)
    decreases |s|
  {
    if s != [] {
      var n := ChunkLength(s);
      ChunkOneLine(s);
      FeedTidy(st, s[..n], iso);
      ReadTidy(s[n..], Feed(st, s[..n], iso), iso);
    }
  }

  /** Whatever bytes a file holds, the records read from it are complete and tidy: artist and
      track present, every value stripped and free of newlines, time stamps settled. */
  lemma ReadRecordsTidy(content: string, iso: Calendar)
    ensures forall r :: r in ReadJournal(content, iso) ==> Defined(r) && TidyRecord(r, iso)
  {
    ReadTidy(content, Reader([], CLEARED), iso);
  }

  // ------------------------------------------------------------------ the limits

  /** No chunk of the text holds a value of more than `k` bytes. */
  predicate ChunksWithin(s: string, k: nat)
    decreases |s|
  {
    s != [] ==>
      var n := ChunkLength(s);
      (ParseChunk(s[..n]).Some? ==> |ParseChunk(s[..n]).value.value| <= k) && ChunksWithin(s[n..], k)
  }

  predicate ReaderWithin(st: Reader, k: nat) {
    (forall r :: r in st.queue ==> RecordWithin(r, k)) && RecordWithin(st.record, k)
  }

  lemma ValueShorter(chunk: string)
    requires ParseChunk(chunk).Some?
    ensures |ParseChunk(chunk).value.value| <= |chunk| - 2
  {
    hide Strip;
    var line := Chug(CString(chunk));
    assert |Strip(line[IndexOf(line, '=') + 1..])| <= |line| - 2;
  }

  /** Whatever a text holds, a value with its key and the equals sign fits the buffer. */
  lemma {:induction false} AnyChunksWithin(s: string)
    ensures ChunksWithin(s, LINE_SIZE - 3)
    decreases |s|
  {
    hide ParseChunk;
    if s != [] {
      var n := ChunkLength(s);
      if ParseChunk(s[..n]).Some? {
        ValueShorter(s[..n]);
      }
      AnyChunksWithin(s[n..]);
    }
  }

  lemma TimestampWithin(iso: Calendar, v: string, k: nat)
    requires |v| <= k && k >= 20
    ensures |ParseTimestamp(iso, v)| <= k
  {
    hide IntText;
    if ParseTimestamp(iso, v) != v {
      IntTextLength(iso(v[10 := 'T']).value);
    }
  }

  lemma ApplyWithin(st: Reader, x: Setting, k: nat, iso: Calendar)
    requires ReaderWithin(st, k) && |x.value| <= k && k >= 20
    ensures ReaderWithin(Apply(st, x, iso), k)
  {
    hide ParseTimestamp, Atoi;
    TimestampWithin(iso, x.value, k);
  }

  lemma {:induction false} ReadWithin(s: string, st: Reader, k: nat, iso: Calendar)
    requires ChunksWithin(s, k) && ReaderWithin(st, k) && k >= 20
    ensures ReaderWithin(ReadChunks(s, st, iso), k)
    decreases |s|
  {
    hide ParseChunk, ReaderWithin, Apply;
    if s != [] {
      var n := ChunkLength(s);
      if ParseChunk(s[..n]).Some? {
        ApplyWithin(st, ParseChunk(s[..n]).value, k, iso);
      }
      ReadWithin(s[n..], Feed(st, s[..n], iso), k, iso);
    }
  }

  lemma JournalWithin(s: string, k: nat, iso: Calendar)
    requires ChunksWithin(s, k) && k >= 20
    ensures forall r :: r in ReadJournal(s, iso) ==> RecordWithin(r, k)
  {
    hide ReadChunks, ChunksWithin;
    ReadWithin(s, Reader([], CLEARED), k, iso);
  }

  lemma FirstWithin(chunk: string, rest: string, k: nat)
    requires chunk != [] && ChunkLength(chunk + rest) == |chunk| && ChunksWithin(rest, k)
    requires ParseChunk(chunk).Some? ==> |ParseChunk(chunk).value.value| <= k
    ensures ChunksWithin(chunk + rest, k)
  {
    hide ParseChunk, ChunkLength;
    assert (chunk + rest)[..|chunk|] == chunk && (chunk + rest)[|chunk|..] == rest;
  }

  lemma BlankWithin(rest: string, k: nat)
    requires ChunksWithin(rest, k)
    ensures ChunksWithin([LF] + rest, k)
  {
    hide ParseChunk, ChunksWithin;
    ParsesBlank();
    IndexOfUnique([LF] + rest, LF, 0);
    FirstWithin([LF], rest, k);
  }

  /** What is left of a value of at most 1021 bytes behind the buffer's end is too short to
      hold a long one. */
  lemma LineWithin(c: char, v: string, rest: string)
    requires FieldKey(c) && Plain(v) && |v| <= LINE_SIZE - 3 && ChunksWithin(rest, MAX_VALUE)
    ensures ChunksWithin(LineText(c, v) + rest, MAX_VALUE)
  {
    hide ParseChunk, ChunksWithin, Strip, Stripped;
    var body := [c] + " = " + v;
    var s := LineText(c, v) + rest;
    assert s == body + [LF] + rest && s[|body|] == LF;
    IndexOfUnique(s, LF, |body|);
    if |v| < MAX_VALUE {
      ParsesLine(c, v, [LF]);
      assert s == (body + [LF]) + rest;
      FirstWithin(body + [LF], rest, MAX_VALUE);
    } else {
      var cut := v[..MAX_VALUE];
      ParsesLine(c, cut, []);
      var chunk := [c] + " = " + cut + [];
      var tail := v[MAX_VALUE..] + [LF];
      TailWithin(v[MAX_VALUE..], rest);
      assert s == chunk + (tail + rest);
      FirstWithin(chunk, tail + rest, MAX_VALUE);
    }
  }

  lemma TailWithin(tail: string, rest: string)
    requires LF !in tail && |tail| < 1000 && ChunksWithin(rest, MAX_VALUE)
    ensures ChunksWithin(tail + [LF] + rest, MAX_VALUE)
  {
    hide ParseChunk, ChunksWithin;
    var chunk := tail + [LF];
    var s := chunk + rest;
    assert s[|tail|] == LF;
    IndexOfUnique(s, LF, |tail|);
    if ParseChunk(chunk).Some? {
      ValueShorter(chunk);
    }
    FirstWithin(chunk, rest, MAX_VALUE);
  }

  lemma TextWithin(c: char, v: Option<string>, rest: string)
    requires FieldKey(c) && PlainField(v) && FieldWithin(v, LINE_SIZE - 3) && ChunksWithin(rest, MAX_VALUE)
    ensures ChunksWithin(FieldText(c, v) + rest, MAX_VALUE)
  {
    hide ChunksWithin;
    if v.Some? {
      LineWithin(c, v.value, rest);
    } else {
      assert FieldText(c, v) + rest == rest;
    }
  }

  lemma PrintedRecordWithin(r: Record, rest: string)
    requires PlainRecord(r) && RecordWithin(r, LINE_SIZE - 3) && InInt(r.length) && ChunksWithin(rest, MAX_VALUE)
    ensures ChunksWithin(RecordText(r) + rest, MAX_VALUE)
  {
    hide ChunksWithin, FieldText, LineText, IntText, Plain;
    RecordTextParts(r, rest);
    IntTextFits(r.length);
    SourceTidy(r.source);
    BlankWithin(rest, MAX_VALUE);
    var s8 := FieldText('o', SourceText(r.source)) + ([LF] + rest);
    TextWithin('o', SourceText(r.source), [LF] + rest);
    var s7 := LineText('l', IntText(r.length)) + s8;
    LineWithin('l', IntText(r.length), s8);
    var s6 := FieldText('i', r.time) + s7;
    TextWithin('i', r.time, s7);
    var s5 := FieldText('m', r.mbid) + s6;
    TextWithin('m', r.mbid, s6);
    var s4 := FieldText('n', r.number) + s5;
    TextWithin('n', r.number, s5);
    var s3 := FieldText('b', r.album) + s4;
    TextWithin('b', r.album, s4);
    var s2 := FieldText('t', r.track) + s3;
    TextWithin('t', r.track, s3);
    TextWithin('a', r.artist, s2);
  }

  lemma {:induction false} PrintedQueueWithin(queue: seq<Record>)
    requires forall r :: r in queue ==> PlainRecord(r) && RecordWithin(r, LINE_SIZE - 3) && InInt(r.length)
    ensures ChunksWithin(JournalText(queue), MAX_VALUE)
    decreases |queue|
  {
    hide PlainRecord, RecordWithin, RecordText;
    if queue != [] {
      assert queue[0] in queue;
      PrintedQueueWithin(queue[1..]);
      PrintedRecordWithin(queue[0], JournalText(queue[1..]));
    }
  }

  /** A queue that comes back as itself fits: what is read has at most 1021 bytes a value, and a
      queue whose values have that many yields none of more than 1019. */
  lemma SurvivorsFit(queue: seq<Record>, iso: Calendar)
    requires forall r :: r in queue ==> InInt(r.length)
    requires ReadJournal(JournalText(queue), iso) == queue
    ensures forall r :: r in queue ==> Defined(r) && TidyRecord(r, iso) && FitsRecord(r)
  {
    hide JournalText, ReadJournal, RecordWithin, ChunksWithin;
    var text := JournalText(queue);
    ReadRecordsTidy(text, iso);
    AnyChunksWithin(text);
    JournalWithin(text, LINE_SIZE - 3, iso);
    assert forall r :: r in queue ==> PlainRecord(r);
    PrintedQueueWithin(queue);
    JournalWithin(text, MAX_VALUE, iso);
  }

  /** The journal round trip, for every queue: it comes back as itself if and only if all its
      records are complete and tidy and all their values have at most 1019 bytes. Even when
      they are not tidy, complete records with plain values of that length come back in the
      same order, stripped and settled. */
  lemma JournalRoundTrip(queue: seq<Record>, iso: Calendar)
    requires forall r :: r in queue ==> InInt(r.length)
    ensures ReadJournal(JournalText(queue), iso) == queue <==>
            forall r :: r in queue ==> Defined(r) && TidyRecord(r, iso) && FitsRecord(r)
    ensures (forall r :: r in queue ==> Printable(r)) ==>
              ReadJournal(JournalText(queue), iso) == Normals(queue, iso)
  {
    hide JournalText, ReadJournal, TidyRecord, FitsRecord, Printable;
    if ReadJournal(JournalText(queue), iso) == queue {
      SurvivorsFit(queue, iso);
    }
    if forall r :: r in queue ==> Defined(r) && TidyRecord(r, iso) && FitsRecord(r) {
      TidyRoundTrip(queue, iso);
    }
    if forall r :: r in queue ==> Printable(r) {
      PrintableRoundTrip(queue, iso);
    }
  }

  /** Reading normalises, legacy time stamps included: the records of any file come back from
      writing and reading them again if and only if their values fit, and writing and reading
      once more changes nothing. */
  lemma JournalNormalises(content: string, iso: Calendar)
    requires forall r :: r in ReadJournal(content, iso) ==> InInt(r.length)
    ensures var once := ReadJournal(content, iso);
            var twice := ReadJournal(JournalText(once), iso);
            && (twice == once <==> forall r :: r in once ==> FitsRecord(r))
            && ((forall r :: r in twice ==> InInt(r.length)) ==> ReadJournal(JournalText(twice), iso) == twice)
  {
    hide ReadJournal, JournalText, TidyRecord, RecordWithin;
    var once := ReadJournal(content, iso);
    var twice := ReadJournal(JournalText(once), iso);
    ReadRecordsTidy(content, iso);
    JournalRoundTrip(once, iso);
    RewrittenFits(content, iso);
    if forall r :: r in twice ==> InInt(r.length) {
      JournalRoundTrip(twice, iso);
    }
  }

  lemma RewrittenFits(content: string, iso: Calendar)
    requires forall r :: r in ReadJournal(content, iso) ==> InInt(r.length)
    ensures var twice := ReadJournal(JournalText(ReadJournal(content, iso)), iso);
            forall r :: r in twice ==> Defined(r) && TidyRecord(r, iso) && RecordWithin(r, MAX_VALUE)
  {
    hide ReadJournal, JournalText, RecordWithin, ChunksWithin;
    var once := ReadJournal(content, iso);
    ReadRecordsTidy(content, iso);
    AnyChunksWithin(content);
    JournalWithin(content, LINE_SIZE - 3, iso);
    assert forall r :: r in once ==> PlainRecord(r);
    PrintedQueueWithin(once);
    JournalWithin(JournalText(once), MAX_VALUE, iso);
    ReadRecordsTidy(JournalText(once), iso);
  }

  /** A long value can cost a short one: when the album's bytes behind the 1019th spell a track
      line, that is the track that comes back. */
  lemma TrackIsOverwritten(artist: string, track: string, w: string, v: string, length: int, iso: Calendar)
    requires Tidy(artist) && Tidy(track) && Tidy(v) && Plain(w) && InInt(length)
    requires |artist| <= MAX_VALUE && |track| <= MAX_VALUE && |v| <= MAX_VALUE && |w| == MAX_VALUE
    ensures var r := Record(Some(artist), Some(track), Some(w + "t = " + v), None, None, None, length, Player);
            ReadJournal(JournalText([r]), iso) == [r.(track := Some(v), album := Some(Strip(w)))]
  {
    hide ReadChunks, Strip, Stripped, LineText, IntText, Tidy, Plain, Commit;
    var r := Record(Some(artist), Some(track), Some(w + "t = " + v), None, None, None, length, Player);
    OneRecordText(r);
    RecordTextParts(r, []);
    var s2 := FieldText('n', None) + (FieldText('m', None) + (FieldText('i', None) +
              (LineText('l', IntText(length)) + (FieldText('o', SourceText(Player)) + ([LF] + [])))));
    OverwrittenTitles(artist, track, w, v, s2, iso);
    var x := Reader([], CLEARED.(artist := Some(artist), track := Some(v), album := Some(Strip(w))));
    var q := Record(Some(artist), Some(v), Some(v), None, None, None, length, Player);
    PlainTidy(artist);
    PlainTidy(v);
    ReadsNothing(x.(record := x.record.(length := length, source := Player)), iso);
    ReadsIds(q, LineText('l', IntText(length)) + (FieldText('o', SourceText(Player)) + ([LF] + [])), x, iso);
    ReadsNumbers(q, [], x, iso);
    CommitsDefined([], x.record.(length := length, source := Player));
  }

  lemma PlainTidy(v: string)
    requires Tidy(v)
    ensures Plain(v) && Stripped(v) && Strip(v) == v
  {
    StrippedExactly(v);
  }

  lemma CommitsDefined(before: seq<Record>, r: Record)
    requires Defined(r)
    ensures Commit(Reader(before, r)).queue == before + [r]
  {
  }

  lemma OneRecordText(r: Record)
    ensures JournalText([r]) == RecordText(r) + []
  {
    assert [r][1..] == [];
  }

  lemma OverwrittenTitles(artist: string, track: string, w: string, v: string, rest: string, iso: Calendar)
    requires Tidy(artist) && Tidy(track) && Tidy(v) && Plain(w)
    requires |artist| <= MAX_VALUE && |track| <= MAX_VALUE && |v| <= MAX_VALUE && |w| == MAX_VALUE
    ensures ReadChunks(FieldText('a', Some(artist)) + (FieldText('t', Some(track)) +
                       (FieldText('b', Some(w + "t = " + v)) + rest)), Reader([], CLEARED), iso)
            == ReadChunks(rest, Reader([], CLEARED.(artist := Some(artist), track := Some(v),
                                                    album := Some(Strip(w)))), iso)
  {
    hide ReadChunks, Strip, Stripped, LineText, Plain;
    PlainTidy(artist);
    PlainTidy(track);
    PlainTidy(v);
    var st := Reader([], CLEARED);
    var s1 := FieldText('b', Some(w + "t = " + v)) + rest;
    ReadsLine('a', artist, FieldText('t', Some(track)) + s1, st, iso);
    ReadsLine('t', track, s1, Reader([], CLEARED.(artist := Some(artist))), iso);
    assert w + "t = " + v == w + ['t'] + " = " + v;
    TailIsALine('b', w, 't', v, rest, Reader([], CLEARED.(artist := Some(artist), track := Some(track))), iso);
  }
}
