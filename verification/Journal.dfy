/** scrobbler-journal.c: the file of records that were not submitted yet. */
module Journal {
  import opened Text
  import opened Records

  /** `sizeof(line)`. */
  const LINE_SIZE: nat := 1024

  /** The `glong` of a GTimeVal. */
  type Seconds = n: int | -0x8000_0000_0000_0000 <= n < 0x8000_0000_0000_0000

  /** `g_time_val_from_iso8601`: the seconds of a date, when it is one. */
  type Calendar = string -> Option<Seconds>

  // ------------------------------------------------------------------- writing

  /** `journal_write_string`. */
  function LineText(field: char, value: string): string {
    [field] + " = " + value + [LF]
  }

  function FieldText(field: char, value: Option<string>): string {
    match value
    case None => []
    case Some(v) => LineText(field, v)
  }

  /** `journal_write_record`. */
  function RecordText(r: Record): string {
    FieldText('a', r.artist) + (FieldText('t', r.track) + (FieldText('b', r.album) + (FieldText('n', r.number)
    + (FieldText('m', r.mbid) + (FieldText('i', r.time) + (LineText('l', IntText(r.length))
    + (FieldText('o', SourceText(r.source)) + [LF])))))))
  }

  function JournalText(queue: seq<Record>): string {
    if queue == [] then [] else RecordText(queue[0]) + JournalText(queue[1..])
  }

  // ------------------------------------------------------------------- reading

  /** How many bytes `fgets` takes: a line with its newline, or as much as fits the buffer. */
  function ChunkLength(s: string): (n: nat)
    ensures s != [] ==> 0 < n <= |s|
  {
    var i := IndexOf(s, LF);
    var n := if i < |s| then i + 1 else |s|;
    if n < LINE_SIZE then n else LINE_SIZE - 1
  }

  datatype Setting = Setting(key: string, value: string)

  /** The setting in one buffer of text: nothing for blanks, comments and lines without a key. */
  function ParseChunk(chunk: string): Option<Setting> {
    var line := Chug(CString(chunk));
    var i := IndexOf(line, '=');
    if line == [] || line[0] == '#' || i == |line| || i == 0 then None
    else Some(Setting(Chomp(line[..i]), Strip(line[i + 1..])))
  }

  /** `parse_timestamp`: a legacy time stamp is converted when the calendar can. */
  function ParseTimestamp(iso: Calendar, p: string): string {
    if |p| > 10 && p[10] == ' ' && iso(p[10 := 'T']).Some? then IntText(iso(p[10 := 'T']).value) else p
  }

  /** The loop's state: the queue so far and the record being filled. */
  datatype Reader = Reader(queue: seq<Record>, record: Record)

  /** `journal_commit_record`. */
  function Commit(st: Reader): Reader {
    Reader(if Defined(st.record) then st.queue + [st.record] else st.queue, CLEARED)
  }

  function Set(r: Record, x: Setting, iso: Calendar): Record {
    if x.key == "t" then r.(track := Some(x.value))
    else if x.key == "b" then r.(album := Some(x.value))
    else if x.key == "n" then r.(number := Some(x.value))
    else if x.key == "m" then r.(mbid := Some(x.value))
    else if x.key == "i" then r.(time := Some(ParseTimestamp(iso, x.value)))
    else if x.key == "l" then r.(length := Atoi(x.value))
    else if x.key == "o" && x.value != [] && x.value[0] == 'R' then r.(source := Radio)
    else r
  }

  /** An artist line commits the record before it; every other line adds to the record. */
  function Apply(st: Reader, x: Setting, iso: Calendar): Reader {
    if x.key == "a" then Reader(Commit(st).queue, CLEARED.(artist := Some(x.value)))
    else st.(record := Set(st.record, x, iso))
  }

  function Feed(st: Reader, chunk: string, iso: Calendar): Reader {
    match ParseChunk(chunk)
    case None => st
    case Some(x) => Apply(st, x, iso)
  }

  function ReadChunks(s: string, st: Reader, iso: Calendar): Reader
    decreases |s|
  {
    if s == [] then st
    else
      var n := ChunkLength(s);
      ReadChunks(s[n..], Feed(st, s[..n], iso), iso)
  }

  function ReadOnto(queue: seq<Record>, content: string, iso: Calendar): seq<Record> {
    Commit(ReadChunks(content, Reader(queue, CLEARED), iso)).queue
  }

  function ReadJournal(content: string, iso: Calendar): seq<Record> {
    ReadOnto([], content, iso)
  }

  // ------------------------------------------------------------ the static flag

  /** The files by their paths, and the one static flag `journal_file_empty` that all journals
      of the process share. */
  datatype Files = Files(fileEmpty: bool, disk: map<string, string>) {
    /** `journal_read` onto an empty queue, as every scrobbler calls it once when it is created. */
    function Load(path: string, iso: Calendar): Files {
      this.(fileEmpty := Stored(path, iso) == [])
    }

    /** `journal_write`: skipped when the queue is empty and the flag says the file is, too. */
    function Save(path: string, queue: seq<Record>, canOpen: bool): Files {
      if !canOpen || (queue == [] && fileEmpty) then this
      else this.(disk := disk[path := JournalText(queue)])
    }

    /** The records a start of the daemon would find. */
    function Stored(path: string, iso: Calendar): seq<Record> {
      if path in disk then ReadJournal(disk[path], iso) else []
    }
  }

  // ------------------------------------------------------------ the C functions

  class JournalStore {
    var fileEmpty: bool
    var disk: map<string, string>

    ghost function View(): Files
      reads this
    {
      Files(fileEmpty, disk)
    }

    constructor (disk: map<string, string>)
      ensures View() == Files(false, disk)
    {
      this.fileEmpty, this.disk := false, disk;
    }

    /** `journal_commit_record`. */
    method CommitRecord(st: Reader) returns (r: Reader)
      modifies this`fileEmpty
      ensures r == Commit(st)
      ensures fileEmpty == (old(fileEmpty) && r.queue == st.queue)
    {
      if Defined(st.record) {
        r := Reader(st.queue + [st.record], CLEARED);
        fileEmpty := false;
      } else {
        r := Reader(st.queue, CLEARED);
      }
    }

    /** `journal_read`. The flag ends up saying that the file held no complete record. */
    method Read(path: string, queue: seq<Record>, iso: Calendar) returns (q: seq<Record>)
      modifies this`fileEmpty
      ensures q == if path in disk then ReadOnto(queue, disk[path], iso) else queue
      ensures fileEmpty <==> q == queue
      ensures queue == [] ==> View() == old(View()).Load(path, iso) && q == View().Stored(path, iso)
    {
      fileEmpty := true;
      if path !in disk {
        return queue;
      }
      var rest := disk[path];
      var st := Reader(queue, CLEARED);
      while rest != []
        invariant ReadChunks(rest, st, iso) == ReadChunks(disk[path], Reader(queue, CLEARED), iso)
        invariant queue <= st.queue
        invariant fileEmpty <==> st.queue == queue
        decreases |rest|
      {
        var n := ChunkLength(rest);
        match ParseChunk(rest[..n]) {
          case None =>
          case Some(x) =>
            if x.key == "a" {
              st := CommitRecord(st);
              st := st.(record := st.record.(artist := Some(x.value)));
            } else {
              st := st.(record := Set(st.record, x, iso));
            }
        }
        rest := rest[n..];
      }
      st := CommitRecord(st);
      return st.queue;
    }

    /** `journal_write`. */
    method Write(path: string, queue: seq<Record>, canOpen: bool) returns (written: bool)
      modifies this`disk
      ensures View() == old(View()).Save(path, queue, canOpen)
      ensures written <==> canOpen && !(queue == [] && fileEmpty)
    {
      hide RecordText;
      if queue == [] && fileEmpty {
        return false;
      }
      if !canOpen {
        return false;
      }
      var text := [];
      for i := 0 to |queue|
        invariant text == JournalText(queue[..i])
        invariant disk == old(disk)
      {
        JournalTextAppend(queue[..i], queue[i]);
        assert queue[..i + 1] == queue[..i] + [queue[i]];
        text := text + RecordText(queue[i]);
      }
      assert queue[..|queue|] == queue;
      disk := disk[path := text];
      return true;
    }
  }

  lemma {:induction false} JournalTextAppend(queue: seq<Record>, r: Record)
    ensures JournalText(queue + [r]) == JournalText(queue) + RecordText(r)
  {
    if queue == [] {
      assert [r][1..] == [];
      assert [] + [r] == [r];
    } else {
      assert (queue + [r])[1..] == queue[1..] + [r];
      JournalTextAppend(queue[1..], r);
    }
  }
}
