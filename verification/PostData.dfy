/** The bodies of the submission protocol's POST requests: `add_var_internal`, and the form
    reader a server would use on them. */
module PostData {
  import opened Text
  import opened Records

  datatype Field = Field(key: string, index: Option<nat>, value: Option<string>)

  predicate Unreserved(c: char) {
    IsAlpha(c) || IsDigit(c) || c == '-' || c == '.' || c == '_' || c == '~'
  }

  function HexDigit(d: nat): (c: char)
    requires d < 16
    ensures HexValue(c) == Some(d)
    ensures c != '&' && c != '='
  {
    if d < 10 then Digit(d) else 'A' + (d - 10) as char
  }

  function EscapeByte(c: char): (r: string)
    ensures '&' !in r && '=' !in r
  {
    if Unreserved(c) then [c]
    else ['%', HexDigit(c as int % 256 / 16), HexDigit(c as int % 16)]
  }

  /** `http_client_uri_escape`: everything but the unreserved characters becomes `%XX`. */
  function UriEscape(s: string): (r: string)
    ensures '&' !in r && '=' !in r
  {
    if s == [] then [] else EscapeByte(s[0]) + UriEscape(s[1..])
  }

  function FieldName(f: Field): string {
    f.key + if f.index.Some? then "[" + IntText(f.index.value) + "]" else []
  }

  /** `add_var_internal`: a NULL value prints as nothing. */
  function FieldText(sep: char, f: Field): string {
    [sep] + FieldName(f) + "=" + if f.value.Some? then UriEscape(f.value.value) else []
  }

  function Body(fields: seq<Field>): string {
    if fields == [] then [] else FieldText('&', fields[0]) + Body(fields[1..])
  }

  lemma {:induction false} BodyAppend(a: seq<Field>, b: seq<Field>)
    ensures Body(a + b) == Body(a) + Body(b)
  {
    if a == [] {
      assert a + b == b;
    } else {
      assert (a + b)[1..] == a[1..] + b;
      BodyAppend(a[1..], b);
    }
  }

  /** The nine variables of one song of a batch. */
  function RecordFields(r: Record, i: nat): seq<Field> {
    [Field("a", Some(i), r.artist), Field("t", Some(i), r.track),
     Field("l", Some(i), Some(IntText(r.length))), Field("i", Some(i), r.time),
     Field("o", Some(i), SourceText(r.source)), Field("r", Some(i), Some("")),
     Field("b", Some(i), r.album), Field("n", Some(i), r.number), Field("m", Some(i), r.mbid)]
  }

  function BatchFields(session: Option<string>, records: seq<Record>): seq<Field> {
    if records == [] then [Field("s", None, session)]
    else
      var last := |records| - 1;
      BatchFields(session, records[..last]) + RecordFields(records[last], last)
  }

  function NowPlayingFields(session: Option<string>, r: Record): seq<Field> {
    [Field("s", None, session), Field("a", None, r.artist), Field("t", None, r.track),
     Field("b", None, r.album), Field("l", None, Some(IntText(r.length))),
     Field("n", None, r.number), Field("m", None, r.mbid)]
  }

  // ------------------------------------------------------------- reading back

  datatype Pair = Pair(name: string, value: string)

  function HexValue(c: char): Option<nat> {
    if IsDigit(c) then Some(DigitValue(c))
    else if 'A' <= c <= 'F' then Some(c as int - 'A' as int + 10)
    else None
  }

  function HexByte(hi: char, lo: char): Option<char> {
    match (HexValue(hi), HexValue(lo))
    case (Some(h), Some(l)) => Some(((16 * h + l) % 256) as char)
    case _ => None
  }

  function UriUnescape(s: string): string {
    if s == [] then []
    else if s[0] == '%' && |s| >= 3 && HexByte(s[1], s[2]).Some? then
      [HexByte(s[1], s[2]).value] + UriUnescape(s[3..])
    else [s[0]] + UriUnescape(s[1..])
  }

  function ReadPair(piece: string): Pair {
    var i := IndexOf(piece, '=');
    Pair(piece[..i], if i < |piece| then UriUnescape(piece[i + 1..]) else [])
  }

  function ReadPairs(pieces: seq<string>): seq<Pair> {
    if pieces == [] then [] else [ReadPair(pieces[0])] + ReadPairs(pieces[1..])
  }

  /** How a server reads a form body: `&` separates variables, the first `=` ends the name. */
  function ReadForm(body: string): seq<Pair> {
    ReadPairs(Split(body, '&')[1..])
  }

  function FieldPairs(fields: seq<Field>): seq<Pair> {
    if fields == [] then []
    else [Pair(FieldName(fields[0]), fields[0].value.GetOr(""))] + FieldPairs(fields[1..])
  }

  predicate Bytes(s: string) {
    forall k :: 0 <= k < |s| ==> s[k] as int < 256
  }

  predicate CleanField(f: Field) {
    '&' !in f.key && '=' !in f.key && (f.value.Some? ==> Bytes(f.value.value))
  }

  lemma HexByteOfByte(c: char)
    requires c as int < 256
    ensures HexByte(HexDigit(c as int % 256 / 16), HexDigit(c as int % 16)) == Some(c)
  {
    hide HexDigit, HexValue;
    var n := c as int;
    var h, l := n / 16, n % 16;
    assert n % 256 == n && 16 * h + l == n;
    assert HexValue(HexDigit(h)) == Some(h) && HexValue(HexDigit(l)) == Some(l);
    assert (16 * h + l) as char == c;
  }

  lemma UnescapeByte(c: char, rest: string)
    requires c as int < 256
    ensures UriUnescape(EscapeByte(c) + rest) == [c] + UriUnescape(rest)
  {
    var s := EscapeByte(c) + rest;
    if Unreserved(c) {
      assert s[0] == c && s[1..] == rest;
    } else {
      HexByteOfByte(c);
      assert s[0] == '%' && HexByte(s[1], s[2]) == Some(c);
      assert s[3..] == rest;
    }
  }

  lemma {:induction false} UnescapeInvertsEscape(s: string)
    requires Bytes(s)
    ensures UriUnescape(UriEscape(s)) == s
  {
    if s != [] {
      UnescapeByte(s[0], UriEscape(s[1..]));
      UnescapeInvertsEscape(s[1..]);
    }
  }

  /** Letters, digits and four marks go as they are, every other byte as a percent sign and two
      upper-case hexadecimal digits. */
  lemma EscapeExactly(c: char)
    requires c as int < 256
    ensures var plain := 'a' <= c <= 'z' || 'A' <= c <= 'Z' || '0' <= c <= '9'
                         || c == '-' || c == '.' || c == '_' || c == '~';
            var hex := "0123456789ABCDEF";
            UriEscape([c]) == if plain then [c] else ['%', hex[c as int / 16], hex[c as int % 16]]
  {
    hide UriEscape, HexDigit, HexValue;
    EscapeOne(c);
    assert c as int % 256 == c as int;
    HexDigitExactly(c as int / 16);
    HexDigitExactly(c as int % 16);
  }

  lemma EscapeOne(c: char)
    ensures UriEscape([c]) == EscapeByte(c)
  {
    assert [c][1..] == [];
  }

  lemma HexDigitExactly(d: nat)
    requires d < 16
    ensures HexDigit(d) == "0123456789ABCDEF"[d]
  {
  }

  lemma ReadsPiece(name: string, value: string)
    requires '=' !in name
    ensures ReadPair(name + "=" + value) == Pair(name, UriUnescape(value))
  {
    var piece := name + "=" + value;
    IndexOfUnique(piece, '=', |name|);
    assert piece[..|name|] == name && piece[|name| + 1..] == value;
  }

  lemma NameClean(f: Field)
    requires CleanField(f)
    ensures '&' !in FieldName(f) && '=' !in FieldName(f)
  {
    if f.index.Some? {
      IntTextClean(f.index.value);
    }
  }

  lemma ReadsField(f: Field)
    requires CleanField(f)
    ensures '&' !in FieldText('&', f)[1..]
    ensures ReadPair(FieldText('&', f)[1..]) == Pair(FieldName(f), f.value.GetOr(""))
  {
    NameClean(f);
    var value := if f.value.Some? then UriEscape(f.value.value) else [];
    assert FieldText('&', f)[1..] == FieldName(f) + "=" + value;
    ReadsPiece(FieldName(f), value);
    if f.value.Some? {
      UnescapeInvertsEscape(f.value.value);
    }
  }

  lemma SplitStep(pre: string, piece: string, tail: string)
    requires '&' !in pre
    ensures Split(pre + (['&'] + piece + tail), '&')[0] == pre
    ensures Split(pre + (['&'] + piece + tail), '&')[1..] == Split(piece + tail, '&')
  {
    SplitFirst(pre, piece + tail, '&');
    assert pre + (['&'] + piece + tail) == pre + ['&'] + (piece + tail);
  }

  lemma {:induction false} SplitBody(pre: string, fields: seq<Field>)
    requires '&' !in pre
    requires forall f :: f in fields ==> CleanField(f)
    ensures Split(pre + Body(fields), '&')[0] == pre
    ensures ReadPairs(Split(pre + Body(fields), '&')[1..]) == FieldPairs(fields)
    decreases fields
  {
    if fields == [] {
      assert pre + Body(fields) == pre;
      SplitLast(pre, '&');
    } else {
      var piece := FieldText('&', fields[0])[1..];
      var tail := Body(fields[1..]);
      assert Body(fields) == ['&'] + piece + tail;
      SplitStep(pre, piece, tail);
      ReadsField(fields[0]);
      SplitBody(piece, fields[1..]);
    }
  }

  /** Whatever bytes the tags hold, a server splitting the body on `&` and `=` and undoing the
      percent escapes sees exactly the variables that were added, in order. */
  lemma BodyRoundTrip(fields: seq<Field>)
    requires forall f :: f in fields ==> CleanField(f)
    ensures ReadForm(Body(fields)) == FieldPairs(fields)
  {
    SplitBody([], fields);
    assert [] + Body(fields) == Body(fields);
  }
}
