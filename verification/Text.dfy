/** C strings and the few libc and GLib string helpers the modelled files rely on.
    A `char` stands for one byte. */
module Text {

  datatype Option<+T> = None | Some(value: T) {
    function GetOr(default: T): T {
      match this
      case Some(v) => v
      case None => default
    }
  }

  const NUL: char := '\0'
  const LF: char := '\n'

  /** `g_ascii_isspace`: space, tab, newline, form feed and carriage return, but not vertical tab. */
  predicate IsSpace(c: char) {
    c == ' ' || c == '\t' || c == '\n' || c == '\r' || c == '\U{0C}'
  }

  predicate IsDigit(c: char) {
    '0' <= c <= '9'
  }

  predicate IsAlpha(c: char) {
    'a' <= c <= 'z' || 'A' <= c <= 'Z'
  }

  /** `strchr`/`memchr`: the first position of `c` in `s`, or `|s|` when there is none. */
  function IndexOf(s: string, c: char): (i: nat)
    ensures i <= |s|
    ensures i < |s| ==> s[i] == c
    ensures forall k :: 0 <= k < i ==> s[k] != c
  {
    if s == [] || s[0] == c then 0 else 1 + IndexOf(s[1..], c)
  }

  lemma IndexOfUnique(s: string, c: char, i: nat)
    requires i <= |s|
    requires i < |s| ==> s[i] == c
    requires forall k :: 0 <= k < i ==> s[k] != c
    ensures IndexOf(s, c) == i
  {
    var j := IndexOf(s, c);
    assert j < |s| ==> s[j] == c;
    assert i < |s| ==> s[i] == c;
  }

  /** What a `char *` to the start of `s` denotes: everything before the first NUL. */
  function CString(s: string): string {
    s[..IndexOf(s, NUL)]
  }

  /** How many white-space characters `s` starts with. */
  function LeadingSpaces(s: string): (n: nat)
    ensures n <= |s|
    ensures n < |s| ==> !IsSpace(s[n])
    ensures forall k :: 0 <= k < n ==> IsSpace(s[k])
  {
    if s != [] && IsSpace(s[0]) then 1 + LeadingSpaces(s[1..]) else 0
  }

  /** The position behind the last character that is not white space. */
  function TrimmedLength(s: string): (n: nat)
    ensures n <= |s|
    ensures n > 0 ==> !IsSpace(s[n - 1])
    ensures forall k :: n <= k < |s| ==> IsSpace(s[k])
  {
    if s != [] && IsSpace(s[|s| - 1]) then TrimmedLength(s[..|s| - 1]) else |s|
  }

  /** `g_strchug`: without the leading white space. */
  function Chug(s: string): (r: string)
    ensures |r| <= |s|
  {
    s[LeadingSpaces(s)..]
  }

  /** `g_strchomp`: without the trailing white space. */
  function Chomp(s: string): string {
    s[..TrimmedLength(s)]
  }

  predicate Stripped(s: string) {
    s == [] || (!IsSpace(s[0]) && !IsSpace(s[|s| - 1]))
  }

  /** `g_strstrip`. */
  function Strip(s: string): (r: string)
    ensures Stripped(r)
    ensures |r| <= |s|
    ensures forall c :: c in r ==> c in s
  {
    Chomp(Chug(s))
  }

  lemma LeadingSpacesUnique(s: string, n: nat)
    requires n <= |s|
    requires n < |s| ==> !IsSpace(s[n])
    requires forall k :: 0 <= k < n ==> IsSpace(s[k])
    ensures LeadingSpaces(s) == n
  {
    var m := LeadingSpaces(s);
    assert m < |s| ==> !IsSpace(s[m]);
  }

  lemma TrimmedLengthUnique(s: string, n: nat)
    requires n <= |s|
    requires n > 0 ==> !IsSpace(s[n - 1])
    requires forall k :: n <= k < |s| ==> IsSpace(s[k])
    ensures TrimmedLength(s) == n
  {
    var m := TrimmedLength(s);
    assert m > 0 ==> !IsSpace(s[m - 1]);
  }

  lemma StripPadded(pre: string, s: string, post: string)
    requires Stripped(s)
    requires forall k :: 0 <= k < |pre| ==> IsSpace(pre[k])
    requires forall k :: 0 <= k < |post| ==> IsSpace(post[k])
    ensures Strip(pre + s + post) == s
  {
    var t := pre + s + post;
    if s == [] {
      LeadingSpacesUnique(t, |t|);
    } else {
      assert t[|pre|] == s[0];
      LeadingSpacesUnique(t, |pre|);
      assert Chug(t) == s + post;
      TrimmedLengthUnique(s + post, |s|);
    }
  }

  // --------------------------------------------------------------- splitting

  /** The pieces of `s` between the occurrences of `sep`, empty ones included. */
  function Split(s: string, sep: char): (r: seq<string>)
    ensures r != []
    ensures forall k :: 0 <= k < |r| ==> sep !in r[k]
  {
    var i := IndexOf(s, sep);
    if i == |s| then [s] else [s[..i]] + Split(s[i + 1..], sep)
  }

  lemma SplitFirst(piece: string, rest: string, sep: char)
    requires sep !in piece
    ensures Split(piece + [sep] + rest, sep) == [piece] + Split(rest, sep)
  {
    var s := piece + [sep] + rest;
    assert s[|piece|] == sep;
    IndexOfUnique(s, sep, |piece|);
    assert s[..|piece|] == piece && s[|piece| + 1..] == rest;
  }

  lemma SplitLast(piece: string, sep: char)
    requires sep !in piece
    ensures Split(piece, sep) == [piece]
  {
    IndexOfUnique(piece, sep, |piece|);
  }

  // ---------------------------------------------------------------- decimals

  predicate InInt(n: int) {
    -0x8000_0000 <= n < 0x8000_0000
  }

  function Digit(d: nat): (c: char)
    requires d < 10
    ensures IsDigit(c) && DigitValue(c) == d
  {
    '0' + d as char
  }

  function DigitValue(c: char): (d: nat)
    requires IsDigit(c)
    ensures d < 10
  {
    c as int - '0' as int
  }

  /** The decimal digits of `n`, as `%u` prints them. */
  function Digits(n: nat): (s: string)
    ensures s != []
    ensures forall k :: 0 <= k < |s| ==> IsDigit(s[k])
  {
    if n < 10 then [Digit(n)] else Digits(n / 10) + [Digit(n % 10)]
  }

  /** `%i`, `%d` and `%ld`. */
  function IntText(n: int): (s: string)
    ensures s != []
    ensures forall k :: 0 <= k < |s| ==> IsDigit(s[k]) || (k == 0 && s[k] == '-')
  {
    if n < 0 then "-" + Digits(-n) else Digits(n)
  }

  /** Reads digits onto `acc`; the second component is the position after the last one. */
  function ReadDigits(s: string, acc: nat): (nat, string) {
    if s != [] && IsDigit(s[0]) then ReadDigits(s[1..], 10 * acc + DigitValue(s[0])) else (acc, s)
  }

  /** A sign and digits; `whole` is what is left when there are no digits. */
  function ReadSigned(t: string, whole: string): (int, string) {
    var negative := t != [] && t[0] == '-';
    var digits := if negative || (t != [] && t[0] == '+') then t[1..] else t;
    if digits == [] || !IsDigit(digits[0]) then (0, whole)
    else
      var r := ReadDigits(digits, 0);
      (if negative then -(r.0 as int) else r.0, r.1)
  }

  /** `strtol` in base 10 on a string without leading vertical tabs: the number and what
      follows it, which is the whole string when there is no number. */
  function Strtol(s: string): (int, string) {
    ReadSigned(Chug(s), s)
  }

  function Atoi(s: string): int {
    Strtol(s).0
  }

  lemma {:induction false} ReadDigitsAppend(a: string, b: string, acc: nat)
    requires forall k :: 0 <= k < |a| ==> IsDigit(a[k])
    ensures ReadDigits(a + b, acc) == ReadDigits(b, ReadDigits(a, acc).0)
  {
    if a == [] {
      assert a + b == b;
    } else {
      assert (a + b)[1..] == a[1..] + b;
      ReadDigitsAppend(a[1..], b, 10 * acc + DigitValue(a[0]));
    }
  }

  lemma {:induction false} ReadDigitsOfDigits(n: nat)
    ensures ReadDigits(Digits(n), 0).0 == n
  {
    if n < 10 {
      assert Digits(n) == [Digit(n)];
      assert Digits(n)[1..] == [];
    } else {
      var d := [Digit(n % 10)];
      ReadDigitsOfDigits(n / 10);
      ReadDigitsAppend(Digits(n / 10), d, 0);
      assert d[1..] == [];
    }
  }

  lemma ReadDigitsBack(n: nat, rest: string)
    requires rest == [] || !IsDigit(rest[0])
    ensures ReadDigits(Digits(n) + rest, 0) == (n, rest)
  {
    ReadDigitsOfDigits(n);
    ReadDigitsAppend(Digits(n), rest, 0);
  }

  lemma ReadSignedBack(n: int, rest: string, whole: string)
    requires rest == [] || !IsDigit(rest[0])
    ensures ReadSigned(IntText(n) + rest, whole) == (n, rest)
  {
    var t := IntText(n) + rest;
    if n < 0 {
      assert t[1..] == Digits(-n) + rest;
      assert t[1..][0] == Digits(-n)[0];
      ReadDigitsBack(-n, rest);
    } else {
      assert t[0] == Digits(n)[0];
      ReadDigitsBack(n, rest);
    }
  }

  /** Reading back a printed integer gives the integer and stops right behind it. */
  lemma StrtolOfIntText(n: int, rest: string)
    requires rest == [] || !IsDigit(rest[0])
    ensures Strtol(IntText(n) + rest) == (n, rest)
  {
    var c := (IntText(n) + rest)[0];
    assert c == IntText(n)[0];
    assert !IsSpace(c);
    ReadSignedBack(n, rest, IntText(n) + rest);
  }

  lemma AtoiOfIntText(n: int)
    ensures Atoi(IntText(n)) == n
  {
    StrtolOfIntText(n, []);
    assert IntText(n) + [] == IntText(n);
  }

  /** `strtol` skips white space and takes a plus or a minus sign. */
  lemma StrtolSigned(gap: string, sign: string, n: nat, rest: string)
    requires forall k :: 0 <= k < |gap| ==> IsSpace(gap[k])
    requires sign == "" || sign == "+" || sign == "-"
    requires rest == [] || !IsDigit(rest[0])
    ensures Strtol(gap + (sign + (Digits(n) + rest))) == (if sign == "-" then 0 - n else n, rest)
  {
    hide Digits, Chug;
    var s := Digits(n) + rest;
    assert s[0] == Digits(n)[0];
    ReadDigitsBack(n, rest);
    assert sign != "" ==> (sign + s)[0] == sign[0] && (sign + s)[1..] == s;
    assert sign == "" ==> sign + s == s;
    ChugGap(gap, sign + s);
  }

  /** Without digits it takes nothing. */
  lemma StrtolNothing(gap: string, other: string)
    requires forall k :: 0 <= k < |gap| ==> IsSpace(gap[k])
    requires other == [] || !(IsSpace(other[0]) || IsDigit(other[0]) || other[0] == '-' || other[0] == '+')
    ensures Strtol(gap + other) == (0, gap + other)
  {
    hide Chug;
    ChugGap(gap, other);
  }

  lemma ChugGap(gap: string, s: string)
    requires forall k :: 0 <= k < |gap| ==> IsSpace(gap[k])
    requires s == [] || !IsSpace(s[0])
    ensures Chug(gap + s) == s
  {
    LeadingSpacesUnique(gap + s, |gap|);
  }

  function Pow2(n: nat): (p: nat)
    ensures p > 0
  {
    if n == 0 then 1 else 2 * Pow2(n - 1)
  }

  lemma {:induction false} DigitsLength(n: nat, k: nat, bound: nat)
    requires k > 0 && n < bound && bound == Pow10(k)
    ensures |Digits(n)| <= k
    decreases k
  {
    if n >= 10 {
      DigitsLength(n / 10, k - 1, Pow10(k - 1));
    }
  }

  function Pow10(k: nat): nat {
    if k == 0 then 1 else 10 * Pow10(k - 1)
  }

  /** A 64-bit number never needs more than 20 bytes. */
  lemma IntTextLength(n: int)
    requires -0x8000_0000_0000_0000 <= n < 0x8000_0000_0000_0000
    ensures |IntText(n)| <= 20
  {
    assert Pow10(19) == 10_000_000_000_000_000_000 by {
      assert Pow10(10) == 10_000_000_000;
    }
    DigitsLength(if n < 0 then -n else n, 19, Pow10(19));
  }

  lemma IntTextClean(n: int)
    ensures Stripped(IntText(n))
    ensures forall k :: 0 <= k < |IntText(n)| ==> IsDigit(IntText(n)[k]) || IntText(n)[k] == '-'
  {
  }
}
