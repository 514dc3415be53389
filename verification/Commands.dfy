/** The command table of stats-command.c and the binary search in it. */
module Commands {
  import opened Text

  // -------------------------------------------------------------------- strcmp

  /** `a` and `b` first differ at `k`, where `a` ends or has the smaller byte. */
  predicate LessAt(a: string, b: string, k: nat) {
    && k <= |a| && k < |b|
    && (forall i :: 0 <= i < k ==> a[i] == b[i])
    && (k == |a| || a[k] < b[k])
  }

  /** `strcmp(a, b) < 0`. */
  predicate Less(a: string, b: string) {
    exists k :: 0 <= k <= |a| && LessAt(a, b, k)
  }

  lemma LessIsStrict(a: string, b: string)
    requires Less(a, b)
    ensures a != b && !Less(b, a)
  {
    var k :| 0 <= k <= |a| && LessAt(a, b, k);
    forall j | 0 <= j <= |b|
      ensures !LessAt(b, a, j)
    {
      assert j < k && j < |b| ==> a[j] == b[j];
      assert k < j && k < |a| ==> a[k] != b[k];
    }
  }

  lemma LessTransitive(a: string, b: string, c: string)
    requires Less(a, b) && Less(b, c)
    ensures Less(a, c)
  {
    var i :| 0 <= i <= |a| && LessAt(a, b, i);
    var j :| 0 <= j <= |b| && LessAt(b, c, j);
    assert LessAt(a, c, if i < j then i else j);
  }

  // -------------------------------------------------------------- binary search

  /** The search of `command_lookup` in the rows from `a` to `b`. */
  function Search(names: seq<string>, x: string, a: nat, b: nat): (r: Option<nat>)
    requires a < b <= |names|
    ensures r.Some? ==> a <= r.value < b && names[r.value] == x
    decreases b - a
  {
    var i := (a + b) / 2;
    if x == names[i] then Some(i)
    else if Less(x, names[i]) then (if a < i then Search(names, x, a, i) else None)
    else if i + 1 < b then Search(names, x, i + 1, b) else None
  }

  /** `command_lookup`. The body runs before the bounds are compared, so the table must not be
      empty. */
  method Lookup(names: seq<string>, x: string) returns (r: Option<nat>)
    requires names != []
    ensures r == Search(names, x, 0, |names|)
  {
    var a, b := 0, |names|;
    while true
      invariant 0 <= a < b <= |names|
      invariant Search(names, x, 0, |names|) == Search(names, x, a, b)
      decreases b - a
    {
      var i := (a + b) / 2;
      if x == names[i] {
        return Some(i);
      } else if Less(x, names[i]) {
        b := i;
      } else {
        a := i + 1;
      }
      if !(a < b) {
        return None;
      }
    }
  }

  predicate SortedBetween(names: seq<string>, a: nat, b: nat)
    requires a <= b <= |names|
  {
    forall i, j :: a <= i < j < b ==> Less(names[i], names[j])
  }

  /** `x` is the name of one of the rows from `a` to `b`. */
  predicate Listed(names: seq<string>, x: string, a: nat, b: nat)
    requires a <= b <= |names|
  {
    exists k :: a <= k < b && names[k] == x
  }

  /** On sorted rows a name below a pivot is listed before it, and one above it behind it. */
  lemma PivotSplits(names: seq<string>, x: string, a: nat, b: nat, i: nat)
    requires a <= i < b <= |names| && SortedBetween(names, a, b) && x != names[i]
    ensures Listed(names, x, a, b) <==> if Less(x, names[i]) then Listed(names, x, a, i) else Listed(names, x, i + 1, b)
  {
    hide Less;
    forall k | a <= k < b && names[k] == x
      ensures if Less(x, names[i]) then k < i else i < k
    {
      LessIsStrict(names[if k < i then k else i], names[if k < i then i else k]);
    }
  }

  /** On strictly sorted rows the search finds exactly the names that are there. */
  lemma {:induction false} SearchComplete(names: seq<string>, x: string, a: nat, b: nat)
    requires a < b <= |names| && SortedBetween(names, a, b)
    ensures Search(names, x, a, b).Some? <==> Listed(names, x, a, b)
    decreases b - a
  {
    hide Less;
    var i := (a + b) / 2;
    if x != names[i] {
      PivotSplits(names, x, a, b, i);
      if Less(x, names[i]) {
        if a < i {
          SearchComplete(names, x, a, i);
        }
      } else if i + 1 < b {
        SearchComplete(names, x, i + 1, b);
      }
    }
  }

  // ------------------------------------------------------------------ the table

  const ROWS: nat := 50

  /** The names of `commands[]`, in the order of the table. */
  function NameAt(i: int): string {
    match i
    case 0 => "addtag"
    case 1 => "addtag_album"
    case 2 => "addtag_artist"
    case 3 => "addtag_genre"
    case 4 => "count"
    case 5 => "count_album"
    case 6 => "count_artist"
    case 7 => "count_genre"
    case 8 => "hate"
    case 9 => "hate_album"
    case 10 => "hate_artist"
    case 11 => "hate_genre"
    case 12 => "karma"
    case 13 => "kill"
    case 14 => "kill_album"
    case 15 => "kill_artist"
    case 16 => "kill_genre"
    case 17 => "list"
    case 18 => "list_album"
    case 19 => "list_artist"
    case 20 => "list_genre"
    case 21 => "listinfo"
    case 22 => "listinfo_album"
    case 23 => "listinfo_artist"
    case 24 => "listinfo_genre"
    case 25 => "listtags"
    case 26 => "listtags_album"
    case 27 => "listtags_artist"
    case 28 => "listtags_genre"
    case 29 => "love"
    case 30 => "love_album"
    case 31 => "love_artist"
    case 32 => "love_genre"
    case 33 => "password"
    case 34 => "rate"
    case 35 => "rate_album"
    case 36 => "rate_artist"
    case 37 => "rate_genre"
    case 38 => "rate_absolute"
    case 39 => "rate_absolute_album"
    case 40 => "rate_absolute_artist"
    case 41 => "rate_absolute_genre"
    case 42 => "rmtag"
    case 43 => "rmtag_album"
    case 44 => "rmtag_artist"
    case 45 => "rmtag_genre"
    case 46 => "unkill"
    case 47 => "unkill_album"
    case 48 => "unkill_artist"
    case _ => "unkill_genre"
  }

  /** The name column of the whole table. */
  function Names(): (names: seq<string>)
    ensures |names| == ROWS && forall i :: 0 <= i < ROWS ==> names[i] == NameAt(i)
  {
    seq(ROWS, i => NameAt(i))
  }

  /** The position in the table of the `r`-th name in strcmp order: the four rate_absolute rows
      come after rate_genre instead of after rate. */
  function AtRank(r: nat): nat {
    if 35 <= r < 39 then r + 3 else if 39 <= r < 42 then r - 4 else r
  }

  lemma Ordered0(r: nat)
    requires 0 <= r < 5
    ensures Less(NameAt(AtRank(r)), NameAt(AtRank(r + 1)))
  {
    assert LessAt("addtag", "addtag_album", 6);
    assert LessAt("addtag_album", "addtag_artist", 8);
    assert LessAt("addtag_artist", "addtag_genre", 7);
    assert LessAt("addtag_genre", "count", 0);
    assert LessAt("count", "count_album", 5);
  }

  lemma Ordered1(r: nat)
    requires 5 <= r < 10
    ensures Less(NameAt(AtRank(r)), NameAt(AtRank(r + 1)))
  {
    assert LessAt("count_album", "count_artist", 7);
    assert LessAt("count_artist", "count_genre", 6);
    assert LessAt("count_genre", "hate", 0);
    assert LessAt("hate", "hate_album", 4);
    assert LessAt("hate_album", "hate_artist", 6);
  }

  lemma Ordered2(r: nat)
    requires 10 <= r < 15
    ensures Less(NameAt(AtRank(r)), NameAt(AtRank(r + 1)))
  {
    assert LessAt("hate_artist", "hate_genre", 5);
    assert LessAt("hate_genre", "karma", 0);
    assert LessAt("karma", "kill", 1);
    assert LessAt("kill", "kill_album", 4);
    assert LessAt("kill_album", "kill_artist", 6);
  }

  lemma Ordered3(r: nat)
    requires 15 <= r < 20
    ensures Less(NameAt(AtRank(r)), NameAt(AtRank(r + 1)))
  {
    assert LessAt("kill_artist", "kill_genre", 5);
    assert LessAt("kill_genre", "list", 0);
    assert LessAt("list", "list_album", 4);
    assert LessAt("list_album", "list_artist", 6);
    assert LessAt("list_artist", "list_genre", 5);
  }

  lemma Ordered4(r: nat)
    requires 20 <= r < 25
    ensures Less(NameAt(AtRank(r)), NameAt(AtRank(r + 1)))
  {
    assert LessAt("list_genre", "listinfo", 4);
    assert LessAt("listinfo", "listinfo_album", 8);
    assert LessAt("listinfo_album", "listinfo_artist", 10);
    assert LessAt("listinfo_artist", "listinfo_genre", 9);
    assert LessAt("listinfo_genre", "listtags", 4);
  }

  lemma Ordered5(r: nat)
    requires 25 <= r < 30
    ensures Less(NameAt(AtRank(r)), NameAt(AtRank(r + 1)))
  {
    assert LessAt("listtags", "listtags_album", 8);
    assert LessAt("listtags_album", "listtags_artist", 10);
    assert LessAt("listtags_artist", "listtags_genre", 9);
    assert LessAt("listtags_genre", "love", 1);
    assert LessAt("love", "love_album", 4);
  }

  lemma Ordered6(r: nat)
    requires 30 <= r < 35
    ensures Less(NameAt(AtRank(r)), NameAt(AtRank(r + 1)))
  {
    assert LessAt("love_album", "love_artist", 6);
    assert LessAt("love_artist", "love_genre", 5);
    assert LessAt("love_genre", "password", 0);
    assert LessAt("password", "rate", 0);
    assert LessAt("rate", "rate_absolute", 4);
  }

  lemma Ordered7(r: nat)
    requires 35 <= r < 40
    ensures Less(NameAt(AtRank(r)), NameAt(AtRank(r + 1)))
  {
    assert LessAt("rate_absolute", "rate_absolute_album", 13);
    assert LessAt("rate_absolute_album", "rate_absolute_artist", 15);
    assert LessAt("rate_absolute_artist", "rate_absolute_genre", 14);
    assert LessAt("rate_absolute_genre", "rate_album", 6);
    assert LessAt("rate_album", "rate_artist", 6);
  }

  lemma Ordered8(r: nat)
    requires 40 <= r < 45
    ensures Less(NameAt(AtRank(r)), NameAt(AtRank(r + 1)))
  {
    assert LessAt("rate_artist", "rate_genre", 5);
    assert LessAt("rate_genre", "rmtag", 1);
    assert LessAt("rmtag", "rmtag_album", 5);
    assert LessAt("rmtag_album", "rmtag_artist", 7);
    assert LessAt("rmtag_artist", "rmtag_genre", 6);
  }

  lemma Ordered9(r: nat)
    requires 45 <= r < 49
    ensures Less(NameAt(AtRank(r)), NameAt(AtRank(r + 1)))
  {
    assert LessAt("rmtag_genre", "unkill", 0);
    assert LessAt("unkill", "unkill_album", 6);
    assert LessAt("unkill_album", "unkill_artist", 8);
    assert LessAt("unkill_artist", "unkill_genre", 7);
  }

  lemma {:induction false} RankLess(r: nat, s: nat)
    requires r < s < ROWS
    ensures Less(NameAt(AtRank(r)), NameAt(AtRank(s)))
    decreases s
  {
    hide NameAt;
    NextRank(s - 1);
    if r < s - 1 {
      RankLess(r, s - 1);
      LessTransitive(NameAt(AtRank(r)), NameAt(AtRank(s - 1)), NameAt(AtRank(s)));
    }
  }

  lemma NextRank(r: nat)
    requires r + 1 < ROWS
    ensures Less(NameAt(AtRank(r)), NameAt(AtRank(r + 1)))
  {
    hide NameAt;
    if r < 5 {
      Ordered0(r);
    } else if r < 10 {
      Ordered1(r);
    } else if r < 15 {
      Ordered2(r);
    } else if r < 20 {
      Ordered3(r);
    } else if r < 25 {
      Ordered4(r);
    } else if r < 30 {
      Ordered5(r);
    } else if r < 35 {
      Ordered6(r);
    } else if r < 40 {
      Ordered7(r);
    } else if r < 45 {
      Ordered8(r);
    } else if r < 49 {
      Ordered9(r);
    }
  }

  function RankOf(i: nat): nat {
    if 35 <= i < 38 then i + 4 else if 38 <= i < 42 then i - 3 else i
  }

  /** Two rows of the table compare as their ranks do. */
  lemma RowsCompare(i: nat, j: nat)
    requires i < ROWS && j < ROWS && RankOf(i) < RankOf(j)
    ensures Less(Names()[i], Names()[j]) && !Less(Names()[j], Names()[i]) && Names()[i] != Names()[j]
  {
    hide NameAt;
    RankLess(RankOf(i), RankOf(j));
    LessIsStrict(Names()[i], Names()[j]);
  }

  lemma SegmentSorted(a: nat, b: nat)
    requires (a, b) in {(0, 25), (26, 38), (39, 50)}
    ensures SortedBetween(Names(), a, b)
  {
    hide NameAt;
    forall i, j | a <= i < j < b
      ensures Less(Names()[i], Names()[j])
    {
      RowsCompare(i, j);
    }
  }

  /** A row the search reaches: all but rate_album, rate_artist and rate_genre. */
  predicate Reachable(i: nat) {
    i < ROWS && !(35 <= i < 38)
  }

  /** The first two pivots split the table into three sorted segments. */
  lemma SearchUnfolds(x: string)
    ensures Search(Names(), x, 0, ROWS) ==
              if x == Names()[25] then Some(25)
              else if Less(x, Names()[25]) then Search(Names(), x, 0, 25)
              else if x == Names()[38] then Some(38)
              else if Less(x, Names()[38]) then Search(Names(), x, 26, 38)
              else Search(Names(), x, 39, 50)
  {
    hide NameAt, Less;
    assert Search(Names(), x, 26, ROWS) ==
             if x == Names()[38] then Some(38)
             else if Less(x, Names()[38]) then Search(Names(), x, 26, 38)
             else Search(Names(), x, 39, 50);
  }

  lemma {:induction false} ReachableFound(i: nat)
    requires Reachable(i)
    ensures Search(Names(), Names()[i], 0, ROWS) == Some(i)
  {
    hide NameAt, Less;
    var x := Names()[i];
    SearchUnfolds(x);
    if i < 25 {
      RowsCompare(i, 25);
      FoundInSegment(i, 0, 25);
    } else if 25 < i < 38 {
      RowsCompare(25, i);
      RowsCompare(i, 38);
      FoundInSegment(i, 26, 38);
    } else if i > 38 {
      RowsCompare(25, i);
      RowsCompare(38, i);
      FoundInSegment(i, 39, 50);
    } else if i == 38 {
      RowsCompare(25, 38);
    }
  }

  lemma FoundInSegment(i: nat, a: nat, b: nat)
    requires (a, b) in {(0, 25), (26, 38), (39, 50)} && a <= i < b
    ensures Search(Names(), Names()[i], a, b) == Some(i)
  {
    hide NameAt, Less;
    SegmentSorted(a, b);
    SearchComplete(Names(), Names()[i], a, b);
    var r := Search(Names(), Names()[i], a, b).value;
    NamesDistinct(r, i);
  }

  lemma {:induction false} NamesDistinct(i: nat, j: nat)
    requires i < ROWS && j < ROWS && Names()[i] == Names()[j]
    ensures i == j
  {
    hide NameAt, Less;
    if RankOf(i) < RankOf(j) {
      RowsCompare(i, j);
    } else if RankOf(j) < RankOf(i) {
      RowsCompare(j, i);
    }
  }

  lemma {:induction false} MisplacedMissed(i: nat)
    requires 35 <= i < 38
    ensures Search(Names(), Names()[i], 0, ROWS) == None
  {
    hide NameAt, Less;
    SearchUnfolds(Names()[i]);
    RowsCompare(25, i);
    RowsCompare(38, i);
    var r := Search(Names(), Names()[i], 39, 50);
    if r.Some? {
      NamesDistinct(r.value, i);
    }
  }

  /** On the table as it is, the search finds exactly the 47 reachable rows, each at its own
      position: rate_album, rate_artist and rate_genre are unknown commands, every other name
      is found, and nothing else is. */
  lemma LookupExact(x: string)
    ensures forall i :: 0 <= i < ROWS ==>
              (Search(Names(), x, 0, ROWS) == Some(i) <==> Reachable(i) && Names()[i] == x)
    ensures Search(Names(), x, 0, ROWS).None? <==> forall i :: 0 <= i < ROWS && Names()[i] == x ==> 35 <= i < 38
  {
    hide NameAt, Less;
    forall i | 0 <= i < ROWS && Names()[i] == x
      ensures Search(Names(), x, 0, ROWS) == if Reachable(i) then Some(i) else None
    {
      if Reachable(i) {
        ReachableFound(i);
      } else {
        MisplacedMissed(i);
      }
    }
  }
}
