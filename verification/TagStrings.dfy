/** The tags column of the stats database: every tag of a row in one string, separated and
    surrounded by colons. */
module TagStrings {
  import opened Text
  import opened Responses

  /** `validate_tag`. */
  predicate ValidTag(tag: string) {
    tag != [] && ':' !in tag
  }

  /** `g_strsplit(s, ":", -1)`. */
  function Pieces(s: string): seq<string> {
    if s == [] then [] else Split(s, ':')
  }

  /** What the listtags handlers show: the pieces that are not empty. */
  function NonEmpty(pieces: seq<string>): seq<string> {
    if pieces == [] then []
    else NonEmpty(pieces[..|pieces| - 1]) + if pieces[|pieces| - 1] == [] then [] else [pieces[|pieces| - 1]]
  }

  function TagsOf(column: string): seq<string> {
    NonEmpty(Pieces(column))
  }

  /** The column that stores a list of tags; ":" for none. */
  function Column(tags: seq<string>): string {
    if tags == [] then ":" else Column(tags[..|tags| - 1]) + tags[|tags| - 1] + ":"
  }

  function Without(tags: seq<string>, tag: string): seq<string> {
    if tags == [] then []
    else Without(tags[..|tags| - 1], tag) + if tags[|tags| - 1] == tag then [] else [tags[|tags| - 1]]
  }

  /** `remove_tag`, on any column whatever it holds. */
  method RemoveTag(column: string, tag: string) returns (rest: string)
    ensures rest == Column(Without(TagsOf(column), tag))
  {
    hide Column, Without, Split, NonEmpty;
    var pieces := Pieces(column);
    EmptyLists(tag);
    rest := ":";
    for i := 0 to |pieces|
      invariant rest == Column(Without(NonEmpty(pieces[..i]), tag))
    {
      assert pieces[..i + 1] == pieces[..i] + [pieces[i]];
      NonEmptyAppend(pieces[..i], pieces[i]);
      WithoutAppend(NonEmpty(pieces[..i]), pieces[i], tag);
      ColumnAppend(Without(NonEmpty(pieces[..i]), tag), pieces[i]);
      if pieces[i] == [] {
        assert NonEmpty(pieces[..i]) + [] == NonEmpty(pieces[..i]);
        continue;
      } else if pieces[i] == tag {
        assert Without(NonEmpty(pieces[..i]), tag) + [] == Without(NonEmpty(pieces[..i]), tag);
        continue;
      }
      rest := rest + pieces[i] + ":";
    }
    assert pieces[..|pieces|] == pieces;
  }

  lemma EmptyLists(tag: string)
    ensures NonEmpty([]) == [] && Without([], tag) == [] && Column([]) == ":"
  {
  }

  lemma WithoutAppend(tags: seq<string>, last: string, tag: string)
    ensures Without(tags + [last], tag) == Without(tags, tag) + if last == tag then [] else [last]
  {
    assert (tags + [last])[..|tags|] == tags;
  }

  lemma ColumnAppend(tags: seq<string>, last: string)
    ensures Column(tags + [last]) == Column(tags) + last + ":"
  {
    assert (tags + [last])[..|tags|] == tags;
  }

  lemma NonEmptyAppend(a: seq<string>, last: string)
    ensures NonEmpty(a + [last]) == NonEmpty(a) + if last == [] then [] else [last]
  {
    assert (a + [last])[..|a|] == a;
  }

  predicate ValidTags(tags: seq<string>) {
    forall i :: 0 <= i < |tags| ==> ValidTag(tags[i])
  }

  lemma {:induction false} SplitAppend(s: string, tag: string)
    requires ':' !in tag && s != [] && s[|s| - 1] == ':'
    ensures Split(s + tag + ":", ':') == Split(s, ':')[..|Split(s, ':')| - 1] + [tag, []]
    decreases |s|
  {
    hide Split;
    var i := IndexOf(s, ':');
    var first, rest := s[..i], s[i + 1..];
    assert s == first + [':'] + rest;
    SplitFirst(first, rest, ':');
    if rest == [] {
      assert s + tag + ":" == first + [':'] + (tag + [':'] + []);
      SplitFirst(first, tag + [':'] + [], ':');
      SplitFirst(tag, [], ':');
      SplitLast([], ':');
    } else {
      assert s + tag + ":" == first + [':'] + (rest + tag + ":");
      SplitFirst(first, rest + tag + ":", ':');
      SplitAppend(rest, tag);
      PrependSplit(first, Split(rest, ':'), [tag, []]);
    }
  }

  lemma PrependSplit(first: string, pieces: seq<string>, more: seq<string>)
    requires pieces != []
    ensures [first] + (pieces[..|pieces| - 1] + more) == ([first] + pieces)[..|pieces|] + more
  {
  }

  lemma ColumnEnds(tags: seq<string>)
    ensures Column(tags) != [] && Column(tags)[|Column(tags)| - 1] == ':'
  {
  }

  lemma SplitNoTags()
    ensures Split(Column([]), ':') == [[], []]
  {
    hide Split;
    SplitFirst([], [], ':');
    SplitLast([], ':');
    assert [] + [':'] + [] == ":";
  }

  lemma AppendPiece(before: seq<string>, tag: string)
    ensures ([[]] + before + [[]])[..|before| + 1] + [tag, []] == [[]] + (before + [tag]) + [[]]
  {
  }

  lemma {:induction false} SplitColumn(tags: seq<string>)
    requires ValidTags(tags)
    ensures Split(Column(tags), ':') == [[]] + tags + [[]]
  {
    hide Split;
    if tags == [] {
      SplitNoTags();
    } else {
      var n := |tags| - 1;
      SplitColumn(tags[..n]);
      ColumnEnds(tags[..n]);
      SplitAppend(Column(tags[..n]), tags[n]);
      AppendPiece(tags[..n], tags[n]);
      assert tags == tags[..n] + [tags[n]];
    }
  }

  lemma {:induction false} NonEmptyOfTags(tags: seq<string>)
    requires ValidTags(tags)
    ensures NonEmpty([[]] + tags) == tags
  {
    if tags == [] {
      assert [[]] + tags == [] + [[]];
      NonEmptyAppend([], []);
    } else {
      var n := |tags| - 1;
      NonEmptyOfTags(tags[..n]);
      NonEmptyAppend([[]] + tags[..n], tags[n]);
      assert [[]] + tags[..n] + [tags[n]] == [[]] + tags;
      assert tags[..n] + [tags[n]] == tags;
    }
  }

  /** Splitting a stored column recovers the list of tags, in order and with repetitions. */
  lemma TagsRoundTrip(tags: seq<string>)
    requires ValidTags(tags)
    ensures TagsOf(Column(tags)) == tags
  {
    SplitColumn(tags);
    ColumnEnds(tags);
    NonEmptyOfTags(tags);
    NonEmptyAppend([[]] + tags, []);
  }

  // ------------------------------------------------------------------- histories

  datatype Change = Add(tag: string) | Remove(tag: string)

  /** What SQL reads in the literal that the tag is pasted into, where two single quotes stand
      for one. A single quote by itself ends the literal, and what follows it is taken to be an
      error in the statement. */
  function Literal(tag: string): Option<string> {
    if tag == [] then Some([])
    else if tag[0] != '\'' then
      if Literal(tag[1..]).Some? then Some([tag[0]] + Literal(tag[1..]).value) else None
    else if |tag| >= 2 && tag[1] == '\'' && Literal(tag[2..]).Some? then Some(['\''] + Literal(tag[2..]).value)
    else None
  }

  /** One addtag or rmtag command on a row's column; an invalid tag, and an added one that
      makes no literal, is refused. The statement that should store an album's shortened column
      has a stray quote behind its value, so it is never accepted and the column stays. */
  function ChangeColumn(k: Kind, column: string, c: Change): string {
    if !ValidTag(c.tag) then column
    else if c.Add? then
      if Literal(c.tag).Some? then column + Literal(c.tag).value + ":" else column
    else if k == AlbumKind then column
    else Column(Without(TagsOf(column), c.tag))
  }

  /** What the same command says about a list of tags. */
  function ChangeTags(tags: seq<string>, c: Change): seq<string> {
    if !ValidTag(c.tag) then tags
    else if c.Remove? then Without(tags, c.tag)
    else if Literal(c.tag).Some? then tags + [Literal(c.tag).value]
    else tags
  }

  function ColumnAfter(k: Kind, history: seq<Change>): string {
    if history == [] then ":" else ChangeColumn(k, ColumnAfter(k, history[..|history| - 1]), history[|history| - 1])
  }

  function TagsAfter(history: seq<Change>): seq<string> {
    if history == [] then [] else ChangeTags(TagsAfter(history[..|history| - 1]), history[|history| - 1])
  }

  /** The tags that were ever added, removed or not. */
  function Added(history: seq<Change>): seq<string> {
    if history == [] then []
    else
      var before, c := Added(history[..|history| - 1]), history[|history| - 1];
      if c.Add? then ChangeTags(before, c) else before
  }

  /** No removal names a tag that had been added before. */
  predicate RemovesNothing(history: seq<Change>) {
    history != [] ==>
      var before, c := history[..|history| - 1], history[|history| - 1];
      RemovesNothing(before) && (c.Remove? ==> c.tag !in Added(before))
  }

  lemma {:induction false} LiteralShape(tag: string)
    requires Literal(tag).Some?
    ensures var v := Literal(tag).value;
            && |v| <= |tag| && (v == [] <==> tag == [])
            && (':' in v <==> ':' in tag)
            && (|v| == |tag| <==> '\'' !in tag)
            && ('\'' !in tag ==> v == tag)
  {
    if tag != [] {
      var n := if tag[0] == '\'' then 2 else 1;
      LiteralShape(tag[n..]);
      assert tag == tag[..n] + tag[n..];
    }
  }

  lemma {:induction false} PlainLiteral(tag: string)
    requires '\'' !in tag
    ensures Literal(tag) == Some(tag)
  {
    if tag != [] {
      PlainLiteral(tag[1..]);
      assert tag == [tag[0]] + tag[1..];
    }
  }

  /** A tag is stored as it was given if and only if it has no single quote. */
  lemma LiteralExact(tag: string)
    ensures Literal(tag) == Some(tag) <==> '\'' !in tag
  {
    if '\'' !in tag {
      PlainLiteral(tag);
    } else if Literal(tag).Some? {
      LiteralShape(tag);
    }
  }

  lemma {:induction false} WithoutValid(tags: seq<string>, tag: string)
    requires ValidTags(tags)
    ensures ValidTags(Without(tags, tag))
  {
    hide ValidTag;
    if tags != [] {
      WithoutValid(tags[..|tags| - 1], tag);
    }
  }

  lemma {:induction false} WithoutExact(tags: seq<string>, tag: string)
    ensures forall x :: x in Without(tags, tag) <==> x in tags && x != tag
    ensures |Without(tags, tag)| <= |tags|
    ensures |Without(tags, tag)| == |tags| ==> Without(tags, tag) == tags
    ensures |Without(tags, tag)| == |tags| <==> tag !in tags
  {
    if tags != [] {
      var n := |tags| - 1;
      WithoutExact(tags[..n], tag);
      assert tags == tags[..n] + [tags[n]];
    }
  }

  lemma ChangeValid(tags: seq<string>, c: Change)
    requires ValidTags(tags)
    ensures ValidTags(ChangeTags(tags, c))
  {
    if ValidTag(c.tag) {
      WithoutValid(tags, c.tag);
      if Literal(c.tag).Some? {
        LiteralShape(c.tag);
      }
    }
  }

  /** On the coding of a list a command does what it says about the list, except that removal
      leaves an album alone. */
  lemma ChangeRefines(k: Kind, tags: seq<string>, c: Change)
    requires ValidTags(tags)
    ensures ChangeColumn(k, Column(tags), c)
            == Column(if k == AlbumKind && c.Remove? then tags else ChangeTags(tags, c))
  {
    hide Column, Without, TagsOf, Literal;
    TagsRoundTrip(tags);
    if Literal(c.tag).Some? {
      ColumnAppend(tags, Literal(c.tag).value);
    }
  }

  /** The tags a row's column stands for: all that were ever added to an album, what the
      commands left for the others. */
  function Kept(k: Kind, history: seq<Change>): seq<string> {
    if k == AlbumKind then Added(history) else TagsAfter(history)
  }

  /** Over every history of additions and removals the column is the coding of a list of tags,
      so decoding it always gives that list: for songs, artists and genres the list that the
      commands describe, for an album every tag that was ever added. */
  lemma {:induction false} ColumnRefinesTags(k: Kind, history: seq<Change>)
    ensures ValidTags(Kept(k, history))
    ensures ColumnAfter(k, history) == Column(Kept(k, history))
    ensures TagsOf(ColumnAfter(k, history)) == Kept(k, history)
  {
    hide Column, ChangeColumn, ChangeTags, ValidTags, TagsOf;
    if history == [] {
      NoTags();
    } else {
      var n := |history| - 1;
      var c := history[n];
      ColumnRefinesTags(k, history[..n]);
      ChangeRefines(k, Kept(k, history[..n]), c);
      ChangeValid(Kept(k, history[..n]), c);
    }
    TagsRoundTrip(Kept(k, history));
  }

  lemma NoTags()
    ensures Column([]) == ":" && ValidTags([])
  {
  }

  lemma {:induction false} AddedOutlasts(history: seq<Change>)
    ensures ValidTags(Added(history)) && ValidTags(TagsAfter(history))
    ensures |TagsAfter(history)| <= |Added(history)|
    ensures RemovesNothing(history) ==> TagsAfter(history) == Added(history)
    ensures !RemovesNothing(history) ==> |TagsAfter(history)| < |Added(history)|
  {
    if history != [] {
      var n := |history| - 1;
      var before, c := history[..n], history[n];
      AddedOutlasts(before);
      ChangeValid(TagsAfter(before), c);
      ChangeValid(Added(before), c);
      if c.Remove? {
        WithoutExact(TagsAfter(before), c.tag);
      }
    }
  }

  /** A tag that is added is listed last when it is not empty and has neither colon nor quote;
      an empty one and one with a colon are refused. */
  lemma AddedTagListed(k: Kind, history: seq<Change>, tag: string)
    ensures var listed := TagsOf(ColumnAfter(k, history + [Add(tag)]));
            && (tag == "" || ':' in tag ==> listed == TagsOf(ColumnAfter(k, history)))
            && (tag != "" && ':' !in tag && '\'' !in tag ==> listed == TagsOf(ColumnAfter(k, history)) + [tag])
  {
    hide TagsOf, Literal;
    var longer := history + [Add(tag)];
    assert longer[..|history|] == history;
    LiteralExact(tag);
    ColumnRefinesTags(k, history);
    ColumnRefinesTags(k, longer);
  }

  /** What the column looks like. */
  lemma ColumnSpelled(a: string, b: string)
    ensures Column([]) == ":" && Column([a]) == ":" + a + ":" && Column([a, b]) == ":" + a + ":" + b + ":"
  {
    assert [a][..0] == [] && [a, b][..1] == [a];
  }

  /** An album's column agrees with the commands if and only if no removal named a tag that had
      been added before. */
  lemma AlbumTagsExactly(history: seq<Change>)
    ensures TagsOf(ColumnAfter(AlbumKind, history)) == TagsAfter(history) <==> RemovesNothing(history)
  {
    ColumnRefinesTags(AlbumKind, history);
    AddedOutlasts(history);
  }

  /** Removing a tag twice is removing it once. Removing a tag that was just added to a row
      without it restores the row, even when other tags start with it, if and only if nothing
      was added, or the row is no album's and the tag has no single quote. */
  lemma RemoveUndoesAdd(k: Kind, tags: seq<string>, tag: string)
    requires ValidTags(tags) && ValidTag(tag)
    ensures var removed := ChangeColumn(k, Column(tags), Remove(tag));
            ChangeColumn(k, removed, Remove(tag)) == removed
    ensures tag !in tags ==>
              (ChangeColumn(k, ChangeColumn(k, Column(tags), Add(tag)), Remove(tag)) == Column(tags) <==>
               Literal(tag).None? || (k != AlbumKind && '\'' !in tag))
  {
    hide Column, Without, TagsOf, Literal;
    WithoutValid(tags, tag);
    WithoutExact(tags, tag);
    WithoutExact(Without(tags, tag), tag);
    ChangeRefines(k, tags, Remove(tag));
    ChangeRefines(k, Without(tags, tag), Remove(tag));
    LiteralExact(tag);
    if Literal(tag).Some? {
      var v := Literal(tag).value;
      var more := tags + [v];
      LiteralShape(tag);
      ChangeRefines(k, tags, Add(tag));
      ChangeRefines(k, more, Remove(tag));
      WithoutAppend(tags, v, tag);
      assert tags + [] == tags;
      TagsRoundTrip(tags);
      TagsRoundTrip(more);
    }
  }
}
