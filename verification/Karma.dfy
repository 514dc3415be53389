/** The karma column: how the percentage played moves it, in closed form. */
module Karma {
  import opened Text

  const DEFAULT: int := 50

  /** The update when a song was played to `percent`; outside 0..100 karma stays. */
  function Played(karma: int, percent: int): int {
    if 0 <= percent <= 100 then (karma + percent + 1) / 2 else karma
  }

  /** The karma after plays to the given percentages. */
  function After(karma: int, percents: seq<int>): int {
    if percents == [] then karma else Played(After(karma, percents[..|percents| - 1]), percents[|percents| - 1])
  }

  lemma {:induction false} PlaysStayInRange(karma: int, percents: seq<int>)
    requires 1 <= karma <= 100
    ensures 1 <= After(karma, percents) <= 100
  {
    if percents != [] {
      PlaysStayInRange(karma, percents[..|percents| - 1]);
    }
  }

  /** The percentages that a player can report of a song of known length. */
  function Proper(percents: seq<int>): seq<int> {
    if percents == [] then []
    else
      var last := percents[|percents| - 1];
      Proper(percents[..|percents| - 1]) + if 0 <= last <= 100 then [last] else []
  }

  /** Plays to any other percentage leave no trace. */
  lemma {:induction false} OnlyProperPlaysCount(karma: int, percents: seq<int>)
    ensures After(karma, percents) == After(karma, Proper(percents))
  {
    if percents != [] {
      var before, last := Proper(percents[..|percents| - 1]), percents[|percents| - 1];
      OnlyProperPlaysCount(karma, percents[..|percents| - 1]);
      assert (before + [last])[..|before|] == before;
      assert before + [] == before;
    }
  }

  // ------------------------------------------------------------------- histories

  /** What happens to a song's row: a play, or a karma command. */
  datatype Event = Heard(percent: int) | Command(karma: int)

  /** `handle_karma` refuses 0 and 100, too. */
  function Next(karma: int, e: Event): int {
    match e
    case Heard(percent) => Played(karma, percent)
    case Command(k) => if 0 < k < 100 then k else karma
  }

  /** The karma of a row since its creation. */
  function Current(history: seq<Event>): int {
    if history == [] then DEFAULT else Next(Current(history[..|history| - 1]), history[|history| - 1])
  }

  /** The value of the last command that was accepted. */
  function LastCommand(history: seq<Event>): int {
    if history == [] then DEFAULT
    else
      var e := history[|history| - 1];
      if e.Command? && 0 < e.karma < 100 then e.karma else LastCommand(history[..|history| - 1])
  }

  /** The plays since then. */
  function PlaysSince(history: seq<Event>): seq<int> {
    if history == [] then []
    else
      var e := history[|history| - 1];
      if e.Heard? then PlaysSince(history[..|history| - 1]) + [e.percent]
      else if 0 < e.karma < 100 then []
      else PlaysSince(history[..|history| - 1])
  }

  lemma {:induction false} CurrentExactly(history: seq<Event>)
    ensures Current(history) == After(LastCommand(history), PlaysSince(history))
    ensures 1 <= LastCommand(history) <= 100
  {
    if history != [] {
      var before, e := history[..|history| - 1], history[|history| - 1];
      CurrentExactly(before);
      if e.Heard? {
        assert (PlaysSince(before) + [e.percent])[..|PlaysSince(before)|] == PlaysSince(before);
      }
    }
  }

  /** A row starts at 50, and a command sets it to the value given. */
  lemma FirstPlays(history: seq<Event>, percent: int, k: int)
    requires 0 <= percent <= 100 && 0 < k < 100
    ensures Current([]) == 50
    ensures Current([Heard(percent)]) == (51 + percent) / 2
    ensures Current(history + [Command(k)]) == k
    ensures Current(history + [Command(0)]) == Current(history) == Current(history + [Command(100)])
  {
    assert [Heard(percent)][..0] == [];
    assert forall e: Event :: (history + [e])[..|history|] == history;
  }

  /** Over every history of plays and commands karma is what the plays since the last accepted
      command, or since the row's creation, made of it; it stays in 1..100, so the column's
      check constraint never fires. */
  lemma KarmaStaysInRange(history: seq<Event>)
    ensures Current(history) == After(LastCommand(history), PlaysSince(history))
    ensures 1 <= Current(history) <= 100
  {
    CurrentExactly(history);
    PlaysStayInRange(LastCommand(history), PlaysSince(history));
  }

  /** `n` plays to the same percentage. */
  function Repeated(karma: int, percent: int, n: nat): int {
    if n == 0 then karma else Played(Repeated(karma, percent, n - 1), percent)
  }

  /** Halving after `n` halvings. */
  lemma {:induction false} HalveOnce(x: nat, n: nat)
    ensures (x / Pow2(n)) / 2 == x / Pow2(n + 1)
  {
    var p := Pow2(n);
    var q := x / p;
    var h := q / 2;
    assert x == p * q + x % p;
    assert q == 2 * h + q % 2;
    var r := p * (q % 2) + x % p;
    assert 0 <= r < 2 * p by {
      if q % 2 == 1 {
        assert p * (q % 2) == p;
      } else {
        assert p * (q % 2) == 0;
      }
    }
    assert x == (2 * p) * h + r by {
      assert p * q == p * (2 * h) + p * (q % 2);
      assert p * (2 * h) == (2 * p) * h;
    }
    QuotientUnique(x, 2 * p, h, r);
  }

  lemma {:induction false} QuotientUnique(x: nat, d: nat, q: nat, r: nat)
    requires d > 0 && r < d && x == d * q + r
    ensures x / d == q
  {
    var k := x / d;
    assert x == d * k + x % d;
    if k < q {
      Multiples(d, k, q);
    } else if q < k {
      Multiples(d, q, k);
    }
  }

  lemma {:induction false} Multiples(d: nat, a: nat, b: nat)
    requires a < b
    ensures d * a + d <= d * b
  {
    assert d * b == d * (b - 1) + d;
    if a < b - 1 {
      Multiples(d, a, b - 1);
    }
  }

  /** Closed form of repeated plays: the distance to the percentage from below, or to the value
      above it from above, is halved by every play, rounding down. */
  lemma {:induction false} RepeatedClosedForm(karma: int, percent: int, n: nat)
    requires 0 <= percent <= 100
    ensures karma <= percent ==> Repeated(karma, percent, n) == percent - (percent - karma) / Pow2(n)
    ensures karma > percent ==> Repeated(karma, percent, n) == percent + 1 + (karma - percent - 1) / Pow2(n)
  {
    if n > 0 {
      RepeatedClosedForm(karma, percent, n - 1);
      if karma <= percent {
        HalveOnce(percent - karma, n - 1);
      } else {
        HalveOnce(karma - percent - 1, n - 1);
      }
    }
  }

  lemma SmallQuotient(x: nat, n: nat)
    requires x < 128 && n >= 7
    ensures x / Pow2(n) == 0
  {
    hide Pow2;
    Pow2Grows(n);
    QuotientUnique(x, Pow2(n), 0, x);
  }

  lemma {:induction false} Pow2Grows(n: nat)
    requires n >= 7
    ensures Pow2(n) >= 128
  {
    if n > 7 {
      Pow2Grows(n - 1);
    } else {
      assert Pow2(4) == 16;
    }
  }

  /** After seven plays to the same percentage karma has settled, at the percentage when it came
      from below and one above it when it came from above. */
  lemma SettlesWithinSevenPlays(karma: int, percent: int, n: nat)
    requires 1 <= karma <= 100 && 0 <= percent <= 100 && n >= 7
    ensures Repeated(karma, percent, n) == if karma <= percent then percent else percent + 1
  {
    RepeatedClosedForm(karma, percent, n);
    SmallQuotient(if karma <= percent then percent - karma else karma - percent - 1, n);
  }

  /** Full plays halve what is missing to 100, skips halve the karma, rounding up. */
  lemma {:induction false} FullPlaysAndSkips(karma: int, n: nat)
    requires 1 <= karma <= 100
    ensures 100 - Repeated(karma, 100, n) == (100 - karma) / Pow2(n)
    ensures Repeated(karma, 0, n) == (karma + Pow2(n) - 1) / Pow2(n)
  {
    RepeatedClosedForm(karma, 100, n);
    RepeatedClosedForm(karma, 0, n);
    RoundedUp(karma, Pow2(n));
  }

  lemma {:induction false} RoundedUp(k: int, p: nat)
    requires k >= 1 && p > 0
    ensures (k + p - 1) / p == (k - 1) / p + 1
  {
    var x := k - 1;
    assert x == p * (x / p) + x % p;
    assert p * (x / p + 1) == p * (x / p) + p;
    QuotientUnique(x + p, p, x / p + 1, x % p);
  }
}
