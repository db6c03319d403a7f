/**
 * The item card's two formatters: how long ago an item was listed, from the
 * elapsed milliseconds, and the description snippet shown under the title.
 * The clock is a parameter.
 */
module ItemCard {
  import opened Wrappers
  import opened Strings

  const MinuteMs: int := 60000
  const HourMs: int := 3600000
  const DayMs: int := 86400000

  /** `"<n> <unit>"` with an `s` only when `n` is more than one. */
  function Plural(n: nat, unit: string): string {
    NatToString(n) + " " + unit + (if n > 1 then "s" else "") + " ago"
  }

  /**
   * `formatTimeAgo`: `''` without a creation time; otherwise the elapsed time
   * in whole minutes, whole hours of those and whole days of those, each by
   * `Math.floor` (Dafny's division by a positive divisor floors, negative
   * elapsed times included), reporting the largest unit that is positive and
   * at least one minute.
   */
  function FormatTimeAgo(createdAt: Option<int>, now: int): string {
    if createdAt.None? then ""
    else
      var diffMs := now - createdAt.value;
      var minutesFloor := diffMs / MinuteMs;
      var hours := minutesFloor / 60;
      var days := hours / 24;
      if days > 0 then Plural(days, "day")
      else if hours > 0 then Plural(hours, "hour")
      else NatToString(if minutesFloor > 1 then minutesFloor else 1) + " min ago"
  }

  /** A positive multiple of a positive number is at least that number. */
  lemma {:induction false} MulAtLeast(d: int, k: int)
    requires d > 0 && k >= 1
    ensures d * k >= d
    decreases k
  {
    if k > 1 {
      MulAtLeast(d, k - 1);
      assert d * k == d * (k - 1) + d;
    }
  }

  /** The quotient is determined by any division with a remainder in range. */
  lemma DivUnique(e: int, d: int, q: int, r: int)
    requires d > 0 && e == d * q + r && 0 <= r < d
    ensures e / d == q
  {
    var q0 := e / d;
    assert d * q0 + e % d == d * q + r;
    assert d * (q - q0) == e % d - r;
    if q - q0 >= 1 {
      MulAtLeast(d, q - q0);
    } else if q0 - q >= 1 {
      MulAtLeast(d, q0 - q);
    }
  }

  /** Flooring twice is flooring once by the product. */
  lemma FloorTwice(e: int, a: int, b: int)
    requires a > 0 && b > 0
    ensures (e / a) / b == e / (a * b)
  {
    var q := e / a;
    var r := e % a;
    var q2 := q / b;
    var r2 := q % b;
    assert a * q == a * (b * q2) + a * r2 by {
      assert q == b * q2 + r2;
    }
    assert a * (b * q2) == (a * b) * q2;
    assert 0 <= a * r2 by {
      if r2 > 0 {
        MulAtLeast(a, r2);
      }
    }
    assert a * r2 <= a * (b - 1) by {
      if r2 < b - 1 {
        MulAtLeast(a, b - 1 - r2);
        assert a * (b - 1) - a * r2 == a * (b - 1 - r2);
      }
    }
    assert a * (b - 1) == a * b - a;
    DivUnique(e, a * b, q2, a * r2 + r);
  }

  /**
   * The formatter read as one division each: at least a day gives the whole
   * days; less than a day but at least an hour gives the whole hours; anything
   * shorter, a future time included, gives the whole minutes but never fewer
   * than one.
   */
  lemma TimeAgoSpec(created: int, now: int)
    ensures var e := now - created;
      var r := FormatTimeAgo(Some(created), now);
      (e >= DayMs ==> r == Plural(e / DayMs, "day")) &&
      (HourMs <= e < DayMs ==> r == Plural(e / HourMs, "hour")) &&
      (e < HourMs ==> r == NatToString(if e / MinuteMs > 1 then e / MinuteMs else 1) + " min ago")
  {
    var e := now - created;
    FloorTwice(e, MinuteMs, 60);
    FloorTwice(e, HourMs, 24);
  }

  /** A missing creation time shows nothing; any present one shows a non-empty text. */
  lemma TimeAgoMissing(createdAt: Option<int>, now: int)
    ensures FormatTimeAgo(createdAt, now) == "" <==> createdAt.None?
  {
  }

  const SnippetLength: nat := 110

  /**
   * `descriptionSnippet`: `''` for a description that is not a string or is
   * empty; otherwise its first 110 characters, followed by `…` only when it
   * is longer.
   */
  function Snippet(description: Option<string>): string {
    if description.None? || description.value == "" then ""
    else
      var d := description.value;
      (if |d| <= SnippetLength then d else d[..SnippetLength]) + (if |d| > SnippetLength then "…" else "")
  }

  /**
   * The snippet is empty exactly for a missing or empty description; it is the
   * whole description when that fits in 110 characters; otherwise it is a
   * 110-character front of it with one `…` after, so it never exceeds 111.
   */
  lemma SnippetSpec(description: Option<string>)
    ensures var r := Snippet(description);
      (r == "" <==> description.None? || description.value == "") &&
      |r| <= SnippetLength + 1 &&
      (description.Some? && |description.value| <= SnippetLength ==> r == description.value) &&
      (description.Some? && |description.value| > SnippetLength ==>
        |r| == SnippetLength + 1 && r[SnippetLength] == '…' &&
        r[..SnippetLength] == description.value[..SnippetLength])
  {
    if description.Some? && |description.value| > SnippetLength {
      var d := description.value;
      assert Snippet(description) == d[..SnippetLength] + "…";
      assert (d[..SnippetLength] + "…")[..SnippetLength] == d[..SnippetLength];
    }
  }
}
