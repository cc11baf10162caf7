/**
 * `formatDate`, written out identically in the lectures page, the notes page
 * and the trending section: the distance between now and a timestamp, rounded
 * up to whole days, shown as days below a week and as whole weeks after.
 *
 * Timestamps are milliseconds since the epoch, given as integers; parsing the
 * stored date text is not modelled. The source divides in floating point and
 * rounds up with `Math.ceil`; here that is taken over exact reals and shown
 * equal to integer division.
 */
module RelativeDate {
  import opened Text

  const MsPerDay: nat := 1000 * 60 * 60 * 24

  function Abs(x: int): nat {
    if x < 0 then -x else x
  }

  /** Whole days, rounded up. */
  function DiffDays(nowMs: int, createdMs: int): nat {
    (Abs(nowMs - createdMs) + MsPerDay - 1) / MsPerDay
  }

  /** `Math.ceil(Math.abs(now - created) / 86400000)` over exact reals, with ceil x
      written as -floor(-x). */
  function RealDiffDays(nowMs: int, createdMs: int): int {
    -((-(Abs(nowMs - createdMs) as real / MsPerDay as real)).Floor)
  }

  lemma CeilingOfQuotient(d: nat, m: nat)
    requires m > 0
    ensures -((-(d as real / m as real)).Floor) == (d + m - 1) / m
  {
    var q := (d + m - 1) / m;
    var r := d - (q - 1) * m;
    assert (q - 1) * m < d <= q * m by {
      var s := (d + m - 1) % m;
      assert d + m - 1 == q * m + s && 0 <= s < m;
    }
    assert (q - 1) as real < d as real / m as real <= q as real by {
      assert d as real / m as real * m as real == d as real;
    }
    assert -(d as real / m as real) >= -(q as real);
    assert -(d as real / m as real) < -(q as real) + 1.0;
  }

  /** The integer and the real formula agree. */
  lemma DiffDaysIsCeiling(nowMs: int, createdMs: int)
    ensures DiffDays(nowMs, createdMs) == RealDiffDays(nowMs, createdMs)
  {
    CeilingOfQuotient(Abs(nowMs - createdMs), MsPerDay);
  }

  /** The count does not depend on which of the two instants is later, is zero only for
      the same instant, and is the least whole number of days covering the distance. */
  lemma DiffDaysProperties(nowMs: int, createdMs: int)
    ensures DiffDays(nowMs, createdMs) == DiffDays(createdMs, nowMs)
    ensures DiffDays(nowMs, createdMs) == 0 <==> nowMs == createdMs
    ensures var n := DiffDays(nowMs, createdMs); var d := Abs(nowMs - createdMs);
      (n - 1) * MsPerDay < d <= n * MsPerDay
  {
    var d := Abs(nowMs - createdMs);
    var n := DiffDays(nowMs, createdMs);
    var s := (d + MsPerDay - 1) % MsPerDay;
    assert d + MsPerDay - 1 == n * MsPerDay + s;
  }

  /** The text shown for a number of days. */
  function FormatDays(days: nat): string {
    if days == 1 then "1 day ago"
    else if days < 7 then NatToString(days) + " days ago"
    else if days < 14 then "1 week ago"
    else NatToString(days / 7) + " weeks ago"
  }

  function FormatDate(nowMs: int, createdMs: int): string {
    FormatDays(DiffDays(nowMs, createdMs))
  }

  /** The four ranges, with the number shown read back from the text: the day count below
      a week, and at least two whole weeks from the fourteenth day. */
  lemma FormatDaysRanges(days: nat)
    ensures days == 1 ==> FormatDays(days) == "1 day ago"
    ensures days != 1 && days < 7 ==>
      FormatDays(days) == NatToString(days) + " days ago" && ParseDigits(FormatDays(days)[..|NatToString(days)|]) == days
    ensures 7 <= days < 14 ==> FormatDays(days) == "1 week ago"
    ensures days >= 14 ==>
      FormatDays(days) == NatToString(days / 7) + " weeks ago" && days / 7 >= 2
      && ParseDigits(FormatDays(days)[..|NatToString(days / 7)|]) == days / 7
  {
    if days != 1 && days < 7 {
      NatToStringRoundTrip(days);
      assert FormatDays(days)[..|NatToString(days)|] == NatToString(days);
    }
    if days >= 14 {
      NatToStringRoundTrip(days / 7);
      assert FormatDays(days)[..|NatToString(days / 7)|] == NatToString(days / 7);
    }
  }
}
