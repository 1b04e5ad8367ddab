/**
 * Clock arithmetic used by the attendance engine.  Local midnight
 * (`setHours(0, 0, 0, 0)`) is taken for a fixed offset from UTC, and the
 * minute rounding of `Math.round(diffMs / 60000)` is done in integers.
 */
module Time {

  const MsPerMinute: int := 60000
  const MsPerDay: int := 86400000

  /** The local midnight that starts the day holding `t`, for a zone `offset` ms ahead of UTC. */
  function MidnightOf(t: int, offset: int): (m: int)
    ensures m <= t < m + MsPerDay
    ensures (m + offset) % MsPerDay == 0
  {
    t - (t + offset) % MsPerDay
  }

  /** Midnight of a midnight is itself, so a record dated at midnight lies on that day. */
  lemma MidnightOfMidnight(t: int, offset: int)
    ensures MidnightOf(MidnightOf(t, offset), offset) == MidnightOf(t, offset)
  {
    var m := MidnightOf(t, offset);
    assert (m + offset) % MsPerDay == 0;
  }

  /** Two instants have the same midnight exactly when they fall in the same local day. */
  lemma SameDay(t: int, u: int, offset: int)
    requires MidnightOf(t, offset) <= u < MidnightOf(t, offset) + MsPerDay
    ensures MidnightOf(u, offset) == MidnightOf(t, offset)
  {
    var m := MidnightOf(t, offset);
    var q := (m + offset) / MsPerDay;
    assert m + offset == q * MsPerDay;
    assert u + offset == q * MsPerDay + (u - m);
    assert (u + offset) % MsPerDay == u - m;
  }

  /**
   * `Math.round(ms / 60000)`: the nearest whole minute, halves rounded up,
   * which is the one `m` with m - 1/2 <= ms / 60000 < m + 1/2.
   */
  function RoundMinutes(ms: int): (m: int)
    ensures m * MsPerMinute - MsPerMinute / 2 <= ms < m * MsPerMinute + MsPerMinute / 2
  {
    (ms + MsPerMinute / 2) / MsPerMinute
  }

  /** A whole number of minutes rounds to itself. */
  lemma RoundWholeMinutes(k: int)
    ensures RoundMinutes(k * MsPerMinute) == k
  {
    var m := RoundMinutes(k * MsPerMinute);
    assert (m - k) * MsPerMinute < MsPerMinute / 2;
    assert (k - m) * MsPerMinute <= MsPerMinute / 2;
  }

  /** A non-negative span never rounds to a negative number of minutes. */
  lemma RoundNonNegative(ms: int)
    requires ms >= 0
    ensures RoundMinutes(ms) >= 0
  {
  }
}
