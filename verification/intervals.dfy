/** Booking time windows. A timestamp is a whole number of minutes; a booking
    occupies the half-open window [start, end). */
module Intervals {

  /** The booking repository's conflict test between a stored window
      [bs, be) and a requested one [s, e): the stored booking covers the
      requested start, or covers the requested end, or lies inside the
      requested window. */
  predicate ThreeClauseConflict(bs: int, be: int, s: int, e: int) {
    || (bs <= s && be > s)
    || (bs < e && be >= e)
    || (bs >= s && be <= e)
  }

  /** Two half-open windows share at least one instant. */
  predicate HalfOpenOverlap(bs: int, be: int, s: int, e: int) {
    bs < e && s < be
  }

  /** For non-empty windows the repository's three clauses are exactly
      half-open overlap. */
  lemma ThreeClauseIsHalfOpenOverlap(bs: int, be: int, s: int, e: int)
    requires bs < be && s < e
    ensures ThreeClauseConflict(bs, be, s, e) <==> HalfOpenOverlap(bs, be, s, e)
  {
  }

  /** Windows that only touch, one ending where the other starts, do not conflict. */
  lemma TouchingWindowsDoNotConflict(bs: int, be: int, s: int, e: int)
    requires bs < be && s < e
    requires be == s || bs == e
    ensures !ThreeClauseConflict(bs, be, s, e)
  {
  }

  lemma HalfOpenOverlapSymmetric(s1: int, e1: int, s2: int, e2: int)
    ensures HalfOpenOverlap(s1, e1, s2, e2) <==> HalfOpenOverlap(s2, e2, s1, e1)
  {
  }

  /** The three clauses do not need the requested window to be ordered: a
      request whose end precedes its start, and which therefore contains no
      instant, still conflicts with a booking that covers the requested start. */
  lemma InvertedRequestStillConflicts(bs: int, be: int, s: int, e: int)
    requires e < s && bs <= s < be
    ensures ThreeClauseConflict(bs, be, s, e)
  {
  }

  /** `Duration.between(start, end).toHours()`: whole hours, truncated toward zero. */
  function WholeHours(start: int, end: int): (h: int)
    ensures start <= end ==> 0 <= 60 * h <= end - start < 60 * (h + 1)
    ensures end < start ==> 0 <= -60 * h <= start - end < 60 * (1 - h)
  {
    if start <= end then (end - start) / 60 else -((start - end) / 60)
  }

  /** For an ordered window, the whole-hour count is the unique `h` with
      the window between `h` and `h + 1` hours long. */
  lemma WholeHoursIsTheHourCount(start: int, end: int, h: int)
    requires start <= end
    requires 60 * h <= end - start < 60 * (h + 1)
    ensures WholeHours(start, end) == h
  {
    var q := WholeHours(start, end);
    assert 60 * q <= end - start < 60 * (q + 1);
  }

  /** Ninety minutes bill as one hour; fifty-nine minutes as none. */
  lemma WholeHoursTruncates()
    ensures WholeHours(0, 90) == 1
    ensures WholeHours(0, 59) == 0
    ensures WholeHours(90, 0) == -1
  {
  }
}
