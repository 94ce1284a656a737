/** Finding the instant at which clocks in a timezone show a given wall time, when changes of the zone's
    offset can make that instant missing or ambiguous. */
module LocalTime {
  import opened Wrappers
  import opened DeliveryModel
  import opened Arithmetic

  const HOUR := 3600 * SECOND
  const DAY := 24 * HOUR

  /** How far an offset from UTC can reach. */
  const REACH := 48 * HOUR

  /** A timezone. Instants are nanoseconds since 1970 in UTC, offsets are seconds east of UTC, and `end` is
      where the zone says that the interval of constant offset around an instant ends, if it ends.
      `year` is the calendar year that a clock reading falls in. */
  datatype Zone = Zone(offset: int -> int, end: int -> Option<int>, year: int -> int)

  datatype Resolution = At(instant: int) | Twice | Missing

  /** What clocks in the zone show at instant `u`. */
  function Reading(z: Zone, u: int): int {
    u + z.offset(u) * SECOND
  }

  ghost predicate Shows(z: Zone, u: int, wall: int) {
    Reading(z, u) == wall
  }

  // ---------- What the scan relies on ----------

  /** The 29ths of February before year `y` of the Gregorian calendar. */
  function LeapDays(y: int): int {
    (y - 1) / 4 - (y - 1) / 100 + (y - 1) / 400
  }

  /** The reading at which year `y` begins. */
  function YearStart(y: int): int {
    (365 * (y - 1970) + LeapDays(y) - LeapDays(1970)) * DAY
  }

  ghost predicate IsCalendar(year: int -> int) {
    forall t :: YearStart(year(t)) <= t < YearStart(year(t) + 1)
  }

  /** Where the scan goes when the zone gives it an interval that ends before its cursor: the first of January
      after the cursor, in UTC, by the year that the cursor shows in its own location. */
  function Fallback(z: Zone, cursor: int, inZone: bool): int {
    YearStart(z.year(if inZone then Reading(z, cursor) else cursor) + 1)
  }

  /** Where the scan looks next, and whether it holds that instant as a time in the zone or in UTC. */
  datatype Cursor = Cursor(at: int, inZone: bool)

  /** The end of the interval around the cursor, or the fallback if that is not after the cursor. */
  function NextCursor(z: Zone, c: Cursor): Option<Cursor> {
    match z.end(c.at)
    case None => None
    case Some(end) => Some(if end <= c.at then Cursor(Fallback(z, c.at, c.inZone), false) else Cursor(end, true))
  }

  ghost predicate SameOffset(z: Zone, from: int, to: int) {
    forall v :: from <= v < to ==> z.offset(v) == z.offset(from)
  }

  /** A cursor in the zone is the end of an interval. */
  ghost predicate EndsInterval(z: Zone, u: int) {
    exists v :: v < u && z.end(v) == Some(u)
  }

  /** A fallback does not lead back, and from UTC it leads forward. */
  predicate FallbackOk(z: Zone, u: int, inZone: bool) {
    if inZone then u <= Fallback(z, u, true) else u < Fallback(z, u, false)
  }

  /** The offset does not change between `u` and the next cursor, as far as the scan looks. */
  ghost predicate BoundOk(z: Zone, u: int, wall: int) {
    var last := wall + REACH;
    match z.end(u)
    case None => SameOffset(z, u, last + 1)
    case Some(end) =>
      if u < end then SameOffset(z, u, Min(end, last + 1))
      else forall inZone :: (inZone ==> EndsInterval(z, u)) ==>
        FallbackOk(z, u, inZone) && SameOffset(z, u, Min(Fallback(z, u, inZone), last + 1))
  }

  /** What the scan for `wall` needs of a zone. */
  ghost predicate ZoneOk(z: Zone, wall: int) {
    && (forall u :: -172_800 <= z.offset(u) <= 172_800)
    && (forall u :: wall - REACH <= u <= wall + REACH ==> BoundOk(z, u, wall))
  }

  lemma WithinReach(z: Zone, wall: int, u: int)
    requires ZoneOk(z, wall) && Shows(z, u, wall)
    ensures wall - REACH <= u <= wall + REACH
  {
    assert -172_800 <= z.offset(u) <= 172_800;
  }

  /** Within an interval of constant offset at most one instant shows the wall time. */
  lemma OnlyCandidate(z: Zone, wall: int, from: int, to: int)
    requires SameOffset(z, from, to)
    ensures forall u :: from <= u < to && Shows(z, u, wall) ==> u == wall - z.offset(from) * SECOND
  {
  }

  // ---------- What the fallback needs ----------

  /** At least 364 days: more than an offset can reach. */
  lemma YearLength(y: int)
    ensures YearStart(y) + 364 * DAY <= YearStart(y + 1)
  {
    QuotientSteps(y - 1, 4);
    QuotientSteps(y - 1, 100);
    QuotientSteps(y - 1, 400);
    assert LeapDays(y) - 1 <= LeapDays(y + 1);
  }

  lemma {:induction false} YearsInOrder(a: int, b: int)
    requires a <= b
    ensures YearStart(a) <= YearStart(b)
    decreases b - a
  {
    if a < b {
      YearLength(b - 1);
      YearsInOrder(a, b - 1);
    }
  }

  /** The fallback moves the scan forward exactly when the cursor's own location is not still in an earlier
      year than UTC. A cursor in UTC always moves forward. */
  lemma FallbackAdvancesIff(z: Zone, cursor: int, inZone: bool)
    requires IsCalendar(z.year)
    ensures cursor < Fallback(z, cursor, inZone) <==> !inZone || z.year(cursor) <= z.year(Reading(z, cursor))
  {
    var y, shown := z.year(cursor), z.year(if inZone then Reading(z, cursor) else cursor);
    assert YearStart(y) <= cursor < YearStart(y + 1);
    if shown < y {
      YearsInOrder(shown + 1, y);
    } else {
      YearsInOrder(y + 1, shown + 1);
    }
  }

  lemma YearIs(year: int -> int, t: int, y: int)
    requires IsCalendar(year) && YearStart(y) <= t < YearStart(y + 1)
    ensures year(t) == y
  {
    assert YearStart(year(t)) <= t < YearStart(year(t) + 1);
    if year(t) < y {
      YearsInOrder(year(t) + 1, y);
    } else if y < year(t) {
      YearsInOrder(y + 1, year(t));
    }
  }

  // ---------- The scan ----------

  /** The answer is an instant exactly when it is the only one that shows the wall time, `Twice` exactly when
      there are several, and `Missing` exactly when there is none. */
  method ResolveLocalTime(wall: int, z: Zone) returns (r: Resolution)
    requires ZoneOk(z, wall)
    ensures r.Missing? <==> forall u :: !Shows(z, u, wall)
    ensures r.Twice? <==> exists u, v :: u != v && Shows(z, u, wall) && Shows(z, v, wall)
    ensures forall u :: r == At(u) <==> Shows(z, u, wall) && forall v :: Shows(z, v, wall) ==> v == u
  {
    var result: Option<int> := None;
    var end := wall + REACH;
    var cursor, inZone := wall - REACH, false;
    while cursor <= end
      invariant wall - REACH <= cursor
      invariant inZone ==> EndsInterval(z, cursor)
      invariant result.Some? ==> Shows(z, result.value, wall)
      invariant forall u :: u < cursor && u <= end && Shows(z, u, wall) ==> result == Some(u)
      decreases end - cursor, inZone
    {
      var candidate := wall - z.offset(cursor) * SECOND;
      if Reading(z, candidate) == wall {
        if result.Some? && result.value != candidate {
          assert Shows(z, candidate, wall);
          return Twice;
        }
        result := Some(candidate);
      }
      assert BoundOk(z, cursor, wall);
      if z.end(cursor).None? || z.end(cursor).value > end {
        OnlyCandidate(z, wall, cursor, end + 1);
        break;
      }
      var next, nextInZone := z.end(cursor).value, true;
      if next <= cursor {
        next, nextInZone := Fallback(z, cursor, inZone), false;
        assert FallbackOk(z, cursor, inZone);
      }
      assert NextCursor(z, Cursor(cursor, inZone)) == Some(Cursor(next, nextInZone));
      OnlyCandidate(z, wall, cursor, Min(next, end + 1));
      cursor, inZone := next, nextInZone;
    }
    forall u | Shows(z, u, wall) ensures wall - REACH <= u <= end && result == Some(u) {
      WithinReach(z, wall, u);
    }
    r := match result case None => Missing case Some(u) => At(u);
  }

  // ---------- Where fallbacks lead ----------

  lemma YearIsAtLeast(year: int -> int, t: int, y: int)
    requires IsCalendar(year) && YearStart(y) <= t
    ensures y <= year(t)
  {
    assert t < YearStart(year(t) + 1);
    if year(t) < y {
      YearsInOrder(year(t) + 1, y);
    }
  }

  /** If the zone's bounds only fail on the last day of a year in UTC, and the offset does not change from there
      to the fallback, the scan's needs are met: no fallback leads back. */
  lemma LastDayBoundIsOk(z: Zone, u: int, wall: int)
    requires IsCalendar(z.year) && -REACH <= z.offset(u) * SECOND <= REACH
    requires z.end(u).Some? && z.end(u).value <= u && YearStart(z.year(u) + 1) - DAY <= u
    requires forall inZone :: SameOffset(z, u, Min(Fallback(z, u, inZone), wall + REACH + 1))
    ensures BoundOk(z, u, wall) && forall inZone :: u < Fallback(z, u, inZone)
  {
    YearLength(z.year(u));
    YearIsAtLeast(z.year, Reading(z, u), z.year(u));
    FallbackAdvancesIff(z, u, true);
    FallbackAdvancesIff(z, u, false);
  }

  /** The zone's bound of the interval around `u` is right, as far as the scan looks. */
  ghost predicate BoundIsRight(z: Zone, u: int, wall: int) {
    match z.end(u)
    case None => SameOffset(z, u, wall + REACH + 1)
    case Some(end) => u < end && SameOffset(z, u, Min(end, wall + REACH + 1))
  }

  /** The bound is wrong, but `u` is on the last day of a year in UTC, and the offset stays up to the fallback. */
  ghost predicate BoundFailsLate(z: Zone, u: int, wall: int) {
    && z.end(u).Some? && z.end(u).value <= u
    && YearStart(z.year(u) + 1) - DAY <= u
    && forall inZone :: SameOffset(z, u, Min(Fallback(z, u, inZone), wall + REACH + 1))
  }

  /** A zone whose bounds are right, or fail only late in a year, is one for which the scan is exact. */
  lemma LateFailuresAreHarmless(z: Zone, wall: int)
    requires IsCalendar(z.year) && forall u :: -REACH <= z.offset(u) * SECOND <= REACH
    requires forall u :: wall - REACH <= u <= wall + REACH ==> BoundIsRight(z, u, wall) || BoundFailsLate(z, u, wall)
    ensures ZoneOk(z, wall)
  {
    forall u | wall - REACH <= u <= wall + REACH ensures BoundOk(z, u, wall) {
      if !BoundIsRight(z, u, wall) {
        assert BoundFailsLate(z, u, wall);
        LastDayBoundIsOk(z, u, wall);
      }
    }
  }

  /** West of Greenwich, a cursor in the zone at the turn of the year in UTC stays where it is if the zone's
      bound fails there, but only for one round: it is in UTC then, and leaves for the next year. */
  lemma StallLastsOneRound(z: Zone, y: int)
    requires IsCalendar(z.year) && -DAY <= z.offset(YearStart(y)) * SECOND < 0
    requires z.end(YearStart(y)).Some? && z.end(YearStart(y)).value <= YearStart(y)
    ensures NextCursor(z, Cursor(YearStart(y), true)) == Some(Cursor(YearStart(y), false))
    ensures NextCursor(z, Cursor(YearStart(y), false)) == Some(Cursor(YearStart(y + 1), false))
  {
    YearIs(z.year, Reading(z, YearStart(y)), y - 1);
    YearLength(y);
    YearIs(z.year, YearStart(y), y);
  }

  /** Why a fallback must not lead back: a zone, not one that is known to occur, of constant offset whose bounds
      fail from one o'clock on New Year's Day in UTC on. */
  function LateBoundZone(year: int -> int, y: int): Zone {
    Zone(u => -5 * 3600, u => Some(YearStart(y) + HOUR), year)
  }

  /** There a fallback leads back before the cursor, and the scan goes round in a circle: from every earlier
      cursor to the bound, from the bound to New Year, and from New Year to the bound again. */
  lemma BackwardFallbackCycles(year: int -> int, y: int, earlier: Cursor)
    requires IsCalendar(year) && earlier.at < YearStart(y) + HOUR
    ensures var z, bound := LateBoundZone(year, y), Cursor(YearStart(y) + HOUR, true);
            && NextCursor(z, earlier) == Some(bound)
            && NextCursor(z, bound) == Some(Cursor(YearStart(y), false))
            && NextCursor(z, Cursor(YearStart(y), false)) == Some(bound)
            && forall u, v :: z.offset(u) == z.offset(v)
  {
    var z := LateBoundZone(year, y);
    assert Reading(z, YearStart(y) + HOUR) == YearStart(y) - 4 * HOUR;
    YearLength(y - 1);
    YearIs(year, YearStart(y) - 4 * HOUR, y - 1);
  }
}
