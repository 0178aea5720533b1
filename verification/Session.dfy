/** Commodity session edges: the weekend gap and the forced flat before it. Times are seconds. */
module Session {
  import opened FuturesMath

  const DAY: int := 86400
  const WEEK: int := 604800

  /** Offset of New York's clock from UTC, fixed: the zone's fallback rule. */
  const ET_OFFSET: int := -18000

  /** The cushion before the gap in which positions must already be flat. */
  const GAP_BUFFER: int := 900

  /** Sunday is 0; the epoch was a Thursday. */
  function Weekday(t: int): int {
    ((t + ET_OFFSET) / DAY + 4) % 7
  }

  function MinuteOfDay(t: int): int {
    (t + ET_OFFSET) % DAY / 60
  }

  /** Friday 16:45 through Sunday 18:00, New York time. */
  predicate WeekendGapOpen(now: int) {
    match Weekday(now)
    case 5 => MinuteOfDay(now) >= 16 * 60 + 45
    case 6 => true
    case 0 => MinuteOfDay(now) < 18 * 60
    case _ => false
  }

  /** 16:45 on the coming Friday, today included. */
  function ComingFriday(after: int): int {
    var daysAhead := (5 - Weekday(after) + 7) % 7;
    ((after + ET_OFFSET) / DAY + daysAhead) * DAY + 16 * 3600 + 45 * 60 - ET_OFFSET
  }

  function NextWeekendGapStart(after: int): int {
    if WeekendGapOpen(after) then after
    else
      var gapStart := ComingFriday(after);
      if gapStart > after then gapStart else gapStart + 7 * DAY
  }

  function FlattenDeadline(createdAt: int, prof: RiskProfile): int {
    var deadline := createdAt + prof.horizonMin * 60;
    if !prof.weekendFlat then deadline
    else
      var gapEdge := NextWeekendGapStart(createdAt) - GAP_BUFFER;
      if gapEdge < deadline then gapEdge else deadline
  }

  predicate MustFlatten(now: int, createdAt: int, prof: RiskProfile) {
    if now < FlattenDeadline(createdAt, prof) then false
    else if prof.weekendFlat && WeekendGapOpen(now) then true
    else true
  }

  // ------------------------------------------------------- the gap, by week

  /** Seconds into the New York week that starts on Sunday midnight. */
  function WeekSecond(t: int): int {
    (t + ET_OFFSET + 4 * DAY) % WEEK
  }

  const GAP_OPENS: int := 5 * 86400 + 60300
  const GAP_CLOSES: int := 64800

  lemma WeekSecondSplit(t: int)
    ensures WeekSecond(t) == Weekday(t) * DAY + (t + ET_OFFSET) % DAY
  {
    var l := t + ET_OFFSET;
    var d, r := l / DAY, l % DAY;
    assert l == d * DAY + r;
    var q, w := (d + 4) / 7, (d + 4) % 7;
    assert d + 4 == 7 * q + w;
    assert l + 4 * DAY == WEEK * q + (w * DAY + r);
  }

  /** The gap is one interval of every week, wrapping around Sunday midnight. */
  lemma GapByWeekSecond(t: int)
    ensures WeekendGapOpen(t) <==> WeekSecond(t) >= GAP_OPENS || WeekSecond(t) < GAP_CLOSES
  {
    WeekSecondSplit(t);
    var r := (t + ET_OFFSET) % DAY;
    assert MinuteOfDay(t) >= 1005 <==> r >= 60300;
    assert MinuteOfDay(t) < 1080 <==> r < 64800;
  }

  /** Outside the gap, the computed start is where this week's gap opens - always ahead of `after`. */
  lemma GapStartThisWeek(after: int)
    requires !WeekendGapOpen(after)
    ensures NextWeekendGapStart(after) == after + (GAP_OPENS - WeekSecond(after))
    ensures NextWeekendGapStart(after) == ComingFriday(after) > after
  {
    GapByWeekSecond(after);
    WeekSecondSplit(after);
    var l, w := after + ET_OFFSET, Weekday(after);
    assert 0 <= w <= 5;
    assert (5 - w + 7) % 7 == 5 - w;
    assert l == l / DAY * DAY + l % DAY;
    assert (l / DAY + (5 - w)) * DAY == l / DAY * DAY + (5 - w) * DAY;
  }

  lemma WeekSecondShift(t: int, d: int)
    requires 0 <= WeekSecond(t) + d < WEEK
    ensures WeekSecond(t + d) == WeekSecond(t) + d
  {
    var x := t + ET_OFFSET + 4 * DAY;
    assert x == WEEK * (x / WEEK) + WeekSecond(t);
    assert x + d == WEEK * (x / WEEK) + (WeekSecond(t) + d);
  }

  /**
   * The start returned is in the gap and nothing from `after` up to it is: the first gap instant
   * not before `after`. Outside the gap the coming Friday's 16:45 always lies ahead, so the branch
   * that adds seven days is never taken.
   */
  lemma NextGapIsFirst(after: int, t: int)
    ensures after <= NextWeekendGapStart(after) && WeekendGapOpen(NextWeekendGapStart(after))
    ensures after <= t < NextWeekendGapStart(after) ==> !WeekendGapOpen(t)
    ensures NextWeekendGapStart(after) < after + 7 * DAY
    ensures !WeekendGapOpen(after) ==> ComingFriday(after) > after && NextWeekendGapStart(after) == ComingFriday(after)
  {
    if !WeekendGapOpen(after) {
      GapStartThisWeek(after);
      GapByWeekSecond(after);
      WeekSecondShift(after, GAP_OPENS - WeekSecond(after));
      GapByWeekSecond(NextWeekendGapStart(after));
      if after <= t < NextWeekendGapStart(after) {
        WeekSecondShift(after, t - after);
        GapByWeekSecond(t);
      }
    }
  }

  // ------------------------------------------------------ flat before the gap

  /** Once a position must be flat it must stay so. */
  lemma MustFlattenMonotone(now: int, later: int, createdAt: int, prof: RiskProfile)
    requires now <= later && MustFlatten(now, createdAt, prof)
    ensures MustFlatten(later, createdAt, prof)
  {
  }

  /** A weekend-flat position must be flat at every in-gap instant of its life, and 15 minutes before. */
  lemma NeverRidesTheGap(now: int, createdAt: int, prof: RiskProfile)
    requires prof.weekendFlat && createdAt <= now
    requires WeekendGapOpen(now) || (createdAt <= now + GAP_BUFFER && WeekendGapOpen(now + GAP_BUFFER))
    ensures MustFlatten(now, createdAt, prof)
  {
    NextGapIsFirst(createdAt, now);
    NextGapIsFirst(createdAt, now + GAP_BUFFER);
  }

  /** And no earlier than it needs: before the horizon, flatness is demanded only from the first gap edge on. */
  lemma FlattenExactly(now: int, createdAt: int, prof: RiskProfile)
    requires prof.weekendFlat && createdAt <= now && now < createdAt + prof.horizonMin * 60
    ensures MustFlatten(now, createdAt, prof) <==> exists g :: createdAt <= g <= now + GAP_BUFFER && WeekendGapOpen(g)
  {
    var first := NextWeekendGapStart(createdAt);
    NextGapIsFirst(createdAt, createdAt);
    if g :| createdAt <= g <= now + GAP_BUFFER && WeekendGapOpen(g) {
      NextGapIsFirst(createdAt, g);
    }
  }
}
