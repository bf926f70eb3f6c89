/** Time-window constraints on fixed-offset clocks. Instants and durations are whole
    nanoseconds; instants count from the Unix epoch. */
module TimeConstraints {
  import opened Values

  const SECOND: int := 1_000_000_000
  const DAY: int := 86_400 * SECOND

  /** A wall-clock time and the offset from UTC, in nanoseconds, it was written in. */
  datatype Daytime = Daytime(hour: int, minute: int, second: int, offset: int)
  {
    predicate Valid() { 0 <= hour < 24 && 0 <= minute < 60 && 0 <= second < 60 }

    function SinceMidnight(): int { (hour * 3600 + minute * 60 + second) * SECOND }

    /** This wall-clock time on the calendar date the instant falls on, in this offset. */
    function OnDate(t: int): int { LocalDay(t, offset) * DAY + SinceMidnight() - offset }
  }

  /** Number of the calendar day an instant falls on; day 0 is 1 January 1970. */
  function LocalDay(t: int, offset: int): int { (t + offset) / DAY }

  datatype TimeConstraint = TimeConstraint(from: Option<Daytime>, until: Option<Daytime>)
  {
    predicate Valid() { (from.Some? ==> from.value.Valid()) && (until.Some? ==> until.value.Valid()) }
  }

  /** The windows for the day containing `t`: two of them when the window crosses midnight. */
  function Intervals(from: Daytime, until: Daytime, t: int): seq<(int, int)> {
    var f, u := from.OnDate(t), until.OnDate(t);
    if u < f then [(f - DAY, u), (f, u + DAY)] else [(f, u)]
  }

  predicate InWindow(c: TimeConstraint, t: int) {
    match (c.from, c.until)
    case (Some(f), Some(u)) =>
      var ivs := Intervals(f, u, t);
      exists i :: 0 <= i < |ivs| && ivs[i].0 <= t <= ivs[i].1
    case (Some(f), None) => f.OnDate(t) <= t
    case (None, Some(u)) => t <= u.OnDate(t)
    case (None, None) => true
  }

  // ---- A two-sided window is one cyclic interval ----

  /** Both bounds and the instant on the UTC day circle: `t` is reached from `from` no later
      than `until` is. */
  predicate InCycle(from: Daytime, until: Daytime, t: int) {
    var f, u := from.SinceMidnight() - from.offset, until.SinceMidnight() - until.offset;
    (t - f) % DAY <= (u - f) % DAY
  }

  lemma OnDateIsNear(d: Daytime, t: int)
    requires d.Valid()
    ensures -DAY < t - d.OnDate(t) < DAY
    ensures (t - d.OnDate(t)) % DAY == (t - (d.SinceMidnight() - d.offset)) % DAY
  {
    var day := LocalDay(t, d.offset);
    assert day * DAY <= t + d.offset < (day + 1) * DAY;
    Rotate(t - d.OnDate(t), day);
  }

  lemma Rotate(x: int, k: int)
    ensures (x + k * DAY) % DAY == x % DAY
  {
    var q, r := x / DAY, x % DAY;
    assert x + k * DAY == (q + k) * DAY + r;
    Unique(x + k * DAY, q + k, r);
  }

  lemma Unique(x: int, q: int, r: int)
    requires x == q * DAY + r && 0 <= r < DAY
    ensures x % DAY == r
  {
    assert (q - x / DAY) * DAY == x % DAY - r;
  }

  /** `x` in (-DAY, DAY) reduced to the day circle. */
  lemma Reduce(x: int)
    requires -DAY < x < DAY
    ensures x % DAY == if x < 0 then x + DAY else x
  {
  }

  lemma CycleSum(f: int, u: int, t: int)
    ensures (u - f) % DAY == ((t - f) % DAY - (t - u) % DAY) % DAY
  {
    var a, b := (t - f) / DAY, (t - u) / DAY;
    assert u - f == ((t - f) % DAY - (t - u) % DAY) + (a - b) * DAY;
    Rotate((t - f) % DAY - (t - u) % DAY, a - b);
  }

  /** The daily window means the cyclic interval exactly when its two bounds, placed on the
      instant's dates, lie within a day of each other. */
  lemma WindowIsCycleExactly(from: Daytime, until: Daytime, t: int)
    requires from.Valid() && until.Valid()
    ensures (InWindow(TimeConstraint(Some(from), Some(until)), t) <==> InCycle(from, until, t))
            <==> -DAY <= until.OnDate(t) - from.OnDate(t) < DAY
  {
    var a, b := t - from.OnDate(t), t - until.OnDate(t);
    OnDateIsNear(from, t);
    OnDateIsNear(until, t);
    Reduce(a);
    Reduce(b);
    CycleSum(from.SinceMidnight() - from.offset, until.SinceMidnight() - until.offset, t);
    WindowBySigns(from, until, t);
    CycleBySigns(a, b);
  }

  lemma WindowBySigns(from: Daytime, until: Daytime, t: int)
    requires from.Valid() && until.Valid()
    ensures var a, b := t - from.OnDate(t), t - until.OnDate(t);
            InWindow(TimeConstraint(Some(from), Some(until)), t) <==>
            if a < b then a >= 0 || b <= 0 else a >= 0 && b <= 0
  {
    OnDateIsNear(from, t);
    OnDateIsNear(until, t);
    var ivs := Intervals(from, until, t);
    if |ivs| == 2 {
      assert ivs[0] == (from.OnDate(t) - DAY, until.OnDate(t)) && ivs[1] == (from.OnDate(t), until.OnDate(t) + DAY);
    } else {
      assert ivs[0] == (from.OnDate(t), until.OnDate(t));
    }
  }

  lemma CycleBySigns(a: int, b: int)
    requires -DAY < a < DAY && -DAY < b < DAY
    ensures (a % DAY <= (a % DAY - b % DAY) % DAY <==> if a < b then a >= 0 || b <= 0 else a >= 0 && b <= 0)
            <==> -DAY <= a - b < DAY
  {
    Reduce(a);
    Reduce(b);
    Reduce(a % DAY - b % DAY);
  }

  /** How far the bounds of a window lie apart on the instant's dates: the difference of the
      clock times, less the offset difference, plus a day while the later offset is a day ahead. */
  lemma BoundsApart(from: Daytime, until: Daytime, t: int)
    ensures var r := (until.offset - from.offset) % DAY;
            until.OnDate(t) - from.OnDate(t) ==
              until.SinceMidnight() - from.SinceMidnight() - r + if (t + from.offset) % DAY + r >= DAY then DAY else 0
  {
    var x, d := t + from.offset, until.offset - from.offset;
    var carry := if x % DAY + d % DAY >= DAY then 1 else 0;
    assert x + d == (x / DAY + d / DAY + carry) * DAY + (x % DAY + d % DAY - carry * DAY);
    Quotient(x + d, x / DAY + d / DAY + carry, x % DAY + d % DAY - carry * DAY);
  }

  lemma Quotient(x: int, q: int, r: int)
    requires x == q * DAY + r && 0 <= r < DAY
    ensures x / DAY == q
  {
    Unique(x, q, r);
    assert (x / DAY - q) * DAY == 0;
  }

  /** Which windows are cyclic intervals at every instant: those whose offsets agree up to whole
      days, and those whose clock times are closer than the offsets push them apart. */
  predicate AlwaysCyclic(from: Daytime, until: Daytime) {
    var r := (until.offset - from.offset) % DAY;
    r == 0 || r - DAY <= until.SinceMidnight() - from.SinceMidnight() < r
  }

  lemma WindowIsAlwaysCycleExactly(from: Daytime, until: Daytime)
    requires from.Valid() && until.Valid()
    ensures AlwaysCyclic(from, until) <==>
            forall t :: InWindow(TimeConstraint(Some(from), Some(until)), t) <==> InCycle(from, until, t)
  {
    var r := (until.offset - from.offset) % DAY;
    if AlwaysCyclic(from, until) {
      forall t ensures InWindow(TimeConstraint(Some(from), Some(until)), t) <==> InCycle(from, until, t) {
        BoundsApart(from, until, t);
        WindowIsCycleExactly(from, until, t);
      }
    } else {
      var early, late := -from.offset, DAY - r - from.offset;
      BoundsApart(from, until, early);
      WindowIsCycleExactly(from, until, early);
      BoundsApart(from, until, late);
      WindowIsCycleExactly(from, until, late);
    }
  }

  /** With one offset for both bounds, `t` matches exactly when its time of day lies in the
      cyclic interval from `from` to `until`, midnight or not. */
  lemma SameOffsetIsCyclic(from: Daytime, until: Daytime, t: int)
    requires from.Valid() && until.Valid() && from.offset == until.offset
    ensures InWindow(TimeConstraint(Some(from), Some(until)), t) <==>
            var tod := (t + from.offset) % DAY;
            (tod - from.SinceMidnight()) % DAY <= (until.SinceMidnight() - from.SinceMidnight()) % DAY
  {
    WindowIsCycleExactly(from, until, t);
    var x := t + from.offset;
    assert x - from.SinceMidnight() == (x % DAY - from.SinceMidnight()) + x / DAY * DAY;
    Rotate(x % DAY - from.SinceMidnight(), x / DAY);
  }

  /** With two offsets it can fail: 00:00 UTC until 23:00 at UTC-12, at noon UTC. */
  lemma MixedOffsetsDiffer()
    ensures var from, until := Daytime(0, 0, 0, 0), Daytime(23, 0, 0, -12 * 3600 * SECOND);
            exists t :: !(InWindow(TimeConstraint(Some(from), Some(until)), t) <==> InCycle(from, until, t))
  {
    var from, until := Daytime(0, 0, 0, 0), Daytime(23, 0, 0, -12 * 3600 * SECOND);
    var t := 12 * 3600 * SECOND;
    assert until.OnDate(t) - from.OnDate(t) == 35 * 3600 * SECOND;
    WindowIsCycleExactly(from, until, t);
  }

  lemma OnDateShifts(d: Daytime, t: int, k: int)
    ensures d.OnDate(t + k * DAY) == d.OnDate(t) + k * DAY
  {
    var x := t + d.offset;
    assert x + k * DAY == (x / DAY + k) * DAY + x % DAY;
    Unique(x + k * DAY, x / DAY + k, x % DAY);
    assert (x + k * DAY) / DAY * DAY == (x / DAY + k) * DAY;
  }

  /** Every daily window, one- or two-sided and whatever the offsets, repeats each day. */
  lemma WindowRepeatsDaily(c: TimeConstraint, t: int, k: int)
    ensures InWindow(c, t + k * DAY) <==> InWindow(c, t)
  {
    if c.from.Some? {
      OnDateShifts(c.from.value, t, k);
    }
    if c.until.Some? {
      OnDateShifts(c.until.value, t, k);
    }
    if c.from.Some? && c.until.Some? {
      var a, b := Intervals(c.from.value, c.until.value, t), Intervals(c.from.value, c.until.value, t + k * DAY);
      assert |a| == |b| && forall i :: 0 <= i < |a| ==> b[i].0 == a[i].0 + k * DAY && b[i].1 == a[i].1 + k * DAY;
    }
  }

  // ---- Groups ----

  datatype DateTimeConstraint = DateTimeConstraint(since: Option<int>, till: Option<int>)

  predicate InRange(d: DateTimeConstraint, t: int) {
    match (d.since, d.till)
    case (Some(f), Some(u)) => f <= t <= u
    case (None, Some(u)) => t <= u
    case (Some(f), None) => f <= t
    case (None, None) => false
  }

  /** Sunday is 0; 1 January 1970 was a Thursday. */
  function Weekday(t: int, offset: int): int { (LocalDay(t, offset) + 4) % 7 }

  datatype Group = Group(datetime: seq<DateTimeConstraint>, time: seq<TimeConstraint>, weekdays: seq<seq<int>>)

  /** Families are conjoined; within a family any constraint suffices; an empty family is
      no constraint. `offset` is the zone the instant itself is expressed in. */
  predicate GroupMatches(g: Group, t: int, offset: int) {
    && (g.datetime != [] ==> exists d <- g.datetime :: InRange(d, t))
    && (g.time != [] ==> exists c <- g.time :: InWindow(c, t))
    && (g.weekdays != [] ==> exists w <- g.weekdays :: Weekday(t, offset) in w)
  }

  lemma WeekdayRepeatsWeekly(t: int, offset: int)
    ensures Weekday(t + 7 * DAY, offset) == Weekday(t, offset)
  {
    assert LocalDay(t + 7 * DAY, offset) == LocalDay(t, offset) + 7 by {
      var x := t + offset;
      Unique(x + 7 * DAY, x / DAY + 7, x % DAY);
    }
  }

  /** A group without absolute dates repeats every week. */
  lemma GroupRepeatsWeekly(g: Group, t: int, offset: int)
    requires g.datetime == []
    ensures GroupMatches(g, t + 7 * DAY, offset) <==> GroupMatches(g, t, offset)
  {
    WeekdayRepeatsWeekly(t, offset);
    forall c | c in g.time ensures InWindow(c, t + 7 * DAY) <==> InWindow(c, t) {
      WindowRepeatsDaily(c, t, 7);
    }
  }

  // ---- In terms of the clock ----

  /** The instant at which a clock with this offset shows `ns` nanoseconds past midnight on
      that day. */
  function Instant(day: int, ns: int, offset: int): int { day * 86_400_000_000_000 + ns - offset }

  /** What the clock shows at a wall-clock time. */
  function Clock(d: Daytime): int { (d.hour * 3600 + d.minute * 60 + d.second) * 1_000_000_000 }

  lemma ShownOn(d: Daytime, day: int, ns: int)
    requires 0 <= ns < 86_400_000_000_000
    ensures d.OnDate(Instant(day, ns, d.offset)) == Instant(day, Clock(d), d.offset)
    ensures LocalDay(Instant(day, ns, d.offset), d.offset) == day
  {
    Quotient(day * DAY + ns, day, ns);
  }

  /** A one-sided window holds from its clock time to the end of the day, or from the start of
      the day to its clock time; without bounds it always holds. */
  lemma OneSidedByClock(d: Daytime, day: int, ns: int)
    requires 0 <= ns < 86_400_000_000_000
    ensures InWindow(TimeConstraint(Some(d), None), Instant(day, ns, d.offset)) <==> Clock(d) <= ns
    ensures InWindow(TimeConstraint(None, Some(d)), Instant(day, ns, d.offset)) <==> ns <= Clock(d)
    ensures InWindow(TimeConstraint(None, None), Instant(day, ns, d.offset))
  {
    ShownOn(d, day, ns);
  }

  /** A two-sided window in one offset holds between its clock times, bounds included; past
      midnight if the later bound comes first. */
  lemma TwoSidedByClock(from: Daytime, until: Daytime, day: int, ns: int)
    requires from.Valid() && until.Valid() && from.offset == until.offset && 0 <= ns < 86_400_000_000_000
    ensures InWindow(TimeConstraint(Some(from), Some(until)), Instant(day, ns, from.offset)) <==>
            if Clock(from) <= Clock(until) then Clock(from) <= ns <= Clock(until)
            else Clock(from) <= ns || ns <= Clock(until)
  {
    ShownOn(from, day, ns);
    ShownOn(until, day, ns);
    WindowBySigns(from, until, Instant(day, ns, from.offset));
  }

  /** Both bounds count, and a range without bounds holds nothing. */
  lemma RangeMeans(d: DateTimeConstraint, t: int)
    ensures InRange(d, t) <==>
            && (d.since.Some? || d.till.Some?)
            && (d.since.Some? ==> d.since.value <= t) && (d.till.Some? ==> t <= d.till.value)
  {
  }

  /** The weekday is that of the local day: a Thursday on day 0 and the next one each day. */
  lemma WeekdayMeans(day: int, ns: int, offset: int)
    requires 0 <= ns < 86_400_000_000_000
    ensures Weekday(Instant(0, ns, offset), offset) == 4
    ensures 0 <= Weekday(Instant(day, ns, offset), offset) < 7
    ensures Weekday(Instant(day + 1, ns, offset), offset) == (Weekday(Instant(day, ns, offset), offset) + 1) % 7
  {
    Quotient(ns, 0, ns);
    Quotient(day * DAY + ns, day, ns);
    Quotient((day + 1) * DAY + ns, day + 1, ns);
  }

  /** A group holds exactly when each of its families does; an empty one always does. */
  lemma FamiliesConjoin(g: Group, t: int, offset: int)
    ensures GroupMatches(g, t, offset) <==>
            && GroupMatches(Group(g.datetime, [], []), t, offset)
            && GroupMatches(Group([], g.time, []), t, offset)
            && GroupMatches(Group([], [], g.weekdays), t, offset)
    ensures GroupMatches(Group([], [], []), t, offset)
  {
  }

  /** A family holds exactly when one of its constraints does. */
  lemma AlternativesDisjoin(ds: seq<DateTimeConstraint>, ts: seq<TimeConstraint>, ws: seq<seq<int>>,
                            t: int, offset: int)
    ensures ds != [] ==>
              (GroupMatches(Group(ds, [], []), t, offset) <==> exists i :: 0 <= i < |ds| && InRange(ds[i], t))
    ensures ts != [] ==>
              (GroupMatches(Group([], ts, []), t, offset) <==> exists i :: 0 <= i < |ts| && InWindow(ts[i], t))
    ensures ws != [] ==>
              (GroupMatches(Group([], [], ws), t, offset) <==>
               exists i :: 0 <= i < |ws| && Weekday(t, offset) in ws[i])
  {
  }
}
