/** When an exhausted provider is expected back. Times are microseconds counted from some Monday
    midnight, in UTC. */
module Recharge {
  const SECOND := 1_000_000
  const HOUR := 3600 * SECOND
  const DAY := 24 * HOUR
  const WEEK := 7 * DAY

  datatype CooldownKind = WINDOW | FIXED

  datatype Cooldown = Cooldown(kind: CooldownKind, hours: int, weekly: bool, seconds: int, threshold: int, shortSeconds: int)

  /** What loading `providers.toml` enforces. */
  predicate WellFormed(c: Cooldown) {
    c.hours >= 1 && c.seconds >= 1 && c.threshold >= 1 && c.shortSeconds >= 1
  }

  /** 0 on Mondays. */
  function Weekday(t: int): int {
    t / DAY % 7
  }

  function Midnight(t: int): int {
    t / DAY * DAY
  }

  function EstimateAvailableUntil(c: Cooldown, now: int, short: bool): int {
    if short then now + c.shortSeconds * SECOND
    else if c.kind == FIXED then now + c.seconds * SECOND
    else if c.weekly then
      var days := (7 - Weekday(now)) % 7;
      Midnight(now + (if days == 0 then 7 else days) * DAY)
    else now + c.hours * HOUR
  }

  lemma MidnightOfLaterDay(t: int, days: int)
    ensures Midnight(t + days * DAY) == (t / DAY + days) * DAY
  {
    assert (t + days * DAY) / DAY == t / DAY + days;
  }

  predicate MondayMidnight(t: int) {
    t % WEEK == 0
  }

  /** A day number's week, and the days left in it. */
  lemma WeekOf(d: int)
    ensures var days := if (7 - d % 7) % 7 == 0 then 7 else (7 - d % 7) % 7;
            d + days == (d / 7 + 1) * 7
  {
  }

  lemma WeeksOfDays(t: int)
    ensures t / DAY / 7 == t / WEEK
  {
  }

  lemma WeeklyIsNextWeek(c: Cooldown, now: int)
    requires c.kind == WINDOW && c.weekly
    ensures EstimateAvailableUntil(c, now, false) == (now / WEEK + 1) * WEEK
  {
    var d := now / DAY;
    var days := if (7 - d % 7) % 7 == 0 then 7 else (7 - d % 7) % 7;
    MidnightOfLaterDay(now, days);
    WeekOf(d);
    WeeksOfDays(now);
  }

  lemma MondaysAreWeeksApart(week: int, m: int)
    requires week * WEEK < m < (week + 1) * WEEK
    ensures !MondayMidnight(m)
  {
  }

  lemma WeekBounds(t: int)
    ensures t / WEEK * WEEK <= t < (t / WEEK + 1) * WEEK <= t + WEEK && MondayMidnight((t / WEEK + 1) * WEEK)
  {
  }

  /** A weekly recharge is the first Monday midnight after now, so at most seven days away. */
  lemma WeeklyIsNextMonday(c: Cooldown, now: int, until: int)
    requires c.kind == WINDOW && c.weekly && until == EstimateAvailableUntil(c, now, false)
    ensures MondayMidnight(until) && now < until <= now + 7 * DAY
    ensures forall m :: now < m < until ==> !MondayMidnight(m)
  {
    WeeklyIsNextWeek(c, now);
    var week := now / WEEK;
    WeekBounds(now);
    forall m | now < m < until ensures !MondayMidnight(m) {
      MondaysAreWeeksApart(week, m);
    }
  }

  /** The other recharges are a fixed time away, counted in microseconds: the short one after repeated
      failures, the fixed one, and a window of hours. */
  lemma RechargeDelays(c: Cooldown, now: int)
    ensures EstimateAvailableUntil(c, now, true) - now == c.shortSeconds * 1_000_000
    ensures c.kind == FIXED ==> EstimateAvailableUntil(c, now, false) - now == c.seconds * 1_000_000
    ensures c.kind == WINDOW && !c.weekly ==> EstimateAvailableUntil(c, now, false) - now == c.hours * 3_600_000_000
  {
  }

  /** Every recharge time lies in the future. */
  lemma RechargeIsLater(c: Cooldown, now: int, short: bool)
    requires WellFormed(c)
    ensures now < EstimateAvailableUntil(c, now, short)
  {
    if !short && c.kind == WINDOW && c.weekly {
      WeeklyIsNextMonday(c, now, EstimateAvailableUntil(c, now, short));
    }
  }
}
