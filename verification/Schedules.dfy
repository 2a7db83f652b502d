/** When a routine runs next (internal/routines/schedule.go), in a zone of fixed offset. */
module Schedules {
  import opened Wrappers
  import opened Numerals
  import Text

  /** Nanoseconds since 1970-01-01T00:00:00Z. */
  type Time = int

  const MINUTE := 60_000_000_000
  const HOUR := 60 * MINUTE
  const DAY := 24 * HOUR
  /** The zero value of time.Time, 0001-01-01T00:00:00Z. */
  const ZERO: Time := -62_135_596_800_000_000_000

  datatype Kind = Manual | Interval | Daily | Weekdays | Unknown
  datatype Schedule = Schedule(kind: Kind, at: string, timezone: string, everyMinutes: int)

  /** The offset of a zone from UTC, or None for a zone that cannot be loaded. */
  type Zones = string -> Option<int>

  // ------------------------------------------------------------------ the clock

  /** parseClock: hours and minutes as Atoi reads them, so a sign or extra zeros are fine. */
  function ParseClock(value: string): Option<(int, int)> {
    var parts := Text.Split(Text.TrimSpace(value), ':');
    if |parts| != 2 then None
    else
      var hour, minute := Atoi(parts[0]), Atoi(parts[1]);
      if hour.None? || hour.value < 0 || hour.value > 23 then None
      else if minute.None? || minute.value < 0 || minute.value > 59 then None
      else Some((hour.value, minute.value))
  }

  function TimeOfDay(hour: int, minute: int): int {
    hour * HOUR + minute * MINUTE
  }

  // ---------------------------------------------------------- the specification

  function DayOf(local: int): int {
    local / DAY
  }

  /** Sunday is 0; day 0 was a Thursday. */
  function WeekdayOf(day: int): int {
    (day + 4) % 7
  }

  predicate IsWeekend(day: int) {
    WeekdayOf(day) == 0 || WeekdayOf(day) == 6
  }

  /** The instants a daily or weekday schedule names. */
  predicate Matches(kind: Kind, clock: int, offset: int, t: Time) {
    && (t + offset) % DAY == clock
    && (kind.Weekdays? ==> !IsWeekend(DayOf(t + offset)))
  }

  /** The least matching instant strictly after `now`. */
  ghost predicate IsNext(kind: Kind, clock: int, offset: int, now: Time, t: Time) {
    && t > now && Matches(kind, clock, offset, t)
    && forall earlier | now < earlier < t :: !Matches(kind, clock, offset, earlier)
  }

  /** Every schedule that parses has a next instant within four days. */
  function Upcoming(kind: Kind, clock: int, offset: int, now: Time): Time {
    Skip(kind, FirstDay(clock, now + offset)) * DAY + clock - offset
  }

  function Skip(kind: Kind, day: int): int {
    if !kind.Weekdays? then day
    else if WeekdayOf(day) == 6 then day + 2
    else if WeekdayOf(day) == 0 then day + 1
    else day
  }

  lemma DayAndClock(day: int, clock: int)
    requires 0 <= clock < DAY
    ensures DayOf(day * DAY + clock) == day && (day * DAY + clock) % DAY == clock
  {
  }

  lemma MatchingInstant(kind: Kind, clock: int, offset: int, t: Time)
    requires 0 <= clock < DAY && Matches(kind, clock, offset, t)
    ensures t + offset == DayOf(t + offset) * DAY + clock
  {
  }

  lemma SameDayOrLater(a: int, b: int, clock: int)
    requires a * DAY + clock < b * DAY + clock
    ensures a < b
  {
  }

  function FirstDay(clock: int, local: int): int {
    if DayOf(local) * DAY + clock > local then DayOf(local) else DayOf(local) + 1
  }

  lemma DayIsReached(clock: int, local: int, day: int)
    requires 0 <= clock < DAY && day * DAY + clock > local
    ensures day >= FirstDay(clock, local)
  {
  }

  lemma FirstDayIsReached(clock: int, local: int, day: int)
    requires 0 <= clock < DAY && day >= FirstDay(clock, local)
    ensures day * DAY + clock > local
  {
  }

  /** Between the first day and the one that is taken there are only weekend days. */
  lemma SkippedAreWeekend(kind: Kind, first: int, day: int)
    ensures Skip(kind, first) >= first && (kind.Weekdays? ==> !IsWeekend(Skip(kind, first)))
    ensures first <= day < Skip(kind, first) ==> kind.Weekdays? && IsWeekend(day)
  {
  }

  lemma NoEarlierMatch(kind: Kind, clock: int, offset: int, now: Time, earlier: Time)
    requires 0 <= clock < DAY && now < earlier < Upcoming(kind, clock, offset, now)
    ensures !Matches(kind, clock, offset, earlier)
  {
    if Matches(kind, clock, offset, earlier) {
      MatchingInstant(kind, clock, offset, earlier);
      var day, first := DayOf(earlier + offset), FirstDay(clock, now + offset);
      DayIsReached(clock, now + offset, day);
      SameDayOrLater(day, Skip(kind, first), clock);
      SkippedAreWeekend(kind, first, day);
    }
  }

  lemma UpcomingIsNext(kind: Kind, clock: int, offset: int, now: Time)
    requires 0 <= clock < DAY
    ensures IsNext(kind, clock, offset, now, Upcoming(kind, clock, offset, now))
  {
    var first := FirstDay(clock, now + offset);
    SkippedAreWeekend(kind, first, first);
    DayAndClock(Skip(kind, first), clock);
    FirstDayIsReached(clock, now + offset, Skip(kind, first));
    forall earlier | now < earlier < Upcoming(kind, clock, offset, now) ensures !Matches(kind, clock, offset, earlier) {
      NoEarlierMatch(kind, clock, offset, now, earlier);
    }
  }

  lemma ClockIsInTheDay(hour: int, minute: int)
    requires 0 <= hour <= 23 && 0 <= minute <= 59
    ensures 0 <= TimeOfDay(hour, minute) < DAY
  {
  }

  // ------------------------------------------------------------------- NextRun

  /** The specification of the method below; None is an error. */
  function Next(schedule: Schedule, zones: Zones, now: Time, lastRun: Time): Option<Time> {
    match schedule.kind
    case Manual => Some(ZERO)
    case Interval =>
      if schedule.everyMinutes < 1 || schedule.everyMinutes > 525600 then None
      else Some((if lastRun != ZERO && lastRun > now then lastRun else now) + schedule.everyMinutes * MINUTE)
    case Unknown => None
    case kind =>
      var offset := zones(ZoneName(schedule.timezone));
      var clock := ParseClock(schedule.at);
      if offset.None? || clock.None? then None
      else Some(Upcoming(kind, TimeOfDay(clock.value.0, clock.value.1), offset.value, now))
  }

  function ZoneName(name: string): string {
    if Text.TrimSpace(name) == "" then "UTC" else Text.TrimSpace(name)
  }

  /** Whether a schedule is accepted does not depend on the instants. */
  lemma AcceptanceIsTimeless(schedule: Schedule, zones: Zones, now: Time, lastRun: Time, now': Time, lastRun': Time)
    ensures Next(schedule, zones, now, lastRun).Some? <==> Next(schedule, zones, now', lastRun').Some?
  {
  }

  /** Anything but a manual schedule moves on. */
  lemma NextIsLater(schedule: Schedule, zones: Zones, now: Time, lastRun: Time)
    requires !schedule.kind.Manual? && Next(schedule, zones, now, lastRun).Some?
    ensures Next(schedule, zones, now, lastRun).value > now
  {
    if schedule.kind.Daily? || schedule.kind.Weekdays? {
      var clock := ParseClock(schedule.at).value;
      ClockIsInTheDay(clock.0, clock.1);
      UpcomingIsNext(schedule.kind, TimeOfDay(clock.0, clock.1), zones(ZoneName(schedule.timezone)).value, now);
    }
  }

  /** The loop over the weekend. */
  method SkipWeekend(day: int) returns (r: int)
    ensures r == Skip(Weekdays, day)
    ensures r >= day && !IsWeekend(r) && forall d | day <= d < r :: IsWeekend(d)
  {
    r := day;
    while IsWeekend(r)
      invariant day <= r && Skip(Weekdays, r) == Skip(Weekdays, day)
      invariant forall d | day <= d < r :: IsWeekend(d)
      decreases Skip(Weekdays, day) - r
    {
      r := r + 1;
    }
  }

  /** `wall` is what the clock reads, should `now` be the zero time. */
  method NextRun(schedule: Schedule, zones: Zones, now: Time, lastRun: Time, wall: Time) returns (r: Option<Time>)
    ensures r == Next(schedule, zones, if now == ZERO then wall else now, lastRun)
  {
    var from := if now == ZERO then wall else now;
    match schedule.kind
    case Manual => return Some(ZERO);
    case Unknown => return None;
    case Interval =>
      if schedule.everyMinutes < 1 || schedule.everyMinutes > 525600 { return None; }
      var base := from;
      if lastRun != ZERO && lastRun > base { base := lastRun; }
      return Some(base + schedule.everyMinutes * MINUTE);
    case _ =>
      var offset := zones(ZoneName(schedule.timezone));
      var clock := ParseClock(schedule.at);
      if offset.None? || clock.None? { return None; }
      var candidate := NextCandidate(schedule.kind, TimeOfDay(clock.value.0, clock.value.1), offset.value, from);
      return Some(candidate);
  }

  method NextCandidate(kind: Kind, clock: int, offset: int, now: Time) returns (t: Time)
    ensures t == Upcoming(kind, clock, offset, now)
  {
    var day := DayOf(now + offset);
    if day * DAY + clock <= now + offset { day := day + 1; }
    if kind.Weekdays? { day := SkipWeekend(day); }
    t := day * DAY + clock - offset;
  }

  /** What a daily or weekday schedule promises. */
  lemma NextIsLeastMatch(schedule: Schedule, zones: Zones, now: Time, lastRun: Time)
    requires schedule.kind.Daily? || schedule.kind.Weekdays?
    ensures Next(schedule, zones, now, lastRun).Some? <==>
      zones(ZoneName(schedule.timezone)).Some? && ParseClock(schedule.at).Some?
    ensures Next(schedule, zones, now, lastRun).Some? ==>
      var clock := ParseClock(schedule.at).value;
      IsNext(schedule.kind, TimeOfDay(clock.0, clock.1), zones(ZoneName(schedule.timezone)).value, now,
             Next(schedule, zones, now, lastRun).value)
  {
    if Next(schedule, zones, now, lastRun).Some? {
      var clock := ParseClock(schedule.at).value;
      ClockIsInTheDay(clock.0, clock.1);
      UpcomingIsNext(schedule.kind, TimeOfDay(clock.0, clock.1), zones(ZoneName(schedule.timezone)).value, now);
    }
  }
}
