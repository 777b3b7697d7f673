/** Python's `datetime` and `date` as far as the backend uses them. */
module DateTimes {
  import opened Wrappers

  const MicrosPerSecond: nat := 1_000_000
  const MicrosPerDay: nat := 86_400_000_000

  /** A calendar date, as its day number counted from 1970-01-01 in the proleptic Gregorian
      calendar. */
  datatype Date = Date(dayNumber: int)

  /** A datetime: its wall-clock reading, in microseconds counted from 1970-01-01 00:00 on the
      same clock, and the UTC offset of its tzinfo in microseconds (None for a naive datetime). */
  datatype DateTime = DateTime(wall: int, offset: Option<int>)

  const Utc: Option<int> := Some(0)

  predicate IsAware(dt: DateTime) {
    dt.offset.Some?
  }

  predicate IsUtc(dt: DateTime) {
    dt.offset == Utc
  }

  /** The instant an aware datetime denotes, in microseconds since the Unix epoch. */
  function Instant(dt: DateTime): int
    requires IsAware(dt)
  {
    dt.wall - dt.offset.value
  }

  function DateOf(dt: DateTime): Date {
    Date(dt.wall / MicrosPerDay)
  }

  function TimeOfDay(dt: DateTime): nat {
    dt.wall % MicrosPerDay
  }

  /** `datetime.combine(d, t)` where `t` is a time of day in microseconds carrying `tz`. */
  function Combine(d: Date, timeOfDay: nat, tz: Option<int>): (dt: DateTime)
    requires timeOfDay < MicrosPerDay
    ensures DateOf(dt) == d && TimeOfDay(dt) == timeOfDay && dt.offset == tz
  {
    DateTime(d.dayNumber * MicrosPerDay + timeOfDay, tz)
  }

  /** `dt.replace(tzinfo=tz)`: the same wall clock under another tzinfo. */
  function ReplaceTz(dt: DateTime, tz: Option<int>): (r: DateTime)
    ensures DateOf(r) == DateOf(dt) && TimeOfDay(r) == TimeOfDay(dt) && r.offset == tz
  {
    DateTime(dt.wall, tz)
  }

  /** `dt.astimezone(timezone.utc)` of an aware datetime: the same instant, read on a UTC clock. */
  function AsUtc(dt: DateTime): (r: DateTime)
    requires IsAware(dt)
    ensures IsUtc(r) && Instant(r) == Instant(dt)
  {
    DateTime(Instant(dt), Utc)
  }
}
