/** Times of day and the midnight-wrapping duration rule shared by shifts, shift
    requests and the duration validator. */
module Clock {
  import opened Wrappers

  type Hour = h: int | 0 <= h < 24
  type Minute = m: int | 0 <= m < 60

  /** A `datetime.time` at minute precision (seconds are never set by the system). */
  datatype TimeOfDay = TimeOfDay(hour: Hour, minute: Minute)

  const MinutesPerDay: int := 24 * 60

  /** `t.hour * 60 + t.minute`. */
  function MinuteOfDay(t: TimeOfDay): (m: int)
    ensures 0 <= m < MinutesPerDay
  {
    t.hour * 60 + t.minute
  }

  /** Distinct times have distinct minute-of-day values. */
  lemma MinuteOfDayInjective(a: TimeOfDay, b: TimeOfDay)
    ensures MinuteOfDay(a) == MinuteOfDay(b) ==> a == b
  {
    if a.hour < b.hour {
      assert MinuteOfDay(a) < a.hour * 60 + 60 <= MinuteOfDay(b);
    } else if b.hour < a.hour {
      assert MinuteOfDay(b) < b.hour * 60 + 60 <= MinuteOfDay(a);
    }
  }

  /** Minutes worked from `start` to `end`; an end before the start is read as the next
      day (24 hours are added). The result is the unique span in [0, 24h) that carries
      the start's clock reading to the end's, and it is 0 exactly for equal times. */
  function SpanMinutes(start: TimeOfDay, end: TimeOfDay): (r: int)
    ensures 0 <= r < MinutesPerDay
    ensures (MinuteOfDay(start) + r) % MinutesPerDay == MinuteOfDay(end)
    ensures r == 0 <==> start == end
  {
    var s, e := MinuteOfDay(start), MinuteOfDay(end);
    var r := if e < s then e + MinutesPerDay - s else e - s;
    MinuteOfDayInjective(start, end);
    ModBelowTwoDays(s + r);
    r
  }

  /** `get_duration_hours` in minutes: 0 when either time is missing, otherwise the
      midnight-wrapping span. */
  function DurationMinutes(start: Option<TimeOfDay>, end: Option<TimeOfDay>): (r: int)
    ensures 0 <= r < MinutesPerDay
    ensures start.None? || end.None? ==> r == 0
    ensures start.Some? && end.Some? ==>
      (MinuteOfDay(start.value) + r) % MinutesPerDay == MinuteOfDay(end.value)
  {
    if start.None? || end.None? then 0 else SpanMinutes(start.value, end.value)
  }

  /** Reducing a minute count below two days modulo one day. */
  lemma ModBelowTwoDays(x: int)
    requires 0 <= x < 2 * MinutesPerDay
    ensures x % MinutesPerDay == if x < MinutesPerDay then x else x - MinutesPerDay
  {
    if x < MinutesPerDay {
      assert x == MinutesPerDay * 0 + x;
    } else {
      assert x == MinutesPerDay * 1 + (x - MinutesPerDay);
    }
  }

  /** The span is the only value in [0, 24h) that moves the start's reading to the end's. */
  lemma SpanMinutesUnique(start: TimeOfDay, end: TimeOfDay, r: int)
    requires 0 <= r < MinutesPerDay
    requires (MinuteOfDay(start) + r) % MinutesPerDay == MinuteOfDay(end)
    ensures r == SpanMinutes(start, end)
  {
    var s := SpanMinutes(start, end);
    ModBelowTwoDays(MinuteOfDay(start) + r);
    ModBelowTwoDays(MinuteOfDay(start) + s);
  }

  /** Crossing midnight: 22:00 to 02:00 is four hours. */
  lemma OvernightExample()
    ensures SpanMinutes(TimeOfDay(22, 0), TimeOfDay(2, 0)) == 4 * 60
  {
  }
}
