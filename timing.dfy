/**
  The arithmetic of the wake-up page, with no state: the "HH:MM" value of the time input,
  the alarm's target instant and the seconds left until it, the penalty countdown step,
  and the hours/minutes/seconds shown on screen.

  The clock is an integer count of milliseconds, `day * DayMs + msOfDay`, in which every
  day lasts exactly `DayMs` (no time zones, no daylight-saving jumps).
*/
module AlarmTiming {

  const SecondMs: nat := 1000
  const MinuteMs: nat := 60 * SecondMs
  const HourMs: nat := 60 * MinuteMs
  const DayMs: nat := 24 * HourMs

  /** Period of both `setInterval` polls of the page. */
  const TickMs: nat := 1000

  /** Initial value of the penalty countdown, in ticks. */
  const PenaltySeconds: nat := 10

  // ---------------------------------------------------------------------------
  // The "HH:MM" value of an <input type="time">

  predicate IsDigit(c: char) {
    '0' <= c <= '9'
  }

  function DigitValue(c: char): (d: nat)
    requires IsDigit(c)
    ensures d < 10
  {
    c as int - '0' as int
  }

  function DigitChar(d: nat): (c: char)
    requires d < 10
    ensures IsDigit(c) && DigitValue(c) == d
  {
    ('0' as int + d) as char
  }

  /** The number written by two decimal digits. */
  function TwoDigits(hi: char, lo: char): (n: nat)
    requires IsDigit(hi) && IsDigit(lo)
    ensures n < 100
  {
    10 * DigitValue(hi) + DigitValue(lo)
  }

  /** A time of day as the time input produces it: two-digit hours below 24, ':', two-digit minutes below 60. */
  predicate WellFormedTime(s: string) {
    && |s| == 5
    && IsDigit(s[0]) && IsDigit(s[1]) && s[2] == ':' && IsDigit(s[3]) && IsDigit(s[4])
    && TwoDigits(s[0], s[1]) < 24
    && TwoDigits(s[3], s[4]) < 60
  }

  /** The first number of `alarmTime.split(":").map(Number)`. */
  function ParseHours(s: string): (h: nat)
    requires WellFormedTime(s)
    ensures h < 24
  {
    TwoDigits(s[0], s[1])
  }

  /** The second number of `alarmTime.split(":").map(Number)`. */
  function ParseMinutes(s: string): (m: nat)
    requires WellFormedTime(s)
    ensures m < 60
  {
    TwoDigits(s[3], s[4])
  }

  /** The "HH:MM" text the time input holds for a time of day. */
  function FormatTime(h: nat, m: nat): (s: string)
    requires h < 24 && m < 60
    ensures WellFormedTime(s)
    ensures ParseHours(s) == h && ParseMinutes(s) == m
  {
    [DigitChar(h / 10), DigitChar(h % 10), ':', DigitChar(m / 10), DigitChar(m % 10)]
  }

  /** Parsing loses nothing: every well-formed value is the text of the time it parses to. */
  lemma FormatParsed(s: string)
    requires WellFormedTime(s)
    ensures FormatTime(ParseHours(s), ParseMinutes(s)) == s
  {
    var t := FormatTime(ParseHours(s), ParseMinutes(s));
    assert t[0] == s[0] && t[1] == s[1] && t[3] == s[3] && t[4] == s[4];
  }

  // ---------------------------------------------------------------------------
  // The alarm's target instant

  /** Milliseconds from midnight to HH:MM:00.000. */
  function OffsetOfDay(h: nat, m: nat): (off: nat)
    requires h < 24 && m < 60
    ensures off < DayMs
    ensures off % MinuteMs == 0
  {
    h * HourMs + m * MinuteMs
  }

  /** `t` is HH:MM:00.000 on some day. */
  predicate IsOccurrence(t: int, h: nat, m: nat)
    requires h < 24 && m < 60
  {
    t % DayMs == OffsetOfDay(h, m)
  }

  /** Two occurrences of the same time of day are at least a whole day apart. */
  lemma OccurrencesDayApart(a: int, b: int, h: nat, m: nat)
    requires h < 24 && m < 60
    requires IsOccurrence(a, h, m) && IsOccurrence(b, h, m) && b < a
    ensures a - b >= DayMs
  {
    DayAndOffset(a / DayMs, OffsetOfDay(h, m));
    DayAndOffset(b / DayMs, OffsetOfDay(h, m));
  }

  /** `q` whole days plus `r` milliseconds into the day is at `r` into day `q`. */
  lemma DayAndOffset(q: int, r: int)
    requires 0 <= r < DayMs
    ensures (q * DayMs + r) / DayMs == q
    ensures (q * DayMs + r) % DayMs == r
  {
  }

  /** Today's date with its time set to HH:MM:00.000 (`alarmDate.setHours(hours, minutes, 0, 0)`). */
  function TodayAt(now: int, h: nat, m: nat): (t: int)
    requires h < 24 && m < 60
    ensures IsOccurrence(t, h, m)
    ensures t / DayMs == now / DayMs
    ensures now - DayMs < t < now + DayMs
  {
    var day := now / DayMs;
    DayAndOffset(day, OffsetOfDay(h, m));
    day * DayMs + OffsetOfDay(h, m)
  }

  /**
    The instant the alarm-poll tick aims at: today at HH:MM, moved one day forward when
    it is not strictly after `now`. It is the first occurrence of HH:MM strictly after `now`.
  */
  function AlarmTarget(now: int, h: nat, m: nat): (t: int)
    requires h < 24 && m < 60
    ensures IsOccurrence(t, h, m)
    ensures now < t <= now + DayMs
  {
    var today := TodayAt(now, h, m);
    if today <= now then
      DayAndOffset(now / DayMs + 1, OffsetOfDay(h, m));
      today + DayMs
    else today
  }

  /** No occurrence of HH:MM falls strictly between `now` and the target. */
  lemma TargetIsNextOccurrence(now: int, h: nat, m: nat, t: int)
    requires h < 24 && m < 60
    requires IsOccurrence(t, h, m) && now < t
    ensures AlarmTarget(now, h, m) <= t
  {
    var target := AlarmTarget(now, h, m);
    if t < target {
      OccurrencesDayApart(target, t, h, m);
    }
  }

  /** `diff` of the alarm-poll tick: milliseconds from the sampled `now` to the target. */
  function Diff(now: int, h: nat, m: nat): (d: int)
    requires h < 24 && m < 60
    ensures 0 < d <= DayMs
  {
    AlarmTarget(now, h, m) - now
  }

  /** `Math.max(0, Math.floor(diff / 1000))`: the whole seconds in `diff`, or 0 when it is negative. */
  function SecondsRemaining(diff: int): (s: nat)
    ensures diff >= 0 ==> s * SecondMs <= diff < s * SecondMs + SecondMs
    ensures diff < 0 ==> s == 0
  {
    var q := diff / SecondMs;
    if q < 0 then 0 else q
  }

  /** The `timeRemaining` a tick at `now` shows: never negative and at most one day. */
  lemma TickRemainingBounded(now: int, h: nat, m: nat)
    requires h < 24 && m < 60
    ensures 0 <= SecondsRemaining(Diff(now, h, m)) <= DayMs / SecondMs
  {
    var d := Diff(now, h, m);
    var s := SecondsRemaining(d);
    assert s * SecondMs <= DayMs;
  }

  /**
    The fire test of the alarm-poll tick as the program writes it: `diff <= 0`, with `diff`
    measured to the target after the rollover. Since the target is strictly after `now`,
    it never holds.
  */
  function FiresAsWritten(now: int, h: nat, m: nat): (fires: bool)
    requires h < 24 && m < 60
    ensures !fires
  {
    Diff(now, h, m) <= 0
  }

  /**
    A tick sampled exactly at the alarm instant does not fire: it reports a full day
    (86400 seconds) to go, and the next occurrence is the following day's.
  */
  lemma NoFireAtAlarmInstant(day: int)
    ensures Diff(day * DayMs + 7 * HourMs, 7, 0) == DayMs
    ensures SecondsRemaining(Diff(day * DayMs + 7 * HourMs, 7, 0)) == 86400
    ensures !FiresAsWritten(day * DayMs + 7 * HourMs, 7, 0)
  {
    DayAndOffset(day, 7 * HourMs);
  }

  /** A tick one second after the alarm instant aims at the next day's occurrence, 86399 seconds away. */
  lemma OneSecondPastAlarm(day: int)
    ensures Diff(day * DayMs + 7 * HourMs + SecondMs, 7, 0) == DayMs - SecondMs
    ensures SecondsRemaining(Diff(day * DayMs + 7 * HourMs + SecondMs, 7, 0)) == 86399
  {
    DayAndOffset(day, 7 * HourMs + SecondMs);
  }

  /** The last occurrence of HH:MM at or before `now`. */
  function LastOccurrence(now: int, h: nat, m: nat): (t: int)
    requires h < 24 && m < 60
    ensures IsOccurrence(t, h, m)
    ensures t <= now < t + DayMs
  {
    var target := AlarmTarget(now, h, m);
    DayAndOffset(target / DayMs - 1, OffsetOfDay(h, m));
    target - DayMs
  }

  /** The latest occurrence is within the last tick period exactly when some occurrence of HH:MM is. */
  lemma LatestOccurrenceWithinTick(now: int, h: nat, m: nat)
    requires h < 24 && m < 60
    ensures now - LastOccurrence(now, h, m) < TickMs ==> exists t :: IsOccurrence(t, h, m) && t <= now < t + TickMs
    ensures (exists t :: IsOccurrence(t, h, m) && t <= now < t + TickMs) ==> now - LastOccurrence(now, h, m) < TickMs
  {
    var last := LastOccurrence(now, h, m);
    if t :| IsOccurrence(t, h, m) && t <= now < t + TickMs {
      if t < last {
        OccurrencesDayApart(last, t, h, m);
      } else if last < t {
        OccurrencesDayApart(t, last, h, m);
      }
    }
  }

  /**
    The fire test the poll evidently intends: fire on the tick whose sample is the first
    one at or after the alarm instant, i.e. exactly on samples within one tick period after
    an occurrence of HH:MM.
  */
  function IntendedFires(now: int, h: nat, m: nat): (fires: bool)
    requires h < 24 && m < 60
    ensures fires <==> exists t :: IsOccurrence(t, h, m) && t <= now < t + TickMs
  {
    LatestOccurrenceWithinTick(now, h, m);
    now - LastOccurrence(now, h, m) < TickMs
  }

  /** At the alarm instant itself, the intended test fires where the written one does not. */
  lemma IntendedFiresAtAlarmInstant(day: int)
    ensures IntendedFires(day * DayMs + 7 * HourMs, 7, 0)
  {
    var now := day * DayMs + 7 * HourMs;
    DayAndOffset(day, 7 * HourMs);
    assert IsOccurrence(now, 7, 0);
  }

  // ---------------------------------------------------------------------------
  // The penalty countdown

  /** One tick of the penalty countdown: `prev <= 1 ? 0 : prev - 1`. */
  function NextCountdown(prev: int): (next: int)
    ensures next >= 0
    ensures prev >= 1 ==> next == prev - 1
    ensures prev <= 0 ==> next == 0
  {
    if prev <= 1 then 0 else prev - 1
  }

  /** The countdown after `ticks` ticks from `start` (a tick at 0 leaves it at 0). */
  function CountdownAfter(start: int, ticks: nat): int
    decreases ticks
  {
    if ticks == 0 then start else CountdownAfter(NextCountdown(start), ticks - 1)
  }

  /** After `k` ticks a countdown from `start` shows `start - k`, clamped at 0. */
  lemma {:induction false} CountdownClosedForm(start: nat, ticks: nat)
    ensures CountdownAfter(start, ticks) == if ticks <= start then start - ticks else 0
    decreases ticks
  {
    if ticks > 0 {
      CountdownClosedForm(NextCountdown(start), ticks - 1);
    }
  }

  /** Started at most at 10, the countdown shows 0 after 10 ticks. */
  lemma CountdownReachesZero(start: nat)
    requires start <= PenaltySeconds
    ensures CountdownAfter(start, PenaltySeconds) == 0
  {
    CountdownClosedForm(start, PenaltySeconds);
  }

  /** The countdown never goes up and never goes below 0, however many ticks pass. */
  lemma CountdownNonIncreasing(start: nat, i: nat, j: nat)
    requires i <= j
    ensures 0 <= CountdownAfter(start, j) <= CountdownAfter(start, i) <= start
  {
    CountdownClosedForm(start, i);
    CountdownClosedForm(start, j);
  }

  // ---------------------------------------------------------------------------
  // The "Time remaining" display

  datatype Hms = Hms(hours: nat, minutes: nat, seconds: nat)

  /** `Math.floor(t / 3600)`h `Math.floor((t % 3600) / 60)`m `t % 60`s. */
  function Breakdown(t: nat): (r: Hms)
    ensures r.hours * 3600 + r.minutes * 60 + r.seconds == t
    ensures r.minutes < 60 && r.seconds < 60
  {
    Hms(t / 3600, (t % 3600) / 60, t % 60)
  }

  /** The breakdown is the only one with minutes and seconds below 60. */
  lemma BreakdownUnique(t: nat, r: Hms)
    requires r.minutes < 60 && r.seconds < 60
    requires r.hours * 3600 + r.minutes * 60 + r.seconds == t
    ensures r == Breakdown(t)
  {
    var b := Breakdown(t);
    var x := r.minutes * 60 + r.seconds;
    var y := b.minutes * 60 + b.seconds;
    assert x < 3600 && y < 3600;
    assert r.hours * 3600 + x == b.hours * 3600 + y;
    assert r.hours == b.hours;
    assert r.minutes == b.minutes;
  }

  /** What a tick can put on screen: at most 24 hours, and exactly 24h 0m 0s only for a full day. */
  lemma DisplayedHoursBounded(t: nat)
    requires t <= DayMs / SecondMs
    ensures Breakdown(t).hours <= 24
    ensures Breakdown(t).hours == 24 ==> Breakdown(t).minutes == 0 && Breakdown(t).seconds == 0
  {
    var r := Breakdown(t);
    assert r.hours * 3600 <= t;
  }
}
