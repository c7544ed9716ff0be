/**
 * Instants as .NET ticks and the two text forms the diagnostics source
 * writes: the `yyyyMMdd` day key of an index and the ISO-8601 round-trip
 * ("O") text of a cursor.
 */
module TimeFormat {
  import opened Wrappers
  import opened Calendar

  const TicksPerSecond := 10_000_000
  const TicksPerMinute := 60 * TicksPerSecond
  const TicksPerHour := 60 * TicksPerMinute
  const TicksPerDay := 24 * TicksPerHour
  /** The ticks of 9999-12-31T23:59:59.9999999, the last instant `DateTime` holds. */
  const MaxTicks := DaysTo10000 * TicksPerDay - 1

  /** An instant a `DateTime` (or the UTC side of a `DateTimeOffset`) can hold. */
  predicate InRange(ticks: int) {
    0 <= ticks <= MaxTicks
  }

  /** The day number of the calendar day an instant falls on. */
  function DayOf(ticks: int): (day: int)
    requires InRange(ticks)
    ensures 0 <= day < DaysTo10000
  {
    ticks / TicksPerDay
  }

  /** An instant is its day's first tick plus its time of day. */
  lemma DayAndTimeOfDay(ticks: int)
    requires InRange(ticks)
    ensures DayOf(ticks) * TicksPerDay + ticks % TicksPerDay == ticks
  {
  }

  // ---- decimal digits ----

  function Pow10(w: nat): (p: nat)
    ensures p >= 1
  {
    if w == 0 then 1 else 10 * Pow10(w - 1)
  }

  lemma Pow10Values()
    ensures Pow10(2) == 100 && Pow10(4) == 10_000 && Pow10(7) == 10_000_000
  {
    assert Pow10(1) == 10;
    assert Pow10(3) == 1000;
    assert Pow10(5) == 100_000;
    assert Pow10(6) == 1_000_000;
  }

  predicate IsDigit(c: char) {
    '0' <= c <= '9'
  }

  predicate AllDigits(s: string) {
    forall i :: 0 <= i < |s| ==> IsDigit(s[i])
  }

  /** The value of a string of decimal digits, most significant first. */
  function DigitsValue(s: string): (v: nat)
    requires AllDigits(s)
  {
    if s == [] then 0
    else DigitsValue(s[..|s| - 1]) * 10 + (s[|s| - 1] as int - '0' as int)
  }

  /** `n` in exactly `w` decimal digits, zero-padded on the left (the `w` low digits when longer). */
  function Padded(n: nat, w: nat): (s: string)
    ensures |s| == w && AllDigits(s)
  {
    if w == 0 then "" else Padded(n / 10, w - 1) + [('0' as int + n % 10) as char]
  }

  /** A string of `w` digits is worth less than `10^w`. */
  lemma {:induction false} PaddedBound(s: string)
    requires AllDigits(s)
    ensures DigitsValue(s) < Pow10(|s|)
  {
    if s != [] {
      PaddedBound(s[..|s| - 1]);
    }
  }

  /** Reading back a zero-padded number gives the number, when it fits. */
  lemma {:induction false} PaddedValue(n: nat, w: nat)
    requires n < Pow10(w)
    ensures DigitsValue(Padded(n, w)) == n
  {
    if w > 0 {
      PaddedValue(n / 10, w - 1);
      var s := Padded(n, w);
      assert s[..|s| - 1] == Padded(n / 10, w - 1);
    }
  }

  // ---- the "yyyyMMdd" day key ----

  /** `ToString("yyyyMMdd")` of an instant on the given day. */
  function DayKey(day: int): (key: string)
    requires 0 <= day < DaysTo10000
    ensures |key| == 8
  {
    var d := CivilFromDays(day);
    Padded(d.year, 4) + Padded(d.month, 2) + Padded(d.day, 2)
  }

  /** The day a `yyyyMMdd` key names, or `None` for text that names no valid date. */
  function DayOfKey(key: string): Option<int> {
    if |key| == 8 && AllDigits(key) then
      var d := Date(DigitsValue(key[..4]), DigitsValue(key[4..6]), DigitsValue(key[6..]));
      if ValidDate(d) then Some(DayNumber(d)) else None
    else None
  }

  /** A day key reads back as its day. */
  lemma DayKeyRoundTrip(day: int)
    requires 0 <= day < DaysTo10000
    ensures DayOfKey(DayKey(day)) == Some(day)
  {
    var d := CivilFromDays(day);
    CivilFromDaysRoundTrip(day);
    var key := DayKey(day);
    Pow10Values();
    assert key[..4] == Padded(d.year, 4);
    assert key[4..6] == Padded(d.month, 2);
    assert key[6..] == Padded(d.day, 2);
    PaddedValue(d.year, 4);
    PaddedValue(d.month, 2);
    PaddedValue(d.day, 2);
  }

  /** Distinct days have distinct keys: a key determines its day. */
  lemma DayKeyInjective(a: int, b: int)
    requires 0 <= a < DaysTo10000 && 0 <= b < DaysTo10000
    requires DayKey(a) == DayKey(b)
    ensures a == b
  {
    DayKeyRoundTrip(a);
    DayKeyRoundTrip(b);
  }

  // ---- the ISO-8601 round-trip ("O") text ----

  /** The clock reading of a tick count within one day. */
  datatype ClockTime = ClockTime(hour: nat, minute: nat, second: nat, fraction: nat)

  predicate ValidClock(c: ClockTime) {
    c.hour < 24 && c.minute < 60 && c.second < 60 && c.fraction < TicksPerSecond
  }

  function ClockOf(timeOfDay: int): (c: ClockTime)
    requires 0 <= timeOfDay < TicksPerDay
    ensures ValidClock(c)
    ensures ((c.hour * 60 + c.minute) * 60 + c.second) * TicksPerSecond + c.fraction == timeOfDay
  {
    var seconds := timeOfDay / TicksPerSecond;
    ClockTime(seconds / 3600, seconds / 60 % 60, seconds % 60, timeOfDay % TicksPerSecond)
  }

  /** `yyyy-MM-dd` */
  function DateText(d: Date): (text: string)
    ensures |text| == 10
  {
    Padded(d.year, 4) + "-" + Padded(d.month, 2) + "-" + Padded(d.day, 2)
  }

  /** `HH:mm:ss.fffffff` */
  function ClockText(c: ClockTime): (text: string)
    ensures |text| == 16
  {
    Padded(c.hour, 2) + ":" + Padded(c.minute, 2) + ":" + Padded(c.second, 2) + "." + Padded(c.fraction, 7)
  }

  /**
   * `ToString("O")` of a `DateTimeOffset` with a zero offset, such as
   * `UtcNow`: `yyyy-MM-ddTHH:mm:ss.fffffff+00:00`.
   */
  function RoundTripText(ticks: int): (text: string)
    requires InRange(ticks)
    ensures |text| == 33
  {
    DateText(CivilFromDays(DayOf(ticks))) + "T" + ClockText(ClockOf(ticks % TicksPerDay)) + "+00:00"
  }

  /** The digits at `text[start..start + width]`, when they are all digits. */
  function Field(text: string, start: nat, width: nat): Option<nat>
    requires start + width <= |text|
  {
    var s := text[start..start + width];
    if AllDigits(s) then Some(DigitsValue(s)) else None
  }

  lemma FieldOfPadded(text: string, start: nat, n: nat, width: nat)
    requires start + width <= |text| && n < Pow10(width)
    requires text[start..start + width] == Padded(n, width)
    ensures Field(text, start, width) == Some(n)
  {
    PaddedValue(n, width);
  }

  /** Reads `yyyy-MM-dd`, rejecting text that names no representable date. */
  function ParseDate(text: string): (r: Option<Date>)
    ensures r.Some? ==> ValidDate(r.value)
  {
    if |text| != 10 || text[4] != '-' || text[7] != '-' then None
    else
      var year, month, day := Field(text, 0, 4), Field(text, 5, 2), Field(text, 8, 2);
      if year.None? || month.None? || day.None? then None
      else
        var d := Date(year.value, month.value, day.value);
        if ValidDate(d) then Some(d) else None
  }

  /** Reads `HH:mm:ss.fffffff`, rejecting out-of-range hours, minutes and seconds. */
  function ParseClock(text: string): (r: Option<ClockTime>)
    ensures r.Some? ==> ValidClock(r.value)
  {
    if |text| != 16 || text[2] != ':' || text[5] != ':' || text[8] != '.' then None
    else
      var hour, minute, second := Field(text, 0, 2), Field(text, 3, 2), Field(text, 6, 2);
      var fraction := Field(text, 9, 7);
      if hour.None? || minute.None? || second.None? || fraction.None? then None
      else if hour.value > 23 || minute.value > 59 || second.value > 59 then None
      else
        Pow10Values();
        PaddedBound(text[9..16]);
        Some(ClockTime(hour.value, minute.value, second.value, fraction.value))
  }

  /** Reads a `+HH:mm` or `-HH:mm` offset of at most 14 hours, in minutes east of UTC. */
  function ParseOffset(text: string): (r: Option<int>)
    ensures r.Some? ==> -14 * 60 <= r.value <= 14 * 60
  {
    if |text| != 6 || (text[0] != '+' && text[0] != '-') || text[3] != ':' then None
    else
      var hours, minutes := Field(text, 1, 2), Field(text, 4, 2);
      if hours.None? || minutes.None? || minutes.value > 59 || hours.value * 60 + minutes.value > 14 * 60 then None
      else if text[0] == '+' then Some(hours.value * 60 + minutes.value)
      else Some(-(hours.value * 60 + minutes.value))
  }

  /**
   * Reads a cursor written in the round-trip form with any whole-minute
   * offset of at most 14 hours, and gives the UTC instant it names, or
   * `None` when the text is not of that form or names no representable
   * instant.
   */
  function ParseRoundTrip(text: string): (r: Option<int>)
    ensures r.Some? ==> InRange(r.value)
  {
    if |text| != 33 || text[10] != 'T' then None
    else
      var date, clock, offset := ParseDate(text[..10]), ParseClock(text[11..27]), ParseOffset(text[27..]);
      if date.None? || clock.None? || offset.None? then None
      else InstantOf(date.value, clock.value, offset.value)
  }

  /**
   * The UTC instant of a local date and clock reading at an offset, when
   * both the local and the UTC instant are representable.
   */
  function InstantOf(d: Date, c: ClockTime, offsetMinutes: int): (r: Option<int>)
    requires ValidDate(d)
    ensures r.Some? ==> InRange(r.value)
  {
    var local := DayNumber(d) * TicksPerDay
      + ((c.hour * 60 + c.minute) * 60 + c.second) * TicksPerSecond + c.fraction;
    var utc := local - offsetMinutes * TicksPerMinute;
    if InRange(local) && InRange(utc) then Some(utc) else None
  }

  lemma ParseDateText(d: Date)
    requires ValidDate(d)
    ensures ParseDate(DateText(d)) == Some(d)
  {
    var text := DateText(d);
    Pow10Values();
    FieldOfPadded(text, 0, d.year, 4);
    FieldOfPadded(text, 5, d.month, 2);
    FieldOfPadded(text, 8, d.day, 2);
  }

  lemma ParseClockText(c: ClockTime)
    requires ValidClock(c)
    ensures ParseClock(ClockText(c)) == Some(c)
  {
    var text := ClockText(c);
    Pow10Values();
    FieldOfPadded(text, 0, c.hour, 2);
    FieldOfPadded(text, 3, c.minute, 2);
    FieldOfPadded(text, 6, c.second, 2);
    FieldOfPadded(text, 9, c.fraction, 7);
  }

  /** Where the date, clock and offset stand in the round-trip text. */
  lemma RoundTripTextParts(ticks: int)
    requires InRange(ticks)
    ensures var text := RoundTripText(ticks);
      && text[..10] == DateText(CivilFromDays(DayOf(ticks)))
      && text[10] == 'T'
      && text[11..27] == ClockText(ClockOf(ticks % TicksPerDay))
      && text[27..] == "+00:00"
  {
  }

  /** An instant's own date and clock reading, at offset zero, give it back. */
  lemma InstantOfParts(ticks: int)
    requires InRange(ticks)
    ensures ValidDate(CivilFromDays(DayOf(ticks)))
    ensures InstantOf(CivilFromDays(DayOf(ticks)), ClockOf(ticks % TicksPerDay), 0) == Some(ticks)
  {
    var day := DayOf(ticks);
    var d, c := CivilFromDays(day), ClockOf(ticks % TicksPerDay);
    CivilFromDaysRoundTrip(day);
    DayAndTimeOfDay(ticks);
    assert DayNumber(d) * TicksPerDay == day * TicksPerDay;
    assert DayNumber(d) * TicksPerDay + ((c.hour * 60 + c.minute) * 60 + c.second) * TicksPerSecond + c.fraction == ticks;
  }

  /** Reading back the round-trip text of an instant gives that instant. */
  lemma ParseRoundTripText(ticks: int)
    requires InRange(ticks)
    ensures ParseRoundTrip(RoundTripText(ticks)) == Some(ticks)
  {
    var d := CivilFromDays(DayOf(ticks));
    var c := ClockOf(ticks % TicksPerDay);
    RoundTripTextParts(ticks);
    CivilFromDaysRoundTrip(DayOf(ticks));
    ParseDateText(d);
    ParseClockText(c);
    ZeroOffset();
    InstantOfParts(ticks);
  }

  lemma ZeroOffset()
    ensures ParseOffset("+00:00") == Some(0)
  {
    var text := "+00:00";
    assert text[1..3] == "00" && text[4..6] == "00";
    assert "00"[..1] == "0" && "0"[..0] == "";
    assert DigitsValue("00") == 0;
    assert Field(text, 1, 2) == Some(0) && Field(text, 4, 2) == Some(0);
  }
}
