/** The chat's 12-hour timestamp: `formatDate` of the conversation page,
    taken over the hour and minute fields of a `Date` rather than the
    `Date` itself, together with a reader that recovers the 24-hour time
    from the text it produces. */
module Clock {
  import opened Wrappers

  type Hour = h: int | 0 <= h < 24
  type Minute = m: int | 0 <= m < 60

  /** The two fields of a `Date` that the formatter reads (local time). */
  datatype Time = Time(hours: Hour, minutes: Minute)

  predicate IsDigit(c: char) {
    '0' <= c <= '9'
  }

  predicate AllDigits(s: string) {
    forall i :: 0 <= i < |s| ==> IsDigit(s[i])
  }

  function DigitChar(d: int): (c: char)
    requires 0 <= d < 10
    ensures IsDigit(c)
    ensures c as int - '0' as int == d
  {
    ('0' as int + d) as char
  }

  /** The number a digit string denotes (most significant digit first). */
  function DigitsValue(s: string): nat
    requires AllDigits(s)
  {
    if s == [] then 0
    else DigitsValue(s[..|s| - 1]) * 10 + (s[|s| - 1] as int - '0' as int)
  }

  /** How JavaScript renders a non-negative integer as text (`String(n)` or
      a template literal): the shortest decimal numeral, no leading zero. */
  function Decimal(n: nat): (s: string)
    ensures AllDigits(s)
    ensures 1 <= |s|
    ensures |s| == 1 <==> n < 10
    ensures n < 100 ==> |s| <= 2
    ensures |s| > 1 ==> s[0] != '0'
    decreases n
  {
    if n < 10 then [DigitChar(n)] else Decimal(n / 10) + [DigitChar(n % 10)]
  }

  /** Reading back a rendered number gives the number. */
  lemma {:induction false} DecimalValue(n: nat)
    ensures DigitsValue(Decimal(n)) == n
    decreases n
  {
    if n >= 10 {
      var s := Decimal(n);
      assert s[..|s| - 1] == Decimal(n / 10);
      DecimalValue(n / 10);
    }
  }

  /** The hour field: 0 and 12 both show as 12, every other hour as its
      remainder modulo 12. */
  function DisplayHour(hours: Hour): (h: int)
    ensures 1 <= h <= 12
    ensures h % 12 == hours % 12
    ensures h == 12 <==> (hours == 0 || hours == 12)
  {
    var h := hours % 12;
    if h != 0 then h else 12
  }

  /** The suffix: "PM" from noon on, "AM" before. */
  function Meridiem(hours: Hour): (s: string)
    ensures |s| == 2 && s[1] == 'M'
    ensures s == "PM" <==> hours >= 12
    ensures s == "AM" <==> hours < 12
  {
    if hours >= 12 then "PM" else "AM"
  }

  /** The minute field: always two digits, with a leading "0" exactly when
      the minute is below 10. */
  function MinuteField(minutes: Minute): (s: string)
    ensures |s| == 2 && AllDigits(s)
    ensures DigitsValue(s) == minutes
    ensures s[0] == '0' <==> minutes < 10
  {
    DecimalValue(minutes);
    if minutes < 10 then "0" + Decimal(minutes) else Decimal(minutes)
  }

  /** `formatDate`: the text `H:MM AM` or `H:MM PM`, whose separators sit
      at fixed distances from the end. */
  function FormatDate(t: Time): (s: string)
    ensures 7 <= |s| <= 8
    ensures s[|s| - 6] == ':' && s[|s| - 3] == ' ' && s[|s| - 1] == 'M'
  {
    Decimal(DisplayHour(t.hours)) + ":" + MinuteField(t.minutes) + " " + Meridiem(t.hours)
  }

  /** What each field of a formatted timestamp says: the hour field is the
      12-hour clock hour without a leading zero, the minute field is the
      minute in two digits (zero-padded below 10), and the suffix is "PM"
      exactly from noon on. */
  lemma FormatDateFields(t: Time)
    ensures var s := FormatDate(t);
      && AllDigits(s[..|s| - 6]) && s[0] != '0'
      && DigitsValue(s[..|s| - 6]) == DisplayHour(t.hours)
      && AllDigits(s[|s| - 5..|s| - 3])
      && DigitsValue(s[|s| - 5..|s| - 3]) == t.minutes
      && (s[|s| - 5] == '0' <==> t.minutes < 10)
      && s[|s| - 2..] == (if t.hours >= 12 then "PM" else "AM")
  {
    var hour := Decimal(DisplayHour(t.hours));
    var s := FormatDate(t);
    DecimalValue(DisplayHour(t.hours));
    assert s[..|s| - 6] == hour;
    assert s[|s| - 5..|s| - 3] == MinuteField(t.minutes);
    assert s[|s| - 2..] == Meridiem(t.hours);
  }

  /** The inverse reading of a displayed timestamp: the 24-hour time that
      `H:MM AM` / `H:MM PM` denotes, or `None` for any other text. */
  function ParseClock(s: string): (r: Option<Time>)
    ensures r.Some? ==> 7 <= |s| && s[|s| - 6] == ':'
  {
    if |s| < 7 then None
    else
      var k := |s| - 6;
      var hourText, minuteText, suffix := s[..k], s[k + 1..k + 3], s[k + 4..];
      if s[k] != ':' || s[k + 3] != ' ' || !AllDigits(hourText) || !AllDigits(minuteText) then None
      else
        var h, m := DigitsValue(hourText), DigitsValue(minuteText);
        if h < 1 || 12 < h || 60 <= m then None
        else if suffix == "AM" then Some(Time(h % 12, m))
        else if suffix == "PM" then Some(Time(h % 12 + 12, m))
        else None
  }

  /** Reading a formatted timestamp recovers the time it was made from: no
      two times of day share a display. */
  lemma FormatDateRoundTrip(t: Time)
    ensures ParseClock(FormatDate(t)) == Some(t)
  {
    FormatDateFields(t);
    var s := FormatDate(t);
    var k := |s| - 6;
    assert s[k + 4..] == s[|s| - 2..];
    assert s[k + 1..k + 3] == s[|s| - 5..|s| - 3];
  }

  /** Corollary: distinct times of day are displayed differently. */
  lemma FormatDateInjective(t: Time, u: Time)
    requires FormatDate(t) == FormatDate(u)
    ensures t == u
  {
    FormatDateRoundTrip(t);
    FormatDateRoundTrip(u);
  }
}
