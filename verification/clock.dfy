/** Times of day as the fallback planner handles them: a running clock counted
    in minutes, rendered with `strftime("%H:%M")`. The clock is a `datetime`
    anchored on an arbitrary day, so rendering shows only the time of day and
    wraps past midnight. */
module Clock {
  import opened Wrappers

  const MinutesPerHour := 60
  const MinutesPerDay := 1440

  /** One decimal digit. */
  function DigitChar(d: int): char
    requires 0 <= d < 10
  {
    ('0' as int + d) as char
  }

  /** The value of a decimal digit character, if it is one. */
  function DigitValue(c: char): Option<int> {
    if '0' <= c <= '9' then Some(c as int - '0' as int) else None
  }

  /** A zero-padded two-digit field, as `%H` and `%M` print. */
  function TwoDigits(n: int): string
    requires 0 <= n < 100
  {
    [DigitChar(n / 10), DigitChar(n % 10)]
  }

  /** Reads a two-digit field back. */
  function ReadTwoDigits(a: char, b: char): Option<int> {
    match (DigitValue(a), DigitValue(b))
    case (Some(x), Some(y)) => Some(10 * x + y)
    case _ => None
  }

  /** `strftime("%H:%M")` of the clock `t` minutes after midnight of the
      anchor day; `t` may run past midnight or lie before it. */
  function Render(t: int): (s: string)
    ensures |s| == 5 && s[2] == ':'
  {
    var m := t % MinutesPerDay;
    TwoDigits(m / MinutesPerHour) + ":" + TwoDigits(m % MinutesPerHour)
  }

  /** The minute of the day an `HH:MM` string denotes, or None when the string
      is not a well-formed 24-hour time. */
  function Parse(s: string): (r: Option<int>)
    ensures r.Some? ==> 0 <= r.value < MinutesPerDay
  {
    if |s| != 5 || s[2] != ':' then None
    else match (ReadTwoDigits(s[0], s[1]), ReadTwoDigits(s[3], s[4]))
      case (Some(h), Some(m)) =>
        if h < 24 && m < MinutesPerHour then Some(h * MinutesPerHour + m) else None
      case _ => None
  }

  lemma TwoDigitsRoundTrip(n: int)
    requires 0 <= n < 100
    ensures ReadTwoDigits(TwoDigits(n)[0], TwoDigits(n)[1]) == Some(n)
  {
  }

  /** Rendering keeps exactly the time of day: reading the rendered string
      back gives the clock modulo one day. */
  lemma ParseRender(t: int)
    ensures Parse(Render(t)) == Some(t % MinutesPerDay)
  {
    var m := t % MinutesPerDay;
    TwoDigitsRoundTrip(m / MinutesPerHour);
    TwoDigitsRoundTrip(m % MinutesPerHour);
  }

  lemma TwoDigitsInverse(a: char, b: char)
    requires ReadTwoDigits(a, b).Some?
    ensures 0 <= ReadTwoDigits(a, b).value < 100
    ensures TwoDigits(ReadTwoDigits(a, b).value) == [a, b]
  {
  }

  /** Every well-formed time is the rendering of the minute it denotes. */
  lemma RenderParse(s: string)
    requires Parse(s).Some?
    ensures Render(Parse(s).value) == s
  {
    var h := ReadTwoDigits(s[0], s[1]).value;
    var m := ReadTwoDigits(s[3], s[4]).value;
    var t := h * MinutesPerHour + m;
    assert Parse(s) == Some(t);
    assert t % MinutesPerDay == t;
    assert t / MinutesPerHour == h && t % MinutesPerHour == m;
    TwoDigitsInverse(s[0], s[1]);
    TwoDigitsInverse(s[3], s[4]);
    assert s == [s[0], s[1]] + ":" + [s[3], s[4]];
  }

  /** The anchor of the fallback plan renders as `09:00`. */
  lemma RenderNine()
    ensures Render(9 * MinutesPerHour) == "09:00"
  {
  }

  /** Advancing a clock by `d` minutes advances its rendered time of day by
      `d` minutes, wrapping at midnight. */
  lemma ParseRenderShift(t: int, d: int)
    ensures Parse(Render(t)).Some?
    ensures Parse(Render(t + d)) == Some((Parse(Render(t)).value + d) % MinutesPerDay)
  {
    ParseRender(t);
    ParseRender(t + d);
    ShiftModDay(t, d);
  }

  /** Equal clocks render alike. This is only congruence of `Render`; proofs
      about the fallback schedule call it to name that step for the solver,
      which otherwise unfolds both renderings. */
  lemma RenderEqual(t: int, u: int)
    requires t == u
    ensures Render(t) == Render(u)
  {
  }

  /** Two clocks render alike exactly when they are a whole number of days
      apart. */
  lemma RenderSameIffSameTimeOfDay(t: int, u: int)
    ensures Render(t) == Render(u) <==> t % MinutesPerDay == u % MinutesPerDay
  {
    ParseRender(t);
    ParseRender(u);
  }

  /** Adding minutes to a clock and then rendering agrees with adding them to
      the rendered time of day, modulo one day. */
  lemma ShiftModDay(t: int, d: int)
    ensures (t + d) % MinutesPerDay == (t % MinutesPerDay + d) % MinutesPerDay
  {
    var q := t / MinutesPerDay;
    assert t == q * MinutesPerDay + t % MinutesPerDay;
    assert t + d == q * MinutesPerDay + (t % MinutesPerDay + d);
  }
}
