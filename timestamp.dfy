/**
 * The subtitle timestamp of all three scripts: `format_timestamp`,
 * `format_time_srt` and `format_time` are the same five lines, which split a
 * number of seconds with Python's floor division and modulo and print the
 * fields as HH:MM:SS,mmm.
 *
 * Seconds are exact reals here; the float rounding of the scripts is not part
 * of the model.
 */
module Timestamp {
  import opened Wrappers
  import opened Text

  /** The four integers the formatter prints. */
  datatype Clock = Clock(hours: int, minutes: int, secs: int, millis: int)

  /** Python's `x % d` for a positive divisor: `x - d * floor(x / d)`, never negative. */
  function FloatMod(x: real, d: real): (r: real)
    requires d > 0.0
    ensures 0.0 <= r < d
  {
    var q := (x / d).Floor as real;
    QuotientBounds(x, d);
    x - d * q
  }

  lemma QuotientBounds(x: real, d: real)
    requires d > 0.0
    ensures var q := (x / d).Floor as real; q * d <= x < q * d + d
  {
    var q := (x / d).Floor as real;
    assert q <= x / d < q + 1.0;
    ScaleUp(q, x / d, d);
    ScaleUpStrict(x / d, q + 1.0, d);
    assert x / d * d == x;
    assert (q + 1.0) * d == q * d + d;
    assert x < q * d + d;
  }

  lemma ScaleUp(a: real, b: real, d: real)
    requires d > 0.0 && a <= b
    ensures a * d <= b * d
  {
  }

  lemma ScaleUpStrict(a: real, b: real, d: real)
    requires d > 0.0 && a < b
    ensures a * d < b * d
  {
  }

  lemma ScaleDown(a: real, x: real, b: real, d: real)
    requires d > 0.0 && a * d <= x < b * d
    ensures a <= x / d < b
  {
    assert x == x / d * d;
    if x / d < a {
      ScaleUpStrict(x / d, a, d);
    }
    if b <= x / d {
      ScaleUp(b, x / d, d);
    }
  }

  /**
   * The fields exactly as the script computes them: `int(seconds // 3600)`,
   * `int((seconds % 3600) // 60)`, `int(seconds % 60)` and
   * `int((seconds % 1) * 1000)`. The last three operands are never negative,
   * so `int` (truncation) is the floor there.
   */
  function PythonFields(seconds: real): Clock {
    Clock((seconds / 3600.0).Floor,
          (FloatMod(seconds, 3600.0) / 60.0).Floor,
          FloatMod(seconds, 60.0).Floor,
          (FloatMod(seconds, 1.0) * 1000.0).Floor)
  }

  /** The same four fields, from the whole seconds and the fraction. */
  function Split(seconds: real): Clock {
    var n := seconds.Floor;
    Clock(n / 3600, n % 3600 / 60, n % 60, ((seconds - n as real) * 1000.0).Floor)
  }

  /** The number of seconds a clock reading stands for. */
  function ClockValue(c: Clock): real {
    (c.hours * 3600 + c.minutes * 60 + c.secs) as real + c.millis as real / 1000.0
  }

  /** Flooring a quotient by a positive integer is integer division of the floor. */
  lemma FloorDiv(x: real, d: int)
    requires d > 0
    ensures (x / d as real).Floor == x.Floor / d
  {
    var n := x.Floor;
    var q := n / d;
    assert q * d <= n < q * d + d;
    assert (q * d) as real == (q as real) * (d as real);
    assert (q * d + d) as real == (q as real + 1.0) * (d as real);
    ScaleDown(q as real, x, q as real + 1.0, d as real);
  }

  /** The floor of Python's modulo by a positive integer is the integer remainder of the floor. */
  lemma FloorMod(x: real, d: int)
    requires d > 0
    ensures FloatMod(x, d as real).Floor == x.Floor % d
  {
    FloorDiv(x, d);
    var q := x.Floor / d;
    assert FloatMod(x, d as real) == x - (d * q) as real;
  }

  /** Split computes what the script's expressions compute. */
  lemma SplitIsPython(seconds: real)
    ensures Split(seconds) == PythonFields(seconds)
  {
    var n := seconds.Floor;
    FloorDiv(seconds, 3600);
    FloorMod(seconds, 3600);
    FloorDiv(FloatMod(seconds, 3600.0), 60);
    FloorMod(seconds, 60);
    FloorDiv(seconds, 1);
    assert FloatMod(seconds, 1.0) == seconds - n as real;
  }

  /**
   * The fields are in range and together they are `seconds` truncated to
   * the millisecond: whole hours, minutes and seconds add up to the floor of
   * `seconds`, and the milliseconds are the first three decimals of the
   * fraction.
   */
  lemma SplitFields(seconds: real)
    ensures var c := Split(seconds);
      && 0 <= c.minutes < 60 && 0 <= c.secs < 60 && 0 <= c.millis < 1000
      && c.hours * 3600 + c.minutes * 60 + c.secs == seconds.Floor
      && ClockValue(c) <= seconds < ClockValue(c) + 0.001
  {
    var n := seconds.Floor;
    HmsSum(n);
    MillisBounds(seconds);
  }

  lemma HmsSum(n: int)
    ensures 0 <= n % 3600 / 60 < 60 && 0 <= n % 60 < 60
    ensures n / 3600 * 3600 + n % 3600 / 60 * 60 + n % 60 == n
  {
    var m := n % 3600;
    assert n == 3600 * (n / 3600) + m;
    assert m == 60 * (m / 60) + m % 60;
    assert n % 60 == m % 60;
  }

  lemma MillisBounds(x: real)
    ensures var millis := ((x - x.Floor as real) * 1000.0).Floor;
      && 0 <= millis < 1000
      && x.Floor as real + millis as real / 1000.0 <= x < x.Floor as real + millis as real / 1000.0 + 0.001
  {
  }

  /** The f-string `{hours:02d}:{minutes:02d}:{secs:02d},{millis:03d}`. */
  function Render(c: Clock): string {
    SignedPad(c.hours, 2) + ":" + SignedPad(c.minutes, 2) + ":" + SignedPad(c.secs, 2)
      + "," + SignedPad(c.millis, 3)
  }

  /** `format_timestamp(seconds)`, `format_time_srt(seconds)`, `format_time(seconds)`. */
  function FormatTimestamp(seconds: real): string {
    Render(Split(seconds))
  }

  /**
   * Reads a timestamp back: the last ten characters are `:MM:SS,mmm`, and
   * whatever precedes them is the (possibly longer, possibly signed) hours.
   */
  function ParseTimestamp(t: string): Option<Clock> {
    if |t| < 12 then None
    else
      var p := |t| - 10;
      if t[p] == ':' && t[p + 3] == ':' && t[p + 6] == ','
         && AllDigits(t[p + 1..p + 3]) && AllDigits(t[p + 4..p + 6]) && AllDigits(t[p + 7..])
      then
        match ParseInt(t[..p])
        case Some(h) =>
          Some(Clock(h, DigitsValue(t[p + 1..p + 3]), DigitsValue(t[p + 4..p + 6]), DigitsValue(t[p + 7..])))
        case None => None
      else None
  }

  /** A concatenation splits back at the length of its first part. */
  lemma Cut(a: string, b: string)
    ensures (a + b)[..|a|] == a && (a + b)[|a|..] == b
  {
  }

  /** A window inside a prefix is the same window of the whole. */
  lemma Window(s: string, i: nat, j: nat, k: nat)
    requires i <= j <= k <= |s|
    ensures s[..k][i..j] == s[i..j] && s[..k][..j] == s[..j]
  {
  }

  /** A stamp assembled from a numeral and fields of two, two and three digits reads back as those numbers. */
  lemma ParseParts(h: string, mm: string, ss: string, ms: string, c: Clock)
    requires |h| >= 2 && ParseInt(h) == Some(c.hours)
    requires |mm| == 2 && AllDigits(mm) && DigitsValue(mm) == c.minutes
    requires |ss| == 2 && AllDigits(ss) && DigitsValue(ss) == c.secs
    requires |ms| == 3 && AllDigits(ms) && DigitsValue(ms) == c.millis
    ensures ParseTimestamp(h + ":" + mm + ":" + ss + "," + ms) == Some(c)
  {
    var p := |h|;
    var u1 := h + ":";
    var u2 := u1 + mm;
    var u3 := u2 + ":";
    var u4 := u3 + ss;
    var u5 := u4 + ",";
    var t := u5 + ms;
    assert |t| == p + 10;
    Cut(u5, ms);
    Cut(u4, ",");
    Cut(u3, ss);
    Cut(u2, ":");
    Cut(u1, mm);
    Cut(h, ":");
    Window(t, p + 4, p + 6, p + 7);
    Window(u5, p + 4, p + 6, p + 6);
    assert t[p + 4..p + 6] == ss;
    Window(t, p + 1, p + 3, p + 7);
    Window(u5, p + 1, p + 3, p + 6);
    Window(u4, p + 1, p + 3, p + 4);
    Window(u3, p + 1, p + 3, p + 3);
    assert t[p + 1..p + 3] == mm;
    Window(t, 0, p, p + 7);
    Window(u5, 0, p, p + 6);
    Window(u4, 0, p, p + 4);
    Window(u3, 0, p, p + 3);
    Window(u2, 0, p, p + 1);
    assert t[..p] == h;
    assert t[p] == u1[p] == ':';
    assert t[p + 3] == u3[p + 3] == ':';
    assert t[p + 6] == u5[p + 6] == ',';
  }

  /** A clock in range renders with exactly two, two and three digits after the hours, and reads back. */
  lemma RenderRoundTrip(c: Clock)
    requires 0 <= c.minutes < 60 && 0 <= c.secs < 60 && 0 <= c.millis < 1000
    ensures |Render(c)| == |SignedPad(c.hours, 2)| + 10
    ensures ParseTimestamp(Render(c)) == Some(c)
  {
    ZeroPadExact(c.minutes, 2);
    ZeroPadExact(c.secs, 2);
    ZeroPadExact(c.millis, 3);
    SignedPadParses(c.hours, 2);
    ParseParts(SignedPad(c.hours, 2), ZeroPad(c.minutes, 2), ZeroPad(c.secs, 2), ZeroPad(c.millis, 3), c);
  }

  /** Hours below 100 take exactly two digits; the whole stamp is then twelve characters. */
  lemma HoursWidth(seconds: real)
    requires 0.0 <= seconds < 360000.0
    ensures |FormatTimestamp(seconds)| == 12
  {
    var c := Split(seconds);
    SplitFields(seconds);
    assert 0 <= c.hours < 100;
    ZeroPadExact(c.hours, 2);
    RenderRoundTrip(c);
  }

  /** From 100 hours on, the hours take three or more digits and the stamp grows past twelve characters. */
  lemma HoursWide(seconds: real)
    requires seconds >= 360000.0
    ensures |FormatTimestamp(seconds)| > 12
  {
    var c := Split(seconds);
    SplitFields(seconds);
    assert c.hours >= 100;
    var d := Decimal(c.hours);
    assert d == Decimal(c.hours / 10) + [DigitChar(c.hours % 10)];
    assert Decimal(c.hours / 10) == Decimal(c.hours / 100) + [DigitChar(c.hours / 10 % 10)];
    assert |d| >= 3;
    RenderRoundTrip(c);
  }

  /** A stamp holds no newline, has at least twelve characters and reads back as the split fields. */
  lemma TimestampOneLine(seconds: real)
    ensures OneLine(FormatTimestamp(seconds))
    ensures |FormatTimestamp(seconds)| >= 12
    ensures ParseTimestamp(FormatTimestamp(seconds)) == Some(Split(seconds))
  {
    var c := Split(seconds);
    SplitFields(seconds);
    RenderRoundTrip(c);
    var colon, comma := ":", ",";
    assert OneLine(colon) && OneLine(comma);
    var t := SignedPad(c.hours, 2);
    OneLineConcat(t, colon);
    t := t + colon;
    OneLineConcat(t, SignedPad(c.minutes, 2));
    t := t + SignedPad(c.minutes, 2);
    OneLineConcat(t, colon);
    t := t + colon;
    OneLineConcat(t, SignedPad(c.secs, 2));
    t := t + SignedPad(c.secs, 2);
    OneLineConcat(t, comma);
    t := t + comma;
    OneLineConcat(t, SignedPad(c.millis, 3));
    assert t + SignedPad(c.millis, 3) == Render(c);
  }
}
