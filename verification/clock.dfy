/** formatTime, written identically in src/components/Controls/Playlist.tsx
    and src/components/Controls/ThumbnailPreview.tsx: seconds shown as
    "H:MM:SS" from one hour on and as "M:SS" below. */
module Clock {
  import opened Base
  import opened Text

  /** Math.trunc: the integer part, rounded toward zero. */
  function Trunc(x: real): (r: int)
    ensures 0.0 <= x ==> r as real <= x < r as real + 1.0
    ensures x < 0.0 ==> r as real - 1.0 < x <= r as real
  {
    if x >= 0.0 then x.Floor else -((-x).Floor)
  }

  /** The % operator on numbers: it keeps the sign of the dividend. */
  function JsRem(x: real, m: real): (r: real)
    requires m > 0.0
    ensures 0.0 <= x ==> 0.0 <= r < m
    ensures x < 0.0 ==> -m < r <= 0.0
    ensures Trunc(x / m) as real * m + r == x
  {
    var q := Trunc(x / m);
    ScaleBounds(x, m, q);
    x - m * q as real
  }

  lemma ScaleBounds(x: real, m: real, q: int)
    requires m > 0.0
    requires 0.0 <= x ==> q as real <= x / m < q as real + 1.0
    requires x < 0.0 ==> q as real - 1.0 < x / m <= q as real
    ensures 0.0 <= x ==> m * q as real <= x < m * q as real + m
    ensures x < 0.0 ==> m * q as real - m < x <= m * q as real
  {
    var y, qr := x / m, q as real;
    var lo, hi := if 0.0 <= x then qr else qr - 1.0, if 0.0 <= x then qr + 1.0 else qr;
    MulBetween(x, m, lo, hi);
  }

  /** Multiplying lo <= x / m <= hi through by m > 0. */
  lemma MulBetween(x: real, m: real, lo: real, hi: real)
    requires m > 0.0
    requires lo <= x / m <= hi
    ensures m * lo <= x <= m * hi
    ensures lo < x / m ==> m * lo < x
    ensures x / m < hi ==> x < m * hi
  {
    var y := x / m;
    assert m * y == x;
    assert m * y - m * lo == m * (y - lo);
    assert m * hi - m * y == m * (hi - y);
  }

  /** The three numbers formatTime prints. */
  datatype Parts = Parts(hours: int, minutes: int, secs: int)

  function PartsOf(seconds: real): Parts {
    Parts((seconds / 3600.0).Floor, (JsRem(seconds, 3600.0) / 60.0).Floor, JsRem(seconds, 60.0).Floor)
  }

  /** The text for three printed numbers: hours only when positive, the
      fields after the first padded to two digits. */
  function Show(p: Parts): string {
    if p.hours > 0 then
      IntToString(p.hours) + ":" + PadStart2(IntToString(p.minutes)) + ":" + PadStart2(IntToString(p.secs))
    else
      IntToString(p.minutes) + ":" + PadStart2(IntToString(p.secs))
  }

  function FormatTime(seconds: real): string {
    Show(PartsOf(seconds))
  }

  /** For a non-negative real, dividing and then flooring agrees with integer
      division of its floor. */
  lemma FloorDiv(x: real, k: int)
    requires x >= 0.0 && k > 0
    ensures (x / k as real).Floor == x.Floor / k
  {
    var n := x.Floor;
    var q := n / k;
    assert q * k <= n < q * k + k;
    assert (q * k) as real == q as real * k as real;
    assert ((q + 1) * k) as real == (q as real + 1.0) * k as real;
    assert q as real * k as real <= x < (q as real + 1.0) * k as real;
    DivBounds(x, k as real, q as real);
  }

  lemma DivBounds(x: real, k: real, q: real)
    requires k > 0.0 && q * k <= x < (q + 1.0) * k
    ensures q <= x / k < q + 1.0
  {
    var p := q + 1.0;
    assert x / k - q == (x - q * k) / k;
    assert p - x / k == (p * k - x) / k;
  }

  /** For x >= 0 the remainder's floor is the floor's remainder. */
  lemma RemFloor(x: real, k: int)
    requires x >= 0.0 && k > 0
    ensures JsRem(x, k as real).Floor == x.Floor % k
  {
    var n := x.Floor;
    FloorDiv(x, k);
    var q := n / k;
    assert JsRem(x, k as real) == x - k as real * q as real;
    assert (n - k * q) as real <= x - k as real * q as real < (n - k * q) as real + 1.0;
  }

  /** Hours, minutes and seconds of a whole number of seconds. */
  lemma WholeParts(n: int)
    requires n >= 0
    ensures (n / 3600) * 3600 + ((n % 3600) / 60) * 60 + n % 60 == n
    ensures 0 <= (n % 3600) / 60 <= 59 && n % 60 == (n % 3600) % 60
    ensures n / 3600 > 0 <==> n >= 3600
  {
    var r := n % 3600;
    assert n == (n / 3600) * 3600 + r;
    assert r == (r / 60) * 60 + r % 60;
    assert n % 60 == r % 60 by {
      assert n == ((n / 3600) * 60 + r / 60) * 60 + r % 60;
    }
  }

  /** For s >= 0 the printed numbers decompose floor(s): minutes and seconds
      lie in [0, 59], hours are non-negative, and hours are shown exactly
      from one hour on. */
  lemma ClockParts(seconds: real)
    requires seconds >= 0.0
    ensures var p := PartsOf(seconds);
      && 0 <= p.minutes <= 59 && 0 <= p.secs <= 59 && 0 <= p.hours
      && p.hours * 3600 + p.minutes * 60 + p.secs == seconds.Floor
      && (p.hours > 0 <==> seconds >= 3600.0)
  {
    var n := seconds.Floor;
    FloorDiv(seconds, 3600);
    RemFloor(seconds, 3600);
    FloorDiv(JsRem(seconds, 3600.0), 60);
    RemFloor(seconds, 60);
    WholeParts(n);
  }

  /** Reads a clock text back: "H:MM:SS" with an unpadded, non-empty hour
      field, or "M:SS"; None for anything else. */
  function ParseClock(text: string): (r: Option<int>)
    ensures r.Some? ==> r.value >= 0
  {
    var f := Split(text, ':');
    if |f| == 3 && f[0] != "" && IsDigits(f[0]) && |f[1]| == 2 && IsDigits(f[1]) && |f[2]| == 2 && IsDigits(f[2]) then
      Some(DigitsValue(f[0]) * 3600 + DigitsValue(f[1]) * 60 + DigitsValue(f[2]))
    else if |f| == 2 && f[0] != "" && IsDigits(f[0]) && |f[1]| == 2 && IsDigits(f[1]) then
      Some(DigitsValue(f[0]) * 60 + DigitsValue(f[1]))
    else None
  }

  /** A number below 100 prints with at most two digits. */
  lemma ShortNumber(n: nat)
    requires n < 100
    ensures |NatToString(n)| <= 2
  {
  }

  /** A padded field below 100: two digits with the field's value. */
  lemma PaddedField(n: int)
    requires 0 <= n < 100
    ensures var s := PadStart2(IntToString(n)); |s| == 2 && IsDigits(s) && DigitsValue(s) == n
  {
    ShortNumber(n);
    PadStart2Value(NatToString(n));
  }

  lemma SplitThree(a: string, b: string, c: string)
    requires ':' !in a && ':' !in b && ':' !in c
    ensures Split(a + ":" + b + ":" + c, ':') == [a, b, c]
  {
    assert a + ":" + b + ":" + c == a + [':'] + (b + [':'] + c);
    SplitCons(a, b + [':'] + c, ':');
    SplitCons(b, c, ':');
    SplitNoSeparator(c, ':');
  }

  lemma SplitTwo(a: string, b: string)
    requires ':' !in a && ':' !in b
    ensures Split(a + ":" + b, ':') == [a, b]
  {
    assert a + ":" + b == a + [':'] + b;
    SplitCons(a, b, ':');
    SplitNoSeparator(b, ':');
  }

  lemma DigitsHaveNoColon(s: string)
    requires IsDigits(s)
    ensures ':' !in s
  {
  }

  /** For s >= 0 the clock text reads back as the whole seconds: the padded
      fields have exactly two digits, and the leading field carries hours
      from one hour on and minutes below it. */
  lemma FormatParseRoundTrip(seconds: real)
    requires seconds >= 0.0
    ensures ParseClock(FormatTime(seconds)) == Some(seconds.Floor)
    ensures |Split(FormatTime(seconds), ':')| == if seconds >= 3600.0 then 3 else 2
  {
    var p := PartsOf(seconds);
    ClockParts(seconds);
    ShowReadBack(p);
    assert FormatTime(seconds) == Show(p);
  }

  /** Parts in range print as text that reads back as their seconds. */
  lemma ShowReadBack(p: Parts)
    requires 0 <= p.hours && 0 <= p.minutes <= 59 && 0 <= p.secs <= 59
    ensures ParseClock(Show(p)) == Some(p.hours * 3600 + p.minutes * 60 + p.secs)
    ensures |Split(Show(p), ':')| == if p.hours > 0 then 3 else 2
  {
    if p.hours > 0 {
      HoursReadBack(p);
    } else {
      MinutesReadBack(p);
    }
  }

  /** "H:MM:SS" reads back as its seconds. */
  lemma HoursReadBack(p: Parts)
    requires p.hours > 0 && 0 <= p.minutes <= 59 && 0 <= p.secs <= 59
    ensures ParseClock(Show(p)) == Some(p.hours * 3600 + p.minutes * 60 + p.secs)
    ensures |Split(Show(p), ':')| == 3
  {
    PaddedField(p.minutes);
    PaddedField(p.secs);
    var hs, ms, ss := IntToString(p.hours), PadStart2(IntToString(p.minutes)), PadStart2(IntToString(p.secs));
    assert Show(p) == hs + ":" + ms + ":" + ss;
    DigitsHaveNoColon(hs);
    DigitsHaveNoColon(ms);
    DigitsHaveNoColon(ss);
    SplitThree(hs, ms, ss);
  }

  /** "M:SS" reads back as its seconds. */
  lemma MinutesReadBack(p: Parts)
    requires p.hours == 0 && 0 <= p.minutes && 0 <= p.secs <= 59
    ensures ParseClock(Show(p)) == Some(p.hours * 3600 + p.minutes * 60 + p.secs)
    ensures |Split(Show(p), ':')| == 2
  {
    PaddedField(p.secs);
    var ms, ss := IntToString(p.minutes), PadStart2(IntToString(p.secs));
    assert Show(p) == ms + ":" + ss;
    DigitsHaveNoColon(ms);
    DigitsHaveNoColon(ss);
    SplitTwo(ms, ss);
  }

  /** Below one hour the minutes are not padded: 65 s prints as "1:05". */
  lemma MinutesUnpadded(seconds: real)
    requires seconds == 65.0
    ensures FormatTime(seconds) == "1:05"
  {
    ClockParts(seconds);
    var p := PartsOf(seconds);
    assert p.hours * 3600 + p.minutes * 60 + p.secs == 65;
    assert p.hours == 0 && p.minutes == 1 && p.secs == 5;
  }

  /** From one hour on every field after the hours is padded: 3725 s prints
      as "1:02:05". */
  lemma HoursPadded(seconds: real)
    requires seconds == 3725.0
    ensures FormatTime(seconds) == "1:02:05"
  {
    ClockParts(seconds);
    var p := PartsOf(seconds);
    assert p.hours * 3600 + p.minutes * 60 + p.secs == 3725;
    assert p.hours == 1 && p.minutes == 2 && p.secs == 5;
  }
}
