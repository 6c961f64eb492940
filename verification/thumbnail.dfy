/** The hover preview (src/components/Controls/ThumbnailPreview.tsx): which
    thumbnail is shown for a time, and when nothing is shown at all. */
module Thumbnail {
  import opened Base
  import Clock

  /** The index the preview computes for time `t` over duration `d` with `n`
      thumbnails. With d = 0 the quotient is not finite: t > 0 gives
      +Infinity, which the cap turns into n - 1, while t = 0 (NaN) and t < 0
      (-Infinity) give no usable index (None). */
  function Index(t: real, d: real, n: nat): (i: Option<int>)
    requires n > 0
    ensures i.Some? ==> i.value <= n - 1
    ensures d == 0.0 ==> (i.Some? <==> t > 0.0)
    ensures d == 0.0 && t > 0.0 ==> i == Some(n - 1)
    ensures d != 0.0 ==> i.Some?
    ensures d != 0.0 && i.value < n - 1 ==>
      i.value as real <= (t / d) * n as real < i.value as real + 1.0
    ensures d != 0.0 && i.value == n - 1 ==> (n - 1) as real <= (t / d) * n as real
  {
    if d == 0.0 then (if t > 0.0 then Some(n - 1) else None)
    else
      var raw := ((t / d) * n as real).Floor;
      Some(if raw < n - 1 then raw else n - 1)
  }

  /** The thumbnail at a computed index; None where the array has no entry. */
  function Lookup(thumbnails: seq<string>, i: Option<int>): Option<string> {
    if i.Some? && 0 <= i.value < |thumbnails| then Some(thumbnails[i.value]) else None
  }

  datatype Preview = Hidden | Shown(url: Option<string>, timeText: string)

  /** The preview, hidden when not visible or when there are no thumbnails. */
  function Render(thumbnails: seq<string>, t: real, d: real, visible: bool): (p: Preview)
    ensures p.Hidden? <==> !visible || |thumbnails| == 0
    ensures p.Shown? ==> p.timeText == Clock.FormatTime(t)
    ensures p.Shown? ==> var i := Index(t, d, |thumbnails|);
      && (p.url.Some? <==> i.Some? && 0 <= i.value)
      && (p.url.Some? ==> p.url.value == thumbnails[i.value])
  {
    if !visible || |thumbnails| == 0 then Hidden
    else Shown(Lookup(thumbnails, Index(t, d, |thumbnails|)), Clock.FormatTime(t))
  }

  lemma ScaleMonotone(a: real, b: real, c: real)
    requires a <= b && c >= 0.0
    ensures a * c <= b * c
  {
    assert b * c - a * c == (b - a) * c;
  }

  lemma DivMonotone(a: real, b: real, d: real)
    requires a <= b && d > 0.0
    ensures a / d <= b / d
  {
    assert b / d - a / d == (b - a) / d;
  }

  /** For a positive duration and a non-negative time the index lies in
      [0, n - 1], so a thumbnail is always found. */
  lemma IndexInRange(thumbnails: seq<string>, t: real, d: real)
    requires |thumbnails| > 0 && d > 0.0 && t >= 0.0
    ensures var i := Index(t, d, |thumbnails|); i.Some? && 0 <= i.value < |thumbnails|
    ensures Render(thumbnails, t, d, true).url.Some?
  {
    DivMonotone(0.0, t, d);
    ScaleMonotone(0.0, t / d, |thumbnails| as real);
  }

  /** For a positive duration, a later time never selects an earlier
      thumbnail. */
  lemma IndexMonotone(t1: real, t2: real, d: real, n: nat)
    requires n > 0 && d > 0.0 && t1 <= t2
    ensures Index(t1, d, n).value <= Index(t2, d, n).value
  {
    DivMonotone(t1, t2, d);
    ScaleMonotone(t1 / d, t2 / d, n as real);
    var x1, x2 := (t1 / d) * n as real, (t2 / d) * n as real;
    assert x1.Floor <= x2.Floor;
  }

  /** The end of the media selects the last thumbnail. */
  lemma EndSelectsLast(t: real, d: real, n: nat)
    requires n > 0 && d > 0.0 && t == d
    ensures Index(t, d, n) == Some(n - 1)
  {
    assert t / d == 1.0;
  }

  /** With a zero duration, only a positive time finds a thumbnail: the last. */
  lemma ZeroDurationPicksLastOrNothing(thumbnails: seq<string>, t: real)
    requires |thumbnails| > 0
    ensures Lookup(thumbnails, Index(t, 0.0, |thumbnails|))
         == if t > 0.0 then Some(thumbnails[|thumbnails| - 1]) else None
  {
  }
}
