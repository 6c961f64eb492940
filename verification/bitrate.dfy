/** Bitrate arithmetic and buffer look-ahead (src/utils/measureBitrate.ts).
    Numbers are idealised reals; Math.round is written out. */
module Bitrate {

  /** Math.round: the integer nearest to x, halves rounded up. */
  function Round(x: real): (r: int)
    ensures r as real - 0.5 <= x < r as real + 0.5
  {
    (x + 0.5).Floor
  }

  /** Rounding never decreases when its argument grows. */
  lemma RoundMonotone(x: real, y: real)
    requires x <= y
    ensures Round(x) <= Round(y)
  {
  }

  /** measureBitrate: bits per second, or 0 when the duration is not
      positive. */
  function MeasureBitrate(bytes: real, duration: real): (bps: int)
    ensures duration <= 0.0 ==> bps == 0
    ensures duration > 0.0 ==> bps as real - 0.5 <= bytes * 8.0 / duration < bps as real + 0.5
  {
    if duration <= 0.0 then 0 else Round((bytes * 8.0) / duration)
  }

  /** A non-negative byte count never measures a negative bitrate. */
  lemma MeasureNonNegative(bytes: real, duration: real)
    requires bytes >= 0.0
    ensures MeasureBitrate(bytes, duration) >= 0
  {
    if duration > 0.0 {
      assert bytes * 8.0 / duration >= 0.0;
    }
  }

  /** Over the same duration, more bytes never measure a lower bitrate. */
  lemma MeasureMonotone(b1: real, b2: real, duration: real)
    requires b1 <= b2
    ensures MeasureBitrate(b1, duration) <= MeasureBitrate(b2, duration)
  {
    if duration > 0.0 {
      DivideMonotone(b1 * 8.0, b2 * 8.0, duration);
      RoundMonotone(b1 * 8.0 / duration, b2 * 8.0 / duration);
    }
  }

  lemma DivideMonotone(x: real, y: real, d: real)
    requires x <= y && d > 0.0
    ensures x / d <= y / d
  {
    assert y / d - x / d == (y - x) / d;
  }

  /** The unit formatBitrate prints. */
  datatype Unit = Bps | Kbps | Mbps {
    /** Bits per second in one of this unit. */
    function Scale(): real {
      match this
      case Bps => 1.0
      case Kbps => 1000.0
      case Mbps => 1000000.0
    }
  }

  /** formatBitrate before the number is printed: the unit, chosen by the
      thresholds 1000 and 1 000 000, and the value in that unit. */
  function FormatBitrate(bitrate: real): (f: (real, Unit))
    ensures f.0 * f.1.Scale() == bitrate
    ensures f.1 == Bps <==> bitrate < 1000.0
    ensures f.1 == Kbps <==> 1000.0 <= bitrate < 1000000.0
    ensures f.1 == Mbps <==> 1000000.0 <= bitrate
  {
    if bitrate < 1000.0 then (bitrate, Bps)
    else if bitrate < 1000000.0 then (bitrate / 1000.0, Kbps)
    else (bitrate / 1000000.0, Mbps)
  }

  /** A value printed in kbps or Mbps is at least 1 and below 1000 units
      (for Mbps, at least 1 with no upper bound). */
  lemma FormatBitrateRange(bitrate: real)
    requires bitrate >= 1000.0
    ensures 1.0 <= FormatBitrate(bitrate).0
    ensures FormatBitrate(bitrate).1 == Kbps ==> FormatBitrate(bitrate).0 < 1000.0
  {
  }

  /** One buffered time range. */
  datatype Range = Range(start: real, end: real)

  predicate Holds(r: Range, t: real) {
    r.start <= t <= r.end
  }

  /** getBufferHealth: the milliseconds buffered ahead of `t` in the first
      range that holds it, or 0 when none does (in particular when there
      are no ranges). */
  method BufferHealth(ranges: seq<Range>, t: real) returns (ms: int)
    ensures ms >= 0
    ensures (forall i :: 0 <= i < |ranges| ==> !Holds(ranges[i], t)) ==> ms == 0
    ensures forall i :: 0 <= i < |ranges| && Holds(ranges[i], t)
                        && (forall j :: 0 <= j < i ==> !Holds(ranges[j], t))
                        ==> ms == Round((ranges[i].end - t) * 1000.0)
  {
    if |ranges| == 0 {
      return 0;
    }
    var i := 0;
    while i < |ranges|
      invariant 0 <= i <= |ranges|
      invariant forall j :: 0 <= j < i ==> !Holds(ranges[j], t)
    {
      var r := ranges[i];
      if t >= r.start && t <= r.end {
        ms := Round((r.end - t) * 1000.0);
        // the first holding range is this one
        forall k | 0 <= k < |ranges| && Holds(ranges[k], t) && (forall j :: 0 <= j < k ==> !Holds(ranges[j], t))
          ensures k == i
        {
        }
        return;
      }
      i := i + 1;
    }
    return 0;
  }
}
