/** The timeline strip (src/components/Controls/SegmentVisualization.tsx):
    which segments are drawn, where, in which colour, and which are marked
    current or buffered. Markup and click handling are left out. */
module SegmentView {
  import opened Base
  import opened Segments
  import Bitrate

  /** One drawn segment: position and width in percent of the duration. */
  datatype Box = Box(left: real, width: real, color: string, current: bool, buffered: bool)

  /** The playhead lies in the closed interval of the segment. */
  predicate IsCurrent(seg: Segment, t: real) {
    t >= seg.start && t <= seg.end
  }

  /** Some range holds the instant `x`. */
  predicate InSomeRange(ranges: seq<Bitrate.Range>, x: real) {
    exists i :: 0 <= i < |ranges| && Bitrate.Holds(ranges[i], x)
  }

  /** The range holds the whole segment. */
  predicate Covers(r: Bitrate.Range, seg: Segment) {
    seg.start >= r.start && seg.end <= r.end
  }

  /** Some single buffered range holds the whole segment. */
  predicate IsBuffered(seg: Segment, ranges: seq<Bitrate.Range>) {
    exists i :: 0 <= i < |ranges| && Covers(ranges[i], seg)
  }

  function Draw(seg: Segment, duration: real, t: real, ranges: seq<Bitrate.Range>): Box
    requires duration > 0.0
  {
    Box((seg.start / duration) * 100.0, (seg.duration / duration) * 100.0,
        SegmentColor(seg.bitrate), IsCurrent(seg, t), IsBuffered(seg, ranges))
  }

  /** The rendered strip, or None when nothing is drawn: no segments or a
      duration that is not positive. */
  function Render(segs: seq<Segment>, duration: real, t: real, ranges: seq<Bitrate.Range>): (v: Option<seq<Box>>)
    ensures v.None? <==> |segs| == 0 || duration <= 0.0
    ensures v.Some? ==> |v.value| == |segs|
    ensures v.Some? ==> forall k :: 0 <= k < |segs| ==>
      && (v.value[k].current <==> segs[k].start <= t <= segs[k].end)
      && (v.value[k].buffered <==> exists i :: 0 <= i < |ranges| && ranges[i].start <= segs[k].start && segs[k].end <= ranges[i].end)
      && v.value[k].color == BitrateBand(segs[k].bitrate).Color()
  {
    if |segs| == 0 || duration <= 0.0 then None
    else Some(seq(|segs|, k requires 0 <= k < |segs| => Draw(segs[k], duration, t, ranges)))
  }

  /** At the boundary two adjacent well-formed segments share, both are
      current. */
  lemma BoundaryBothCurrent(a: Segment, b: Segment)
    requires a.start <= a.end && b.start <= b.end && b.start == a.end
    ensures IsCurrent(a, a.end) && IsCurrent(b, a.end)
  {
  }

  /** On a contiguous timeline, every shared boundary marks two segments
      current at once. */
  lemma ContiguousBoundaryCurrent(segs: seq<Segment>, k: nat, duration: real, ranges: seq<Bitrate.Range>)
    requires 0 < k < |segs| && duration > 0.0
    requires Contiguous(segs, 0.0)
    requires segs[k - 1].start <= segs[k - 1].end && segs[k].start <= segs[k].end
    ensures var v := Render(segs, duration, segs[k].start, ranges);
      v.Some? && v.value[k - 1].current && v.value[k].current
  {
    assert JoinsPrevious(segs, k);
  }

  /** A segment covered by two ranges that meet inside it is not buffered:
      [0, 10] against [0, 5] and [5, 10]. */
  lemma SplitCoverageNotBuffered(seg: Segment, ranges: seq<Bitrate.Range>)
    requires seg.start == 0.0 && seg.end == 10.0
    requires ranges == [Bitrate.Range(0.0, 5.0), Bitrate.Range(5.0, 10.0)]
    ensures forall x :: seg.start <= x <= seg.end ==> InSomeRange(ranges, x)
    ensures !IsBuffered(seg, ranges)
  {
    forall x | seg.start <= x <= seg.end
      ensures InSomeRange(ranges, x)
    {
      if x <= 5.0 {
        assert Bitrate.Holds(ranges[0], x);
      } else {
        assert Bitrate.Holds(ranges[1], x);
      }
    }
  }

  /** Adding ranges, before or after the existing ones, never un-buffers a
      segment. */
  lemma BufferedMonotone(seg: Segment, ranges: seq<Bitrate.Range>, before: seq<Bitrate.Range>, after: seq<Bitrate.Range>)
    requires IsBuffered(seg, ranges)
    ensures IsBuffered(seg, before + ranges + after)
  {
    var i :| 0 <= i < |ranges| && Covers(ranges[i], seg);
    assert (before + ranges + after)[|before| + i] == ranges[i];
  }

  /** On a timeline whose segments end at start plus duration, each box
      begins exactly where the previous one stops. */
  lemma BoxesAbut(segs: seq<Segment>, duration: real, t: real, ranges: seq<Bitrate.Range>, k: nat)
    requires duration > 0.0 && 0 < k < |segs|
    requires Contiguous(segs, 0.0)
    requires segs[k - 1].end == segs[k - 1].start + segs[k - 1].duration
    ensures var v := Render(segs, duration, t, ranges);
      v.Some? && v.value[k].left == v.value[k - 1].left + v.value[k - 1].width
  {
    assert JoinsPrevious(segs, k);
    var a, w := segs[k - 1].start, segs[k - 1].duration;
    assert (a + w) / duration == a / duration + w / duration;
  }

  /** The first box of a timeline that starts at 0 sits at the left edge. */
  lemma FirstBoxAtLeftEdge(segs: seq<Segment>, duration: real, t: real, ranges: seq<Bitrate.Range>)
    requires duration > 0.0 && |segs| > 0
    requires Contiguous(segs, 0.0)
    ensures var v := Render(segs, duration, t, ranges); v.Some? && v.value[0].left == 0.0
  {
  }

  /** Segments rebuilt from an HLS playlist carry no bitrate, so every one is
      drawn in the lowest band's colour. */
  lemma HlsSegmentsAllLow(manifest: string, parseFloat: string -> real, duration: real, t: real, ranges: seq<Bitrate.Range>)
    requires duration > 0.0
    ensures var segs := HlsSegments(manifest, parseFloat);
      var v := Render(segs, duration, t, ranges);
      forall k :: 0 <= k < |segs| ==> v.Some? && v.value[k].color == Low.Color()
  {
    var segs := HlsSegments(manifest, parseFloat);
    var v := Render(segs, duration, t, ranges);
    forall k | 0 <= k < |segs|
      ensures v.Some? && v.value[k].color == Low.Color()
    {
      assert Synthetic(segs[k]);
      assert BitrateBand(segs[k].bitrate) == Low;
    }
  }
}
