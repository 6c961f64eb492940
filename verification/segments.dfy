/** Segment-timeline reconstruction from manifests (src/utils/fetchSegments.ts),
    with the network fetch stripped off: the manifest text, or the
    SegmentTemplate attributes of a DASH manifest, are inputs. */
module Segments {
  import opened Base
  import opened Text
  import opened M3u8

  /** SegmentInfo: an addressable chunk of media with its timing; size and
      bitrate are 0 when unknown. */
  datatype Segment = Segment(url: string, start: real, end: real, duration: real, size: real, bitrate: real)

  /** The segment-duration directive of section 4.3.2.1 of RFC 8216. */
  const ExtInf: string := "#EXTINF:"

  /** Sum of the durations of a segment list. */
  function TotalDuration(segs: seq<Segment>): real
    decreases |segs|
  {
    if |segs| == 0 then 0.0 else TotalDuration(segs[..|segs| - 1]) + segs[|segs| - 1].duration
  }

  lemma TotalDurationAppend(segs: seq<Segment>, s: Segment)
    ensures TotalDuration(segs + [s]) == TotalDuration(segs) + s.duration
  {
    assert (segs + [s])[..|segs|] == segs;
  }

  /** The timeline starts at `origin` and each segment starts where the
      previous one ends. */
  ghost predicate Contiguous(segs: seq<Segment>, origin: real) {
    && (|segs| > 0 ==> segs[0].start == origin)
    && forall k :: 0 < k < |segs| ==> JoinsPrevious(segs, k)
  }

  /** Segment `k` starts where segment `k - 1` ends. */
  ghost predicate JoinsPrevious(segs: seq<Segment>, k: nat)
    requires 0 < k < |segs|
  {
    segs[k].start == segs[k - 1].end
  }

  /** A segment whose end is its start plus its duration and whose size and
      bitrate are unknown. */
  ghost predicate Synthetic(s: Segment) {
    s.end == s.start + s.duration && s.size == 0.0 && s.bitrate == 0.0
  }

  /** Appending a segment that starts where the timeline ends keeps it contiguous. */
  lemma ContiguousAppend(segs: seq<Segment>, seg: Segment, origin: real)
    requires Contiguous(segs, origin)
    requires seg.start == if |segs| == 0 then origin else segs[|segs| - 1].end
    ensures Contiguous(segs + [seg], origin)
  {
    var all := segs + [seg];
    forall k | 0 < k < |all|
      ensures JoinsPrevious(all, k)
    {
      if k < |segs| {
        assert JoinsPrevious(segs, k);
      }
    }
  }

  // ---------------------------------------------------------------- HLS

  /** State of the line scan: the segments so far and the running start. */
  datatype HlsScan = HlsScan(segments: seq<Segment>, currentStart: real)

  /** `seg` is the segment for the duration tag at line `i`: its URI is the
      next line and its duration is parsed from the text after the directive. */
  ghost predicate FromTagLine(seg: Segment, kinds: seq<LineKind>, i: nat, parseFloat: string -> real) {
    && i + 1 < |kinds|
    && kinds[i].TagLine? && kinds[i + 1].UriLine?
    && seg.url == kinds[i + 1].uri
    && seg.duration == parseFloat(kinds[i].rest)
  }

  /** The `for` loop over the first `n` manifest lines. The k-th segment comes
      from the k-th paired duration tag, so tags without a URI after them
      emit nothing and leave the running start alone; the last segment ends
      at the running start. */
  function ScanHls(kinds: seq<LineKind>, n: nat, parseFloat: string -> real): (st: HlsScan)
    requires n <= |kinds|
    ensures forall k :: 0 <= k < |st.segments| ==> Synthetic(st.segments[k])
    ensures |st.segments| > 0 ==> st.segments[|st.segments| - 1].end == st.currentStart
    decreases n
  {
    if n == 0 then HlsScan([], 0.0)
    else
      var prev := ScanHls(kinds, n - 1, parseFloat);
      if PairAt(kinds, n - 1) then
        var d := parseFloat(kinds[n - 1].rest);
        var seg := Segment(kinds[n].uri, prev.currentStart, prev.currentStart + d, d, 0.0, 0.0);
        var segs := prev.segments + [seg];
        assert forall k :: 0 <= k < |prev.segments| ==> segs[k] == prev.segments[k];
        HlsScan(segs, prev.currentStart + d)
      else
        prev
  }

  /** One step of the scan: a paired tag at line `n` appends its segment at
      the running start; any other line changes nothing. */
  lemma ScanHlsStep(kinds: seq<LineKind>, n: nat, parseFloat: string -> real)
    requires n < |kinds|
    ensures var prev := ScanHls(kinds, n, parseFloat);
      ScanHls(kinds, n + 1, parseFloat)
      == if PairAt(kinds, n) then
           var d := parseFloat(kinds[n].rest);
           HlsScan(prev.segments + [Segment(kinds[n + 1].uri, prev.currentStart, prev.currentStart + d, d, 0.0, 0.0)],
                   prev.currentStart + d)
         else prev
  {
  }

  /** The k-th segment comes from the k-th paired duration tag: tags without
      a URI line after them emit nothing. */
  lemma {:induction false} ScanHlsPairs(kinds: seq<LineKind>, n: nat, parseFloat: string -> real)
    requires n <= |kinds|
    ensures var segs := ScanHls(kinds, n, parseFloat).segments; var e := Pairs(kinds, n);
      && |segs| == |e|
      && forall k :: 0 <= k < |e| ==> FromTagLine(segs[k], kinds, e[k], parseFloat)
    decreases n
  {
    if n > 0 {
      ScanHlsPairs(kinds, n - 1, parseFloat);
      var prev := ScanHls(kinds, n - 1, parseFloat);
      var e := Pairs(kinds, n - 1);
      if PairAt(kinds, n - 1) {
        var d := parseFloat(kinds[n - 1].rest);
        var seg := Segment(kinds[n].uri, prev.currentStart, prev.currentStart + d, d, 0.0, 0.0);
        var segs := prev.segments + [seg];
        assert ScanHls(kinds, n, parseFloat).segments == segs;
        assert Pairs(kinds, n) == e + [n - 1];
        forall k | 0 <= k < |e| + 1
          ensures FromTagLine(segs[k], kinds, (e + [n - 1])[k], parseFloat)
        {
          if k < |e| {
            assert segs[k] == prev.segments[k] && (e + [n - 1])[k] == e[k];
          }
        }
      } else {
        assert ScanHls(kinds, n, parseFloat) == prev;
        assert Pairs(kinds, n) == e;
      }
    }
  }

  /** The running start is the sum of the emitted durations. */
  lemma {:induction false} ScanHlsTotal(kinds: seq<LineKind>, n: nat, parseFloat: string -> real)
    requires n <= |kinds|
    ensures ScanHls(kinds, n, parseFloat).currentStart == TotalDuration(ScanHls(kinds, n, parseFloat).segments)
    decreases n
  {
    if n > 0 {
      ScanHlsTotal(kinds, n - 1, parseFloat);
      var prev := ScanHls(kinds, n - 1, parseFloat);
      if PairAt(kinds, n - 1) {
        var d := parseFloat(kinds[n - 1].rest);
        var seg := Segment(kinds[n].uri, prev.currentStart, prev.currentStart + d, d, 0.0, 0.0);
        assert ScanHls(kinds, n, parseFloat) == HlsScan(prev.segments + [seg], prev.currentStart + d);
        TotalDurationAppend(prev.segments, seg);
      }
    }
  }

  /** Each segment starts where the previous one ended, the first at 0. */
  lemma {:induction false} ScanHlsContiguous(kinds: seq<LineKind>, n: nat, parseFloat: string -> real)
    requires n <= |kinds|
    ensures Contiguous(ScanHls(kinds, n, parseFloat).segments, 0.0)
    decreases n
  {
    if n > 0 {
      ScanHlsContiguous(kinds, n - 1, parseFloat);
      var prev := ScanHls(kinds, n - 1, parseFloat);
      if PairAt(kinds, n - 1) {
        var d := parseFloat(kinds[n - 1].rest);
        var seg := Segment(kinds[n].uri, prev.currentStart, prev.currentStart + d, d, 0.0, 0.0);
        assert ScanHls(kinds, n, parseFloat).segments == prev.segments + [seg];
        ScanHlsTotal(kinds, n - 1, parseFloat);
        ContiguousAppend(prev.segments, seg, 0.0);
      } else {
        assert ScanHls(kinds, n, parseFloat) == prev;
      }
    } else {
      assert ScanHls(kinds, n, parseFloat).segments == [];
    }
  }

  /** fetchHlsSegments once the manifest text has arrived. */
  function HlsSegments(manifest: string, parseFloat: string -> real): (segs: seq<Segment>)
    ensures var kinds := Lines(manifest, ExtInf); var e := Pairs(kinds, |kinds|);
      && |segs| == |e|
      && forall k :: 0 <= k < |e| ==> FromTagLine(segs[k], kinds, e[k], parseFloat)
    ensures forall k :: 0 <= k < |segs| ==> Synthetic(segs[k])
    ensures Contiguous(segs, 0.0)
    ensures |segs| > 0 ==> segs[|segs| - 1].end == TotalDuration(segs)
  {
    var kinds := Lines(manifest, ExtInf);
    ScanHlsComplete(kinds, parseFloat);
    ScanHls(kinds, |kinds|, parseFloat).segments
  }

  /** The scan over every line: one segment per paired tag, synthetic,
      contiguous from 0, the last ending at the total duration. */
  lemma ScanHlsComplete(kinds: seq<LineKind>, parseFloat: string -> real)
    ensures var segs := ScanHls(kinds, |kinds|, parseFloat).segments; var e := Pairs(kinds, |kinds|);
      && |segs| == |e|
      && (forall k :: 0 <= k < |e| ==> FromTagLine(segs[k], kinds, e[k], parseFloat))
      && Contiguous(segs, 0.0)
      && (|segs| > 0 ==> segs[|segs| - 1].end == TotalDuration(segs))
  {
    ScanHlsPairs(kinds, |kinds|, parseFloat);
    ScanHlsTotal(kinds, |kinds|, parseFloat);
    ScanHlsContiguous(kinds, |kinds|, parseFloat);
  }

  /** What follows "#EXTINF:" on a duration line: no line break, and no
      trailing white space for the trim to remove. */
  predicate DurationText(d: string) {
    '\n' !in d && (d == [] || !IsSpace(d[|d| - 1]))
  }

  /** A URI alone on its line: non-empty, not a comment, nothing to trim. */
  predicate UriText(u: string) {
    u != [] && '\n' !in u && u[0] != '#' && !IsSpace(u[0]) && !IsSpace(u[|u| - 1])
  }

  /** A playlist of two duration lines, each followed by its URI, yields the
      two URIs back to back from 0: the first on [0, a], the second on
      [a, a + b], where a and b are the parsed durations. */
  lemma TwoSegmentPlaylist(manifest: string, d0: string, u0: string, d1: string, u1: string, parseFloat: string -> real)
    requires DurationText(d0) && UriText(u0) && DurationText(d1) && UriText(u1)
    requires manifest == Join([ExtInf + d0, u0, ExtInf + d1, u1], '\n')
    ensures var a, b := parseFloat(d0), parseFloat(d1);
      HlsSegments(manifest, parseFloat)
      == [Segment(u0, 0.0, a, a, 0.0, 0.0), Segment(u1, a, a + b, b, 0.0, 0.0)]
  {
    var kinds := TwoSegmentLines(manifest, d0, u0, d1, u1);
    TwoSegmentFirstPair(kinds, d0, u0, d1, u1, parseFloat);
    TwoSegmentSecondPair(kinds, d0, u0, d1, u1, parseFloat);
  }

  /** The lines of that playlist as the duration-tag scan classifies them. */
  predicate TwoSegmentKinds(kinds: seq<LineKind>, d0: string, u0: string, d1: string, u1: string) {
    && |kinds| == 4
    && kinds[0] == TagLine(d0) && kinds[1] == UriLine(u0)
    && kinds[2] == TagLine(d1) && kinds[3] == UriLine(u1)
  }

  /** The first two lines give the first segment. */
  lemma TwoSegmentFirstPair(kinds: seq<LineKind>, d0: string, u0: string, d1: string, u1: string, parseFloat: string -> real)
    requires TwoSegmentKinds(kinds, d0, u0, d1, u1)
    ensures var a := parseFloat(d0);
      ScanHls(kinds, 2, parseFloat) == HlsScan([Segment(u0, 0.0, a, a, 0.0, 0.0)], a)
  {
    assert ScanHls(kinds, 0, parseFloat) == HlsScan([], 0.0);
    assert PairAt(kinds, 0) && !PairAt(kinds, 1);
  }

  /** The next two lines append the second segment. */
  lemma TwoSegmentSecondPair(kinds: seq<LineKind>, d0: string, u0: string, d1: string, u1: string, parseFloat: string -> real)
    requires TwoSegmentKinds(kinds, d0, u0, d1, u1)
    requires var a := parseFloat(d0);
      ScanHls(kinds, 2, parseFloat) == HlsScan([Segment(u0, 0.0, a, a, 0.0, 0.0)], a)
    ensures var a, b := parseFloat(d0), parseFloat(d1);
      ScanHls(kinds, 4, parseFloat)
      == HlsScan([Segment(u0, 0.0, a, a, 0.0, 0.0), Segment(u1, a, a + b, b, 0.0, 0.0)], a + b)
  {
    TwoSegmentThirdLine(kinds, d0, u0, d1, u1, parseFloat);
    TwoSegmentLastLine(kinds, d0, u0, d1, u1, parseFloat);
  }

  /** The third line, paired with the fourth, appends the second segment. */
  lemma TwoSegmentThirdLine(kinds: seq<LineKind>, d0: string, u0: string, d1: string, u1: string, parseFloat: string -> real)
    requires TwoSegmentKinds(kinds, d0, u0, d1, u1)
    requires var a := parseFloat(d0);
      ScanHls(kinds, 2, parseFloat) == HlsScan([Segment(u0, 0.0, a, a, 0.0, 0.0)], a)
    ensures var a, b := parseFloat(d0), parseFloat(d1);
      ScanHls(kinds, 3, parseFloat)
      == HlsScan([Segment(u0, 0.0, a, a, 0.0, 0.0), Segment(u1, a, a + b, b, 0.0, 0.0)], a + b)
  {
    var a, b := parseFloat(d0), parseFloat(d1);
    var seg0, seg1 := Segment(u0, 0.0, a, a, 0.0, 0.0), Segment(u1, a, a + b, b, 0.0, 0.0);
    assert PairAt(kinds, 2);
    ScanHlsStep(kinds, 2, parseFloat);
    assert [seg0] + [seg1] == [seg0, seg1];
  }

  /** The last line, a URI with nothing after it, changes nothing. */
  lemma TwoSegmentLastLine(kinds: seq<LineKind>, d0: string, u0: string, d1: string, u1: string, parseFloat: string -> real)
    requires TwoSegmentKinds(kinds, d0, u0, d1, u1)
    ensures ScanHls(kinds, 4, parseFloat) == ScanHls(kinds, 3, parseFloat)
  {
    assert !PairAt(kinds, 3);
    ScanHlsStep(kinds, 3, parseFloat);
  }

  /** How the duration-tag scan classifies the lines of that playlist. */
  lemma TwoSegmentLines(manifest: string, d0: string, u0: string, d1: string, u1: string) returns (kinds: seq<LineKind>)
    requires DurationText(d0) && UriText(u0) && DurationText(d1) && UriText(u1)
    requires manifest == Join([ExtInf + d0, u0, ExtInf + d1, u1], '\n')
    ensures kinds == Lines(manifest, ExtInf)
    ensures TwoSegmentKinds(kinds, d0, u0, d1, u1)
  {
    var raw := TwoSegmentSplit(manifest, d0, u0, d1, u1);
    kinds := Lines(manifest, ExtInf);
    assert kinds[0] == TagLine(d0) by { ClassifyDuration(d0); }
    assert kinds[1] == UriLine(u0) by { ClassifyUri(u0); }
    assert kinds[2] == TagLine(d1) by { ClassifyDuration(d1); }
    assert kinds[3] == UriLine(u1) by { ClassifyUri(u1); }
  }

  /** Such a playlist splits back into its four lines. */
  lemma TwoSegmentSplit(manifest: string, d0: string, u0: string, d1: string, u1: string) returns (raw: seq<string>)
    requires DurationText(d0) && UriText(u0) && DurationText(d1) && UriText(u1)
    requires manifest == Join([ExtInf + d0, u0, ExtInf + d1, u1], '\n')
    ensures raw == Split(manifest, '\n') && |raw| == 4
    ensures raw[0] == ExtInf + d0 && raw[1] == u0 && raw[2] == ExtInf + d1 && raw[3] == u1
  {
    raw := [ExtInf + d0, u0, ExtInf + d1, u1];
    assert '\n' !in ExtInf;
    SplitJoin(raw, '\n');
  }

  /** A duration tag line with no trailing white space. */
  lemma ClassifyDuration(rest: string)
    requires rest == [] || !IsSpace(rest[|rest| - 1])
    ensures Classify(ExtInf + rest, ExtInf) == TagLine(rest)
  {
    var l := ExtInf + rest;
    assert l[0] == '#' && l[|l| - 1] == if rest == [] then ':' else rest[|rest| - 1];
    ClassifyTrimmed(l, ExtInf);
    assert l[..|ExtInf|] == ExtInf && l[|ExtInf|..] == rest;
  }

  /** A URI line with no surrounding white space. */
  lemma ClassifyUri(u: string)
    requires u != [] && u[0] != '#' && !IsSpace(u[0]) && !IsSpace(u[|u| - 1])
    ensures Classify(u, ExtInf) == UriLine(u)
  {
    ClassifyTrimmed(u, ExtInf);
  }

  // ---------------------------------------------------------------- DASH

  /** The outcome of parseInt(attribute || default): the default applies when
      the attribute is absent or empty; text that is not a number gives NaN. */
  datatype IntAttr = Missing | Parsed(n: int) | NotANumber

  /** The two SegmentTemplate attributes the loop reads (section 5.3.9.4 of
      ISO/IEC 23009-1), already extracted from the XML. */
  datatype Template = Template(timescale: IntAttr, duration: IntAttr)

  function TimescaleOf(t: Template): Option<int> {
    match t.timescale
    case Missing => Some(1)
    case Parsed(n) => Some(n)
    case NotANumber => None
  }

  function DurationOf(t: Template): Option<int> {
    match t.duration
    case Missing => Some(0)
    case Parsed(n) => Some(n)
    case NotANumber => None
  }

  /** `duration > 0 && timescale > 0`; a NaN compares false. */
  predicate Usable(t: Template) {
    && TimescaleOf(t).Some? && TimescaleOf(t).value > 0
    && DurationOf(t).Some? && DurationOf(t).value > 0
  }

  /** Seconds per segment of a usable template. */
  function SegmentSeconds(t: Template): (d: real)
    requires Usable(t)
    ensures d > 0.0
  {
    DurationOf(t).value as real / TimescaleOf(t).value as real
  }

  /** The synthetic name of the segment for template position `i`. */
  function DashUrl(i: nat): string {
    "segment-" + NatToString(i) + ".m4s"
  }

  /** The template positions below `n` that yield a segment, ascending. */
  function UsableTemplates(ts: seq<Template>, n: nat): (e: seq<nat>)
    requires n <= |ts|
    ensures forall k :: 0 <= k < |e| ==> e[k] < n && Usable(ts[e[k]])
    ensures forall k, l :: 0 <= k < l < |e| ==> e[k] < e[l]
    decreases n
  {
    if n == 0 then []
    else UsableTemplates(ts, n - 1) + (if Usable(ts[n - 1]) then [n - 1] else [])
  }

  /** Conversely, every usable template below `n` is listed. */
  lemma {:induction false} UsableTemplatesComplete(ts: seq<Template>, n: nat, i: nat)
    requires i < n <= |ts| && Usable(ts[i])
    ensures i in UsableTemplates(ts, n)
    decreases n
  {
    if i < n - 1 {
      UsableTemplatesComplete(ts, n - 1, i);
    }
  }

  /** The segment a usable template at position `i` yields: it occupies the
      i-th slot of its own length d = duration/timescale, [i·d, (i+1)·d]. */
  function DashSegment(i: nat, d: real): (seg: Segment)
    requires d > 0.0
    ensures seg.url == DashUrl(i) && seg.duration == d
    ensures seg.start == i as real * d
    ensures seg.end == (i + 1) as real * d
    ensures Synthetic(seg) && seg.start >= 0.0 && seg.duration > 0.0
  {
    assert (i + 1) as real * d == i as real * d + d;
    Segment(DashUrl(i), i as real * d, (i + 1) as real * d, d, 0.0, 0.0)
  }

  /** The `for` loop over the first `n` templates. A skipped template still
      uses up its position: the k-th segment comes from the k-th usable
      template and sits in the slot of that template's position. */
  function ScanDash(ts: seq<Template>, n: nat): (segs: seq<Segment>)
    requires n <= |ts|
    ensures var e := UsableTemplates(ts, n);
      && |segs| == |e|
      && forall k :: 0 <= k < |e| ==> segs[k] == DashSegment(e[k], SegmentSeconds(ts[e[k]]))
    decreases n
  {
    if n == 0 then []
    else
      var prev := ScanDash(ts, n - 1);
      var i := n - 1;
      if Usable(ts[i]) then
        var segs := prev + [DashSegment(i, SegmentSeconds(ts[i]))];
        assert forall k :: 0 <= k < |prev| ==> segs[k] == prev[k];
        segs
      else
        prev
  }

  /** fetchDashSegments once the SegmentTemplate attributes are extracted. */
  function DashSegments(ts: seq<Template>): seq<Segment> {
    ScanDash(ts, |ts|)
  }

  /** Slots k - 1 and k of the same length are end to end. */
  lemma AdjacentSlots(k: nat, d: real)
    requires k > 0 && d > 0.0
    ensures DashSegment(k, d).start == DashSegment(k - 1, d).end
  {
  }

  /** When every template is usable with the same seconds per segment, the
      synthetic segments form a contiguous timeline from 0. */
  lemma UniformTemplatesContiguous(ts: seq<Template>, d: real)
    requires forall i :: 0 <= i < |ts| ==> Usable(ts[i]) && SegmentSeconds(ts[i]) == d
    ensures |DashSegments(ts)| == |ts|
    ensures Contiguous(DashSegments(ts), 0.0)
  {
    var segs := DashSegments(ts);
    var e := UsableTemplates(ts, |ts|);
    AllUsableIndices(ts, |ts|);
    forall k | 0 < k < |segs|
      ensures JoinsPrevious(segs, k)
    {
      assert segs[k - 1] == DashSegment(k - 1, d) && segs[k] == DashSegment(k, d);
      AdjacentSlots(k, d);
    }
    if |segs| > 0 {
      assert segs[0] == DashSegment(0, d);
    }
  }

  lemma {:induction false} AllUsableIndices(ts: seq<Template>, n: nat)
    requires n <= |ts|
    requires forall i :: 0 <= i < n ==> Usable(ts[i])
    ensures |UsableTemplates(ts, n)| == n
    ensures forall k :: 0 <= k < n ==> UsableTemplates(ts, n)[k] == k
    decreases n
  {
    if n > 0 {
      AllUsableIndices(ts, n - 1);
    }
  }

  /** A template without a duration is skipped, and the next one keeps its
      own position: [no duration, 2 s] gives one segment "segment-1.m4s" on [2, 4]. */
  lemma SkippedTemplateKeepsIndex()
    ensures DashSegments([Template(Missing, Missing), Template(Parsed(1000), Parsed(2000))])
         == [Segment("segment-1.m4s", 2.0, 4.0, 2.0, 0.0, 0.0)]
  {
    var ts := [Template(Missing, Missing), Template(Parsed(1000), Parsed(2000))];
    assert !Usable(ts[0]) && Usable(ts[1]) && SegmentSeconds(ts[1]) == 2.0;
    assert ScanDash(ts, 1) == [];
    assert NatToString(1) == "1";
    assert DashSegment(1, 2.0) == Segment("segment-1.m4s", 2.0, 4.0, 2.0, 0.0, 0.0);
  }

  // ---------------------------------------------------------------- proxy and colour

  /** The URL the manifest is requested from: absolute URLs starting with
      "http" go through the same-origin "/proxy/" path, URL-encoded. */
  function ManifestRequestUrl(url: string, encode: string -> string): (r: string)
    ensures StartsWith(url, "http") ==> StartsWith(r, "/proxy/") && r[7..] == encode(url)
    ensures !StartsWith(r, "http")
    ensures !StartsWith(url, "http") ==> r == url
  {
    if StartsWith(url, "http") then
      var r := "/proxy/" + encode(url);
      assert r[0] == '/' && r[..7] == "/proxy/";
      r
    else url
  }

  /** Routing through the proxy is done once: a proxied URL is requested as is. */
  lemma ManifestRequestUrlIdempotent(url: string, encode: string -> string)
    ensures ManifestRequestUrl(ManifestRequestUrl(url, encode), encode) == ManifestRequestUrl(url, encode)
  {
  }

  /** The four presentation bands of getSegmentColor. */
  datatype Band = Low | Medium | High | VeryHigh {
    function Rank(): nat {
      match this
      case Low => 0
      case Medium => 1
      case High => 2
      case VeryHigh => 3
    }

    function Color(): string {
      match this
      case Low => "#4CAF50"
      case Medium => "#FFEB3B"
      case High => "#FF9800"
      case VeryHigh => "#F44336"
    }
  }

  function BitrateBand(bitrate: real): Band {
    if bitrate < 1000000.0 then Low
    else if bitrate < 3000000.0 then Medium
    else if bitrate < 5000000.0 then High
    else VeryHigh
  }

  /** getSegmentColor. */
  function SegmentColor(bitrate: real): string {
    BitrateBand(bitrate).Color()
  }

  /** The bands are split at 1, 3 and 5 Mbit/s: each band holds exactly the
      bitrates of its interval. */
  lemma BandBoundaries(bitrate: real)
    ensures BitrateBand(bitrate) == Low <==> bitrate < 1000000.0
    ensures BitrateBand(bitrate) == Medium <==> 1000000.0 <= bitrate < 3000000.0
    ensures BitrateBand(bitrate) == High <==> 3000000.0 <= bitrate < 5000000.0
    ensures BitrateBand(bitrate) == VeryHigh <==> 5000000.0 <= bitrate
  {
  }

  /** A higher bitrate never gets a lower band. */
  lemma BandMonotone(a: real, b: real)
    requires a <= b
    ensures BitrateBand(a).Rank() <= BitrateBand(b).Rank()
  {
  }

  /** Distinct bands get distinct colours. */
  lemma ColorsDistinct(x: Band, y: Band)
    requires x != y
    ensures x.Color() != y.Color()
  {
    assert x.Color()[3] != y.Color()[3];
  }
}
