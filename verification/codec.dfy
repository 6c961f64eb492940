/** Container detection from a URL's extension
    (src/components/Engine/CodecDetector.ts, detectContainer). */
module Codec {
  import opened Text
  import Manifest

  /** The seven known extensions, already lower-cased. */
  predicate KnownExtension(ext: string) {
    ext in ["m3u8", "mpd", "mp4", "webm", "mkv", "mov", "ts"]
  }

  /** The switch over the lower-cased extension. */
  function ContainerOf(ext: string): (c: string)
    ensures c != "unknown" <==> KnownExtension(ext)
  {
    match ext
    case "m3u8" => "hls"
    case "mpd" => "dash"
    case "mp4" => "mp4"
    case "webm" => "webm"
    case "mkv" => "matroska"
    case "mov" => "quicktime"
    case "ts" => "mpegts"
    case _ => "unknown"
  }

  /** Distinct known extensions name distinct containers. */
  lemma ContainerOfInjective(a: string, b: string)
    requires KnownExtension(a) && KnownExtension(b) && a != b
    ensures ContainerOf(a) != ContainerOf(b)
  {
  }

  /** detectContainer: the text after the last '.', lower-cased, looked up. */
  function DetectContainer(url: string): string {
    ContainerOf(ToLower(LastPart(url, '.')))
  }

  /** Only the text after the last '.' matters. */
  lemma ContainerByExtension(prefix: string, ext: string)
    requires '.' !in ext
    ensures DetectContainer(prefix + "." + ext) == ContainerOf(ToLower(ext))
  {
    LastPartAfterSeparator(prefix, ext, '.');
  }

  /** Without a '.', the whole URL is taken as the extension. */
  lemma ContainerWithoutDot(url: string)
    requires '.' !in url
    ensures DetectContainer(url) == ContainerOf(ToLower(url))
  {
  }

  /** A query string after the extension hides it: "….m3u8?x=1" is unknown. */
  lemma QueryStringIsUnknown(prefix: string, ext: string)
    requires ext == "m3u8?x=1"
    ensures DetectContainer(prefix + "." + ext) == "unknown"
  {
    ContainerByExtension(prefix, ext);
    assert ToLower(ext) == "m3u8?x=1";
  }

  /** Containers are compared case-insensitively but stream types are not:
      "a.M3U8" is an HLS container yet a progressive stream. */
  lemma UpperCaseExtension(url: string)
    requires url == "a.M3U8"
    ensures DetectContainer(url) == "hls"
    ensures Manifest.DetectStreamType(url) == Manifest.Progressive
  {
    UpperCaseContainer(url);
    NoLowerMarker(url);
  }

  lemma UpperCaseContainer(url: string)
    requires url == "a.M3U8"
    ensures DetectContainer(url) == "hls"
  {
    ContainerByExtension("a", "M3U8");
    assert "a" + "." + "M3U8" == url;
    assert ToLower("M3U8") == "m3u8";
  }

  lemma NoLowerMarker(url: string)
    requires url == "a.M3U8"
    ensures !Contains(url, ".m3u8") && !Contains(url, ".mpd")
  {
    ContainsIffOccurs(url, ".m3u8");
    ContainsIffOccurs(url, ".mpd");
    forall i: nat
      ensures !OccursAt(url, ".m3u8", i) && !OccursAt(url, ".mpd", i)
    {
      NoLowerDotM(url, ".m3u8", i);
      NoLowerDotM(url, ".mpd", i);
    }
  }

  /** In "a.M3U8" no ".m" occurs: the only '.' is followed by 'M'. */
  lemma NoLowerDotM(url: string, sub: string, i: nat)
    requires url == "a.M3U8" && |sub| >= 2 && sub[0] == '.' && sub[1] == 'm'
    ensures !OccursAt(url, sub, i)
  {
    if i + |sub| <= |url| {
      var w := url[i..i + |sub|];
      if i == 0 {
        assert w[0] == 'a';
      } else if i == 1 {
        assert w[1] == 'M';
      } else {
        assert w[0] == url[i] != '.';
      }
    }
  }

  /** The class's own stream-type detection, written out as it stands; it
      agrees with the manifest helper's on every URL. */
  function DetectStreamType(url: string): (t: Manifest.StreamType)
    ensures t == Manifest.DetectStreamType(url)
  {
    if Contains(url, ".m3u8") then Manifest.Hls
    else if Contains(url, ".mpd") then Manifest.Dash
    else Manifest.Progressive
  }
}
