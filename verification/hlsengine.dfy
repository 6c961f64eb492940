/** The engine's own logic around the HLS library
    (src/components/Engine/HlsEngine.ts): the http-to-https rewrite, the
    auto-quality flag, and the defaults reported when the library is not
    available. The library instance is reduced to the fields the engine
    reads and writes. */
module HlsEngine {
  import opened Base
  import opened Text

  /** What the engine sees of a library instance. */
  datatype Instance = Instance(levels: seq<int>, currentLevel: int, nextLevel: int,
                               bandwidthEstimate: real, source: Option<string>)

  /** The engine: the instance when the library is supported, whether a
      video element is attached, the auto-quality flag, and the `src` set on
      the element by the native fallback. */
  datatype Engine = Engine(hls: Option<Instance>, attached: bool, autoQuality: bool, nativeSrc: Option<string>)

  /** The constructor: an instance only where the library is supported
      (`created` is the instance the library builds); the flag starts true. */
  function NewEngine(supported: bool, created: Instance): (e: Engine)
    ensures e.autoQuality
    ensures e.hls.Some? <==> supported
    ensures !e.attached && e.nativeSrc.None?
  {
    Engine(if supported then Some(created) else None, false, true, None)
  }

  const Http: string := "http://"
  const Https: string := "https://"

  /** getProxiedUrl: on an https page no URL is left starting with
      "http://": such a URL is upgraded to "https://" with the rest kept.
      On an http page, and for every other URL, nothing changes. */
  function ProxiedUrl(url: string, httpsPage: bool): (r: string)
    ensures httpsPage ==> !StartsWith(r, Http)
    ensures httpsPage && StartsWith(url, Http) ==> StartsWith(r, Https) && r[|Https|..] == url[|Http|..]
    ensures !httpsPage || !StartsWith(url, Http) ==> r == url
  {
    if httpsPage && StartsWith(url, Http) then
      var r := Https + url[|Http|..];
      assert r[4] == 's' && r[..|Https|] == Https;
      r
    else url
  }

  /** Rewriting twice is rewriting once. */
  lemma ProxiedUrlIdempotent(url: string, httpsPage: bool)
    ensures ProxiedUrl(ProxiedUrl(url, httpsPage), httpsPage) == ProxiedUrl(url, httpsPage)
  {
  }

  /** loadSource: the rewritten URL goes to the library instance when there
      is one (and the element is attached), else straight to the element. */
  function LoadSource(e: Engine, url: string, httpsPage: bool): (e': Engine)
    ensures e'.autoQuality == e.autoQuality
    ensures e'.hls.Some? <==> e.hls.Some?
    ensures e.hls.Some? ==> e'.hls.value.source == Some(ProxiedUrl(url, httpsPage)) && e'.attached
                            && e'.nativeSrc == e.nativeSrc
    ensures e.hls.None? ==> e'.nativeSrc == Some(ProxiedUrl(url, httpsPage)) && e'.attached == e.attached
  {
    var target := ProxiedUrl(url, httpsPage);
    if e.hls.Some? then e.(hls := Some(e.hls.value.(source := Some(target))), attached := true)
    else e.(nativeSrc := Some(target))
  }

  /** destroy: the instance and the element are released; the flag stays. */
  function Destroy(e: Engine): (e': Engine)
    ensures e'.hls.None? && !e'.attached
    ensures e'.autoQuality == e.autoQuality
  {
    e.(hls := None, attached := false)
  }

  /** getLevels: the instance's levels, or none without an instance. */
  function Levels(e: Engine): (ls: seq<int>)
    ensures e.hls.None? ==> ls == []
  {
    if e.hls.Some? then e.hls.value.levels else []
  }

  /** getCurrentLevel: -1 without an instance. */
  function CurrentLevel(e: Engine): (l: int)
    ensures e.hls.None? ==> l == -1
  {
    if e.hls.Some? then e.hls.value.currentLevel else -1
  }

  /** getCurrentBitrate: the estimate when it is truthy (non-zero), else 0. */
  function CurrentBitrate(e: Engine): (b: real)
    ensures e.hls.None? ==> b == 0.0
    ensures b != 0.0 ==> e.hls.Some? && b == e.hls.value.bandwidthEstimate
  {
    if e.hls.Some? && e.hls.value.bandwidthEstimate != 0.0 then e.hls.value.bandwidthEstimate else 0.0
  }

  /** setCurrentLevel: with an instance, selects the level and sets the flag
      exactly when the level is -1 (automatic); without one, nothing
      changes. */
  function SetCurrentLevel(e: Engine, level: int): (e': Engine)
    ensures e.hls.None? ==> e' == e
    ensures e.hls.Some? ==> CurrentLevel(e') == level && (e'.autoQuality <==> level == -1)
    ensures e'.hls.Some? <==> e.hls.Some?
  {
    if e.hls.Some? then e.(hls := Some(e.hls.value.(currentLevel := level)), autoQuality := level == -1)
    else e
  }

  /** setAutoQuality: with an instance, sets the flag and, only when
      enabling, asks the library for automatic selection of the next level;
      without one, nothing changes. */
  function SetAutoQuality(e: Engine, enabled: bool): (e': Engine)
    ensures e.hls.None? ==> e' == e
    ensures e.hls.Some? ==> e'.autoQuality == enabled && e'.hls.Some?
    ensures e.hls.Some? && enabled ==> e'.hls.value.nextLevel == -1
    ensures e.hls.Some? && !enabled ==> e'.hls.value.nextLevel == e.hls.value.nextLevel
    ensures e.hls.Some? ==> e'.hls.value.currentLevel == e.hls.value.currentLevel
  {
    if e.hls.Some? then
      var inst := e.hls.value;
      e.(hls := Some(if enabled then inst.(nextLevel := -1) else inst), autoQuality := enabled)
    else e
  }

  /** Without the library every getter reports its default, the flag stays
      true and no quality setter has any effect. */
  lemma UnsupportedDefaults(created: Instance, level: int, enabled: bool)
    ensures var e := NewEngine(false, created);
      && Levels(e) == [] && CurrentLevel(e) == -1 && CurrentBitrate(e) == 0.0
      && SetCurrentLevel(e, level).autoQuality && SetAutoQuality(e, enabled).autoQuality
  {
  }

  /** Choosing level -1 and enabling auto quality agree on the flag, and a
      concrete level followed by enabling auto quality ends automatic. */
  lemma LevelAndAutoAgree(e: Engine, level: int)
    requires e.hls.Some?
    ensures SetCurrentLevel(e, -1).autoQuality == SetAutoQuality(e, true).autoQuality
    ensures SetAutoQuality(SetCurrentLevel(e, level), true).autoQuality
    ensures !SetAutoQuality(SetCurrentLevel(e, -1), false).autoQuality
  {
  }

  /** After destroy the engine behaves as one without the library: every
      getter reports its default and both quality setters do nothing, while
      the flag keeps the value it had. */
  lemma DestroyedEngineIsInert(e: Engine, level: int, enabled: bool)
    ensures var d := Destroy(e);
      && Levels(d) == [] && CurrentLevel(d) == -1 && CurrentBitrate(d) == 0.0
      && SetCurrentLevel(d, level) == d && SetAutoQuality(d, enabled) == d
      && d.autoQuality == e.autoQuality
  {
  }

  /** Loading a source keeps the flag: an engine created afresh is automatic
      until a level is chosen, whatever was loaded. */
  lemma FreshEngineIsAutomatic(supported: bool, created: Instance, url: string, httpsPage: bool)
    ensures LoadSource(NewEngine(supported, created), url, httpsPage).autoQuality
  {
  }
}
