/** The player's own state transitions (src/components/Player.tsx): playlist
    navigation, source and type selection, engine choice, volume and mute,
    keyboard shortcuts, the auto-quality flag, view modes and subtitle
    selection. The video element is reduced to the fields these transitions
    read and write; React, the DOM and the libraries are left out. */
module Player {
  import opened Base
  import opened Text
  import opened PlaylistPanel
  import HlsEngine
  import Manifest

  // ------------------------------------------------------------ playlist

  /** The % operator on integers: truncating, with the sign of the dividend. */
  function JsRem(a: int, n: int): (r: int)
    requires n > 0
    ensures a >= 0 ==> 0 <= r < n
    ensures a < 0 ==> -n < r <= 0
    ensures JsQuot(a, n) * n + r == a
  {
    if a >= 0 then a % n
    else
      assert JsQuot(a, n) * n == -(((-a) / n) * n);
      -((-a) % n)
  }

  /** The quotient rounded toward zero, the one the remainder goes with. */
  function JsQuot(a: int, n: int): int
    requires n > 0
  {
    if a >= 0 then a / n else -((-a) / n)
  }

  /** playNext, the 'n' key and auto-advance on ended: one step forward,
      wrapping; nothing happens without playlist items. */
  function Next(index: int, len: nat): (i: int)
    ensures len == 0 ==> i == index
    ensures len > 0 && 0 <= index < len ==> i == (if index == len - 1 then 0 else index + 1)
  {
    if len > 0 then JsRem(index + 1, len) else index
  }

  /** playPrevious and the 'p' key: one step back, wrapping. */
  function Prev(index: int, len: nat): (i: int)
    ensures len == 0 ==> i == index
    ensures len > 0 && 0 <= index < len ==> i == (if index == 0 then len - 1 else index - 1)
  {
    if len > 0 then JsRem(index - 1 + len, len) else index
  }

  /** Navigation keeps an index inside the list, and forward and back undo
      each other. */
  lemma NavigationInverse(index: int, len: nat)
    requires 0 <= index < len
    ensures 0 <= Next(index, len) < len && 0 <= Prev(index, len) < len
    ensures Prev(Next(index, len), len) == index
    ensures Next(Prev(index, len), len) == index
  {
  }

  /** Any non-negative index, even one past the end, is brought back inside
      the list by a step forward. */
  lemma NextRecovers(index: int, len: nat)
    requires len > 0 && index >= 0
    ensures 0 <= Next(index, len) < len
  {
  }

  /** A step forward from -2 stays outside the list: the remainder keeps the
      sign of the dividend. */
  lemma NextFromNegative()
    ensures Next(-2, 3) == -1
  {
  }

  /** The props the player reads: the direct source and type, the ids of
      the subtitle tracks, and the playlist items (an absent playlist is an
      empty one). */
  datatype Props = Props(src: string, srcType: string, subtitles: seq<string>, items: seq<Item>)

  datatype ViewMode = Normal | Theater | Cinema | Mini

  /** The four flags the keydown handler reads. The handler is the closure
      registered by the effect's last run, so it sees the flags as they were
      then, not as they are now. */
  datatype Flags = Flags(playing: bool, muted: bool, fullscreen: bool, pip: bool)

  /** A text track's mode; a track appended by the effect starts disabled. */
  datatype Mode = Showing | Hidden | Disabled
  datatype Track = Track(id: string, mode: Mode)

  /** The player's state together with the element fields it drives:
      `engine` is what hlsEngineRef holds, `tracks` the element's text
      tracks, and `keys` the flags the registered keydown handler captured. */
  datatype State = State(
    index: int, volume: real, muted: bool, playing: bool, time: real, duration: real,
    fullscreen: bool, pip: bool, viewMode: ViewMode, autoQuality: bool,
    engine: Option<HlsEngine.Engine>, activeSubtitle: Option<string>, playlistVisible: bool,
    tracks: seq<Track>, keys: Flags)

  /** The current values of the flags the keydown handler reads. */
  function FlagsOf(s: State): Flags {
    Flags(s.playing, s.muted, s.fullscreen, s.pip)
  }

  /** The initial state; `startIndex` is the playlist's own current index,
      where a falsy (absent or zero) one gives 0. */
  function Initial(startIndex: Option<int>): (s: State)
    ensures s.autoQuality && s.volume == 1.0 && !s.muted && s.viewMode == Normal
    ensures s.index == (if startIndex.Some? then startIndex.value else 0)
    ensures s.engine.None? && s.tracks == [] && s.keys == FlagsOf(s)
  {
    State(if startIndex.Some? && startIndex.value != 0 then startIndex.value else 0,
          1.0, false, false, 0.0, 0.0, false, false, Normal, true, None, None, false,
          [], Flags(false, false, false, false))
  }

  /** The ended listener: the index advances and nothing else changes. */
  function Ended(p: Props, s: State): (s': State)
    ensures s'.index == Next(s.index, |p.items|)
    ensures s'.(index := s.index) == s
  {
    s.(index := Next(s.index, |p.items|))
  }

  /** handlePlayItem: any index is taken as is, and the overlay closes;
      nothing else changes. */
  function PlayItem(s: State, index: int): (s': State)
    ensures s'.index == index && !s'.playlistVisible
    ensures s'.(index := s.index, playlistVisible := s.playlistVisible) == s
  {
    s.(index := index, playlistVisible := false)
  }

  // ------------------------------------------------------ source and type

  /** getCurrentSource: the current item's URL when there are items, else
      the direct source; None where the index is outside the items (the
      source reads a missing item and fails). */
  function CurrentSource(p: Props, s: State): (u: Option<string>)
    ensures |p.items| == 0 ==> u == Some(p.src)
    ensures |p.items| > 0 ==> (u.Some? <==> 0 <= s.index < |p.items|)
    ensures |p.items| > 0 && u.Some? ==> u.value == p.items[s.index].url
  {
    if |p.items| > 0 then
      if 0 <= s.index < |p.items| then Some(p.items[s.index].url) else None
    else Some(p.src)
  }

  /** getCurrentType: the current item's declared type, 'auto' when it has
      none, else the direct type. */
  function CurrentType(p: Props, s: State): (t: Option<string>)
    ensures |p.items| == 0 ==> t == Some(p.srcType)
    ensures |p.items| > 0 ==> (t.Some? <==> 0 <= s.index < |p.items|)
    ensures |p.items| > 0 && t.Some? ==>
      t.value == (var k := p.items[s.index].kind; if k.Some? && k.value != "" then k.value else "auto")
  {
    if |p.items| > 0 then
      if 0 <= s.index < |p.items| then
        var k := p.items[s.index].kind;
        Some(if k.Some? && k.value != "" then k.value else "auto")
      else None
    else Some(p.srcType)
  }

  /** The auto-detection step: 'auto' is refined by the URL's ending. */
  function DetectType(declared: string, src: string): (t: string)
    ensures declared != "auto" ==> t == declared
    ensures declared == "auto" ==>
      && (t == "hls" <==> EndsWith(src, ".m3u8"))
      && (t == "dash" <==> !EndsWith(src, ".m3u8") && EndsWith(src, ".mpd"))
      && (t == "auto" <==> !EndsWith(src, ".m3u8") && !EndsWith(src, ".mpd"))
  {
    if declared == "auto" then
      if EndsWith(src, ".m3u8") then "hls"
      else if EndsWith(src, ".mpd") then "dash"
      else "auto"
    else declared
  }

  /** How the source reaches the element. */
  datatype Pipeline = ViaHlsEngine | ViaDashLibrary | NativeSource

  /** The engine chosen for a detected type; `hlsSupported` is the library's
      support check. */
  function ChoosePipeline(detected: string, hlsSupported: bool): (pl: Pipeline)
    ensures pl == ViaHlsEngine <==> detected == "hls" && hlsSupported
    ensures pl == ViaDashLibrary <==> detected == "dash"
  {
    if detected == "hls" then (if hlsSupported then ViaHlsEngine else NativeSource)
    else if detected == "dash" then ViaDashLibrary
    else NativeSource
  }

  /** Which segment list is fetched for the timeline strip. */
  datatype SegmentFetch = FetchHls | FetchDash | NoSegments

  function ChooseSegments(detected: string): (f: SegmentFetch)
    ensures f == FetchHls <==> detected == "hls"
    ensures f == FetchDash <==> detected == "dash"
  {
    if detected == "hls" then FetchHls else if detected == "dash" then FetchDash else NoSegments
  }

  /** The player detects by suffix while the manifest helper detects by
      substring: "v.m3u8?t=1" is an HLS stream to the helper but plays
      through the native element. */
  lemma SuffixVersusSubstring(url: string)
    requires url == "v.m3u8?t=1"
    ensures Manifest.DetectStreamType(url) == Manifest.Hls
    ensures ChoosePipeline(DetectType("auto", url), true) == NativeSource
  {
    Manifest.DetectStreamTypeOccurs(url);
    assert OccursAt(url, ".m3u8", 1) by {
      assert url[1..6] == ".m3u8";
    }
    assert !EndsWith(url, ".m3u8") by {
      assert url[|url| - 5..][4] == '1';
    }
    assert !EndsWith(url, ".mpd") by {
      assert url[|url| - 4..][3] == '1';
    }
  }

  /** The pipeline the effect picks for the current item, when there is one. */
  function PipelineOf(p: Props, s: State, hlsSupported: bool): Pipeline
    requires CurrentSource(p, s).Some?
  {
    ChoosePipeline(DetectType(CurrentType(p, s).value, CurrentSource(p, s).value), hlsSupported)
  }

  /** The subtitle tracks one effect run appends, each starting disabled. */
  function NewTracks(ids: seq<string>): (ts: seq<Track>)
    ensures |ts| == |ids|
    ensures forall i :: 0 <= i < |ts| ==> ts[i] == Track(ids[i], Disabled)
  {
    seq(|ids|, i requires 0 <= i < |ids| => Track(ids[i], Disabled))
  }

  /** What hlsEngineRef holds after the effect's cleanup and next run. The
      cleanup destroys the previous engine but never clears the ref, so the
      ref keeps the destroyed engine unless the HLS pipeline puts a fresh
      one there (`created` is the instance the library builds). A live
      engine is there exactly for the HLS pipeline. */
  function EngineAfterReload(p: Props, s: State, hlsSupported: bool, httpsPage: bool, created: HlsEngine.Instance)
    : (e: Option<HlsEngine.Engine>)
    requires CurrentSource(p, s).Some?
    ensures var hls := PipelineOf(p, s, hlsSupported) == ViaHlsEngine;
      && (e.Some? && e.value.hls.Some? <==> hls)
      && (e.Some? <==> hls || s.engine.Some?)
      && (hls ==> e.value.autoQuality && e.value.attached)
      && (!hls && s.engine.Some? ==> !e.value.attached && e.value.autoQuality == s.engine.value.autoQuality)
  {
    if PipelineOf(p, s, hlsSupported) == ViaHlsEngine
    then Some(HlsEngine.LoadSource(HlsEngine.NewEngine(hlsSupported, created), CurrentSource(p, s).value, httpsPage))
    else if s.engine.Some? then Some(HlsEngine.Destroy(s.engine.value))
    else None
  }

  /** The effect's cleanup followed by its next run, for a new source: the
      engine ref is updated as EngineAfterReload says, the subtitle tracks
      are appended again, since the cleanup never removes them, and the
      keydown handler registered now captures the current flags. The
      player's own auto-quality flag, and everything else, is kept. */
  function Reload(p: Props, s: State, hlsSupported: bool, httpsPage: bool, created: HlsEngine.Instance): (s': Option<State>)
    ensures s'.None? <==> CurrentSource(p, s).None?
    ensures s'.Some? ==> s'.value.(engine := s.engine, tracks := s.tracks, keys := s.keys) == s
    ensures s'.Some? ==> s'.value.engine == EngineAfterReload(p, s, hlsSupported, httpsPage, created)
    ensures s'.Some? ==> |s'.value.tracks| == |s.tracks| + |p.subtitles|
    ensures s'.Some? ==> s'.value.tracks[..|s.tracks|] == s.tracks
    ensures s'.Some? ==> forall i :: 0 <= i < |p.subtitles| ==>
      s'.value.tracks[|s.tracks| + i] == Track(p.subtitles[i], Disabled)
    ensures s'.Some? ==> s'.value.keys == FlagsOf(s)
  {
    if CurrentSource(p, s).None? then None
    else
      var tracks := s.tracks + NewTracks(p.subtitles);
      assert tracks[..|s.tracks|] == s.tracks;
      Some(s.(engine := EngineAfterReload(p, s, hlsSupported, httpsPage, created), tracks := tracks, keys := FlagsOf(s)))
  }

  // ----------------------------------------------------- volume and mute

  /** handleVolumeChange: the element takes the volume (a value outside
      [0, 1] is refused: None); a positive volume unmutes, zero leaves the
      mute state alone. */
  function SetVolume(s: State, v: real): (s': Option<State>)
    ensures s'.None? <==> !(0.0 <= v <= 1.0)
    ensures s'.Some? ==> s'.value.volume == v
    ensures s'.Some? ==> s'.value.muted == (if v > 0.0 then false else s.muted)
    ensures s'.Some? ==> s'.value.(volume := s.volume, muted := s.muted) == s
  {
    if 0.0 <= v <= 1.0 then Some(s.(volume := v, muted := if v > 0.0 then false else s.muted)) else None
  }

  /** toggleMute: flips the mute state and leaves the volume. */
  function ToggleMute(s: State): (s': State)
    ensures s'.muted == !s.muted && s'.volume == s.volume
    ensures s'.(muted := s.muted) == s
  {
    s.(muted := !s.muted)
  }

  lemma ToggleMuteTwice(s: State)
    ensures ToggleMute(ToggleMute(s)) == s
  {
  }

  // ------------------------------------------------------------ keyboard

  function Min(a: real, b: real): real { if a <= b then a else b }
  function Max(a: real, b: real): real { if a >= b then a else b }

  /** What a key press asks the player to do. */
  datatype Command =
    | PlayPause
    | SeekBy(delta: real)     // backward (negative) clamps at 0, forward at the duration
    | VolumeBy(delta: real)   // down (negative) clamps at 0, up at 1
    | MuteToggle
    | FullscreenToggle
    | PipToggle
    | NextItem
    | PrevItem
    | Unbound

  /** The keys handleKeyDown reacts to: the letters in either case. */
  const BoundKeys: set<string> :=
    {" ", "ArrowLeft", "ArrowRight", "ArrowUp", "ArrowDown",
     "m", "M", "f", "F", "i", "I", "k", "K", "j", "J", "l", "L", "n", "N", "p", "P"}

  /** The switch on the key name. */
  function CommandOf(key: string): Command {
    match key
    case " " | "k" | "K" => PlayPause
    case "ArrowLeft" => SeekBy(-5.0)
    case "ArrowRight" => SeekBy(5.0)
    case "j" | "J" => SeekBy(-10.0)
    case "l" | "L" => SeekBy(10.0)
    case "ArrowUp" => VolumeBy(0.1)
    case "ArrowDown" => VolumeBy(-0.1)
    case "m" | "M" => MuteToggle
    case "f" | "F" => FullscreenToggle
    case "i" | "I" => PipToggle
    case "n" | "N" => NextItem
    case "p" | "P" => PrevItem
    case _ => Unbound
  }

  /** Exactly the listed keys are bound. */
  lemma CommandOfBound(key: string)
    ensures CommandOf(key) != Unbound <==> key in BoundKeys
  {
  }

  /** handleVolumeChange with the volume moved by `d` and clamped to [0, 1]. */
  function StepVolume(s: State, d: real): (s': State)
    requires 0.0 <= s.volume <= 1.0
    ensures s'.volume == if d < 0.0 then Max(0.0, s.volume + d) else Min(1.0, s.volume + d)
    ensures s'.muted == (if s'.volume > 0.0 then false else s.muted)
  {
    var v := if d < 0.0 then Max(0.0, s.volume + d) else Min(1.0, s.volume + d);
    SetVolume(s, v).value
  }

  /** One command applied to the mounted element's state. The play, mute,
      fullscreen and picture-in-picture toggles decide from the captured
      flags `s.keys`: play() when the captured flag says paused, pause()
      otherwise, and likewise for the other three. The seek and volume keys
      read the element itself, and the navigation keys the live index, which
      is one of the effect's dependencies. */
  function Apply(p: Props, s: State, c: Command): (s': State)
    requires 0.0 <= s.volume <= 1.0
    ensures 0.0 <= s'.volume <= 1.0
    ensures s'.(playing := s.playing, time := s.time, volume := s.volume, muted := s.muted,
                fullscreen := s.fullscreen, pip := s.pip, index := s.index) == s
  {
    match c
    case PlayPause => s.(playing := !s.keys.playing)
    case SeekBy(d) => s.(time := if d < 0.0 then Max(0.0, s.time + d) else Min(s.duration, s.time + d))
    case VolumeBy(d) => StepVolume(s, d)
    case MuteToggle => s.(muted := !s.keys.muted)
    case FullscreenToggle => s.(fullscreen := !s.keys.fullscreen)
    case PipToggle => s.(pip := !s.keys.pip)
    case NextItem => s.(index := Next(s.index, |p.items|))
    case PrevItem => s.(index := Prev(s.index, |p.items|))
    case Unbound => s
  }

  /** handleKeyDown with the element mounted. */
  function Key(p: Props, s: State, key: string): (s': State)
    requires 0.0 <= s.volume <= 1.0
    ensures 0.0 <= s'.volume <= 1.0
    ensures key !in BoundKeys ==> s' == s
    ensures s'.(playing := s.playing, time := s.time, volume := s.volume, muted := s.muted,
                fullscreen := s.fullscreen, pip := s.pip, index := s.index) == s
  {
    CommandOfBound(key);
    Apply(p, s, CommandOf(key))
  }

  /** The letter keys ignore case, and 'k' does what the space bar does. */
  lemma LetterKeysIgnoreCase()
    ensures CommandOf("k") == CommandOf("K") == CommandOf(" ")
    ensures CommandOf("m") == CommandOf("M") && CommandOf("f") == CommandOf("F")
    ensures CommandOf("i") == CommandOf("I") && CommandOf("j") == CommandOf("J")
    ensures CommandOf("l") == CommandOf("L") && CommandOf("n") == CommandOf("N")
    ensures CommandOf("p") == CommandOf("P")
  {
  }

  /** Seeking keys move by 5 or 10 seconds and are clamped: backward never
      goes below 0, forward never past the duration, and from inside
      [0, duration] the playhead stays inside. */
  lemma SeekKeysClamp(p: Props, s: State)
    requires 0.0 <= s.volume <= 1.0
    ensures Key(p, s, "ArrowLeft").time == Max(0.0, s.time - 5.0) >= 0.0
    ensures Key(p, s, "j").time == Max(0.0, s.time - 10.0) >= 0.0
    ensures Key(p, s, "ArrowRight").time == Min(s.duration, s.time + 5.0) <= s.duration
    ensures Key(p, s, "L").time == Min(s.duration, s.time + 10.0) <= s.duration
    ensures 0.0 <= s.time <= s.duration ==>
      && 0.0 <= Key(p, s, "ArrowRight").time <= s.duration
      && 0.0 <= Key(p, s, "l").time <= s.duration
      && 0.0 <= Key(p, s, "ArrowLeft").time <= s.duration
      && 0.0 <= Key(p, s, "J").time <= s.duration
  {
    SeekBackKeys(p, s);
    SeekForwardKeys(p, s);
  }

  lemma SeekBackKeys(p: Props, s: State)
    requires 0.0 <= s.volume <= 1.0
    ensures Key(p, s, "ArrowLeft").time == Max(0.0, s.time - 5.0)
    ensures Key(p, s, "j").time == Key(p, s, "J").time == Max(0.0, s.time - 10.0)
  {
    assert Key(p, s, "ArrowLeft") == Apply(p, s, SeekBy(-5.0)) by { assert CommandOf("ArrowLeft") == SeekBy(-5.0); }
    assert Key(p, s, "j") == Apply(p, s, SeekBy(-10.0)) by { assert CommandOf("j") == SeekBy(-10.0); }
    assert Key(p, s, "J") == Apply(p, s, SeekBy(-10.0)) by { assert CommandOf("J") == SeekBy(-10.0); }
  }

  lemma SeekForwardKeys(p: Props, s: State)
    requires 0.0 <= s.volume <= 1.0
    ensures Key(p, s, "ArrowRight").time == Min(s.duration, s.time + 5.0)
    ensures Key(p, s, "l").time == Key(p, s, "L").time == Min(s.duration, s.time + 10.0)
  {
    assert Key(p, s, "ArrowRight") == Apply(p, s, SeekBy(5.0)) by { assert CommandOf("ArrowRight") == SeekBy(5.0); }
    assert Key(p, s, "l") == Apply(p, s, SeekBy(10.0)) by { assert CommandOf("l") == SeekBy(10.0); }
    assert Key(p, s, "L") == Apply(p, s, SeekBy(10.0)) by { assert CommandOf("L") == SeekBy(10.0); }
  }

  /** The volume keys step by 0.1 inside [0, 1]; any step up unmutes, and so
      does a step down that leaves some volume. */
  lemma VolumeKeys(p: Props, s: State)
    requires 0.0 <= s.volume <= 1.0
    ensures Key(p, s, "ArrowUp").volume == Min(1.0, s.volume + 0.1) && !Key(p, s, "ArrowUp").muted
    ensures Key(p, s, "ArrowDown").volume == Max(0.0, s.volume - 0.1)
    ensures s.volume > 0.1 ==> !Key(p, s, "ArrowDown").muted
    ensures s.volume <= 0.1 ==> Key(p, s, "ArrowDown").muted == s.muted
  {
    assert Key(p, s, "ArrowUp") == StepVolume(s, 0.1) by { assert CommandOf("ArrowUp") == VolumeBy(0.1); }
    assert Key(p, s, "ArrowDown") == StepVolume(s, -0.1) by { assert CommandOf("ArrowDown") == VolumeBy(-0.1); }
  }

  /** The toggle keys act on the flags the handler captured, not on the
      current ones: each sets its flag to the negation of the captured
      value. */
  lemma ToggleKeysReadCaptured(p: Props, s: State)
    requires 0.0 <= s.volume <= 1.0
    ensures Key(p, s, " ").playing == !s.keys.playing && Key(p, s, "k").playing == !s.keys.playing
    ensures Key(p, s, "m").muted == !s.keys.muted
    ensures Key(p, s, "f").fullscreen == !s.keys.fullscreen
    ensures Key(p, s, "i").pip == !s.keys.pip
  {
    assert Key(p, s, " ") == Apply(p, s, PlayPause) by { assert CommandOf(" ") == PlayPause; }
    assert Key(p, s, "k") == Apply(p, s, PlayPause) by { assert CommandOf("k") == PlayPause; }
    assert Key(p, s, "m") == Apply(p, s, MuteToggle) by { assert CommandOf("m") == MuteToggle; }
    assert Key(p, s, "f") == Apply(p, s, FullscreenToggle) by { assert CommandOf("f") == FullscreenToggle; }
    assert Key(p, s, "i") == Apply(p, s, PipToggle) by { assert CommandOf("i") == PipToggle; }
  }

  /** Pressing 'm' twice without an effect run in between leaves the player
      muted when it was unmuted at the last run, unlike the mute button,
      which toggles back (ToggleMuteTwice); the space bar likewise keeps
      playing once playback was off at the last run. */
  lemma RepeatedToggleKeysRepeat(p: Props, s: State)
    requires 0.0 <= s.volume <= 1.0
    requires !s.keys.muted && !s.keys.playing
    ensures Key(p, Key(p, s, "m"), "m").muted
    ensures Key(p, Key(p, s, " "), " ").playing
  {
    MuteKeyTwice(p, s);
    SpaceKeyTwice(p, s);
  }

  lemma MuteKeyTwice(p: Props, s: State)
    requires 0.0 <= s.volume <= 1.0
    ensures Key(p, Key(p, s, "m"), "m") == s.(muted := !s.keys.muted)
  {
    assert CommandOf("m") == MuteToggle;
  }

  lemma SpaceKeyTwice(p: Props, s: State)
    requires 0.0 <= s.volume <= 1.0
    ensures Key(p, Key(p, s, " "), " ") == s.(playing := !s.keys.playing)
  {
    assert CommandOf(" ") == PlayPause;
  }

  /** Right after an effect run the captured flags are the current ones, so
      a single toggle key flips the current state. */
  lemma ToggleKeyAfterReload(p: Props, s: State, hlsSupported: bool, httpsPage: bool, created: HlsEngine.Instance)
    requires 0.0 <= s.volume <= 1.0
    requires CurrentSource(p, s).Some?
    ensures var r := Reload(p, s, hlsSupported, httpsPage, created).value;
      Key(p, r, "m").muted == !s.muted && Key(p, r, " ").playing == !s.playing
  {
    var r := Reload(p, s, hlsSupported, httpsPage, created).value;
    ToggleKeysReadCaptured(p, r);
  }

  /** Navigation keys act like playNext and playPrevious, and keys without a
      binding change nothing. */
  lemma NavigationKeys(p: Props, s: State)
    requires 0.0 <= s.volume <= 1.0
    ensures Key(p, s, "n").index == Key(p, s, "N").index == Next(s.index, |p.items|) == Ended(p, s).index
    ensures Key(p, s, "p").index == Key(p, s, "P").index == Prev(s.index, |p.items|)
    ensures Key(p, s, "x") == s
  {
    NextKeys(p, s);
    PrevKeys(p, s);
    assert Key(p, s, "x") == Apply(p, s, Unbound) by { assert CommandOf("x") == Unbound; }
  }

  lemma NextKeys(p: Props, s: State)
    requires 0.0 <= s.volume <= 1.0
    ensures Key(p, s, "n").index == Key(p, s, "N").index == Next(s.index, |p.items|)
  {
    assert Key(p, s, "n") == Apply(p, s, NextItem) by { assert CommandOf("n") == NextItem; }
    assert Key(p, s, "N") == Apply(p, s, NextItem) by { assert CommandOf("N") == NextItem; }
  }

  lemma PrevKeys(p: Props, s: State)
    requires 0.0 <= s.volume <= 1.0
    ensures Key(p, s, "p").index == Key(p, s, "P").index == Prev(s.index, |p.items|)
  {
    assert Key(p, s, "p") == Apply(p, s, PrevItem) by { assert CommandOf("p") == PrevItem; }
    assert Key(p, s, "P") == Apply(p, s, PrevItem) by { assert CommandOf("P") == PrevItem; }
  }

  // ---------------------------------------------------------- quality

  /** handleQualityChange: with an engine the level goes to it and the flag
      becomes (level = -1); without one nothing changes. */
  function QualityChange(s: State, level: int): (s': State)
    ensures s.engine.None? ==> s' == s
    ensures s.engine.Some? ==> (s'.autoQuality <==> level == -1) && s'.engine.Some?
    ensures s.engine.Some? && s.engine.value.hls.Some? ==>
      s'.engine.value.hls.Some? && HlsEngine.CurrentLevel(s'.engine.value) == level
    ensures s.engine.Some? && s.engine.value.hls.None? ==> s'.engine == s.engine
    ensures s'.(autoQuality := s.autoQuality, engine := s.engine) == s
  {
    if s.engine.Some? then
      s.(engine := Some(HlsEngine.SetCurrentLevel(s.engine.value, level)), autoQuality := level == -1)
    else s
  }

  /** toggleAutoQuality: the player's flag flips whether or not there is an
      engine; an engine is told the new value. */
  function ToggleAutoQuality(s: State): (s': State)
    ensures s'.autoQuality == !s.autoQuality
    ensures s'.engine.Some? <==> s.engine.Some?
    ensures s.engine.Some? && s.engine.value.hls.Some? ==>
      s'.engine.value.hls.Some? && s'.engine.value.autoQuality == s'.autoQuality
    ensures s.engine.Some? && s.engine.value.hls.None? ==> s'.engine == s.engine
    ensures s'.(autoQuality := s.autoQuality, engine := s.engine) == s
  {
    var flag := !s.autoQuality;
    s.(autoQuality := flag,
       engine := if s.engine.Some? then Some(HlsEngine.SetAutoQuality(s.engine.value, flag)) else None)
  }

  lemma ToggleAutoQualityTwice(s: State)
    ensures ToggleAutoQuality(ToggleAutoQuality(s)).autoQuality == s.autoQuality
  {
  }

  /** The player's flag describes the engine in use, when one is live. */
  predicate QualityInSync(s: State) {
    s.engine.Some? && s.engine.value.hls.Some? ==> s.engine.value.autoQuality == s.autoQuality
  }

  /** Both quality controls keep the player's flag and the engine's flag
      equal. */
  lemma QualityControlsKeepSync(s: State, level: int)
    requires QualityInSync(s)
    ensures QualityInSync(QualityChange(s, level))
    ensures QualityInSync(ToggleAutoQuality(s))
  {
  }

  /** Turning auto quality off and moving to the next HLS item leaves the
      player reporting manual selection while its new engine is automatic. */
  lemma ReloadLosesSync(p: Props, s: State, created: HlsEngine.Instance)
    requires |p.items| == 2 && s.index == 0
    requires p.items[1].url == "b.m3u8" && p.items[1].kind == None
    requires QualityInSync(s) && s.autoQuality
    ensures var r := Reload(p, ToggleAutoQuality(s).(index := Next(0, 2)), true, false, created);
      r.Some? && !QualityInSync(r.value)
  {
    var s1 := ToggleAutoQuality(s).(index := Next(0, 2));
    assert s1.index == 1;
    assert CurrentSource(p, s1) == Some("b.m3u8");
    assert CurrentType(p, s1) == Some("auto");
    var url := "b.m3u8";
    assert EndsWith(url, ".m3u8") by {
      assert url[|url| - 5..] == ".m3u8";
    }
  }

  /** Moving from an HLS item to one played another way leaves the
      destroyed engine in hlsEngineRef, so the quality selector still acts:
      picking a level reports manual selection although no library selects
      anything. */
  lemma StaleEngineAfterOtherPipeline(p: Props, s: State, hlsSupported: bool, httpsPage: bool, created: HlsEngine.Instance, level: int)
    requires s.engine.Some? && level != -1
    requires CurrentSource(p, s).Some? && PipelineOf(p, s, hlsSupported) != ViaHlsEngine
    ensures var r := Reload(p, s, hlsSupported, httpsPage, created).value;
      && r.engine.Some? && r.engine.value.hls.None?
      && !QualityChange(r, level).autoQuality
      && QualityChange(r, level).engine == r.engine
  {
  }

  /** The reload with the flag taken from the new engine: a fresh engine
      selects automatically, so the player reports automatic selection. */
  function ReloadSynced(p: Props, s: State, hlsSupported: bool, httpsPage: bool, created: HlsEngine.Instance): (s': Option<State>)
    ensures s'.None? <==> CurrentSource(p, s).None?
    ensures s'.Some? ==> QualityInSync(s'.value)
    ensures s'.Some? ==> s'.value.engine == Reload(p, s, hlsSupported, httpsPage, created).value.engine
  {
    var r := Reload(p, s, hlsSupported, httpsPage, created);
    if r.None? then None
    else if r.value.engine.Some? then Some(r.value.(autoQuality := r.value.engine.value.autoQuality))
    else r
  }

  // --------------------------------------------------------- view modes

  /** The theater, cinema and mini toggles: leave the mode for Normal when
      in it, enter it otherwise. The result is always Normal or the target,
      and a toggle of a real mode always changes the mode. */
  function ToggleView(current: ViewMode, target: ViewMode): (m: ViewMode)
    ensures m == Normal || m == target
    ensures target != Normal ==> m != current
    ensures m == Normal <==> current == target || target == Normal
  {
    if current == target then Normal else target
  }

  /** A toggle undoes itself between Normal and its own mode; from another
      mode it switches straight to its own, and a second toggle then returns
      to Normal. */
  lemma ToggleViewTwice(current: ViewMode, target: ViewMode)
    requires target != Normal
    ensures current == Normal || current == target ==> ToggleView(ToggleView(current, target), target) == current
    ensures ToggleView(current, target) != current
    ensures current != Normal && current != target ==>
      ToggleView(current, target) == target && ToggleView(ToggleView(current, target), target) == Normal
  {
  }

  /** getPlayerClass. */
  function PlayerClass(fullscreen: bool, mode: ViewMode): string {
    "video-player" + (if fullscreen then " fullscreen" else "")
      + (match mode
         case Normal => ""
         case Theater => " theater-mode"
         case Cinema => " cinema-mode"
         case Mini => " mini-player")
  }

  /** Distinct states give distinct class lists. */
  lemma PlayerClassInjective(f1: bool, m1: ViewMode, f2: bool, m2: ViewMode)
    requires PlayerClass(f1, m1) == PlayerClass(f2, m2)
    ensures f1 == f2 && m1 == m2
  {
    if f1 == f2 && m1 != Normal && m2 != Normal {
      // the suffix's first letter tells the modes apart
      var k := if f1 then 24 else 13;
      assert PlayerClass(f1, m1)[k] == PlayerClass(f2, m2)[k];
    }
  }

  // ---------------------------------------------------------- subtitles

  /** handleSubtitleChange: exactly the tracks whose id equals the chosen
      one are shown (none for null), all others hidden. */
  function SelectSubtitle(tracks: seq<Track>, trackId: Option<string>): (ts: seq<Track>)
    ensures |ts| == |tracks|
    ensures forall i :: 0 <= i < |ts| ==> ts[i].id == tracks[i].id
    ensures forall i :: 0 <= i < |ts| ==> (ts[i].mode == Showing <==> trackId == Some(tracks[i].id))
  {
    seq(|tracks|, i requires 0 <= i < |tracks| =>
      Track(tracks[i].id, if trackId.Some? && tracks[i].id == trackId.value then Showing else Hidden))
  }

  /** handleSubtitleChange on the player: the element's tracks take their
      modes from the choice, the choice becomes the active subtitle, and
      nothing else changes. */
  function SubtitleChange(s: State, trackId: Option<string>): (s': State)
    ensures s'.activeSubtitle == trackId
    ensures |s'.tracks| == |s.tracks|
    ensures forall i :: 0 <= i < |s.tracks| ==>
      s'.tracks[i].id == s.tracks[i].id && (s'.tracks[i].mode == Showing <==> trackId == Some(s.tracks[i].id))
    ensures s'.(activeSubtitle := s.activeSubtitle, tracks := s.tracks) == s
  {
    s.(activeSubtitle := trackId, tracks := SelectSubtitle(s.tracks, trackId))
  }

  /** With distinct ids at most one track shows, and the chosen one shows
      when present; choosing none hides every track. The element's ids are
      distinct only up to the first source change (see
      TracksAfterFirstLoad and ReloadDuplicatesTracks). */
  lemma OneSubtitleShows(tracks: seq<Track>, trackId: Option<string>)
    requires forall i, j :: 0 <= i < j < |tracks| ==> tracks[i].id != tracks[j].id
    ensures var ts := SelectSubtitle(tracks, trackId);
      && (forall i, j :: 0 <= i < j < |ts| ==> !(ts[i].mode == Showing && ts[j].mode == Showing))
      && (trackId.None? ==> forall i :: 0 <= i < |ts| ==> ts[i].mode == Hidden)
  {
  }

  /** The first effect run, on a fresh player, gives the element exactly the
      subtitle tracks of the props, so distinct subtitle ids give distinct
      track ids. */
  lemma TracksAfterFirstLoad(p: Props, startIndex: Option<int>, hlsSupported: bool, httpsPage: bool, created: HlsEngine.Instance)
    requires CurrentSource(p, Initial(startIndex)).Some?
    requires forall i, j :: 0 <= i < j < |p.subtitles| ==> p.subtitles[i] != p.subtitles[j]
    ensures var ts := Reload(p, Initial(startIndex), hlsSupported, httpsPage, created).value.tracks;
      && |ts| == |p.subtitles|
      && forall i, j :: 0 <= i < j < |ts| ==> ts[i].id != ts[j].id
  {
  }

  /** Every later effect run appends the tracks again, so after one source
      change choosing a subtitle shows two tracks. */
  lemma ReloadDuplicatesTracks(p: Props, s: State, id: string, hlsSupported: bool, httpsPage: bool, created: HlsEngine.Instance)
    requires p.subtitles == [id] && s.tracks == []
    requires CurrentSource(p, s).Some?
    ensures var r1 := Reload(p, s, hlsSupported, httpsPage, created).value;
      CurrentSource(p, r1).Some? &&
      var r2 := Reload(p, r1, hlsSupported, httpsPage, created).value;
      var ts := SubtitleChange(r2, Some(id)).tracks;
      |ts| == 2 && ts[0].mode == Showing && ts[1].mode == Showing
  {
    var r1 := Reload(p, s, hlsSupported, httpsPage, created).value;
    assert CurrentSource(p, r1) == CurrentSource(p, s);
  }

  /** A later choice fully overrides an earlier one. */
  lemma LastSelectionWins(tracks: seq<Track>, a: Option<string>, b: Option<string>)
    ensures SelectSubtitle(SelectSubtitle(tracks, a), b) == SelectSubtitle(tracks, b)
  {
  }
}
