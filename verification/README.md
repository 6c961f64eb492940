# Video player core in Dafny

A model of the logic at the core of a browser video player for HLS, DASH
and progressive streams. The model covers:

- the React `Player` component's state transitions (`src/components/Player.tsx`):
  - playlist navigation, with wrap-around;
  - choosing the current source and its stream type, and the engine that plays it;
  - volume, mute and the keyboard shortcuts;
  - the auto-quality flag;
  - view modes and subtitle selection.
- the HLS engine wrapper (`src/components/Engine/HlsEngine.ts`).
- the playback analytics recorder (`src/components/Engine/Analytics.ts`), as a
  state machine over media events.
- the manifest helpers:
  - the HLS and DASH segment-timeline reconstruction and the colour of a
    segment's bitrate band (`src/utils/fetchSegments.ts`);
  - HLS variant-stream parsing and stream-type detection
    (`src/utils/parseManifest.ts`);
  - container detection (`src/components/Engine/CodecDetector.ts`);
  - bitrate arithmetic and the buffer look-ahead (`src/utils/measureBitrate.ts`).
- the pure parts of three overlays:
  - the segment strip (`SegmentVisualization.tsx`);
  - the playlist panel (`Playlist.tsx`);
  - the hover thumbnail (`ThumbnailPreview.tsx`), with the `formatTime` helper
    the panel and the hover thumbnail share.

JavaScript numbers are modelled as `real`. `Math.round`, `Math.floor`,
`Math.trunc` and the truncating `%` are written out. The `String` methods
(`trim`, `split`, `startsWith`, `includes`, `toLowerCase`, `padStart`)
have their JavaScript semantics in module `Text`. Some inputs become
parameters or arguments:

- the clock (`Date.now()`);
- the page protocol;
- `Hls.isSupported()`;
- `parseInt`, `parseFloat` and `encodeURIComponent`;
- the media element's current time.

Modules, one per file:

| file | module | models |
|---|---|---|
| base.dfy | Base | `Option` |
| text.dfy | Text | JavaScript string built-ins |
| m3u8.dfy | M3u8 | the line scan both playlist parsers share (RFC 8216 tags) |
| segments.dfy | Segments | `fetchHlsSegments`, `fetchDashSegments`, `getSegmentColor` |
| manifest.dfy | Manifest | `parseHlsManifest`, `detectStreamType` |
| codec.dfy | Codec | `CodecDetector.detectContainer`, `CodecDetector.detectStreamType` |
| bitrate.dfy | Bitrate | `measureBitrate`, `formatBitrate`, `getBufferHealth` |
| clock.dfy | Clock | `formatTime` and a reader for its output |
| segmentview.dfy | SegmentView | `SegmentVisualization` |
| playlistpanel.dfy | PlaylistPanel | `Playlist` |
| thumbnail.dfy | Thumbnail | `ThumbnailPreview` |
| hlsengine.dfy | HlsEngine | `HlsEngine` |
| analytics.dfy | Analytics | `Analytics` |
| player.dfy | Player | `Player` |

## Model

| member | source | states |
|---|---|---|
| M3u8.Classify | src/utils/fetchSegments.ts:39-46 | A trimmed line is a tag line exactly when it starts with the scanned tag, and then carries the text after the tag. It is a URI line exactly when it is non-empty and does not start with '#', and then carries the trimmed line. |
| M3u8.Lines | src/utils/parseManifest.ts:15-19 | One classified line per piece of the text split on '\n', in order. |
| M3u8.Pairs | src/utils/fetchSegments.ts:42-46 | Lists, in strictly ascending order, only positions where a tag line is directly followed by a URI line. |
| M3u8.PairsComplete | src/utils/parseManifest.ts:22-39 | Every tag line directly followed by a URI line is listed. |
| Segments.ScanHlsPairs | src/utils/fetchSegments.ts:38-57 | The k-th segment comes from the k-th #EXTINF tag that has a URI line after it. Its URL is that line and its duration is parseFloat of the text after the directive. A tag without a URI line emits nothing. |
| Segments.ScanHlsTotal | src/utils/fetchSegments.ts:49-56 | The running start equals the sum of the durations emitted so far. |
| Segments.ScanHlsContiguous | src/utils/fetchSegments.ts:47-56 | The first segment starts at 0 and each later one starts where the previous one ended. |
| Segments.HlsSegments | src/utils/fetchSegments.ts:34-61 | Segments correspond one-to-one with paired #EXTINF tags. Each ends at start plus duration with size and bitrate 0. The timeline is contiguous from 0, and the last segment ends at the total duration. |
| Segments.ScanHlsComplete | src/utils/fetchSegments.ts:38-57 | After every line: one segment per paired tag, contiguous from 0, the last ending at the total duration. |
| Segments.TwoSegmentPlaylist | src/utils/fetchSegments.ts:38-57 | Two duration lines, each followed by its URI, give exactly two segments back to back from 0: the first URI on [0, a] and the second on [a, a + b], where a and b are the parsed durations. |
| Segments.TwoSegmentLines | src/utils/fetchSegments.ts:34-46 | Such a playlist splits into four lines: tag, URI, tag, URI, each carrying its own text. |
| Segments.SegmentSeconds | src/utils/fetchSegments.ts:103-104 | A template that passes the guard has a positive segment length. |
| Segments.UsableTemplates | src/utils/fetchSegments.ts:100-103 | Lists, ascending, only templates whose timescale (default 1) and duration (default 0) are both positive. A NaN attribute fails the guard. |
| Segments.UsableTemplatesComplete | src/utils/fetchSegments.ts:98-103 | Every template that passes the guard is listed. |
| Segments.DashSegment | src/utils/fetchSegments.ts:104-112 | The template at position i yields "segment-i.m4s" on [i·d, (i+1)·d] with duration d and unknown size and bitrate. |
| Segments.ScanDash | src/utils/fetchSegments.ts:98-114 | The k-th segment comes from the k-th template that passes the guard and keeps that template's own position as its slot. |
| Segments.AdjacentSlots | src/utils/fetchSegments.ts:107-108 | Slots k-1 and k of the same length meet end to start. |
| Segments.UniformTemplatesContiguous | src/utils/fetchSegments.ts:98-114 | If every template passes the guard with the same length, there is one segment per template and the timeline is contiguous from 0. |
| Segments.SkippedTemplateKeepsIndex | src/utils/fetchSegments.ts:98-113 | A skipped template leaves a gap: [no duration, 2 s] yields only "segment-1.m4s" on [2, 4]. |
| Segments.ManifestRequestUrl | src/utils/fetchSegments.ts:16-17 | No request URL starts with "http": such a URL is requested as "/proxy/" followed by its encoding. Any other URL is requested as is. |
| Segments.ManifestRequestUrlIdempotent | src/utils/fetchSegments.ts:16-17 | A proxied URL is not proxied again. |
| Segments.BandBoundaries | src/utils/fetchSegments.ts:123-129 | Each colour band holds exactly the bitrates of its interval, split at 1, 3 and 5 Mbit/s. |
| Segments.BandMonotone | src/utils/fetchSegments.ts:123-129 | A higher bitrate never gets a lower band. |
| Segments.ColorsDistinct | src/utils/fetchSegments.ts:125-128 | The four bands have four different colours. |
| Manifest.ParsePair | src/utils/parseManifest.ts:30-33 | A piece is kept exactly when the texts before its first '=' and between its first and second '=' are both non-empty. A kept key has no '=' and no surrounding white space. A kept value has no '=', no quote and no surrounding white space. |
| Manifest.Pieces | src/utils/parseManifest.ts:27-30 | One parsed piece per comma-separated part of the attribute text. |
| Manifest.AttrFoldKeys | src/utils/parseManifest.ts:29-34 | A key is in the attribute record exactly when some kept piece defines it. |
| Manifest.AttrFoldLastWins | src/utils/parseManifest.ts:29-34 | For a duplicate key, the value recorded is the one from the last piece that defines it. |
| Manifest.QuotedCommaTruncates | src/utils/parseManifest.ts:26-34 | A quoted value containing a comma is cut at the comma: `CODECS="a,b"` records CODECS as "a". |
| Manifest.MakeVariant | src/utils/parseManifest.ts:40-46 | BANDWIDTH is parseInt of the attribute, or 0 when it is absent or empty. RESOLUTION and CODECS are present exactly when written. FRAME-RATE is parsed exactly when present and non-empty. |
| Manifest.TagAttributes | src/utils/parseManifest.ts:22-27 | Every directive line gets the record parsed from the text after the 18-character directive. |
| Manifest.ScanVariants | src/utils/parseManifest.ts:18-49 | The k-th variant comes from the k-th #EXT-X-STREAM-INF line that has a URI line after it, and takes its URL from that line. |
| Manifest.ParseHls | src/utils/parseManifest.ts:15-51 | One variant per directive line followed by a URI line, in line order, built from that directive's attributes. |
| Manifest.ParseHlsComplete | src/utils/parseManifest.ts:37-47 | Every directive line followed by a URI line yields a variant. |
| Manifest.DetectStreamTypeOccurs | src/utils/parseManifest.ts:90-98 | "hls" exactly when ".m3u8" occurs anywhere in the URL. "dash" exactly when ".mpd" occurs and ".m3u8" does not. "progressive" otherwise. |
| Codec.ContainerOf | src/components/Engine/CodecDetector.ts:6-23 | The result is "unknown" exactly for an extension outside the seven known ones. |
| Codec.ContainerOfInjective | src/components/Engine/CodecDetector.ts:6-20 | Distinct known extensions map to distinct containers. |
| Codec.ContainerByExtension | src/components/Engine/CodecDetector.ts:4 | Only the text after the last '.' matters, and it is compared in lower case. |
| Codec.ContainerWithoutDot | src/components/Engine/CodecDetector.ts:4 | A URL without a '.' is taken whole as its extension. |
| Codec.QueryStringIsUnknown | src/components/Engine/CodecDetector.ts:4-22 | A query string after the extension makes the container unknown. |
| Codec.UpperCaseExtension | src/components/Engine/CodecDetector.ts:4-8 | "a.M3U8" is an HLS container, yet its stream type (a case-sensitive substring test) is progressive. |
| Codec.DetectStreamType | src/components/Engine/CodecDetector.ts:80-88 | The class's own stream-type detection agrees with the manifest helper's on every URL. |
| Bitrate.Round | src/utils/measureBitrate.ts:7 | The result is the integer nearest to x, with halves rounded up. |
| Bitrate.RoundMonotone | src/utils/measureBitrate.ts:7 | Rounding is monotone. |
| Bitrate.MeasureBitrate | src/utils/measureBitrate.ts:1-8 | The result is 0 for a non-positive duration. Otherwise it is within one half of bytes·8/duration. |
| Bitrate.MeasureNonNegative | src/utils/measureBitrate.ts:1-8 | A non-negative byte count never measures a negative bitrate. |
| Bitrate.MeasureMonotone | src/utils/measureBitrate.ts:5-7 | Over the same duration, more bytes never measure a lower bitrate. |
| Bitrate.FormatBitrate | src/utils/measureBitrate.ts:10-14 | The printed value times the unit's scale is the bitrate. The unit is bps exactly below 1000, kbps exactly in [1000, 10^6) and Mbps exactly from 10^6. |
| Bitrate.FormatBitrateRange | src/utils/measureBitrate.ts:12-13 | A kbps or Mbps value is at least 1, and a kbps value is below 1000. |
| Bitrate.BufferHealth | src/utils/measureBitrate.ts:49-67 | The result is the milliseconds from t to the end of the first range holding t, rounded; 0 when no range holds t or there are no ranges; never negative. |
| Clock.Trunc | src/components/Controls/Playlist.tsx:69-70 | The integer part, rounded toward zero. |
| Clock.JsRem | src/components/Controls/Playlist.tsx:69-70 | The remainder keeps the sign of the dividend and is smaller than the divisor in magnitude. The dividend is the truncated quotient times the divisor plus the remainder. |
| Clock.ClockParts | src/components/Controls/Playlist.tsx:68-77 | For s ≥ 0, minutes and seconds lie in [0, 59] and hours are non-negative. Together they make up floor(s), and hours are shown exactly from 3600 s on. |
| Clock.ShowReadBack | src/components/Controls/Playlist.tsx:72-76 | Hours, minutes and seconds in range print as text that reads back as their total seconds. |
| Clock.FormatParseRoundTrip | src/components/Controls/Playlist.tsx:68-77 | For s ≥ 0, the text reads back as floor(s). It has three colon-separated fields from one hour on and two below. |
| Clock.MinutesUnpadded | src/components/Controls/ThumbnailPreview.tsx:49-58 | Below one hour the minutes are not padded: 65 s prints as "1:05". |
| Clock.HoursPadded | src/components/Controls/ThumbnailPreview.tsx:49-58 | From one hour on, minutes and seconds are padded: 3725 s prints as "1:02:05". |
| Clock.ParseClock | src/components/Controls/Playlist.tsx:72-76 | A reader for the two clock shapes; its result, when any, is non-negative. |
| SegmentView.Render | src/components/Controls/SegmentVisualization.tsx:28-40 | Nothing is drawn exactly when there are no segments or the duration is not positive. Otherwise there is one box per segment. A box is current exactly when the playhead is in the closed interval of its segment, and buffered exactly when one range holds the whole segment. Its colour is the bitrate band's. |
| SegmentView.ContiguousBoundaryCurrent | src/components/Controls/SegmentVisualization.tsx:35 | On a contiguous timeline, a playhead on a shared boundary marks both neighbours current. |
| SegmentView.BoundaryBothCurrent | src/components/Controls/SegmentVisualization.tsx:35 | Two adjacent segments are both current at the point they share. |
| SegmentView.SplitCoverageNotBuffered | src/components/Controls/SegmentVisualization.tsx:38-40 | A segment covered by two ranges that meet inside it is not buffered, although every instant of it is buffered. |
| SegmentView.BufferedMonotone | src/components/Controls/SegmentVisualization.tsx:38-40 | Adding ranges never un-buffers a segment. |
| SegmentView.BoxesAbut | src/components/Controls/SegmentVisualization.tsx:32-33 | On a contiguous timeline each box starts exactly where the previous box stops. |
| SegmentView.FirstBoxAtLeftEdge | src/components/Controls/SegmentVisualization.tsx:33 | A timeline starting at 0 has its first box at the left edge. |
| SegmentView.HlsSegmentsAllLow | src/components/Controls/SegmentVisualization.tsx:34 | Segments rebuilt from an HLS playlist have bitrate 0, so they are all drawn in the low band's colour. |
| PlaylistPanel.Render | src/components/Controls/Playlist.tsx:27-57 | Nothing is drawn exactly when the panel is hidden. Otherwise there is one row per item, active exactly at the current index. The thumbnail is shown exactly when non-empty, and the duration label exactly when non-zero. A zero duration instead leaves the text "0" in the row. |
| PlaylistPanel.OneActive | src/components/Controls/Playlist.tsx:41 | At most one row is active, and one is active exactly when the current index lies inside the list. |
| PlaylistPanel.DurationLabelReadsBack | src/components/Controls/Playlist.tsx:53-57 | A duration label reads back as the whole seconds of the item's duration. |
| Thumbnail.Index | src/components/Controls/ThumbnailPreview.tsx:23-26 | The index never exceeds n-1. With duration 0, an index exists exactly for a positive time, and then it is n-1. Otherwise it is the floor of t/d·n, or n-1 when that floor reaches n-1. |
| Thumbnail.Render | src/components/Controls/ThumbnailPreview.tsx:20-58 | Hidden exactly when not visible or without thumbnails. When shown, a URL is shown exactly when the index exists and is non-negative, and it is the thumbnail at that index. The caption is the clock text of the time. |
| Thumbnail.IndexInRange | src/components/Controls/ThumbnailPreview.tsx:23-28 | For a positive duration and a non-negative time the index is in [0, n-1], and a thumbnail is found. |
| Thumbnail.IndexMonotone | src/components/Controls/ThumbnailPreview.tsx:23-26 | A later time never selects an earlier thumbnail. |
| Thumbnail.EndSelectsLast | src/components/Controls/ThumbnailPreview.tsx:23-26 | The end of the media selects the last thumbnail. |
| Thumbnail.ZeroDurationPicksLastOrNothing | src/components/Controls/ThumbnailPreview.tsx:23-28 | With a zero duration, a positive time shows the last thumbnail and any other time shows none. |
| HlsEngine.NewEngine | src/components/Engine/HlsEngine.ts:6-18 | A library instance exists exactly when the library is supported. The auto flag starts true and nothing is attached. |
| HlsEngine.ProxiedUrl | src/components/Engine/HlsEngine.ts:34-42 | On an https page no URL is left starting with "http://": such a URL starts with "https://" and keeps the rest. On an http page, and for any other URL, the URL is unchanged. |
| HlsEngine.ProxiedUrlIdempotent | src/components/Engine/HlsEngine.ts:34-42 | Rewriting twice is the same as rewriting once. |
| HlsEngine.LoadSource | src/components/Engine/HlsEngine.ts:20-32 | The rewritten URL goes to the instance, which is then attached, or to the element when there is no instance. The flag is kept. |
| HlsEngine.Destroy | src/components/Engine/HlsEngine.ts:44-50 | The instance and the element are released, and the flag is kept. |
| HlsEngine.Levels | src/components/Engine/HlsEngine.ts:57-62 | There are no levels without an instance. |
| HlsEngine.CurrentLevel | src/components/Engine/HlsEngine.ts:73-78 | The level is -1 without an instance. |
| HlsEngine.CurrentBitrate | src/components/Engine/HlsEngine.ts:96-101 | The bitrate is 0 without an instance. A non-zero result is the instance's estimate. |
| HlsEngine.SetCurrentLevel | src/components/Engine/HlsEngine.ts:65-70 | With an instance, the level is selected and the flag is set exactly when the level is -1. Without one, nothing changes. |
| HlsEngine.SetAutoQuality | src/components/Engine/HlsEngine.ts:81-88 | With an instance the flag is set. The next level becomes -1 only when enabling; disabling leaves the next level, and the current level is untouched either way. Without an instance, nothing changes. |
| HlsEngine.UnsupportedDefaults | src/components/Engine/HlsEngine.ts:57-101 | Without the library every getter reports its default, and the quality setters leave the flag true. |
| HlsEngine.LevelAndAutoAgree | src/components/Engine/HlsEngine.ts:65-88 | Choosing level -1 and enabling auto quality agree on the flag, and the later call decides it. |
| HlsEngine.FreshEngineIsAutomatic | src/components/Engine/HlsEngine.ts:6-32 | A new engine is automatic after loading any source. |
| HlsEngine.DestroyedEngineIsInert | src/components/Engine/HlsEngine.ts:44-101 | After destroy, every getter reports its default, both quality setters do nothing, and the flag keeps its value. |
| Analytics.New | src/components/Engine/Analytics.ts:1-22 | A new recorder has an empty log and zero metrics, and is neither tracking nor listening. |
| Analytics.Init | src/components/Engine/Analytics.ts:24-36 | Tracking starts only with an element and when it is not already tracking. Neither the log nor the metrics change. |
| Analytics.Handle | src/components/Engine/Analytics.ts:39-173 | Before the listeners are attached nothing changes. After that, an entry with the session id and the clock is appended exactly when the event is logged. A timeupdate is logged only while an element is remembered, and only in a new whole second that is a multiple of 10. |
| Analytics.CounterEffects | src/components/Engine/Analytics.ts:58-102 | Seeking, volumechange, ratechange and error each raise their own counter by one and leave the other three alone; other events leave all four. |
| Analytics.HandleConsistent | src/components/Engine/Analytics.ts:39-173 | Handling any event keeps each counter equal to the number of its events in the log. |
| Analytics.RunConsistent | src/components/Engine/Analytics.ts:39-173 | After any sequence of events, each counter equals the number of its events in the log. |
| Analytics.StartConsistent | src/components/Engine/Analytics.ts:19-36 | A recorder that was just created and initialised is consistent. |
| Analytics.PauseAccumulates | src/components/Engine/Analytics.ts:47-55 | A pause records the clock and adds the time since the last play, but only when a play was recorded. |
| Analytics.PlayThenPause | src/components/Engine/Analytics.ts:39-55 | A play at a and a pause at b add exactly b - a to the play time. |
| Analytics.PlayingAccumulates | src/components/Engine/Analytics.ts:134-142 | After a buffering start, playing adds the buffered time and clears the start. Without a buffering start it changes no metric. |
| Analytics.WaitingThenPlaying | src/components/Engine/Analytics.ts:126-142 | Waiting at a and playing at b add exactly b - a to the buffering time. |
| Analytics.FirstSecondNotLogged | src/components/Engine/Analytics.ts:112-123 | Right after tracking starts, a timeupdate in second 0 is not logged. |
| Analytics.SameSecondLoggedOnce | src/components/Engine/Analytics.ts:112-123 | Two timeupdates in the same logged second add one entry. |
| Analytics.GetMetrics | src/components/Engine/Analytics.ts:206-212 | The report carries the session id and the number of logged events. In a consistent recorder its seek count is the number of seeking entries, and the four counters together never exceed the event count. |
| Analytics.Reset | src/components/Engine/Analytics.ts:215-230 | The log is emptied, the metrics are zeroed and the session id is new. Tracking and the listeners are untouched. |
| Analytics.Destroy | src/components/Engine/Analytics.ts:233-248 | Tracking stops, and the log and metrics are cleared. The session id is kept and the listeners stay. |
| Analytics.ResetAndDestroyConsistent | src/components/Engine/Analytics.ts:215-248 | Reset and destroy leave the recorder consistent. |
| Analytics.LoggedAfterDestroy | src/components/Engine/Analytics.ts:233-248 | The listeners are never removed, so an event after destroy is still logged and counted. |
| Player.JsRem | src/components/Player.tsx:237 | The integer remainder keeps the sign of the dividend and is below the divisor in magnitude. The dividend is the truncated quotient times the divisor plus the remainder. |
| Player.Next | src/components/Player.tsx:235-240 | The index steps forward with wrap-around inside the list. Without items nothing changes. |
| Player.Prev | src/components/Player.tsx:242-247 | The index steps back with wrap-around inside the list. Without items nothing changes. |
| Player.NavigationInverse | src/components/Player.tsx:235-247 | Both steps keep an index inside the list, and each undoes the other. |
| Player.NextRecovers | src/components/Player.tsx:235-240 | From any non-negative index, a step forward lands inside the list. |
| Player.NextFromNegative | src/components/Player.tsx:237 | From -2 in a list of 3, a step forward gives -1. |
| Player.Initial | src/components/Player.tsx:64-86 | The player starts automatic, at full volume and unmuted, in normal view, without an engine or tracks. It starts at the playlist's own index, or 0 when it has none. |
| Player.Ended | src/components/Player.tsx:453-459 | The ended event advances like playNext, and nothing else changes. Without items nothing changes at all. |
| Player.PlayItem | src/components/Player.tsx:696-699 | The chosen index is taken and the panel closes; nothing else changes. |
| Player.CurrentSource | src/components/Player.tsx:91-96 | With items, the current item's URL, and nothing when the index is outside the list. Without items, the direct source. |
| Player.CurrentType | src/components/Player.tsx:99-104 | With items, the current item's declared type, or "auto" when it has none. Without items, the direct type. |
| Player.DetectType | src/components/Player.tsx:483-493 | A declared type is kept. "auto" becomes "hls" exactly for a ".m3u8" ending, "dash" exactly for a ".mpd" ending without ".m3u8", and otherwise stays "auto". |
| Player.ChoosePipeline | src/components/Player.tsx:502-516 | The HLS engine is used exactly for "hls" when the library is supported. The DASH library is used exactly for "dash". |
| Player.ChooseSegments | src/components/Player.tsx:376-391 | HLS segments are fetched exactly for "hls", DASH segments exactly for "dash". |
| Player.SuffixVersusSubstring | src/components/Player.tsx:487-493 | "v.m3u8?t=1" is HLS to the manifest helper but plays through the native element. |
| Player.EngineAfterReload | src/components/Player.tsx:502-505 | A live engine is held exactly when the HLS pipeline is chosen, and it is fresh: automatic and attached. Otherwise a previous engine stays in the ref, destroyed, with its flag kept. |
| Player.Reload | src/components/Player.tsx:476-563 | It fails exactly when the current item is missing. The engine ref becomes EngineAfterReload's. One disabled track per subtitle is appended after the existing ones. The keydown handler captures the current flags. Nothing else changes. |
| Player.SetVolume | src/components/Player.tsx:581-589 | The element takes a volume in [0, 1]. A positive volume unmutes, and nothing else changes. |
| Player.ToggleMute | src/components/Player.tsx:591-596 | It flips the mute state and nothing else. |
| Player.ToggleMuteTwice | src/components/Player.tsx:591-596 | Toggling mute twice restores the state. |
| Player.CommandOfBound | src/components/Player.tsx:289-372 | A key has an action exactly when it is one of the 21 handled names: the space bar, the four arrows, and m, f, i, k, j, l, n, p in either case. |
| Player.LetterKeysIgnoreCase | src/components/Player.tsx:316-371 | Each letter does the same in either case, and 'k' does what the space bar does. |
| Player.StepVolume | src/components/Player.tsx:306-315 | The new volume is the old one moved by the step and clamped to [0, 1]. A positive result unmutes; a zero result leaves the mute state alone. |
| Player.Apply | src/components/Player.tsx:289-372 | Every action keeps the volume in [0, 1]. Actions touch only the play, time, volume, mute, fullscreen, picture-in-picture and index fields: never the engine, the tracks, the view mode, the quality flag or the captured flags. |
| Player.Key | src/components/Player.tsx:285-373 | Every key keeps the volume in [0, 1], and a key outside the handled names changes nothing. No key touches the engine, the tracks, the view mode, the quality flag or the captured flags. |
| Player.SeekKeysClamp | src/components/Player.tsx:296-305 | Seek keys move by 5 or 10 s. Backward seeks never go below 0, forward seeks never pass the duration, and a playhead inside [0, duration] stays there. |
| Player.VolumeKeys | src/components/Player.tsx:306-315 | The volume keys step by 0.1 inside [0, 1]. A step up always unmutes; a step down unmutes only when some volume is left. |
| Player.NavigationKeys | src/components/Player.tsx:352-371 | 'n'/'N' act as playNext and the ended event, and 'p'/'P' as playPrevious. An unbound key changes nothing. |
| Player.ToggleKeysReadCaptured | src/components/Player.tsx:563-643 | The space bar, 'k', 'm', 'f' and 'i' set their flag to the negation of the value captured at the last effect run, not of the current value. |
| Player.RepeatedToggleKeysRepeat | src/components/Player.tsx:565-596 | Captured unmuted and paused: 'm' pressed twice leaves the player muted, and the space bar pressed twice leaves it playing. |
| Player.ToggleKeyAfterReload | src/components/Player.tsx:476-563 | Right after an effect run, 'm' and the space bar flip the current mute and play state. |
| Player.QualityChange | src/components/Player.tsx:676-683 | With an engine in the ref, the flag becomes (level = -1); a live engine selects the level, a destroyed one is left as it is. Without one, nothing changes. Nothing else changes either way. |
| Player.ToggleAutoQuality | src/components/Player.tsx:685-694 | The player's flag flips whether or not there is an engine. A live engine takes the new value; a destroyed one is left as it is. Nothing else changes. |
| Player.ToggleAutoQualityTwice | src/components/Player.tsx:685-694 | Toggling twice restores the flag. |
| Player.QualityControlsKeepSync | src/components/Player.tsx:676-694 | Both quality controls keep the player's flag equal to a live engine's. |
| Player.ReloadLosesSync | src/components/Player.tsx:685-694 | Auto quality off, then the next HLS item: the player reports manual selection while the new engine is automatic. |
| Player.StaleEngineAfterOtherPipeline | src/components/Player.tsx:555-557 | After a move from an engine to another pipeline, the ref still holds the destroyed engine, and picking a level other than -1 reports manual selection while the engine is left as it is. |
| Player.ReloadSynced | src/components/Player.tsx:502-505 | A reload whose flag is taken from the fresh engine keeps the player and the engine in agreement. |
| Player.ToggleView | src/components/Player.tsx:645-655 | The result is Normal or the toggled mode. Toggling a mode other than Normal always changes the mode, and gives Normal exactly from that mode itself. |
| Player.ToggleViewTwice | src/components/Player.tsx:645-655 | Between Normal and its own mode a toggle undoes itself. From a third mode it switches straight to its own, and a second toggle returns to Normal. |
| Player.PlayerClassInjective | src/components/Player.tsx:712-719 | Distinct fullscreen and view-mode states give distinct class lists. |
| Player.SelectSubtitle | src/components/Player.tsx:605-613 | A track is shown exactly when its id is the chosen one; ids and order are kept. |
| Player.SubtitleChange | src/components/Player.tsx:605-613 | The element's tracks keep their ids and order, a track shows exactly when its id is the chosen one, and the choice becomes the active subtitle. Nothing else changes. |
| Player.OneSubtitleShows | src/components/Player.tsx:608-610 | For tracks with distinct ids, at most one track shows, and choosing none hides all tracks. The element's ids are distinct only until the first source change. |
| Player.TracksAfterFirstLoad | src/components/Player.tsx:518-527 | The first effect run gives a fresh player exactly one track per subtitle, so distinct subtitle ids give distinct track ids. |
| Player.ReloadDuplicatesTracks | src/components/Player.tsx:518-562 | A second effect run appends the tracks again, so choosing the one subtitle then shows two tracks. |
| Player.LastSelectionWins | src/components/Player.tsx:605-613 | A later choice fully overrides an earlier one. |

## Left out

- Network I/O: `fetch`, the 5-second abort timer, response status checks and the `catch` paths that return `[]` in `fetchSegments.ts` and `parseManifest.ts`. The manifest text is an input.
- XML parsing of DASH manifests: `DOMParser` and `getElementsByTagName`. A template is given by its two attributes as `parseInt` would read them (absent, a number, or NaN).
- `parseDashManifest` (`parseManifest.ts:58-88`): it works only on the parsed XML tree.
- `parseInt`, `parseFloat` and `encodeURIComponent`: they are parameters, not implementations.
- Number printing: `toFixed`, and `Number#toString` of non-integers. `FormatBitrate` returns the value and the unit instead of text.
- `getNetworkSpeed` (`measureBitrate.ts:16-47`): it times a network request.
- `canPlayCodec`, `getSupportedVideoCodecs` and `getSupportedAudioCodecs` (`CodecDetector.ts:27-77`): they ask the browser.
- `HlsEngine.getDroppedFrames`, `getHlsInstance` and `getAutoQuality`: plain getters over browser or library state.
- The ABR settings of `HlsEngine`'s constructor: hls.js internals.
- The internals of hls.js and dash.js. A library instance is reduced to its levels, current and next level, estimate and source.
- Analytics event payloads, `navigator.userAgent`, the page URL and console output. The random part of the session id is an input, as is `Date.now()`.
- Analytics re-initialised after `destroy`: a second set of listeners would be attached and every event recorded twice. Only one listener set is modelled.
- React rendering, markup, CSS classes other than `getPlayerClass`, click handlers and the stats panel.
- The FFmpeg components (`src/components/FFmpeg/`): outside the player core.
- Fullscreen and picture-in-picture requests: modelled as flags that the keys set, without the document's requests and events.
- `togglePlay` and `togglePictureInPicture`: the `play()`/`pause()` and picture-in-picture requests are modelled as setting the flag that their `play`, `pause` and picture-in-picture events set. The promise they return is not modelled.
- When the effect at `Player.tsx:408-563` runs: React decides this by comparing the dependencies by identity. `Reload` is the cleanup plus one run, applied where the caller places it. A caller that leaves out `subtitles` gets a fresh `[]` on every render, so the effect runs after every render.
- Track labels, languages and sources: a track is its id and mode.
- `handleKeyDown` before the video element is mounted, which returns at once, and `preventDefault` on handled keys: `Key` models the mounted case on the player's state.
- `handleSeek` and the imperative `seek`: plain assignments to the playhead, which the keys use.
- The buffered-range bookkeeping of the `progress` listener: the ranges are an input to the segment strip, copied as the element reports them.
- `setQuality` in the imperative handle: it mirrors `handleQualityChange`. Its `hlsRef` branches can never run, because `hlsRef` is never assigned.
- NaN and infinities in general: numbers are reals. The thumbnail index with a zero duration is the exception; it models both `+Infinity` capped to the last index and `NaN`/`-Infinity` as no index.
- The element refusing a volume outside [0, 1]: `SetVolume` returns None instead of raising.
- Clock.ParseClock: a reader introduced to state the round trip of `formatTime`; the source has no parser.
- The `formatTime` imported by `Player.tsx` from `src/utils/formatTime` is not part of this model.

## Findings

| source | as written | input that shows it | evidently intended | confidence | as-written member | corrected member |
|---|---|---|---|---|---|---|
| src/components/Player.tsx:685-694 with 502-505 | `toggleAutoQuality` flips the player's `isAutoQuality`, which survives a source change. The effect for the new source builds a fresh `HlsEngine`, whose flag starts true and whose library selects automatically. | Two items, the second "b.m3u8" without a type: toggle auto quality off, then play the next item | the quality control shows what the engine in use does, so the flag agrees with the new engine (automatic) | not executed | Player.ReloadLosesSync | Player.ReloadSynced |
