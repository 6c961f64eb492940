/** The playback analytics recorder (src/components/Engine/Analytics.ts) as a
    state machine: media events arrive with the element's current time and
    the clock reading `now`, both inputs. Event payloads, the console and the
    random part of session ids are left out. */
module Analytics {

  /** The counters and timestamps the recorder keeps; times in ms. */
  datatype Metrics = Metrics(
    totalPlayTime: int, totalPausedTime: int, totalBufferingTime: int,
    seekingCount: nat, volumeChanges: nat, rateChanges: nat, errors: nat,
    lastPlayTime: int, lastPauseTime: int, bufferingStartTime: int)

  const Zero: Metrics := Metrics(0, 0, 0, 0, 0, 0, 0, 0, 0, 0)

  /** The events listened to: the element's, plus the document's
      fullscreenchange. */
  datatype Name =
    | Play | Pause | Seeking | Seeked | VolumeChange | RateChange | FullscreenChange
    | Error | Ended | TimeUpdate | Waiting | Playing | LoadStart | LoadedMetadata

  /** One logged event. */
  datatype Entry = Entry(sessionId: string, timestamp: int, name: Name)

  /** The recorder: `element` says a video element was given, `tracking` is
      the isTracking flag, `listening` says the listeners were attached (they
      are never removed), and `lastTrackedTime` is the floor of the last
      logged timeupdate. */
  datatype State = State(sessionId: string, events: seq<Entry>, element: bool, tracking: bool,
                         listening: bool, metrics: Metrics, lastTrackedTime: int)

  /** The constructor, with the generated session id as input. */
  function New(sessionId: string): (s: State)
    ensures s.events == [] && s.metrics == Zero && !s.tracking && !s.listening
  {
    State(sessionId, [], false, false, false, Zero, 0)
  }

  /** init: remember the element (`hasElement` false stands for null), then
      startTracking, which does nothing without an element or when already
      tracking. */
  function Init(s: State, hasElement: bool): (s': State)
    ensures s'.element == hasElement
    ensures !hasElement || s.tracking ==> s' == s.(element := hasElement)
    ensures hasElement && !s.tracking ==> s'.tracking && s'.listening && s'.lastTrackedTime == 0
    ensures s'.events == s.events && s'.metrics == s.metrics && s'.sessionId == s.sessionId
  {
    var s1 := s.(element := hasElement);
    if !s1.element || s1.tracking then s1
    else s1.(tracking := true, listening := true, lastTrackedTime := 0)
  }

  /** The timeupdate throttle: an element is still remembered, the whole
      second is a multiple of 10 (the sign of JavaScript's % does not matter
      for a zero remainder) and it differs from the last one logged. */
  predicate TimeUpdatePasses(s: State, t: real) {
    s.element && t.Floor % 10 == 0 && t.Floor != s.lastTrackedTime
  }

  /** The event is logged: listeners are attached and, for timeupdate, the
      throttle lets it through. */
  predicate Logs(s: State, name: Name, t: real) {
    s.listening && (name == TimeUpdate ==> TimeUpdatePasses(s, t))
  }

  function Log(s: State, name: Name, now: int): State {
    s.(events := s.events + [Entry(s.sessionId, now, name)])
  }

  /** The listener for one event. */
  function Handle(s: State, name: Name, t: real, now: int): (s': State)
    ensures !s.listening ==> s' == s
    ensures name == TimeUpdate && !s.element ==> s' == s
    ensures s'.sessionId == s.sessionId && s'.element == s.element
         && s'.tracking == s.tracking && s'.listening == s.listening
    ensures s'.events == if Logs(s, name, t) then s.events + [Entry(s.sessionId, now, name)] else s.events
    ensures s'.metrics.totalPausedTime == s.metrics.totalPausedTime
  {
    if !s.listening then s
    else
      var m := s.metrics;
      match name
      case Play => Log(s.(metrics := m.(lastPlayTime := now)), name, now)
      case Pause =>
        var played := if m.lastPlayTime > 0 then now - m.lastPlayTime else 0;
        Log(s.(metrics := m.(lastPauseTime := now, totalPlayTime := m.totalPlayTime + played)), name, now)
      case Seeking => Log(s.(metrics := m.(seekingCount := m.seekingCount + 1)), name, now)
      case VolumeChange => Log(s.(metrics := m.(volumeChanges := m.volumeChanges + 1)), name, now)
      case RateChange => Log(s.(metrics := m.(rateChanges := m.rateChanges + 1)), name, now)
      case Error => Log(s.(metrics := m.(errors := m.errors + 1)), name, now)
      case TimeUpdate =>
        if TimeUpdatePasses(s, t) then Log(s.(lastTrackedTime := t.Floor), name, now) else s
      case Waiting => Log(s.(metrics := m.(bufferingStartTime := now)), name, now)
      case Playing =>
        var m' := if m.bufferingStartTime > 0
                  then m.(totalBufferingTime := m.totalBufferingTime + (now - m.bufferingStartTime), bufferingStartTime := 0)
                  else m;
        Log(s.(metrics := m'), name, now)
      case _ => Log(s, name, now)
  }

  /** How many logged events carry `name`. */
  function Count(events: seq<Entry>, name: Name): nat
    decreases |events|
  {
    if |events| == 0 then 0
    else Count(events[..|events| - 1], name) + (if events[|events| - 1].name == name then 1 else 0)
  }

  lemma CountAppend(events: seq<Entry>, e: Entry, name: Name)
    ensures Count(events + [e], name) == Count(events, name) + (if e.name == name then 1 else 0)
  {
    assert (events + [e])[..|events|] == events;
  }

  /** Each counter equals the number of its events in the log. */
  ghost predicate Consistent(s: State) {
    && s.metrics.seekingCount == Count(s.events, Seeking)
    && s.metrics.volumeChanges == Count(s.events, VolumeChange)
    && s.metrics.rateChanges == Count(s.events, RateChange)
    && s.metrics.errors == Count(s.events, Error)
  }

  /** The counted events each raise their own counter by exactly one and
      leave the other three alone; every other event leaves all four. */
  lemma CounterEffects(s: State, name: Name, t: real, now: int)
    requires s.listening
    ensures var m, m' := s.metrics, Handle(s, name, t, now).metrics;
      && m'.seekingCount == m.seekingCount + (if name == Seeking then 1 else 0)
      && m'.volumeChanges == m.volumeChanges + (if name == VolumeChange then 1 else 0)
      && m'.rateChanges == m.rateChanges + (if name == RateChange then 1 else 0)
      && m'.errors == m.errors + (if name == Error then 1 else 0)
  {
  }

  /** Handling an event keeps the counters in step with the log. */
  lemma HandleConsistent(s: State, name: Name, t: real, now: int)
    requires Consistent(s)
    ensures Consistent(Handle(s, name, t, now))
  {
    if Logs(s, name, t) {
      var e := Entry(s.sessionId, now, name);
      CounterEffects(s, name, t, now);
      CountAppend(s.events, e, Seeking);
      CountAppend(s.events, e, VolumeChange);
      CountAppend(s.events, e, RateChange);
      CountAppend(s.events, e, Error);
    } else if s.listening {
      CounterEffects(s, name, t, now);
    }
  }

  /** An arriving event: its name, the element's current time, the clock. */
  datatype Arrival = Arrival(name: Name, t: real, now: int)

  /** A sequence of events handled in order. */
  function Run(s: State, arrivals: seq<Arrival>): State
    decreases |arrivals|
  {
    if |arrivals| == 0 then s
    else
      var a := arrivals[|arrivals| - 1];
      Handle(Run(s, arrivals[..|arrivals| - 1]), a.name, a.t, a.now)
  }

  /** From a new recorder, after init and any run of events, the counters
      equal the event counts in the log. */
  lemma {:induction false} RunConsistent(s: State, arrivals: seq<Arrival>)
    requires Consistent(s)
    ensures Consistent(Run(s, arrivals))
    decreases |arrivals|
  {
    if |arrivals| > 0 {
      var a := arrivals[|arrivals| - 1];
      RunConsistent(s, arrivals[..|arrivals| - 1]);
      HandleConsistent(Run(s, arrivals[..|arrivals| - 1]), a.name, a.t, a.now);
    }
  }

  lemma StartConsistent(sessionId: string, hasElement: bool)
    ensures Consistent(Init(New(sessionId), hasElement))
  {
  }

  /** Pause adds the time since the last play only when a play was
      recorded (lastPlayTime > 0); a play then a pause adds exactly the
      time between them. */
  lemma PauseAccumulates(s: State, t: real, now: int)
    requires s.listening
    ensures var m, m' := s.metrics, Handle(s, Pause, t, now).metrics;
      && m'.lastPauseTime == now
      && m'.totalPlayTime == m.totalPlayTime + (if m.lastPlayTime > 0 then now - m.lastPlayTime else 0)
  {
  }

  lemma PlayThenPause(s: State, t1: real, a: int, t2: real, b: int)
    requires s.listening && a > 0
    ensures Handle(Handle(s, Play, t1, a), Pause, t2, b).metrics.totalPlayTime
         == s.metrics.totalPlayTime + (b - a)
  {
  }

  /** A playing event after buffering adds the buffered time and clears the
      start; without a buffering start it leaves the total alone. */
  lemma PlayingAccumulates(s: State, t: real, now: int)
    requires s.listening
    ensures var m, m' := s.metrics, Handle(s, Playing, t, now).metrics;
      && (m.bufferingStartTime > 0 ==>
            m'.totalBufferingTime == m.totalBufferingTime + (now - m.bufferingStartTime) && m'.bufferingStartTime == 0)
      && (m.bufferingStartTime <= 0 ==> m' == m)
  {
  }

  lemma WaitingThenPlaying(s: State, t1: real, a: int, t2: real, b: int)
    requires s.listening && a > 0
    ensures var m := Handle(Handle(s, Waiting, t1, a), Playing, t2, b).metrics;
      m.totalBufferingTime == s.metrics.totalBufferingTime + (b - a) && m.bufferingStartTime == 0
  {
  }

  /** Right after tracking starts, a timeupdate in the first second is not
      logged: its whole second 0 equals the initial last-logged second. */
  lemma FirstSecondNotLogged(sessionId: string, t: real)
    requires 0.0 <= t < 1.0
    ensures var s := Init(New(sessionId), true); Handle(s, TimeUpdate, t, 0).events == []
  {
  }

  /** Two timeupdates within the same logged second log once. */
  lemma SameSecondLoggedOnce(s: State, t1: real, t2: real, a: int, b: int)
    requires Logs(s, TimeUpdate, t1) && t1.Floor == t2.Floor
    ensures |Handle(Handle(s, TimeUpdate, t1, a), TimeUpdate, t2, b).events| == |s.events| + 1
  {
  }

  /** A report from getMetrics. */
  datatype Report = Report(metrics: Metrics, sessionId: string, eventCount: nat)

  /** getMetrics. For a consistent recorder the report's seek count is the
      number of seeking entries in the log, and the four counters together
      never exceed the event count, since each counts entries of its own
      name. */
  function GetMetrics(s: State): (r: Report)
    ensures r.eventCount == |s.events| && r.sessionId == s.sessionId
    ensures Consistent(s) ==> r.metrics.seekingCount == Count(s.events, Seeking)
    ensures Consistent(s) ==>
      r.metrics.seekingCount + r.metrics.volumeChanges + r.metrics.rateChanges + r.metrics.errors <= r.eventCount
  {
    CountersBound(s.events);
    Report(s.metrics, s.sessionId, |s.events|)
  }

  /** Entries of four distinct names number at most all entries. */
  lemma {:induction false} CountersBound(events: seq<Entry>)
    ensures Count(events, Seeking) + Count(events, VolumeChange) + Count(events, RateChange) + Count(events, Error)
         <= |events|
    decreases |events|
  {
    if |events| > 0 {
      CountersBound(events[..|events| - 1]);
    }
  }

  /** reset: empty log, zero metrics, a new session id; tracking and the
      attached listeners are untouched. */
  function Reset(s: State, newSessionId: string): (s': State)
    ensures s'.events == [] && s'.metrics == Zero && s'.sessionId == newSessionId
    ensures s'.tracking == s.tracking && s'.listening == s.listening
  {
    s.(events := [], sessionId := newSessionId, metrics := Zero)
  }

  /** destroy: tracking stops, the log is emptied and the metrics zeroed;
      the session id is kept and the listeners stay attached. */
  function Destroy(s: State): (s': State)
    ensures !s'.tracking && s'.events == [] && s'.metrics == Zero
    ensures s'.sessionId == s.sessionId && s'.listening == s.listening
  {
    s.(tracking := false, events := [], metrics := Zero)
  }

  lemma ResetAndDestroyConsistent(s: State, newSessionId: string)
    ensures Consistent(Reset(s, newSessionId)) && Consistent(Destroy(s))
  {
  }

  /** Because the listeners are never removed, events after destroy are
      still logged and counted. */
  lemma LoggedAfterDestroy(s: State, t: real, now: int)
    requires s.listening
    ensures var d := Handle(Destroy(s), Seeking, t, now);
      |d.events| == 1 && d.metrics.seekingCount == 1 && !d.tracking
  {
  }
}
