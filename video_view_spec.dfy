/** The VideoView-backed controller as a state machine on values: each
    operation of NativeVideoViewController.kt maps the controller's fields
    to their new values and to the VideoView calls and channel
    notifications it issues, in order. The class in module VideoView is
    proved against these. */
module VideoViewSpec {
  import opened Common

  /** The value `Uri.fromFile(File(path))` builds for a path; kept abstract. */
  datatype FileUri = FileUri(path: string)

  /** The mutable fields of one controller, plus the hash code of the
      activity it was built against. */
  datatype ViewState = ViewState(
    playerState: PlayerState,
    dataSource: Option<string>,
    configured: bool,
    disposed: bool,
    activityHash: int,
    videoSourceUri: Option<FileUri>,
    videoDurationLast: Int32,
    videoDuration: Int32)

  /** Outbound `player#...` notifications on the method channel. There is
      no completion notification: its emission is commented out. */
  datatype Notification =
    | PreparedMessage(info: Option<VideoInfo>)
    | ErrorMessage(what: int, extra: int)

  /** One observable side effect: a call into the VideoView or its media
      player, into the channel or into the lifecycle registry, a
      notification, or a NullPointerException escaping the handler. */
  datatype Effect =
    | SetMethodCallHandler(attached: bool)
    | LifecycleCallbacks(registered: bool)
    | SetListeners(attached: bool)
    | SetVideoPath(path: string)
    | StartVideo
    | PauseVideo
    | StopVideoPlayback
    | Seek(position: int)
    | SetLooping
    | SetVideoUri(uri: Option<FileUri>)
    | Notify(notification: Notification)
    | NullPointerThrown

  /** Everything that can happen to a live controller, one at a time.
      `canPause` is what `videoView.canPause()` answers at that moment. */
  datatype Event =
    | Call(command: Command, canPause: bool)
    | LifecycleCreated
    | LifecycleStarted
    | LifecycleResumed
    | LifecycleSaveInstanceState
    | LifecyclePaused(hash: int, canPause: bool)
    | LifecycleStopped(hash: int)
    | LifecycleDestroyed(hash: int)
    | Disposal
    | MediaPrepared(media: Option<VideoInfo>)
    | MediaCompleted(duration: Int32)
    | MediaError(what: int, extra: int)

  datatype Outcome = Outcome(state: ViewState, effects: seq<Effect>)

  /** Playback only ever waits for, or runs, a known data source. */
  ghost predicate SourceInvariant(s: ViewState)
  {
    (s.playerState == PlayWhenReady || s.playerState == Playing) ==> s.dataSource.Some?
  }

  /** The fields right after `init` has found the VideoView. */
  function Fresh(activityHash: int): ViewState
  {
    ViewState(NotInitialized, None, false, false, activityHash, None, 0, 0)
  }

  /** How far before the declared end a completion is still resumed. */
  const ResumeTolerance: int := 500

  /** `videoDurationLast < videoDuration - 500`, in Kotlin `Int` arithmetic. */
  predicate ResumesBeforeEnd(s: ViewState)
  {
    s.videoDurationLast < Wrap32(s.videoDuration - ResumeTolerance)
  }

  function ConfigurePlayer(s: ViewState): Outcome
  {
    Outcome(s.(configured := true), [SetListeners(true)])
  }

  /** `initVideo`: configure if needed, then hand the path to the VideoView. */
  function InitVideo(s: ViewState, source: Option<string>): (o: Outcome)
    ensures o.state.configured
    ensures o.state == s.(configured := true, dataSource := if source.Some? then source else s.dataSource)
    ensures source.Some? ==> |o.effects| > 0 && o.effects[|o.effects| - 1] == SetVideoPath(source.value)
    ensures source.None? ==> forall e :: e in o.effects ==> !e.SetVideoPath? && !e.StartVideo?
  {
    var c := if s.configured then Outcome(s, []) else ConfigurePlayer(s);
    match source
    case None => c
    case Some(path) => Outcome(c.state.(dataSource := Some(path)), c.effects + [SetVideoPath(path)])
  }

  /** `startPlayback`: play now, or ask to play once the source is ready. */
  function StartPlayback(s: ViewState): (o: Outcome)
    ensures s.playerState == Playing || s.dataSource.None? ==> o == Outcome(s, [])
    ensures o.state.dataSource == s.dataSource
    ensures s.playerState == NotInitialized && s.dataSource.Some? ==>
              && o.state.playerState == PlayWhenReady
              && |o.effects| > 0 && o.effects[|o.effects| - 1] == SetVideoPath(s.dataSource.value)
              && StartVideo !in o.effects
    ensures s.playerState != NotInitialized && s.playerState != Playing && s.dataSource.Some? ==>
              o == Outcome(s.(playerState := Playing), [StartVideo])
    ensures o.state.playerState == PlayWhenReady ==>
              o.state.dataSource.Some? || s.playerState == PlayWhenReady
  {
    if s.playerState != Playing && s.dataSource.Some? then
      if s.playerState != NotInitialized then
        Outcome(s.(playerState := Playing), [StartVideo])
      else
        InitVideo(s.(playerState := PlayWhenReady), s.dataSource)
    else
      Outcome(s, [])
  }

  /** `pausePlayback`: only a VideoView that can pause is paused. */
  function PausePlayback(s: ViewState, canPause: bool): (o: Outcome)
    ensures canPause ==> o == Outcome(s.(playerState := Paused), [PauseVideo])
    ensures !canPause ==> o == Outcome(s, [])
  {
    if canPause then Outcome(s.(playerState := Paused), [PauseVideo]) else Outcome(s, [])
  }

  function StopPlayback(s: ViewState): Outcome
  {
    Outcome(s.(playerState := NotInitialized), [StopVideoPlayback])
  }

  function DestroyVideoView(s: ViewState): Outcome
  {
    Outcome(s.(configured := false), [StopVideoPlayback, SetListeners(false)])
  }

  /** `dispose`: release everything once; later calls do nothing. */
  function Dispose(s: ViewState): (o: Outcome)
    ensures o.state.disposed
    ensures s.disposed ==> o == Outcome(s, [])
    ensures !s.disposed ==>
              && o.state == s.(disposed := true, configured := false)
              && o.effects == [SetMethodCallHandler(false), StopVideoPlayback, SetListeners(false),
                               LifecycleCallbacks(false)]
  {
    if s.disposed then Outcome(s, [])
    else
      var d := DestroyVideoView(s.(disposed := true));
      Outcome(d.state, [SetMethodCallHandler(false)] + d.effects + [LifecycleCallbacks(false)])
  }

  /** The guard of the paused, stopped and destroyed callbacks. */
  predicate IgnoresActivity(s: ViewState, hash: int)
  {
    s.disposed || hash != s.activityHash
  }

  function OnActivityPaused(s: ViewState, hash: int, canPause: bool): Outcome
  {
    if IgnoresActivity(s, hash) then Outcome(s, []) else PausePlayback(s, canPause)
  }

  function OnActivityStopped(s: ViewState, hash: int): Outcome
  {
    if IgnoresActivity(s, hash) then Outcome(s, []) else StopPlayback(s)
  }

  function OnActivityDestroyed(s: ViewState, hash: int): Outcome
  {
    if IgnoresActivity(s, hash) then Outcome(s, []) else DestroyVideoView(s)
  }

  /** `notifyPlayerPrepared`: size and duration only when the media player
      is known. */
  function NotifyPlayerPrepared(s: ViewState, media: Option<VideoInfo>): Outcome
  {
    Outcome(s.(playerState := Prepared), [Notify(PreparedMessage(media))])
  }

  /** `onCompletion`: remember where playback ended and reload the source,
      silently. */
  function OnCompletion(s: ViewState, duration: Int32): (o: Outcome)
    ensures o.state == s.(videoDurationLast := duration)
    ensures o.effects == [SetVideoUri(s.videoSourceUri)]
    ensures forall e :: e in o.effects ==> !e.Notify?
  {
    Outcome(s.(videoDurationLast := duration), [SetVideoUri(s.videoSourceUri)])
  }

  /** `onError`: forget the source and report the error; it always returns
      true (handled). */
  function OnError(s: ViewState, what: int, extra: int): (o: Outcome)
    ensures o.state.dataSource.None? && o.state.playerState == NotInitialized
    ensures o.state.(dataSource := s.dataSource, playerState := s.playerState) == s
    ensures o.effects == [Notify(ErrorMessage(what, extra))]
  {
    Outcome(s.(dataSource := None, playerState := NotInitialized), [Notify(ErrorMessage(what, extra))])
  }

  /** `onPrepared`: a first preparation is announced unless a start is
      waiting; a re-preparation after completion resumes near the end or
      loops, and starts. */
  function OnPrepared(s: ViewState, media: Option<VideoInfo>): (o: Outcome)
    ensures s.videoDurationLast == 0 && s.playerState == PlayWhenReady ==> o == Outcome(s, [])
    ensures s.videoDurationLast == 0 && s.playerState != PlayWhenReady ==>
              o == Outcome(s.(playerState := Prepared), [Notify(PreparedMessage(media))])
    ensures s.videoDurationLast != 0 ==> o.state == s
    ensures s.videoDurationLast != 0 && ResumesBeforeEnd(s) ==>
              o.effects == [Seek(s.videoDurationLast), StartVideo]
    ensures s.videoDurationLast != 0 && !ResumesBeforeEnd(s) && media.Some? ==>
              o.effects == [SetLooping, StartVideo]
    ensures s.videoDurationLast != 0 && !ResumesBeforeEnd(s) && media.None? ==>
              o.effects == [NullPointerThrown]
  {
    if s.videoDurationLast == 0 then
      if s.playerState != PlayWhenReady then NotifyPlayerPrepared(s, media)
      else Outcome(s, [])
    else if ResumesBeforeEnd(s) then
      Outcome(s, [Seek(s.videoDurationLast), StartVideo])
    else if media.None? then
      Outcome(s, [NullPointerThrown])
    else
      Outcome(s, [SetLooping, StartVideo])
  }

  /** `player#setVideoSource`: the duration argument overrides the stored
      one only when present, the resume point is cleared, a path is
      normalised and loaded, and the raw path becomes the reload URI. A
      missing path makes `File(null)` throw. */
  function SetVideoSourceCall(s: ViewState, videoPath: Option<string>, sourceType: Option<string>,
                              videoDuration: Option<Int32>): (o: Outcome)
    ensures o.state.videoDurationLast == 0
    ensures o.state.videoDuration == if videoDuration.Some? then videoDuration.value else s.videoDuration
    ensures o.state.playerState == s.playerState
    ensures videoPath.Some? ==>
              && o.state.dataSource == Some(NormalizePath(videoPath.value, sourceType))
              && o.state.videoSourceUri == Some(FileUri(videoPath.value))
    ensures videoPath.None? ==>
              && o.state.dataSource == s.dataSource
              && o.state.videoSourceUri == s.videoSourceUri
              && o.effects == [NullPointerThrown]
  {
    var s1 := s.(videoDuration := if videoDuration.Some? then videoDuration.value else s.videoDuration,
                 videoDurationLast := 0);
    match videoPath
    case Some(path) =>
      var i := InitVideo(s1, Some(NormalizePath(path, sourceType)));
      Outcome(i.state.(videoSourceUri := Some(FileUri(path))), i.effects)
    case None => Outcome(s1, [NullPointerThrown])
  }

  /** The state change and VideoView calls of `onMethodCall`. */
  function OnMethodCall(s: ViewState, command: Command, canPause: bool): (o: Outcome)
    ensures command.Unrecognized? || command == CurrentPosition || command == IsPlaying ==> o == Outcome(s, [])
    ensures command == Pause ==> o.state == if canPause then s.(playerState := Paused) else s
    ensures command == Stop ==> o.state == s.(playerState := NotInitialized)
    ensures command.SeekTo? ==>
              o == Outcome(s, if command.position.Some? then [Seek(command.position.value)] else [])
  {
    match command
    case SetVideoSource(path, sourceType, duration) => SetVideoSourceCall(s, path, sourceType, duration)
    case Start => StartPlayback(s)
    case Pause => PausePlayback(s, canPause)
    case Stop => StopPlayback(s)
    case CurrentPosition => Outcome(s, [])
    case IsPlaying => Outcome(s, [])
    case SeekTo(position) =>
      if position.Some? then Outcome(s, [Seek(position.value)]) else Outcome(s, [])
    case Unrecognized(_) => Outcome(s, [])
  }

  /** The reply of `onMethodCall`, given what the VideoView reports. */
  function ReplyTo(command: Command, currentPosition: Int32, isPlaying: bool): (r: Reply)
    requires WellFormedCommand(command)
    ensures r == NoReply <==> command.Unrecognized? || (command.SetVideoSource? && command.videoSource.None?)
    ensures command == CurrentPosition ==> r == SuccessReply(Position(currentPosition))
    ensures command == IsPlaying ==> r == SuccessReply(PlayingFlag(isPlaying))
    ensures r.SuccessReply? && command != CurrentPosition && command != IsPlaying ==> r.value == NoValue
  {
    match command
    case SetVideoSource(path, _, _) => if path.Some? then SuccessReply(NoValue) else NoReply
    case CurrentPosition => SuccessReply(Position(currentPosition))
    case IsPlaying => SuccessReply(PlayingFlag(isPlaying))
    case Unrecognized(_) => NoReply
    case _ => SuccessReply(NoValue)
  }

  function ApplyInitialAction(s: ViewState, action: InitialAction, canPause: bool): Outcome
  {
    match action
    case InitStop => StopPlayback(s)
    case InitPause => PausePlayback(s, canPause)
    case InitConfigure => ConfigurePlayer(s)
    case InitNothing => Outcome(s, [])
  }

  /** `init`: attach the handler, apply the activity state, register for
      lifecycle callbacks; an uninterpretable state throws instead. */
  function Construct(activityState: ActivityState, activityHash: int, canPause: bool): (r: Result<Outcome, InitError>)
    ensures r.Failure? <==> activityState.Other?
    ensures r.Success? ==>
              && r.value.state.dataSource.None?
              && !r.value.state.disposed
              && r.value.state.activityHash == activityHash
              && r.value.state.configured == (activityState == ActivityCreated)
              && r.value.state.playerState ==
                   (if activityState == ActivityPaused && canPause then Paused else NotInitialized)
              && |r.value.effects| > 1
              && r.value.effects[0] == SetMethodCallHandler(true)
              && r.value.effects[|r.value.effects| - 1] == LifecycleCallbacks(true)
              && (forall e :: e in r.value.effects ==> !StartsPlayback(e))
    ensures activityState == ActivityStopped ==> r.Success? && StopVideoPlayback in r.value.effects
    ensures activityState == ActivityPaused ==> r.Success? && (PauseVideo in r.value.effects <==> canPause)
    ensures activityState == ActivityCreated ==> r.Success? && SetListeners(true) in r.value.effects
    ensures activityState in {ActivityStarted, ActivityResumed, ActivityDestroyed} ==>
              r == Success(Outcome(Fresh(activityHash), [SetMethodCallHandler(true), LifecycleCallbacks(true)]))
  {
    match InitialActionFor(activityState)
    case Failure(e) => Failure(e)
    case Success(action) =>
      var o := ApplyInitialAction(Fresh(activityHash), action, canPause);
      assert action == InitNothing ==> o.effects == [];
      assert [SetMethodCallHandler(true)] + [] + [LifecycleCallbacks(true)]
             == [SetMethodCallHandler(true), LifecycleCallbacks(true)];
      Success(Outcome(o.state, [SetMethodCallHandler(true)] + o.effects + [LifecycleCallbacks(true)]))
  }

  /** One event delivered to the controller. */
  function Step(s: ViewState, e: Event): Outcome
  {
    match e
    case Call(command, canPause) => OnMethodCall(s, command, canPause)
    case LifecycleCreated => ConfigurePlayer(s)
    case LifecycleStarted => Outcome(s, [])
    case LifecycleResumed => Outcome(s, [])
    case LifecycleSaveInstanceState => Outcome(s, [])
    case LifecyclePaused(hash, canPause) => OnActivityPaused(s, hash, canPause)
    case LifecycleStopped(hash) => OnActivityStopped(s, hash)
    case LifecycleDestroyed(hash) => OnActivityDestroyed(s, hash)
    case Disposal => Dispose(s)
    case MediaPrepared(media) => OnPrepared(s, media)
    case MediaCompleted(duration) => OnCompletion(s, duration)
    case MediaError(what, extra) => OnError(s, what, extra)
  }

  /** A sequence of events delivered one after another. */
  function Run(s: ViewState, events: seq<Event>): Outcome
    decreases |events|
  {
    if events == [] then Outcome(s, [])
    else
      var first := Step(s, events[0]);
      var rest := Run(first.state, events[1..]);
      Outcome(rest.state, first.effects + rest.effects)
  }

  lemma StepKeepsSourceInvariant(s: ViewState, e: Event)
    requires SourceInvariant(s)
    ensures SourceInvariant(Step(s, e).state)
  {
  }

  /** PLAY_WHEN_READY and PLAYING are never reached without a data source. */
  lemma {:induction false} RunKeepsSourceInvariant(s: ViewState, events: seq<Event>)
    requires SourceInvariant(s)
    ensures SourceInvariant(Run(s, events).state)
    decreases |events|
  {
    if events != [] {
      StepKeepsSourceInvariant(s, events[0]);
      RunKeepsSourceInvariant(Step(s, events[0]).state, events[1..]);
    }
  }

  predicate StartsPlayback(e: Effect)
  {
    e.StartVideo? || e.SetVideoPath?
  }

  predicate IsTransportCommand(e: Event)
  {
    e.Call? && (e.command == Start || e.command == Pause || e.command == Stop)
  }

  /** Start, pause and stop with no source never make the VideoView play,
      and never set a source. */
  lemma {:induction false} NoSourceNeverPlays(s: ViewState, events: seq<Event>)
    requires SourceInvariant(s) && s.dataSource.None?
    requires forall i :: 0 <= i < |events| ==> IsTransportCommand(events[i])
    ensures Run(s, events).state.dataSource.None?
    ensures Run(s, events).state.playerState != Playing
    ensures Run(s, events).state.playerState != PlayWhenReady
    ensures forall e :: e in Run(s, events).effects ==> !StartsPlayback(e)
    decreases |events|
  {
    if events != [] {
      var first := Step(s, events[0]);
      assert IsTransportCommand(events[0]);
      NoSourceNeverPlays(first.state, events[1..]);
    }
  }

  /** A start before the media is loaded is NOT completed by the prepared
      callback: the state stays PLAY_WHEN_READY and nothing is started
      until a second start. */
  lemma {:induction false} DeferredStartWaitsForSecondStart(s: ViewState, media: Option<VideoInfo>, canPause: bool)
    requires s.playerState == NotInitialized && s.dataSource.Some? && s.videoDurationLast == 0
    ensures var o := Run(s, [Call(Start, canPause), MediaPrepared(media)]);
            o.state.playerState == PlayWhenReady && StartVideo !in o.effects
    ensures var o := Run(s, [Call(Start, canPause), MediaPrepared(media), Call(Start, canPause)]);
            o.state.playerState == Playing && o.effects[|o.effects| - 1] == StartVideo
  {
    var e1, e2 := Call(Start, canPause), MediaPrepared(media);
    var o1 := Step(s, e1);
    var o2 := Step(o1.state, e2);
    var o3 := Step(o2.state, e1);
    assert o2 == Outcome(o1.state, []);
    assert o3 == Outcome(o1.state.(playerState := Playing), [StartVideo]);
    assert [e2][1..] == [] && [e1][1..] == [];
    assert [e1, e2][1..] == [e2];
    assert Run(o1.state, [e2]) == Outcome(o2.state, o2.effects + []);
    assert Run(s, [e1, e2]) == Outcome(o2.state, o1.effects + o2.effects + []);
    assert [e1, e2, e1][1..] == [e2, e1];
    assert [e2, e1][1..] == [e1];
    assert Run(o2.state, [e1]) == Outcome(o3.state, o3.effects + []);
    assert Run(o1.state, [e2, e1]) == Outcome(o3.state, o2.effects + o3.effects + []);
  }

  /** A completion followed by the re-preparation it triggers: the resume
      point is the player's duration at completion, the source is reloaded,
      then playback seeks there (when it is more than the tolerance before
      the declared end) or loops, and starts; the player state is kept and
      nothing is notified. */
  lemma {:induction false} CompletionResumesPlayback(s: ViewState, duration: Int32, media: VideoInfo)
    requires duration != 0
    ensures var o := Run(s, [MediaCompleted(duration), MediaPrepared(Some(media))]);
            && o.state == s.(videoDurationLast := duration)
            && o.effects == [SetVideoUri(s.videoSourceUri)] +
                 (if duration < Wrap32(s.videoDuration - ResumeTolerance)
                  then [Seek(duration), StartVideo] else [SetLooping, StartVideo])
  {
    var e1, e2 := MediaCompleted(duration), MediaPrepared(Some(media));
    var o1 := Step(s, e1);
    var o2 := Step(o1.state, e2);
    assert [e2][1..] == [];
    assert [e1, e2][1..] == [e2];
    assert Run(o1.state, [e2]) == Outcome(o2.state, o2.effects + []);
  }

  /** After a completion the resume point stays set until the next
      setVideoSource. A stop, a start and the prepared callback then start
      the VideoView while the state still says PLAY_WHEN_READY. */
  lemma {:induction false} ResumedStartWhileWaiting(s: ViewState, duration: Int32, media: VideoInfo, canPause: bool)
    requires s.dataSource.Some? && duration != 0
    ensures var o := Run(s, [MediaCompleted(duration), Call(Stop, canPause), Call(Start, canPause),
                             MediaPrepared(Some(media))]);
            && o.state.playerState == PlayWhenReady
            && o.state.videoDurationLast == duration
            && |o.effects| > 0 && o.effects[|o.effects| - 1] == StartVideo
  {
    var e1, e2, e3, e4 := MediaCompleted(duration), Call(Stop, canPause), Call(Start, canPause),
                          MediaPrepared(Some(media));
    var o1 := Step(s, e1);
    var o2 := Step(o1.state, e2);
    var o3 := Step(o2.state, e3);
    var o4 := Step(o3.state, e4);
    assert o3.state.playerState == PlayWhenReady && o3.state.videoDurationLast == duration;
    assert o4.state == o3.state && o4.effects[|o4.effects| - 1] == StartVideo;
    assert [e4][1..] == [];
    assert [e3, e4][1..] == [e4];
    assert [e2, e3, e4][1..] == [e3, e4];
    assert [e1, e2, e3, e4][1..] == [e2, e3, e4];
    assert Run(o4.state, []) == Outcome(o4.state, []);
    var r4 := Run(o3.state, [e4]);
    assert r4 == Outcome(o4.state, o4.effects + []);
    var r3 := Run(o2.state, [e3, e4]);
    assert r3 == Outcome(o4.state, o3.effects + r4.effects);
    var r2 := Run(o1.state, [e2, e3, e4]);
    assert r2 == Outcome(o4.state, o2.effects + r3.effects);
    assert Run(s, [e1, e2, e3, e4]) == Outcome(o4.state, o1.effects + r2.effects);
  }

  /** Without overflow the guard is the plain comparison; for a declared
      duration within 500 of the smallest `Int` it wraps and seeks. */
  lemma ResumeGuardArithmetic(s: ViewState)
    ensures s.videoDuration >= -0x8000_0000 + ResumeTolerance ==>
              (ResumesBeforeEnd(s) <==> s.videoDurationLast < s.videoDuration - ResumeTolerance)
    ensures s.videoDuration == -0x8000_0000 ==>
              (ResumesBeforeEnd(s) <==> s.videoDurationLast < 0x8000_0000 - ResumeTolerance)
  {
  }

  /** A second dispose changes nothing and issues nothing. */
  lemma DisposeIsIdempotent(s: ViewState)
    ensures Dispose(Dispose(s).state) == Outcome(Dispose(s).state, [])
    ensures !s.disposed ==> Dispose(s).state.disposed && !Dispose(s).state.configured
  {
  }

  /** Paused, stopped and destroyed callbacks for another activity, or after
      dispose, change nothing and issue nothing. */
  lemma IgnoredActivityChangesNothing(s: ViewState, e: Event)
    requires e.LifecyclePaused? || e.LifecycleStopped? || e.LifecycleDestroyed?
    requires IgnoresActivity(s, e.hash)
    ensures Step(s, e) == Outcome(s, [])
  {
  }

  /** The created callback has no guard. While the lifecycle callbacks are
      registered, the creation of any activity attaches the listeners again,
      even after this controller's own activity was destroyed and the
      listeners removed. */
  lemma {:induction false} CreatedIsNotGuarded(s: ViewState)
    requires !s.disposed
    ensures var o := Run(s, [LifecycleDestroyed(s.activityHash), LifecycleCreated]);
            && o.state == s.(configured := true)
            && o.effects == [StopVideoPlayback, SetListeners(false), SetListeners(true)]
  {
    var e1, e2 := LifecycleDestroyed(s.activityHash), LifecycleCreated;
    var o1 := Step(s, e1);
    var o2 := Step(o1.state, e2);
    assert [e2][1..] == [];
    assert [e1, e2][1..] == [e2];
    assert Run(o1.state, [e2]) == Outcome(o2.state, o2.effects + []);
  }
}
