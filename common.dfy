/** Types and small pure rules shared by the two playback controllers of the
    native_video_view plugin: the player state enum, the host activity state
    snapshot, the commands that arrive over the method channel, the replies
    sent back, and the `file://` normalisation of local paths. */
module Common {

  datatype Option<+T> = None | Some(value: T) {
    function GetOr(default: T): (r: T)
      ensures Some? ==> r == value
      ensures None? ==> r == default
    {
      match this
      case Some(v) => v
      case None => default
    }
  }

  datatype Result<+T, +E> = Success(value: T) | Failure(error: E)

  /** The PlayerState enum: exactly one is current per controller. */
  datatype PlayerState = NotInitialized | PlayWhenReady | Playing | Paused | Prepared

  /** The activity lifecycle state read once when a controller is built.
      `Other` stands for any integer that is none of the plugin's constants. */
  datatype ActivityState =
    | ActivityCreated
    | ActivityStarted
    | ActivityResumed
    | ActivityPaused
    | ActivityStopped
    | ActivityDestroyed
    | Other(code: int)

  /** What the constructor does for the activity state it is handed. */
  datatype InitialAction = InitStop | InitPause | InitConfigure | InitNothing

  /** The IllegalArgumentException thrown for an uninterpretable state. */
  datatype InitError = IllegalArgument(code: int)

  /** The `when (activityState.get())` switch of both constructors. */
  function InitialActionFor(a: ActivityState): (r: Result<InitialAction, InitError>)
    ensures r.Failure? <==> a.Other?
    ensures r.Failure? ==> r.error == IllegalArgument(a.code)
    ensures r == Success(InitStop) <==> a == ActivityStopped
    ensures r == Success(InitPause) <==> a == ActivityPaused
    ensures r == Success(InitConfigure) <==> a == ActivityCreated
    ensures r == Success(InitNothing) <==>
              a == ActivityStarted || a == ActivityResumed || a == ActivityDestroyed
  {
    match a
    case ActivityStopped => Success(InitStop)
    case ActivityPaused => Success(InitPause)
    case ActivityResumed => Success(InitNothing)
    case ActivityStarted => Success(InitNothing)
    case ActivityCreated => Success(InitConfigure)
    case ActivityDestroyed => Success(InitNothing)
    case Other(code) => Failure(IllegalArgument(code))
  }

  /** Kotlin's `Int`. */
  type Int32 = x: int | -0x8000_0000 <= x < 0x8000_0000

  const Int32Modulus: int := 0x1_0000_0000

  /** The `Int` that 32-bit two's-complement arithmetic yields for the exact
      result `x`. */
  function Wrap32(x: int): (r: Int32)
    ensures (r - x) % Int32Modulus == 0
    ensures -0x8000_0000 <= x < 0x8000_0000 ==> r == x
  {
    (x + 0x8000_0000) % Int32Modulus - 0x8000_0000
  }

  /** Width, height and duration sent with `player#onPrepared`. */
  datatype VideoInfo = VideoInfo(height: int, width: int, duration: int)

  /** An inbound method-channel call, by method name, with its optional
      arguments. `Unrecognized` is any other method name. */
  datatype Command =
    | SetVideoSource(videoSource: Option<string>, sourceType: Option<string>, videoDuration: Option<Int32>)
    | Start
    | Pause
    | Stop
    | CurrentPosition
    | IsPlaying
    | SeekTo(position: Option<Int32>)
    | Unrecognized(name: string)

  /** The method names `onMethodCall` dispatches on. */
  const KnownMethodNames: set<string> :=
    {"player#setVideoSource", "player#start", "player#pause", "player#stop",
     "player#currentPosition", "player#isPlaying", "player#seekTo"}

  /** A call the `when` on `call.method` can produce: `Unrecognized` only
      carries a name none of its branches matches. */
  predicate WellFormedCommand(c: Command)
  {
    c.Unrecognized? ==> c.name !in KnownMethodNames
  }

  /** The value passed to `result.success`. */
  datatype ReplyValue = NoValue | Position(millis: int) | PlayingFlag(playing: bool)

  /** What the controller answers to one call: a success reply, or nothing. */
  datatype Reply = NoReply | SuccessReply(value: ReplyValue)

  const AssetSourceType: string := "VideoSourceType.asset"
  const FileSourceType: string := "VideoSourceType.file"
  const FileScheme: string := "file://"

  /** `sourceType.equals(...)` on a nullable string: false when absent. */
  predicate IsLocalSource(sourceType: Option<string>)
  {
    sourceType == Some(AssetSourceType) || sourceType == Some(FileSourceType)
  }

  /** The data source stored for a `player#setVideoSource` path. */
  function NormalizePath(path: string, sourceType: Option<string>): (r: string)
    ensures IsLocalSource(sourceType) ==>
              |r| == |FileScheme| + |path| && r[..|FileScheme|] == FileScheme && r[|FileScheme|..] == path
    ensures !IsLocalSource(sourceType) ==> r == path
  {
    if IsLocalSource(sourceType) then FileScheme + path else path
  }
}
