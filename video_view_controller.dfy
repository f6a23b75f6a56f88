/** NativeVideoViewController.kt as a class: the fields the Kotlin class
    assigns, and one method per entry point and private helper. Each method
    is proved to leave the fields as the matching function of VideoViewSpec
    says, and to append that function's effects to the ghost trace. The
    VideoView's and the media player's queries (`canPause`, position,
    playing flag, duration, video size) are inputs. */
module VideoView {
  import opened Common
  import VideoViewSpec

  class NativeVideoViewController {
    /** `registrarActivityHashCode`. */
    const activityHash: int

    var dataSource: Option<string>
    var disposed: bool
    var configured: bool
    var playerState: PlayerState
    var videoSourceUri: Option<VideoViewSpec.FileUri>
    var videoDurationLast: Int32
    var videoDuration: Int32

    /** VideoView calls and channel notifications issued so far, in order. */
    ghost var trace: seq<VideoViewSpec.Effect>

    function Snapshot(): VideoViewSpec.ViewState
      reads this
    {
      VideoViewSpec.ViewState(playerState, dataSource, configured, disposed, activityHash,
                              videoSourceUri, videoDurationLast, videoDuration)
    }

    ghost predicate Valid()
      reads this
    {
      VideoViewSpec.SourceInvariant(Snapshot())
    }

    /** The part of `init` after the activity state has been interpreted. */
    constructor (activityHash: int, action: InitialAction, canPause: bool)
      ensures Valid()
      ensures this.activityHash == activityHash
      ensures Snapshot() == VideoViewSpec.ApplyInitialAction(VideoViewSpec.Fresh(activityHash), action, canPause).state
      ensures trace == [VideoViewSpec.SetMethodCallHandler(true)]
                       + VideoViewSpec.ApplyInitialAction(VideoViewSpec.Fresh(activityHash), action, canPause).effects
                       + [VideoViewSpec.LifecycleCallbacks(true)]
    {
      this.activityHash := activityHash;
      dataSource := None;
      disposed := false;
      configured := false;
      playerState := NotInitialized;
      videoSourceUri := None;
      videoDurationLast := 0;
      videoDuration := 0;
      trace := [VideoViewSpec.SetMethodCallHandler(true)];
      new;
      match action {
        case InitStop => StopPlayback();
        case InitPause => PausePlayback(canPause);
        case InitConfigure => ConfigurePlayer();
        case InitNothing =>
      }
      trace := trace + [VideoViewSpec.LifecycleCallbacks(true)];
    }

    /** `init` as a whole: throws for a state it cannot interpret. */
    static method Create(activityState: ActivityState, activityHash: int, canPause: bool)
      returns (r: Result<NativeVideoViewController, InitError>)
      ensures r.Failure? <==> VideoViewSpec.Construct(activityState, activityHash, canPause).Failure?
      ensures r.Failure? ==> r.error == IllegalArgument(activityState.code)
      ensures r.Success? ==>
                && fresh(r.value) && r.value.Valid()
                && r.value.Snapshot() == VideoViewSpec.Construct(activityState, activityHash, canPause).value.state
                && r.value.trace == VideoViewSpec.Construct(activityState, activityHash, canPause).value.effects
    {
      match InitialActionFor(activityState) {
        case Failure(e) =>
          r := Failure(e);
        case Success(action) =>
          var c := new NativeVideoViewController(activityHash, action, canPause);
          r := Success(c);
      }
    }

    method Dispose()
      requires Valid()
      modifies this
      ensures Valid()
      ensures Snapshot() == VideoViewSpec.Dispose(old(Snapshot())).state
      ensures trace == old(trace) + VideoViewSpec.Dispose(old(Snapshot())).effects
    {
      if disposed {
        return;
      }
      disposed := true;
      trace := trace + [VideoViewSpec.SetMethodCallHandler(false)];
      DestroyVideoView();
      trace := trace + [VideoViewSpec.LifecycleCallbacks(false)];
    }

    method OnMethodCall(command: Command, canPause: bool, currentPosition: Int32, isPlaying: bool)
      returns (reply: Reply)
      requires Valid() && WellFormedCommand(command)
      modifies this
      ensures Valid()
      ensures reply == VideoViewSpec.ReplyTo(command, currentPosition, isPlaying)
      ensures Snapshot() == VideoViewSpec.OnMethodCall(old(Snapshot()), command, canPause).state
      ensures trace == old(trace) + VideoViewSpec.OnMethodCall(old(Snapshot()), command, canPause).effects
    {
      match command {
        case SetVideoSource(videoPath, sourceType, duration) =>
          if duration.Some? {
            videoDuration := duration.value;
          }
          videoDurationLast := 0;
          if videoPath.Some? {
            InitVideo(Some(NormalizePath(videoPath.value, sourceType)));
            videoSourceUri := Some(VideoViewSpec.FileUri(videoPath.value));
            reply := SuccessReply(NoValue);
          } else {
            // `File(null)` throws before the reply is sent.
            trace := trace + [VideoViewSpec.NullPointerThrown];
            reply := NoReply;
          }
        case Start =>
          StartPlayback();
          reply := SuccessReply(NoValue);
        case Pause =>
          PausePlayback(canPause);
          reply := SuccessReply(NoValue);
        case Stop =>
          StopPlayback();
          reply := SuccessReply(NoValue);
        case CurrentPosition =>
          reply := SuccessReply(Position(currentPosition));
        case IsPlaying =>
          reply := SuccessReply(PlayingFlag(isPlaying));
        case SeekTo(position) =>
          if position.Some? {
            trace := trace + [VideoViewSpec.Seek(position.value)];
          }
          reply := SuccessReply(NoValue);
        case Unrecognized(_) =>
          reply := NoReply;
      }
    }

    method OnActivityCreated()
      requires Valid()
      modifies this
      ensures Valid()
      ensures Snapshot() == VideoViewSpec.ConfigurePlayer(old(Snapshot())).state
      ensures trace == old(trace) + VideoViewSpec.ConfigurePlayer(old(Snapshot())).effects
    {
      ConfigurePlayer();
    }

    /** `onActivityStarted`, `onActivityResumed` and
        `onActivitySaveInstanceState` are not implemented. */
    method OnActivityIgnored()
      ensures Snapshot() == old(Snapshot()) && trace == old(trace)
    {
    }

    method OnActivityPaused(hash: int, canPause: bool)
      requires Valid()
      modifies this
      ensures Valid()
      ensures Snapshot() == VideoViewSpec.OnActivityPaused(old(Snapshot()), hash, canPause).state
      ensures trace == old(trace) + VideoViewSpec.OnActivityPaused(old(Snapshot()), hash, canPause).effects
    {
      if disposed || hash != activityHash {
        return;
      }
      PausePlayback(canPause);
    }

    method OnActivityStopped(hash: int)
      requires Valid()
      modifies this
      ensures Valid()
      ensures Snapshot() == VideoViewSpec.OnActivityStopped(old(Snapshot()), hash).state
      ensures trace == old(trace) + VideoViewSpec.OnActivityStopped(old(Snapshot()), hash).effects
    {
      if disposed || hash != activityHash {
        return;
      }
      StopPlayback();
    }

    method OnActivityDestroyed(hash: int)
      requires Valid()
      modifies this
      ensures Valid()
      ensures Snapshot() == VideoViewSpec.OnActivityDestroyed(old(Snapshot()), hash).state
      ensures trace == old(trace) + VideoViewSpec.OnActivityDestroyed(old(Snapshot()), hash).effects
    {
      if disposed || hash != activityHash {
        return;
      }
      DestroyVideoView();
    }

    method ConfigurePlayer()
      modifies this
      ensures Snapshot() == VideoViewSpec.ConfigurePlayer(old(Snapshot())).state
      ensures trace == old(trace) + VideoViewSpec.ConfigurePlayer(old(Snapshot())).effects
    {
      trace := trace + [VideoViewSpec.SetListeners(true)];
      configured := true;
    }

    method InitVideo(source: Option<string>)
      modifies this
      ensures Snapshot() == VideoViewSpec.InitVideo(old(Snapshot()), source).state
      ensures trace == old(trace) + VideoViewSpec.InitVideo(old(Snapshot()), source).effects
    {
      if !configured {
        ConfigurePlayer();
      }
      if source.Some? {
        trace := trace + [VideoViewSpec.SetVideoPath(source.value)];
        dataSource := source;
      }
    }

    method StartPlayback()
      modifies this
      ensures Snapshot() == VideoViewSpec.StartPlayback(old(Snapshot())).state
      ensures trace == old(trace) + VideoViewSpec.StartPlayback(old(Snapshot())).effects
    {
      if playerState != Playing && dataSource.Some? {
        if playerState != NotInitialized {
          trace := trace + [VideoViewSpec.StartVideo];
          playerState := Playing;
        } else {
          playerState := PlayWhenReady;
          InitVideo(dataSource);
        }
      }
    }

    method PausePlayback(canPause: bool)
      modifies this
      ensures Snapshot() == VideoViewSpec.PausePlayback(old(Snapshot()), canPause).state
      ensures trace == old(trace) + VideoViewSpec.PausePlayback(old(Snapshot()), canPause).effects
    {
      if canPause {
        trace := trace + [VideoViewSpec.PauseVideo];
        playerState := Paused;
      }
    }

    method StopPlayback()
      modifies this
      ensures Snapshot() == VideoViewSpec.StopPlayback(old(Snapshot())).state
      ensures trace == old(trace) + VideoViewSpec.StopPlayback(old(Snapshot())).effects
    {
      trace := trace + [VideoViewSpec.StopVideoPlayback];
      playerState := NotInitialized;
    }

    method DestroyVideoView()
      modifies this
      ensures Snapshot() == VideoViewSpec.DestroyVideoView(old(Snapshot())).state
      ensures trace == old(trace) + VideoViewSpec.DestroyVideoView(old(Snapshot())).effects
    {
      trace := trace + [VideoViewSpec.StopVideoPlayback, VideoViewSpec.SetListeners(false)];
      configured := false;
    }

    /** `duration` is what `videoView.getDuration()` reports. */
    method OnCompletion(duration: Int32)
      requires Valid()
      modifies this
      ensures Valid()
      ensures Snapshot() == VideoViewSpec.OnCompletion(old(Snapshot()), duration).state
      ensures trace == old(trace) + VideoViewSpec.OnCompletion(old(Snapshot()), duration).effects
    {
      videoDurationLast := duration;
      trace := trace + [VideoViewSpec.SetVideoUri(videoSourceUri)];
    }

    method OnError(what: int, extra: int) returns (handled: bool)
      requires Valid()
      modifies this
      ensures Valid()
      ensures handled
      ensures Snapshot() == VideoViewSpec.OnError(old(Snapshot()), what, extra).state
      ensures trace == old(trace) + VideoViewSpec.OnError(old(Snapshot()), what, extra).effects
    {
      dataSource := None;
      playerState := NotInitialized;
      trace := trace + [VideoViewSpec.Notify(VideoViewSpec.ErrorMessage(what, extra))];
      handled := true;
    }

    /** `media` is the media player handed to the callback (its video size
        and duration), `None` when it is null. */
    method OnPrepared(media: Option<VideoInfo>)
      requires Valid()
      modifies this
      ensures Valid()
      ensures Snapshot() == VideoViewSpec.OnPrepared(old(Snapshot()), media).state
      ensures trace == old(trace) + VideoViewSpec.OnPrepared(old(Snapshot()), media).effects
    {
      if videoDurationLast == 0 {
        if playerState != PlayWhenReady {
          NotifyPlayerPrepared(media);
        }
      } else {
        if videoDurationLast < Wrap32(videoDuration - VideoViewSpec.ResumeTolerance) {
          trace := trace + [VideoViewSpec.Seek(videoDurationLast)];
        } else if media.None? {
          // `mediaPlayer!!` throws before the start.
          trace := trace + [VideoViewSpec.NullPointerThrown];
          return;
        } else {
          trace := trace + [VideoViewSpec.SetLooping];
        }
        trace := trace + [VideoViewSpec.StartVideo];
      }
    }

    method NotifyPlayerPrepared(media: Option<VideoInfo>)
      modifies this
      ensures Snapshot() == VideoViewSpec.NotifyPlayerPrepared(old(Snapshot()), media).state
      ensures trace == old(trace) + VideoViewSpec.NotifyPlayerPrepared(old(Snapshot()), media).effects
    {
      playerState := Prepared;
      trace := trace + [VideoViewSpec.Notify(VideoViewSpec.PreparedMessage(media))];
    }
  }
}
