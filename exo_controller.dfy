/** ExoPlayerController.kt as a class: the fields the Kotlin class assigns,
    and one method per entry point and private helper. Each method is proved
    to leave the fields as the matching function of ExoSpec says, and to
    append that function's effects to the ghost trace. ExoPlayer's own
    queries (position, playing flag, video format, duration) and
    `Uri.parse(..).scheme` are inputs. */
module Exo {
  import opened Common
  import ExoSpec

  class ExoPlayerController {
    /** `registrarActivityHashCode`. */
    const activityHash: int
    /** The scheme `Uri.parse` finds in a data source string. */
    const uriScheme: string -> Option<string>

    var dataSource: Option<string>
    var disposed: bool
    var configured: bool
    var playerState: PlayerState

    /** Native calls and channel notifications issued so far, in order. */
    ghost var trace: seq<ExoSpec.Effect>

    function Snapshot(): ExoSpec.ExoState
      reads this
    {
      ExoSpec.ExoState(playerState, dataSource, configured, disposed, activityHash)
    }

    ghost predicate Valid()
      reads this
    {
      ExoSpec.SourceInvariant(Snapshot())
    }

    /** The part of `init` after the activity state has been interpreted. */
    constructor (activityHash: int, action: InitialAction, uriScheme: string -> Option<string>)
      ensures Valid()
      ensures this.activityHash == activityHash && this.uriScheme == uriScheme
      ensures Snapshot() == ExoSpec.ApplyInitialAction(ExoSpec.Fresh(activityHash), action).state
      ensures trace == [ExoSpec.SetMethodCallHandler(true)]
                       + ExoSpec.ApplyInitialAction(ExoSpec.Fresh(activityHash), action).effects
                       + [ExoSpec.LifecycleCallbacks(true)]
    {
      this.activityHash := activityHash;
      this.uriScheme := uriScheme;
      dataSource := None;
      disposed := false;
      configured := false;
      playerState := NotInitialized;
      trace := [ExoSpec.SetMethodCallHandler(true)];
      new;
      match action {
        case InitStop => StopPlayback();
        case InitPause => PausePlayback();
        case InitConfigure => ConfigurePlayer();
        case InitNothing =>
      }
      trace := trace + [ExoSpec.LifecycleCallbacks(true)];
    }

    /** `init` as a whole: throws for a state it cannot interpret. */
    static method Create(activityState: ActivityState, activityHash: int, uriScheme: string -> Option<string>)
      returns (r: Result<ExoPlayerController, InitError>)
      ensures r.Failure? <==> ExoSpec.Construct(activityState, activityHash).Failure?
      ensures r.Failure? ==> r.error == IllegalArgument(activityState.code)
      ensures r.Success? ==>
                && fresh(r.value) && r.value.Valid() && r.value.uriScheme == uriScheme
                && r.value.Snapshot() == ExoSpec.Construct(activityState, activityHash).value.state
                && r.value.trace == ExoSpec.Construct(activityState, activityHash).value.effects
    {
      match InitialActionFor(activityState) {
        case Failure(e) =>
          r := Failure(e);
        case Success(action) =>
          var c := new ExoPlayerController(activityHash, action, uriScheme);
          r := Success(c);
      }
    }

    method Dispose()
      requires Valid()
      modifies this
      ensures Valid()
      ensures Snapshot() == ExoSpec.Dispose(old(Snapshot())).state
      ensures trace == old(trace) + ExoSpec.Dispose(old(Snapshot())).effects
    {
      if disposed {
        return;
      }
      disposed := true;
      trace := trace + [ExoSpec.SetMethodCallHandler(false)];
      DestroyVideoView();
      trace := trace + [ExoSpec.LifecycleCallbacks(false)];
    }

    method OnMethodCall(command: Command, currentPosition: int, isPlaying: bool) returns (reply: Reply)
      requires Valid() && WellFormedCommand(command)
      modifies this
      ensures Valid()
      ensures reply == ExoSpec.ReplyTo(command, currentPosition, isPlaying)
      ensures Snapshot() == ExoSpec.OnMethodCall(old(Snapshot()), command, uriScheme).state
      ensures trace == old(trace) + ExoSpec.OnMethodCall(old(Snapshot()), command, uriScheme).effects
    {
      match command {
        case SetVideoSource(videoPath, sourceType, _) =>
          if videoPath.Some? {
            InitVideo(Some(NormalizePath(videoPath.value, sourceType)));
          }
          reply := SuccessReply(NoValue);
        case Start =>
          StartPlayback();
          reply := SuccessReply(NoValue);
        case Pause =>
          PausePlayback();
          reply := SuccessReply(NoValue);
        case Stop =>
          StopPlayback();
          reply := SuccessReply(NoValue);
        case CurrentPosition =>
          reply := SuccessReply(Position(currentPosition));
        case IsPlaying =>
          reply := SuccessReply(PlayingFlag(isPlaying));
        case SeekTo(position) =>
          if position.Some? {
            trace := trace + [ExoSpec.Seek(position.value)];
          }
          reply := SuccessReply(NoValue);
        case Unrecognized(_) =>
          reply := NoReply;
      }
    }

    method OnActivityCreated()
      requires Valid()
      modifies this
      ensures Valid()
      ensures Snapshot() == ExoSpec.ConfigurePlayer(old(Snapshot())).state
      ensures trace == old(trace) + ExoSpec.ConfigurePlayer(old(Snapshot())).effects
    {
      ConfigurePlayer();
    }

    /** `onActivityStarted`, `onActivityResumed` and
        `onActivitySaveInstanceState` are not implemented. */
    method OnActivityIgnored()
      ensures Snapshot() == old(Snapshot()) && trace == old(trace)
    {
    }

    method OnActivityPaused(hash: int)
      requires Valid()
      modifies this
      ensures Valid()
      ensures Snapshot() == ExoSpec.OnActivityPaused(old(Snapshot()), hash).state
      ensures trace == old(trace) + ExoSpec.OnActivityPaused(old(Snapshot()), hash).effects
    {
      if disposed || hash != activityHash {
        return;
      }
      PausePlayback();
    }

    method OnActivityStopped(hash: int)
      requires Valid()
      modifies this
      ensures Valid()
      ensures Snapshot() == ExoSpec.OnActivityStopped(old(Snapshot()), hash).state
      ensures trace == old(trace) + ExoSpec.OnActivityStopped(old(Snapshot()), hash).effects
    {
      if disposed || hash != activityHash {
        return;
      }
      StopPlayback();
    }

    method OnActivityDestroyed(hash: int)
      requires Valid()
      modifies this
      ensures Valid()
      ensures Snapshot() == ExoSpec.OnActivityDestroyed(old(Snapshot()), hash).state
      ensures trace == old(trace) + ExoSpec.OnActivityDestroyed(old(Snapshot()), hash).effects
    {
      if disposed || hash != activityHash {
        return;
      }
      DestroyVideoView();
    }

    /** `configurePlayer`; ExoPlayer is taken not to throw here. */
    method ConfigurePlayer()
      modifies this
      ensures Snapshot() == ExoSpec.ConfigurePlayer(old(Snapshot())).state
      ensures trace == old(trace) + ExoSpec.ConfigurePlayer(old(Snapshot())).effects
    {
      trace := trace + [ExoSpec.AddListener, ExoSpec.SetVideoSurface];
      configured := true;
    }

    method InitVideo(source: Option<string>)
      modifies this
      ensures Snapshot() == ExoSpec.InitVideo(old(Snapshot()), source, uriScheme).state
      ensures trace == old(trace) + ExoSpec.InitVideo(old(Snapshot()), source, uriScheme).effects
    {
      if !configured {
        ConfigurePlayer();
      }
      if source.Some? {
        var factory := ExoSpec.DataSourceFactoryFor(uriScheme(source.value));
        trace := trace + [ExoSpec.SetPlayWhenReady, ExoSpec.Prepare(source.value, factory)];
        dataSource := source;
      }
    }

    method StartPlayback()
      modifies this
      ensures Snapshot() == ExoSpec.StartPlayback(old(Snapshot()), uriScheme).state
      ensures trace == old(trace) + ExoSpec.StartPlayback(old(Snapshot()), uriScheme).effects
    {
      if playerState != Playing && dataSource.Some? {
        if playerState != NotInitialized {
          trace := trace + [ExoSpec.SetPlayWhenReady];
          playerState := Playing;
        } else {
          playerState := PlayWhenReady;
          InitVideo(dataSource);
        }
      }
    }

    method PausePlayback()
      modifies this
      ensures Snapshot() == ExoSpec.PausePlayback(old(Snapshot())).state
      ensures trace == old(trace) + ExoSpec.PausePlayback(old(Snapshot())).effects
    {
      trace := trace + [ExoSpec.StopPlayer(false)];
      playerState := Paused;
    }

    method StopPlayback()
      modifies this
      ensures Snapshot() == ExoSpec.StopPlayback(old(Snapshot())).state
      ensures trace == old(trace) + ExoSpec.StopPlayback(old(Snapshot())).effects
    {
      trace := trace + [ExoSpec.StopPlayer(true)];
      playerState := NotInitialized;
    }

    method DestroyVideoView()
      modifies this
      ensures Snapshot() == ExoSpec.DestroyVideoView(old(Snapshot())).state
      ensures trace == old(trace) + ExoSpec.DestroyVideoView(old(Snapshot())).effects
    {
      trace := trace + [ExoSpec.StopPlayer(true), ExoSpec.RemoveListener, ExoSpec.Release];
      configured := false;
    }

    method NotifyPlayerPrepared(format: Option<(int, int)>, duration: int)
      modifies this
      ensures Snapshot() == ExoSpec.NotifyPlayerPrepared(old(Snapshot()), format, duration).state
      ensures trace == old(trace) + ExoSpec.NotifyPlayerPrepared(old(Snapshot()), format, duration).effects
    {
      var info := if format.Some? then Some(VideoInfo(format.value.0, format.value.1, duration)) else None;
      playerState := Prepared;
      trace := trace + [ExoSpec.Notify(ExoSpec.PreparedMessage(info))];
    }

    /** `playWhenReady` is reported by ExoPlayer but not read. */
    method OnPlayerStateChanged(playWhenReady: bool, playbackState: ExoSpec.PlaybackState,
                                format: Option<(int, int)>, duration: int)
      requires Valid()
      modifies this
      ensures Valid()
      ensures Snapshot() == ExoSpec.OnPlayerStateChanged(old(Snapshot()), playbackState, format, duration, uriScheme).state
      ensures trace == old(trace) + ExoSpec.OnPlayerStateChanged(old(Snapshot()), playbackState, format, duration, uriScheme).effects
    {
      if playbackState == ExoSpec.Ended {
        InitVideo(dataSource);
        trace := trace + [ExoSpec.Notify(ExoSpec.CompletionMessage)];
      } else if playbackState == ExoSpec.Ready {
        if playerState == PlayWhenReady {
          StartPlayback();
        } else {
          NotifyPlayerPrepared(format, duration);
        }
      }
    }

    method OnPlayerError(errorType: int, message: Option<string>)
      requires Valid()
      modifies this
      ensures Valid()
      ensures Snapshot() == ExoSpec.OnPlayerError(old(Snapshot()), errorType, message).state
      ensures trace == old(trace) + ExoSpec.OnPlayerError(old(Snapshot()), errorType, message).effects
    {
      dataSource := None;
      playerState := NotInitialized;
      trace := trace + [ExoSpec.Notify(ExoSpec.ErrorMessage(errorType, message.GetOr("")))];
    }
  }
}
