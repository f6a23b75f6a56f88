# native_video_view playback controllers in Dafny

The Android side of the native_video_view Flutter plugin embeds a video player in a
platform view. Each view is owned by a controller that does three things: it takes
playback commands from Dart over a method channel, it follows the lifecycle of its
host activity, and it forwards the native player's callbacks back to Dart as
notifications. There are two controllers. `ExoPlayerController` drives ExoPlayer, and
`NativeVideoViewController` drives the system `VideoView`. They are near-identical but
differ in how they pause, what they do when the media becomes ready, and what they do at
the end of the media.

This project models both controllers as written:

- `common.dfy` (module `Common`): the player-state enum and the activity-state snapshot.
  It also holds the constructor's activity-state switch, the inbound commands and the
  replies, the `file://` normalisation of local paths, and Kotlin `Int` wrap-around.
- `exo_spec.dfy` (module `ExoSpec`): the ExoPlayer controller as functions on a value
  snapshot of its fields. Each function returns the new fields and the ordered list of
  side effects. Side effects are native player calls, channel or lifecycle registrations,
  and outbound `player#on...` notifications. The module also has the lemmas about these
  functions and about runs of events.
- `exo_controller.dfy` (module `Exo`): class `ExoPlayerController`. It has the Kotlin
  fields and one method per entry point and private helper. A ghost `trace` records the
  side effects. Every method is proved to produce exactly what the matching `ExoSpec`
  function says, and the entry points keep the class invariant `Valid()`.
- `video_view_spec.dfy` and `video_view_controller.dfy` (modules `VideoViewSpec` and
  `VideoView`): the same structure for `NativeVideoViewController`. These add the fields
  `videoDuration`, `videoDurationLast` and `videoSourceURI`, and the resume-or-loop
  policy after completion.

The native players are abstract. Their queries are inputs to the methods: ExoPlayer's
position, playing flag, video format and duration, and VideoView's `canPause`, position,
playing flag, duration and media size. Their commands appear only as trace entries.
`Uri.parse(..).scheme` is an input function fixed per controller (`uriScheme`).
`Uri.fromFile(File(path))` is the abstract value `FileUri(path)`. Activity identity is
the integer hash code. Callbacks are delivered one at a time.

The invariant both controllers keep is `SourceInvariant`: PLAY_WHEN_READY and PLAYING are
only ever current while a data source is set. This is what makes ExoPlayer's deferred
start work: when the ready callback fires in PLAY_WHEN_READY, `startPlayback` finds a
source and plays.

Behaviour of the code worth knowing:

- Pause does not look at the data source. Without one, ExoPlayer's controller still
  moves to PAUSED rather than staying NOT_INITIALIZED (`PauseWithoutSourceIsPaused`).
  So does the VideoView controller whenever the view can pause (`VideoViewSpec.PausePlayback`).
  For both controllers, start, pause and stop without a source never start playback
  and never set a source (`NoSourceNeverPlays`).
- `onActivityCreated` has no `disposed` or activity guard. Dispose unregisters the
  lifecycle callbacks, so after dispose it is no longer called. But while the
  controller is registered, the creation of any activity reconfigures it. This includes
  the time after its own activity was destroyed and the player released
  (`CreatedIsNotGuarded`).
- In the VideoView controller, while `videoDurationLast` is 0, the prepared callback in
  PLAY_WHEN_READY does nothing. A start issued before the media is loaded is then
  completed only by a second start (`DeferredStartWaitsForSecondStart`). After a
  completion, `videoDurationLast` stays set until the next setVideoSource. In that case
  the prepared callback seeks or loops and starts the view, while the state still says
  PLAY_WHEN_READY (`ResumedStartWhileWaiting`).
- The VideoView controller never sends `player#onCompletion`, because that call is
  commented out.
- ExoPlayer reporting READY while PLAYING moves the state to PREPARED and sends
  `player#onPrepared` again.

## Model

| member | source | states |
|---|---|---|
| Common.InitialActionFor | android/src/main/kotlin/cl/ceisufro/native_video_view/ExoPlayerController.kt:64-85 | STOPPED maps to stop, PAUSED to pause and CREATED to configure. STARTED, RESUMED and DESTROYED map to no action. Exactly the other values fail with IllegalArgument carrying the value. |
| Common.NormalizePath | android/src/main/kotlin/cl/ceisufro/native_video_view/ExoPlayerController.kt:107-113 | For the asset and file source types the result is `file://` followed by the path, and the path can be read back from it. For any other or absent type it is the path unchanged. |
| Common.Wrap32 | android/src/main/kotlin/cl/ceisufro/native_video_view/NativeVideoViewController.kt:250 | The Kotlin `Int` result of an exact value: congruent to it modulo 2^32, in range, and equal to it when it fits. |
| ExoSpec.DataSourceFactoryFor | android/src/main/kotlin/cl/ceisufro/native_video_view/ExoPlayerController.kt:203-215 | The HTTP factory is chosen if and only if the scheme is `http` or `https`. |
| ExoSpec.InitVideo | android/src/main/kotlin/cl/ceisufro/native_video_view/ExoPlayerController.kt:189-201 | Afterwards the player is configured. A given source is prepared last, with the factory its scheme selects, and becomes the data source. With no source nothing is prepared or played and the data source is kept. Player state and disposal are untouched. |
| ExoSpec.StartPlayback | android/src/main/kotlin/cl/ceisufro/native_video_view/ExoPlayerController.kt:217-227 | No-op when PLAYING or without a source. From NOT_INITIALIZED with a source it enters PLAY_WHEN_READY and re-prepares that same source. From any other state it sets PLAYING and playWhenReady. The data source never changes, and PLAY_WHEN_READY is only entered with a source. |
| ExoSpec.Dispose | android/src/main/kotlin/cl/ceisufro/native_video_view/ExoPlayerController.kt:93-100 | The result is always disposed. On a disposed controller it changes nothing and issues nothing. The first call sets disposed and clears configured. Its effects are, in order: detach the handler, stop with reset, remove the listener, release the player, unregister the lifecycle callbacks. |
| ExoSpec.OnPlayerStateChanged | android/src/main/kotlin/cl/ceisufro/native_video_view/ExoPlayerController.kt:258-273 | READY in PLAY_WHEN_READY with a source ends in PLAYING. READY in any other state sets PREPARED and emits exactly one onPrepared. ENDED keeps the player state and the data source, re-prepares the source and ends with onCompletion. Other states do nothing. |
| ExoSpec.OnPlayerError | android/src/main/kotlin/cl/ceisufro/native_video_view/ExoPlayerController.kt:275-282 | From any state, the data source is cleared and the state becomes NOT_INITIALIZED. Exactly one onError is emitted, with the error type and the message, or `""` when there is no message. |
| ExoSpec.OnMethodCall | android/src/main/kotlin/cl/ceisufro/native_video_view/ExoPlayerController.kt:102-146 | setVideoSource with a path stores the normalised path; without a path it changes nothing. Pause yields PAUSED and stop yields NOT_INITIALIZED, both without touching the source. Seek issues a seek only when a position is given. Queries and unknown methods change nothing. |
| ExoSpec.ReplyTo | android/src/main/kotlin/cl/ceisufro/native_video_view/ExoPlayerController.kt:102-146 | An `Unrecognized` call carries none of the seven names the `when` dispatches on (`WellFormedCommand`). There is no reply exactly for such calls. Queries return the player's position or playing flag. Every other command replies an empty success. |
| ExoSpec.Construct | android/src/main/kotlin/cl/ceisufro/native_video_view/ExoPlayerController.kt:54-87 | Construction fails exactly for an uninterpretable activity state. Otherwise the controller starts live, with no source, configured exactly for CREATED, PAUSED exactly for PAUSED, NOT_INITIALIZED otherwise. The handler is attached first and lifecycle callbacks registered last, and nothing plays or prepares in between. STOPPED stops with reset, PAUSED stops without reset, and CREATED adds the listener and the surface. STARTED, RESUMED and DESTROYED issue only the attachment and the registration. |
| ExoSpec.StepKeepsSourceInvariant | android/src/main/kotlin/cl/ceisufro/native_video_view/ExoPlayerController.kt:217-282 | Every event preserves: PLAY_WHEN_READY or PLAYING implies a data source is set. |
| ExoSpec.RunKeepsSourceInvariant | android/src/main/kotlin/cl/ceisufro/native_video_view/ExoPlayerController.kt:217-282 | The same holds after any sequence of events. |
| ExoSpec.NoSourceNeverPlays | android/src/main/kotlin/cl/ceisufro/native_video_view/ExoPlayerController.kt:217-237 | Any sequence of start, pause and stop without a source never sets playWhenReady or prepares anything. It never sets a source and never ends in PLAYING or PLAY_WHEN_READY. |
| ExoSpec.PauseWithoutSourceIsPaused | android/src/main/kotlin/cl/ceisufro/native_video_view/ExoPlayerController.kt:229-232 | Pause on a freshly built controller with no source yields PAUSED. |
| ExoSpec.DeferredStartCompletes | android/src/main/kotlin/cl/ceisufro/native_video_view/ExoPlayerController.kt:217-227 | From NOT_INITIALIZED with a source, start yields PLAY_WHEN_READY, and the following READY callback yields PLAYING. |
| ExoSpec.DisposeIsIdempotent | android/src/main/kotlin/cl/ceisufro/native_video_view/ExoPlayerController.kt:93-100 | A second dispose changes nothing and emits nothing. After the first, disposed is true and configured is false. |
| ExoSpec.IgnoredActivityChangesNothing | android/src/main/kotlin/cl/ceisufro/native_video_view/ExoPlayerController.kt:160-173 | Paused, stopped and destroyed callbacks change nothing and emit nothing when the controller is disposed or the activity hash differs. |
| ExoSpec.CreatedIsNotGuarded | android/src/main/kotlin/cl/ceisufro/native_video_view/ExoPlayerController.kt:148-150 | On a live controller, the destroyed callback for its own activity is followed by a created callback. The player is stopped, its listener removed and it is released, then the listener and surface are added again and configured is back to true. Every other field is unchanged. |
| ExoSpec.LocalFileScenario | android/src/main/kotlin/cl/ceisufro/native_video_view/ExoPlayerController.kt:104-116 | Build with CREATED, set `movie.mp4` as a file, start, then READY, then ENDED. The controller is configured, the source becomes `file://movie.mp4`, start waits in PLAY_WHEN_READY, READY plays, and ENDED re-prepares the same source, keeps PLAYING and ends with onCompletion. |
| Exo.ExoPlayerController.constructor | android/src/main/kotlin/cl/ceisufro/native_video_view/ExoPlayerController.kt:54-87 | Runs the initial action on fresh fields and brackets it with handler attachment and lifecycle registration, as `ApplyInitialAction` gives. |
| Exo.ExoPlayerController.Create | android/src/main/kotlin/cl/ceisufro/native_video_view/ExoPlayerController.kt:54-87 | Fails exactly when `Construct` fails, with the same IllegalArgument. Otherwise returns a fresh valid controller whose fields and trace are those of `Construct`. |
| Exo.ExoPlayerController.Dispose | android/src/main/kotlin/cl/ceisufro/native_video_view/ExoPlayerController.kt:93-100 | Fields and appended trace equal `ExoSpec.Dispose` of the old fields; keeps `Valid()`. |
| Exo.ExoPlayerController.OnMethodCall | android/src/main/kotlin/cl/ceisufro/native_video_view/ExoPlayerController.kt:102-146 | The reply is `ExoSpec.ReplyTo`. Fields and appended trace equal `ExoSpec.OnMethodCall`. Keeps `Valid()`. |
| Exo.ExoPlayerController.OnActivityCreated | android/src/main/kotlin/cl/ceisufro/native_video_view/ExoPlayerController.kt:148-150 | Unguarded: configures the player whatever the state. |
| Exo.ExoPlayerController.OnActivityIgnored | android/src/main/kotlin/cl/ceisufro/native_video_view/ExoPlayerController.kt:152-177 | The started, resumed and save-instance-state callbacks change no field and emit nothing. |
| Exo.ExoPlayerController.OnActivityPaused | android/src/main/kotlin/cl/ceisufro/native_video_view/ExoPlayerController.kt:160-163 | Pauses only when live and the hash matches, as `ExoSpec.OnActivityPaused`. Keeps `Valid()`. |
| Exo.ExoPlayerController.OnActivityStopped | android/src/main/kotlin/cl/ceisufro/native_video_view/ExoPlayerController.kt:165-168 | Stops only when live and the hash matches, as `ExoSpec.OnActivityStopped`. Keeps `Valid()`. |
| Exo.ExoPlayerController.OnActivityDestroyed | android/src/main/kotlin/cl/ceisufro/native_video_view/ExoPlayerController.kt:170-173 | Destroys the player only when live and the hash matches, as `ExoSpec.OnActivityDestroyed`. Keeps `Valid()`. |
| Exo.ExoPlayerController.ConfigurePlayer | android/src/main/kotlin/cl/ceisufro/native_video_view/ExoPlayerController.kt:179-187 | Sets configured after adding the listener and the surface. |
| Exo.ExoPlayerController.InitVideo | android/src/main/kotlin/cl/ceisufro/native_video_view/ExoPlayerController.kt:189-201 | Fields and appended trace equal `ExoSpec.InitVideo`. |
| Exo.ExoPlayerController.StartPlayback | android/src/main/kotlin/cl/ceisufro/native_video_view/ExoPlayerController.kt:217-227 | Fields and appended trace equal `ExoSpec.StartPlayback`. |
| Exo.ExoPlayerController.PausePlayback | android/src/main/kotlin/cl/ceisufro/native_video_view/ExoPlayerController.kt:229-232 | Unconditionally stops the player without reset and sets PAUSED. Every other field is kept. |
| Exo.ExoPlayerController.StopPlayback | android/src/main/kotlin/cl/ceisufro/native_video_view/ExoPlayerController.kt:234-237 | Unconditionally stops the player with reset and sets NOT_INITIALIZED. Every other field is kept. |
| Exo.ExoPlayerController.DestroyVideoView | android/src/main/kotlin/cl/ceisufro/native_video_view/ExoPlayerController.kt:239-244 | Stops with reset, removes the listener, releases the player and clears configured. |
| Exo.ExoPlayerController.NotifyPlayerPrepared | android/src/main/kotlin/cl/ceisufro/native_video_view/ExoPlayerController.kt:246-256 | Sets PREPARED and emits onPrepared. Height, width and duration are included only when a video format is known. |
| Exo.ExoPlayerController.OnPlayerStateChanged | android/src/main/kotlin/cl/ceisufro/native_video_view/ExoPlayerController.kt:258-273 | Fields and appended trace equal `ExoSpec.OnPlayerStateChanged`. Keeps `Valid()`. |
| Exo.ExoPlayerController.OnPlayerError | android/src/main/kotlin/cl/ceisufro/native_video_view/ExoPlayerController.kt:275-282 | Fields and appended trace equal `ExoSpec.OnPlayerError`. Keeps `Valid()`. |
| VideoViewSpec.InitVideo | android/src/main/kotlin/cl/ceisufro/native_video_view/NativeVideoViewController.kt:185-191 | Afterwards configured. A given source is handed to `setVideoPath` last and becomes the data source. With no source nothing is loaded or started. Every other field is kept. |
| VideoViewSpec.StartPlayback | android/src/main/kotlin/cl/ceisufro/native_video_view/NativeVideoViewController.kt:193-203 | No-op when PLAYING or without a source. From NOT_INITIALIZED with a source it enters PLAY_WHEN_READY and reloads the path without starting. From any other state it starts and sets PLAYING. The source never changes. |
| VideoViewSpec.PausePlayback | android/src/main/kotlin/cl/ceisufro/native_video_view/NativeVideoViewController.kt:205-210 | When `canPause` holds, pauses and sets PAUSED. Otherwise it changes nothing and issues nothing. |
| VideoViewSpec.Dispose | android/src/main/kotlin/cl/ceisufro/native_video_view/NativeVideoViewController.kt:84-91 | The result is always disposed. On a disposed controller it changes nothing. The first call sets disposed and clears configured. Its effects are, in order: detach the handler, stop playback, detach the listeners, unregister the lifecycle callbacks. |
| VideoViewSpec.OnCompletion | android/src/main/kotlin/cl/ceisufro/native_video_view/NativeVideoViewController.kt:225-231 | `videoDurationLast` becomes the player's duration and the stored source URI is reloaded. No notification is emitted and every other field, the player state included, is kept. |
| VideoViewSpec.OnError | android/src/main/kotlin/cl/ceisufro/native_video_view/NativeVideoViewController.kt:233-241 | From any state, the data source is cleared and the state becomes NOT_INITIALIZED; nothing else changes. Exactly one onError is emitted with the integer `what` and `extra`. |
| VideoViewSpec.OnPrepared | android/src/main/kotlin/cl/ceisufro/native_video_view/NativeVideoViewController.kt:243-258 | With `videoDurationLast == 0`: nothing in PLAY_WHEN_READY, otherwise PREPARED and one onPrepared. Otherwise the state is unchanged. It seeks to `videoDurationLast` and starts exactly when that is below `videoDuration - 500` in `Int` arithmetic. Otherwise it sets looping and starts, or, with no media player, it throws the NullPointerException of `mediaPlayer!!` and starts nothing. |
| VideoViewSpec.SetVideoSourceCall | android/src/main/kotlin/cl/ceisufro/native_video_view/NativeVideoViewController.kt:95-114 | `videoDurationLast` is reset to 0. `videoDuration` is overwritten only when a duration is given. A path is normalised into the data source and kept raw as the reload URI. A missing path leaves source and URI alone and throws. The player state is kept. |
| VideoViewSpec.OnMethodCall | android/src/main/kotlin/cl/ceisufro/native_video_view/NativeVideoViewController.kt:93-144 | Pause sets PAUSED only when the view can pause. Stop always yields NOT_INITIALIZED. Seek issues a seek only with a position. Queries and unknown methods change nothing. |
| VideoViewSpec.ReplyTo | android/src/main/kotlin/cl/ceisufro/native_video_view/NativeVideoViewController.kt:93-144 | An `Unrecognized` call carries none of the seven names the `when` dispatches on (`WellFormedCommand`). There is no reply exactly for such calls and for setVideoSource without a path. Queries return position or playing flag. Everything else replies an empty success. |
| VideoViewSpec.Construct | android/src/main/kotlin/cl/ceisufro/native_video_view/NativeVideoViewController.kt:49-78 | Fails exactly for an uninterpretable state. Otherwise the controller is live with no source, configured exactly for CREATED. It is PAUSED exactly for PAUSED when the view can pause, else NOT_INITIALIZED. Nothing is loaded or started between the attachment and the registration. STOPPED stops playback. PAUSED pauses exactly when the view can pause. CREATED attaches the listeners. STARTED, RESUMED and DESTROYED issue only the attachment and the registration. |
| VideoViewSpec.StepKeepsSourceInvariant | android/src/main/kotlin/cl/ceisufro/native_video_view/NativeVideoViewController.kt:193-258 | Every event preserves: PLAY_WHEN_READY or PLAYING implies a data source is set. |
| VideoViewSpec.RunKeepsSourceInvariant | android/src/main/kotlin/cl/ceisufro/native_video_view/NativeVideoViewController.kt:193-258 | The same holds after any sequence of events. |
| VideoViewSpec.NoSourceNeverPlays | android/src/main/kotlin/cl/ceisufro/native_video_view/NativeVideoViewController.kt:193-215 | Any sequence of start, pause and stop without a source never starts the view or loads a path. It never sets a source and never ends in PLAYING or PLAY_WHEN_READY. |
| VideoViewSpec.DeferredStartWaitsForSecondStart | android/src/main/kotlin/cl/ceisufro/native_video_view/NativeVideoViewController.kt:243-247 | From NOT_INITIALIZED with a source and `videoDurationLast` 0, start then prepared leaves PLAY_WHEN_READY with no start issued. A second start then starts and plays. |
| VideoViewSpec.CompletionResumesPlayback | android/src/main/kotlin/cl/ceisufro/native_video_view/NativeVideoViewController.kt:225-257 | Completion with a nonzero duration, then re-preparation: the state is kept apart from the resume point. The effects are exactly: reload the URI, then seek to the duration (when it is below the declared duration minus 500) or loop, then start. |
| VideoViewSpec.ResumedStartWhileWaiting | android/src/main/kotlin/cl/ceisufro/native_video_view/NativeVideoViewController.kt:225-257 | With a source set, a completion with a nonzero duration is followed by stop, start and prepared. The view is started last, while the state is PLAY_WHEN_READY and the resume point is still that duration. |
| VideoViewSpec.ResumeGuardArithmetic | android/src/main/kotlin/cl/ceisufro/native_video_view/NativeVideoViewController.kt:250 | Without overflow the resume guard is the plain comparison. For the smallest `Int` duration the subtraction wraps and the guard compares against 2^31 - 500. |
| VideoViewSpec.DisposeIsIdempotent | android/src/main/kotlin/cl/ceisufro/native_video_view/NativeVideoViewController.kt:84-91 | A second dispose changes nothing and emits nothing. After the first, disposed is true and configured is false. |
| VideoViewSpec.IgnoredActivityChangesNothing | android/src/main/kotlin/cl/ceisufro/native_video_view/NativeVideoViewController.kt:158-171 | Paused, stopped and destroyed callbacks change nothing when disposed or for another activity hash. |
| VideoViewSpec.CreatedIsNotGuarded | android/src/main/kotlin/cl/ceisufro/native_video_view/NativeVideoViewController.kt:146-148 | On a live controller, the destroyed callback for its own activity is followed by a created callback. Playback is stopped and the listeners detached, then the listeners are attached again and configured is back to true. Every other field is unchanged. |
| VideoView.NativeVideoViewController.constructor | android/src/main/kotlin/cl/ceisufro/native_video_view/NativeVideoViewController.kt:49-78 | Runs the initial action on fresh fields, bracketed by handler attachment and lifecycle registration. |
| VideoView.NativeVideoViewController.Create | android/src/main/kotlin/cl/ceisufro/native_video_view/NativeVideoViewController.kt:49-78 | Fails exactly when `Construct` fails. Otherwise returns a fresh valid controller with `Construct`'s fields and trace. |
| VideoView.NativeVideoViewController.Dispose | android/src/main/kotlin/cl/ceisufro/native_video_view/NativeVideoViewController.kt:84-91 | Fields and appended trace equal `VideoViewSpec.Dispose`. Keeps `Valid()`. |
| VideoView.NativeVideoViewController.OnMethodCall | android/src/main/kotlin/cl/ceisufro/native_video_view/NativeVideoViewController.kt:93-144 | The reply is `VideoViewSpec.ReplyTo`. Fields and appended trace equal `VideoViewSpec.OnMethodCall`. Keeps `Valid()`. |
| VideoView.NativeVideoViewController.OnActivityCreated | android/src/main/kotlin/cl/ceisufro/native_video_view/NativeVideoViewController.kt:146-148 | Unguarded: attaches the listeners whatever the state. |
| VideoView.NativeVideoViewController.OnActivityIgnored | android/src/main/kotlin/cl/ceisufro/native_video_view/NativeVideoViewController.kt:150-175 | The started, resumed and save-instance-state callbacks change nothing. |
| VideoView.NativeVideoViewController.OnActivityPaused | android/src/main/kotlin/cl/ceisufro/native_video_view/NativeVideoViewController.kt:158-161 | Pauses only when live and the hash matches, and then only if the view can pause. |
| VideoView.NativeVideoViewController.OnActivityStopped | android/src/main/kotlin/cl/ceisufro/native_video_view/NativeVideoViewController.kt:163-166 | Stops only when live and the hash matches. |
| VideoView.NativeVideoViewController.OnActivityDestroyed | android/src/main/kotlin/cl/ceisufro/native_video_view/NativeVideoViewController.kt:168-171 | Releases the listeners only when live and the hash matches. |
| VideoView.NativeVideoViewController.ConfigurePlayer | android/src/main/kotlin/cl/ceisufro/native_video_view/NativeVideoViewController.kt:177-183 | Attaches the prepared, error and completion listeners and sets configured. |
| VideoView.NativeVideoViewController.InitVideo | android/src/main/kotlin/cl/ceisufro/native_video_view/NativeVideoViewController.kt:185-191 | Fields and appended trace equal `VideoViewSpec.InitVideo`. |
| VideoView.NativeVideoViewController.StartPlayback | android/src/main/kotlin/cl/ceisufro/native_video_view/NativeVideoViewController.kt:193-203 | Fields and appended trace equal `VideoViewSpec.StartPlayback`. |
| VideoView.NativeVideoViewController.PausePlayback | android/src/main/kotlin/cl/ceisufro/native_video_view/NativeVideoViewController.kt:205-210 | Fields and appended trace equal `VideoViewSpec.PausePlayback`. |
| VideoView.NativeVideoViewController.StopPlayback | android/src/main/kotlin/cl/ceisufro/native_video_view/NativeVideoViewController.kt:212-215 | Unconditionally stops the view and sets NOT_INITIALIZED. Every other field is kept. |
| VideoView.NativeVideoViewController.DestroyVideoView | android/src/main/kotlin/cl/ceisufro/native_video_view/NativeVideoViewController.kt:217-223 | Stops the view, detaches the listeners and clears configured. |
| VideoView.NativeVideoViewController.OnCompletion | android/src/main/kotlin/cl/ceisufro/native_video_view/NativeVideoViewController.kt:225-231 | Fields and appended trace equal `VideoViewSpec.OnCompletion`. Keeps `Valid()`. |
| VideoView.NativeVideoViewController.OnError | android/src/main/kotlin/cl/ceisufro/native_video_view/NativeVideoViewController.kt:233-241 | Returns true (handled). Fields and appended trace equal `VideoViewSpec.OnError`. Keeps `Valid()`. |
| VideoView.NativeVideoViewController.OnPrepared | android/src/main/kotlin/cl/ceisufro/native_video_view/NativeVideoViewController.kt:243-258 | Fields and appended trace equal `VideoViewSpec.OnPrepared`. Keeps `Valid()`. |
| VideoView.NativeVideoViewController.NotifyPlayerPrepared | android/src/main/kotlin/cl/ceisufro/native_video_view/NativeVideoViewController.kt:260-269 | Sets PREPARED and emits onPrepared. Size and duration are included only when the media player is known. |

## Left out

- View inflation and layout: `LayoutInflater`, `ConstraintLayout`, `SurfaceView`, `getView` and `setZOrderOnTop`. They hold no state the controllers read.
- The method-channel transport and argument marshalling. Inbound calls are the `Command` datatype with optional arguments. A wrongly typed argument, which would throw a ClassCastException, is not modelled. Dart no longer reaches `onMethodCall` once dispose has detached the handler. The model's `OnMethodCall` does not check `disposed`, just as the Kotlin method does not.
- What the channel does with an exception escaping the method-call handler. This happens for the `File(null)` of a setVideoSource without a path. The model records `NullPointerThrown` and sends no reply; the fields assigned before the throw keep their new values.
- VideoViewSpec.OnPrepared: the NullPointerException of `mediaPlayer!!` with a null player escapes the media player's prepared callback on the main thread, not the channel. What Android then does is not modelled. The model records `NullPointerThrown`, starts nothing, changes no field and lets later events run. `VideoView.NativeVideoViewController.OnPrepared` follows it.
- ExoPlayer, MediaPlayer and VideoView internals: media sources, data-source factories beyond which one is chosen, `prepare`, `release` and decoding. Their queries are inputs and their commands are trace entries.
- `Uri.parse`, `Uri.fromFile(File(path))` and `hashCode()`. These are library behaviour. They are an input function, an abstract `FileUri` value and a plain integer.
- `Log.d`, `printStackTrace`, the `completionTime` field (written from the clock, never read) and ExoPlayer's `currentPosition` field (only logged).
- Event delivery after dispose or after the listeners are removed. `Run` also accepts lifecycle and native events after `Disposal`, and native player callbacks after `LifecycleDestroyed` has removed the player listeners (ExoPlayer's `PlayerStateChanged` and `PlayerError`; VideoView's `MediaPrepared`, `MediaCompleted` and `MediaError`). In the program, the detached handler, the unregistered lifecycle callbacks and the removed listeners mean these events no longer reach the controller. Every invariant proved over `Run` therefore holds over a superset of the program's runs.
- Thread delivery of native and lifecycle callbacks. Callbacks are modelled as calls that run one after another.
- The handler attachment done before the constructor throws for an uninterpretable activity state. No controller exists afterwards, so `Create` returns only the error.
- Exo.ExoPlayerController.ConfigurePlayer: does not model the exception path of the `try`/`catch`. ExoPlayer's `addListener` and `setVideoSurfaceView` are taken to succeed, so `configured` always becomes true.
