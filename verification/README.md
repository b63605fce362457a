# Audio player core in Dafny

This project models the core of a small browser audio player built on React and Tone.js.
The player loads one looping track, plays, pauses and stops it, and routes it through a
fixed chain of effects. The signal flows from the player, which sets the playback rate, through volume, pitch shift and a 3-band EQ to reverb. A
polling clock shows the looped playback position. The model covers three cooperating pieces.

- **Effect parameters** (`AudioTypes`, `EffectsUtils`, `UseEffects`):
  - the seven-field `AudioEffects` record, its defaults and the ranges its sliders allow;
  - the rule that writes one parameter into the engine stages and the rule that writes all seven;
  - the hook that stores the record, updates and resets it, and pushes it to the engine.
  
  The engine stages are objects (`Engine`) whose fields these methods overwrite. The
  methods' effect is stated through `View`, which has one optional slot per parameter (a
  missing stage gives `None`). Tone's `gainToDb` is a function parameter with no
  interpretation. Only the volume passes through it.
- **Time arithmetic** (`TimeUtils`): `formatTime`, `calculateProgress` and
  `calculateLoopedProgress` work on exact reals. JavaScript's `%` keeps the sign of the
  dividend, so it is written out as the truncated remainder `TruncRem`.
- **Two state machines**, with each callback taken as one atomic step:
  - the progress clock (`ProgressTracking`): start, tick, pause, resume, stop and unmount;
  - the playback controller (`Playback`): toggle and stop over `playing`, `error`, an
    abstract player (missing, started or stopped) and an audio context (running or
    suspended).
  
  The clock reading `now` is an argument. It is the audio context's clock, which stands
  still while the context is suspended. Any engine call may reject. Which calls reject
  in a step is an argument, and a rejection takes the `catch` branch. The callbacks that
  fire are recorded in an event log. Each hook is a class whose methods are proved equal
  to a pure step function (`Start`, `Tick`, `Pause`, `Resume`, `Stop`, `Unmount`,
  `Toggle`). Properties that span several steps are proved about those functions.

Behaviours of the source that the model keeps rather than hides:

- The interval callback checks the `isPaused` value captured when `startTracking` ran,
  not the live flag. An interval started while not paused therefore still publishes during
  a pause (`TickReadsCapturedFlag`), and one started while paused never publishes, although
  start clears the live flag (`StartWhilePausedNeverPublishes`). The program relies on the suspended
  audio clock to keep the display still. The model does not prove that the display stays still.
- Paused time is left out of the published position: resuming adds the length of the
  pause to the paused total (`PausedTimeExcluded`).
- `startTracking` overwrites the interval ref without clearing an earlier interval. Two
  starts without a stop leave an interval that neither `stopTracking` nor the unmount
  cleanup clears (`StartTwiceLeaks`).
- `stop` from the paused state can resume the context and then fail to stop the player.
  That leaves the track audible while `playing` is false (`StopFailureAfterResumeDesyncs`).
  Every toggle keeps `playing` in step with the engine, whichever calls reject
  (`ToggleKeepsSync`). So does every stop except that one case: a suspended context with a
  started player, a context resume that succeeds and a player stop that rejects (`StopKeepsSync`). A
  sequence of operations stays in step when no player stop in it rejects (`RunKeepsSync`).
- `stop` with a player loaded, when neither the context resume nor the player stop
  rejects, sets `playing` to false and fires `onPlayStop`. It does so even when nothing was
  playing. A design that makes stopping a stopped player a no-op would
  differ; the model follows the code.
- Nothing clamps effect values. The slider ranges in src/components/EffectControls.tsx
  appear only as the precondition of `UpdateEffect` and the invariant of the hook.
- `applySingleEffect` writes to any stage that is present even when no player is loaded.
  `applyEffects` writes nothing without a player (`OnlyAllNeedsPlayer`).
- The `AudioNodes` type is imported from src/types/audio.ts but is not declared there. It
  is modelled from how the hooks use it.

## Model

| member | source | states |
|---|---|---|
| `AudioTypes.EffectsExtensional` | src/types/audio.ts:4-12 | the record is exactly its seven fields: two records that agree on all seven keys are equal |
| `AudioTypes.AllNamesComplete` | src/types/audio.ts:4-12 | the seven keys speed, pitch, reverb, lowEQ, midEQ, highEQ, volume, each listed once |
| `AudioTypes.DefaultsInRange` | src/types/audio.ts:27-35 | default speed 1, volume 0.7, the other five 0, and every default inside its slider's range |
| `AudioTypes.With` | src/hooks/useEffects.ts:19 | `{...prev, [name]: v}`: the named field holds v and the other six fields are unchanged |
| `AudioTypes.WithKeepsInRange` | src/hooks/useEffects.ts:18-19 | replacing one field with a value in its slider range keeps the whole record in range |
| `AudioTypes.WithOverwrites` | src/hooks/useEffects.ts:19 | two updates of the same field equal one update with the last value |
| `AudioTypes.WithCommutes` | src/hooks/useEffects.ts:19 | updates of two different fields can be done in either order |
| `AudioTypes.WithSameValue` | src/hooks/useEffects.ts:19 | writing back a field's own value leaves the record unchanged |
| `TimeUtils.TruncRem` | src/utils/timeUtils.ts:28 | JavaScript `%`: lies in [0, m) for a non-negative dividend and in (-m, 0] for a negative one, and differs from the dividend by a whole multiple of m |
| `TimeUtils.NatToString` | src/utils/timeUtils.ts:7 | an integer's `toString()` is a non-empty string of decimal digits with no leading zero: it starts with '0' only for 0, and it is one digit exactly for a number below 10 |
| `TimeUtils.IntToString` | src/utils/timeUtils.ts:7 | an integer's `toString()`: a leading '-' exactly for a negative number, followed by digits that read back as its absolute value and start with '0' only for 0 |
| `TimeUtils.NatToStringReadsBack` | src/utils/timeUtils.ts:7 | reading those digits back gives the number |
| `TimeUtils.PadStart2` | src/utils/timeUtils.ts:7 | `padStart(2, '0')` ends with the input, is made at least two characters long, and is filled on the left with zeros only |
| `TimeUtils.FormatTime` | src/utils/timeUtils.ts:4-8 | `formatTime`: the text is non-empty and starts with '-' exactly when the time is negative (its full shape is FormatTimeReadsBack) |
| `TimeUtils.MinutesAndSeconds` | src/utils/timeUtils.ts:5-6 | for seconds ≥ 0: minutes ≥ 0, the seconds part in 0..59, and minutes·60 + seconds = ⌊seconds⌋ |
| `TimeUtils.ClockReadsBack` | src/utils/timeUtils.ts:7 | the text `${mins}:${secs padded}` for a seconds part in 0..59 is digits, ':' and two digits, and reads back as the minutes and the seconds |
| `TimeUtils.ClockNoLeadingZero` | src/utils/timeUtils.ts:7 | the minutes part of `${mins}:${secs padded}` carries no leading zero: the text starts with '0' only for zero minutes, and has four characters exactly when the minutes are below 10 |
| `TimeUtils.FormatTimeReadsBack` | src/utils/timeUtils.ts:4-8 | for seconds ≥ 0 the text is digits, ':' and exactly two digits, and reading them back gives a seconds part below 60 with minutes·60 + seconds = ⌊seconds⌋; the minutes carry no leading zero (a text starting with '0' is "0:ss") |
| `TimeUtils.FormatTimeExamples` | src/utils/timeUtils.ts:4-8 | 65 shows as "1:05" and 0 as "0:00" |
| `TimeUtils.FormatTimeNegative` | src/utils/timeUtils.ts:5-7 | a negative time keeps the sign in both parts: -5 shows as "-1:-5" |
| `TimeUtils.CalculateProgress` | src/utils/timeUtils.ts:13-16 | 0 when total ≤ 0; otherwise at most 100, at least 0 for current ≥ 0, exactly 100 once current ≥ total, and current/total·100 below that |
| `TimeUtils.ProgressMonotone` | src/utils/timeUtils.ts:15 | for a fixed positive total, progress never decreases as current grows |
| `TimeUtils.CalculateLoopedProgress` | src/utils/timeUtils.ts:21-29 | 0 when duration ≤ 0; otherwise in [0, duration) for non-negative elapsed time, in (-duration, 0] for negative, and always a whole number of durations away from the elapsed time |
| `TimeUtils.LoopedDependsOnElapsed` | src/utils/timeUtils.ts:27 | the result depends only on currentTime − startTime |
| `TimeUtils.LoopedUnique` | src/utils/timeUtils.ts:27-28 | for non-negative elapsed time, the result is the only value in [0, duration) a whole number of durations away from it |
| `TimeUtils.LoopedPeriodic` | src/utils/timeUtils.ts:27-28 | for a positive duration and non-negative elapsed time, one more lap (currentTime + duration) gives the same result |
| `EffectsUtils.WriteOne` | src/utils/effectsUtils.ts:54-92 | the single-effect rule: the slot of the named effect, if its stage exists, gets the value (gainToDb of it for volume), and every other slot is unchanged |
| `EffectsUtils.WriteAll` | src/utils/effectsUtils.ts:7-44 | the write-all rule: nothing without a player; with one, every present slot gets its field's value, converted only for volume |
| `EffectsUtils.ApplyEffects` | src/utils/effectsUtils.ts:7-44 | writes the stage fields exactly as WriteAll says and leaves the player's state alone |
| `EffectsUtils.ApplySingleEffect` | src/utils/effectsUtils.ts:49-95 | writes the stage fields exactly as WriteOne says and leaves the player's state alone |
| `EffectsUtils.WriteEachAt` | src/utils/effectsUtils.ts:54-89 | after the single-effect rule for a list of names, a present slot holds the record's value exactly when its name is in the list |
| `EffectsUtils.WriteAllIsEveryWriteOne` | src/utils/effectsUtils.ts:14-43 | with a player, writing all parameters equals the single-effect rule for all seven names in any order |
| `EffectsUtils.OnlyAllNeedsPlayer` | src/utils/effectsUtils.ts:8-11 | without a player the write-all rule changes nothing, while the single-effect rule still writes every present stage other than the rate |
| `EffectsUtils.WriteAllIdempotent` | src/utils/effectsUtils.ts:7-44 | writing all parameters twice equals writing them once |
| `EffectsUtils.WriteOneOverwrites` | src/utils/effectsUtils.ts:54-92 | writing one parameter twice leaves only the last value |
| `EffectsUtils.DefaultsReadBack` | src/utils/effectsUtils.ts:14-43 | the default record written to a chain with a player reads back as rate 1, volume gainToDb(0.7) and 0 in every other present slot |
| `UseEffects.EffectsHook.constructor` | src/hooks/useEffects.ts:8 | the hook starts with DEFAULT_EFFECTS, which is in range |
| `UseEffects.EffectsHook.GetEffect` | src/hooks/useEffects.ts:47-49 | `getEffect(name)` is the stored field, always inside that slider's range |
| `UseEffects.EffectsHook.UpdateEffect` | src/hooks/useEffects.ts:13-26 | afterwards getEffect(name) = value, the other six are unchanged, the record stays in range, and only that one parameter is pushed to the nodes |
| `UseEffects.EffectsHook.ApplyAllEffects` | src/hooks/useEffects.ts:31-33 | pushes the stored record by the write-all rule and leaves the record unchanged |
| `UseEffects.EffectsHook.ResetEffects` | src/hooks/useEffects.ts:38-42 | the record becomes DEFAULT_EFFECTS and the defaults are pushed by the write-all rule |
| `UseEffects.ResetIdempotent` | src/hooks/useEffects.ts:38-40 | resetting twice leaves the engine as resetting once does |
| `ProgressTracking.ProgressTracker.constructor` | src/hooks/useProgressTracking.ts:6-11 | every state and ref starts at 0, false or null, with no interval running |
| `ProgressTracking.ProgressTracker.StartTracking` | src/hooks/useProgressTracking.ts:16-31 | the new state is Start: clock restarted at now, paused total 0, not paused, a new interval that captured the old isPaused |
| `ProgressTracking.ProgressTracker.OnTick` | src/hooks/useProgressTracking.ts:21-28 | the new state is Tick: unless the captured guard says paused, the display becomes the looped elapsed time |
| `ProgressTracking.ProgressTracker.PauseTracking` | src/hooks/useProgressTracking.ts:36-42 | the new state is Pause: record now and set paused when not paused, else nothing |
| `ProgressTracking.ProgressTracker.ResumeTracking` | src/hooks/useProgressTracking.ts:47-54 | the new state is Resume: add now − pausedAt to the paused total and clear paused when paused, else nothing |
| `ProgressTracking.ProgressTracker.StopTracking` | src/hooks/useProgressTracking.ts:59-68 | the new state is Stop: the remembered interval cleared and display, paused flag and paused total reset |
| `ProgressTracking.ProgressTracker.OnUnmount` | src/hooks/useProgressTracking.ts:73-79 | the new state is Unmount: the remembered interval is cleared |
| `ProgressTracking.StartActivates` | src/hooks/useProgressTracking.ts:16-28 | start sets startTime = now, paused total 0, not paused; the ref names one new live interval holding the duration and the `isPaused` value captured before start; every earlier interval is kept unchanged |
| `ProgressTracking.StartWhilePausedNeverPublishes` | src/hooks/useProgressTracking.ts:16-31 | a start made while paused clears the live flag, yet its interval's ticks change nothing, because the guard reads the captured `true` |
| `ProgressTracking.PauseIdempotent` | src/hooks/useProgressTracking.ts:36-42 | pausing twice equals pausing once: the first instant is kept |
| `ProgressTracking.ResumeWithoutPause` | src/hooks/useProgressTracking.ts:47-54 | resuming when not paused changes nothing |
| `ProgressTracking.PauseResumeSameInstant` | src/hooks/useProgressTracking.ts:49-50 | pause then resume at the same instant leaves the paused total unchanged |
| `ProgressTracking.StopResets` | src/hooks/useProgressTracking.ts:59-68 | stop clears the remembered interval, resets display, paused flag and paused total, and keeps startTime and pausedAt |
| `ProgressTracking.UnmountClears` | src/hooks/useProgressTracking.ts:73-79 | the cleanup clears the remembered interval; when that was the only live one, none is left |
| `ProgressTracking.SingleTimerKept` | src/hooks/useProgressTracking.ts:16-79 | pause, resume, tick, stop and unmount keep at most one live interval; start keeps it only when none is live |
| `ProgressTracking.PausedTimeExcluded` | src/hooks/useProgressTracking.ts:24-50 | start at t0, pause at t1, resume at t2: a tick at t3 publishes the loop position of (t1 − t0) + (t3 − t2), the played time without the pause |
| `ProgressTracking.StartTwiceLeaks` | src/hooks/useProgressTracking.ts:21 | after two starts, stop and the unmount cleanup both leave the first interval live |
| `ProgressTracking.TickReadsCapturedFlag` | src/hooks/useProgressTracking.ts:22-31 | the tick's guard is the captured flag: a paused capture never publishes, and an unpaused capture publishes whatever the live flag is |
| `ProgressTracking.InitialClockInv` | src/hooks/useProgressTracking.ts:6-10 | the initial state satisfies the clock invariant |
| `ProgressTracking.TickInRange` | src/hooks/useProgressTracking.ts:22-26 | under the clock invariant, a tick publishes a value in [0, duration) |
| `ProgressTracking.StepKeepsClockInv` | src/hooks/useProgressTracking.ts:16-79 | every callback, at a clock reading no earlier than the last, keeps the clock invariant |
| `ProgressTracking.RunKeepsClockInv` | src/hooks/useProgressTracking.ts:16-79 | along any sequence of callbacks with a non-decreasing clock the invariant holds and the display is never negative |
| `ProgressTracking.TotalPausedNeverDecreases` | src/hooks/useProgressTracking.ts:49-50 | between start and stop, with a non-decreasing clock, the paused total never decreases |
| `Playback.PlaybackController.constructor` | src/hooks/usePlayback.ts:13-14 | not playing, no error, no callbacks fired |
| `Playback.PlaybackController.TogglePlayback` | src/hooks/usePlayback.ts:19-61 | the new controller and engine state is Toggle of the old, and the playback rate is untouched |
| `Playback.PlaybackController.StopPlayback` | src/hooks/usePlayback.ts:66-88 | the new controller and engine state is Stop of the old, and the playback rate is untouched |
| `Playback.NoPlayerLoaded` | src/hooks/usePlayback.ts:23-26 | with no player, toggle sets error "No audio loaded" and changes nothing else, and stop changes nothing at all |
| `Playback.ToggleWhilePlayingPauses` | src/hooks/usePlayback.ts:32-37 | toggle while playing suspends the context, clears playing and fires only the pause callback; the player is untouched |
| `Playback.ToggleFromStoppedStarts` | src/hooks/usePlayback.ts:41-46 | toggle with the player stopped starts it, runs the context, fires start(duration) and sets playing |
| `Playback.ToggleFromPausedResumes` | src/hooks/usePlayback.ts:47-54 | toggle with the player not stopped resumes the context, fires resume and not start, and sets playing |
| `Playback.StopSucceeds` | src/hooks/usePlayback.ts:72-83 | a successful stop leaves the context running, the player stopped, playing false, one stop callback, and error untouched |
| `Playback.ToggleOutcome` | src/hooks/usePlayback.ts:28-60 | a toggle clears the error and flips playing exactly when its engine calls succeed; on a rejection it sets the error and keeps playing, player and callbacks; playing flips exactly when none of the engine calls on the toggle's branch rejects |
| `Playback.StopOutcome` | src/hooks/usePlayback.ts:66-87 | stop never touches error; if it fires no callback, playing and the player are unchanged; otherwise it fires exactly one stop callback and clears playing |
| `Playback.FirstRejected` | src/hooks/usePlayback.ts:28-60 | the call a `try` block stops at: none when no call rejects, otherwise a rejecting call such that every call before it succeeds |
| `Playback.ToggleRejects` | src/hooks/usePlayback.ts:28-60 | with a player, a toggle sets the error exactly when one of the engine calls on its branch rejects, and then to the message of the first call that rejects ("Playback error" for a non-Error); otherwise it clears the error |
| `Playback.StopRejects` | src/hooks/usePlayback.ts:70-87 | with a player, a stop fires no callback exactly when the context resume (from suspended) or the player stop (from started) rejects |
| `Playback.StopThenToggleRestarts` | src/hooks/usePlayback.ts:41-83 | after a successful stop the next toggle takes the start branch: the player restarts and start(duration) follows the stop callback |
| `Playback.TwoTogglesResume` | src/hooks/usePlayback.ts:32-54 | from playing with a started player, two toggles fire pause then resume and end playing with the context running |
| `Playback.ToggleKeepsSync` | src/hooks/usePlayback.ts:19-61 | whichever engine calls reject, a toggle keeps playing ⇔ (player started ∧ context running) |
| `Playback.StopKeepsSync` | src/hooks/usePlayback.ts:66-88 | every stop keeps playing ⇔ (player started ∧ context running), except one from a suspended context with a started player whose context resume succeeds and whose player stop rejects |
| `Playback.StopFailureAfterResumeDesyncs` | src/hooks/usePlayback.ts:72-87 | from paused, a stop that resumes the context and then fails to stop the player leaves the track audible with playing false |
| `Playback.RunKeepsSync` | src/hooks/usePlayback.ts:19-88 | any sequence of toggles and stops in which no player stop rejects keeps playing in sync with the engine |
| `Playback.LoadedIsInSync` | src/hooks/usePlayback.ts:13 | a freshly loaded, never-played track starts in sync |

## Left out

- Tone's signal processing and audio output are not modelled. `gainToDb` is an uninterpreted parameter (its log10 formula is not modelled).
- Times and effect values are exact reals. IEEE rounding, NaN, infinities and `toString`'s exponent form for very large numbers are not modelled.
- Loading the track (src/utils/audioLoader.ts, src/hooks/useAudioLoader.ts) is network I/O and decoding and is not part of this model. Its one relevant fact, that the player loops (src/utils/audioLoader.ts:15), is kept: a started player never stops by itself.
- The thin Tone wrappers (src/utils/audioContext.ts, src/utils/playback.ts, src/utils/audioNodes.ts) are not part of this model. The abstract engine objects stand in for them, and the chain order is recorded as the constant `Engine.ChainOrder` without proof.
- `Tone.start()` is assumed to leave the context running. The context's `closed` state is not modelled.
- React scheduling is not modelled: `useCallback` memoisation, re-renders, an updater run twice in strict mode, and interleaving at `await` points. Each callback is one atomic step that reads the live state. The one exception is the tick's captured `isPaused`, which is modelled.
- The clock reading `now` is a free argument of each step. It is not tied to the context's state, so the audio clock standing still while the context is suspended is not modelled, and the display standing still during a pause is not proved.
- The 100 ms interval period is not modelled. Ticks are explicit steps, and an interval that has been cleared never fires.
- Optional callbacks that were not supplied are not modelled. The event log records every call site as if each callback were present.
- `console.log`, `console.warn` and `console.error` are not modelled.
- The `default:` branch of `applySingleEffect` (unknown effect name) is not modelled: the effect name is the closed type of the record's keys, so that branch cannot be reached.
- The unused `PlayerState` interface in src/types/audio.ts is not modelled.
- The React components (src/components/*, src/App.tsx) are UI and are not part of this model. Only the slider bounds are used, as preconditions.
