/**
 * The playback controller (`usePlayback`): play/pause by suspending and
 * resuming the shared audio context, stop by stopping the player.
 *
 * Each operation is one atomic step. The engine is abstract: whether a player
 * is loaded and its state, and the context's state. Any engine call may
 * reject; which ones reject in a step is an argument (`faults`), and a
 * rejection takes the `catch` branch. The optional callbacks are recorded, in
 * firing order, in an event log.
 */
module Playback {
  import opened Wrappers
  import opened Engine

  /** The callbacks `onPlayStart(duration)`, `onPlayPause`, `onPlayResume`, `onPlayStop`. */
  datatype PlaybackEvent = PlayStart(duration: real) | PlayPause | PlayResume | PlayStop

  /** The engine calls that may reject. */
  datatype EngineCall = ContextSuspend | ContextResume | ToneStart | PlayerStart | PlayerStop

  /** What a rejected call throws. */
  datatype Thrown = ErrorObject(message: string) | OtherValue

  /** `err instanceof Error ? err.message : 'Playback error'` */
  function ErrorMessage(t: Thrown): string {
    match t
    case ErrorObject(m) => m
    case OtherValue => "Playback error"
  }

  const NoAudioLoaded: string := "No audio loaded"

  /** Controller state (`playing`, `error`), the abstract engine, and the callbacks fired so far. */
  datatype PlaybackState = PlaybackState(
    player: Option<PlayerRunState>,  // None: no player loaded
    context: ContextState,
    playing: bool,
    error: Option<string>,
    events: seq<PlaybackEvent>)

  /** `togglePlayback(nodes, duration)` */
  function Toggle(s: PlaybackState, duration: real, faults: map<EngineCall, Thrown>): PlaybackState {
    if s.player.None? then s.(error := Some(NoAudioLoaded))
    else
      var cleared := s.(error := None);
      if s.playing then
        if ContextSuspend in faults then cleared.(error := Some(ErrorMessage(faults[ContextSuspend])))
        else cleared.(context := Suspended, playing := false, events := s.events + [PlayPause])
      else if s.player.value == Stopped then
        if ToneStart in faults then cleared.(error := Some(ErrorMessage(faults[ToneStart])))
        else
          var running := cleared.(context := Running);
          if PlayerStart in faults then running.(error := Some(ErrorMessage(faults[PlayerStart])))
          else running.(player := Some(Started), playing := true, events := s.events + [PlayStart(duration)])
      else
        if ContextResume in faults then cleared.(error := Some(ErrorMessage(faults[ContextResume])))
        else cleared.(context := Running, playing := true, events := s.events + [PlayResume])
  }

  /** `stop(nodes)`; a rejection is only logged, so `error` is never touched. */
  function Stop(s: PlaybackState, faults: map<EngineCall, Thrown>): PlaybackState {
    if s.player.None? then s
    else if s.context == Suspended && ContextResume in faults then s
    else
      var resumed := s.(context := Running);
      if s.player.value == Started then
        if PlayerStop in faults then resumed
        else resumed.(player := Some(Stopped), playing := false, events := s.events + [PlayStop])
      else resumed.(playing := false, events := s.events + [PlayStop])
  }

  // ---------------------------------------------------------------------------
  // The hook as an object; the player and the context are engine objects.

  function PlayerObjects(nodes: AudioNodes): set<object> {
    if nodes.player != null then {nodes.player} else {}
  }

  class PlaybackController {
    var playing: bool
    var error: Option<string>
    /** The callbacks fired so far. */
    var events: seq<PlaybackEvent>

    /** The controller together with the engine objects it drives. */
    function Snapshot(nodes: AudioNodes, ctx: AudioContext): PlaybackState
      reads this, ctx, PlayerObjects(nodes)
    {
      PlaybackState(
        if nodes.player != null then Some(nodes.player.state) else None,
        ctx.state, playing, error, events)
    }

    constructor ()
      ensures !playing && error == None && events == []
    {
      playing, error, events := false, None, [];
    }

    method TogglePlayback(nodes: AudioNodes, ctx: AudioContext, duration: real, faults: map<EngineCall, Thrown>)
      modifies this, ctx, PlayerObjects(nodes)
      ensures Snapshot(nodes, ctx) == Toggle(old(Snapshot(nodes, ctx)), duration, faults)
      ensures nodes.player != null ==> nodes.player.playbackRate == old(nodes.player.playbackRate)
    {
      if nodes.player == null {
        error := Some(NoAudioLoaded);
        return;
      }
      error := None;
      if playing {
        if ContextSuspend in faults {
          error := Some(ErrorMessage(faults[ContextSuspend]));
          return;
        }
        ctx.state := Suspended;
        playing := false;
        events := events + [PlayPause];
      } else {
        if nodes.player.state == Stopped {
          if ToneStart in faults {
            error := Some(ErrorMessage(faults[ToneStart]));
            return;
          }
          ctx.state := Running;
          if PlayerStart in faults {
            error := Some(ErrorMessage(faults[PlayerStart]));
            return;
          }
          nodes.player.state := Started;
          events := events + [PlayStart(duration)];
        } else {
          if ContextResume in faults {
            error := Some(ErrorMessage(faults[ContextResume]));
            return;
          }
          ctx.state := Running;
          events := events + [PlayResume];
        }
        playing := true;
      }
    }

    method StopPlayback(nodes: AudioNodes, ctx: AudioContext, faults: map<EngineCall, Thrown>)
      modifies this, ctx, PlayerObjects(nodes)
      ensures Snapshot(nodes, ctx) == Stop(old(Snapshot(nodes, ctx)), faults)
      ensures nodes.player != null ==> nodes.player.playbackRate == old(nodes.player.playbackRate)
    {
      if nodes.player == null {
        return;
      }
      if ctx.state == Suspended {
        if ContextResume in faults {
          return;
        }
        ctx.state := Running;
      }
      if nodes.player.state == Started {
        if PlayerStop in faults {
          return;
        }
        nodes.player.state := Stopped;
      }
      playing := false;
      events := events + [PlayStop];
    }
  }

  // ---------------------------------------------------------------------------
  // Properties of single steps

  /** With no player, toggling only reports "No audio loaded", and stopping changes nothing at all. */
  lemma NoPlayerLoaded(s: PlaybackState, duration: real, faults: map<EngineCall, Thrown>)
    requires s.player.None?
    ensures Toggle(s, duration, faults) == s.(error := Some(NoAudioLoaded))
    ensures Stop(s, faults) == s
  {
  }

  /** Toggling while playing suspends the context and fires only the pause callback; the player is untouched. */
  lemma ToggleWhilePlayingPauses(s: PlaybackState, duration: real)
    requires s.player.Some? && s.playing
    ensures Toggle(s, duration, map[]) ==
      s.(context := Suspended, playing := false, error := None, events := s.events + [PlayPause])
  {
  }

  /** Toggling with the player stopped starts it and fires the start callback with the duration. */
  lemma ToggleFromStoppedStarts(s: PlaybackState, duration: real)
    requires s.player == Some(Stopped) && !s.playing
    ensures Toggle(s, duration, map[]) ==
      s.(player := Some(Started), context := Running, playing := true, error := None,
         events := s.events + [PlayStart(duration)])
  {
  }

  /** Toggling with the player not stopped resumes the context and fires resume, not start. */
  lemma ToggleFromPausedResumes(s: PlaybackState, duration: real)
    requires s.player == Some(Started) && !s.playing
    ensures Toggle(s, duration, map[]) ==
      s.(context := Running, playing := true, error := None, events := s.events + [PlayResume])
  {
  }

  /** A successful stop leaves the context running, the player stopped, playing false, one stop callback; error untouched. */
  lemma StopSucceeds(s: PlaybackState)
    requires s.player.Some?
    ensures Stop(s, map[]) ==
      s.(player := Some(Stopped), context := Running, playing := false, events := s.events + [PlayStop])
  {
  }

  /**
   * A toggle whose engine calls succeed clears the error and flips `playing`;
   * one whose engine call rejects sets the error and leaves `playing` and the
   * callbacks as they were.
   */
  lemma ToggleOutcome(s: PlaybackState, duration: real, faults: map<EngineCall, Thrown>)
    requires s.player.Some?
    ensures var r := Toggle(s, duration, faults);
      (r.error.None? <==> r.playing != s.playing) &&
      (r.error.Some? ==> r.playing == s.playing && r.events == s.events && r.player == s.player) &&
      (r.error.None? ==> |r.events| == |s.events| + 1) &&
      (r.playing != s.playing <==> forall c :: c in ToggleCalls(s) ==> c !in faults)
  {
    ToggleRejects(s, duration, faults);
  }

  /** Stop never touches `error`; when it fires no callback, `playing` is unchanged too. */
  lemma StopOutcome(s: PlaybackState, faults: map<EngineCall, Thrown>)
    ensures var r := Stop(s, faults);
      r.error == s.error &&
      (r.events == s.events ==> r.playing == s.playing && r.player == s.player) &&
      (r.events != s.events ==> r.events == s.events + [PlayStop] && !r.playing)
  {
  }

  /** The engine calls a toggle makes, in order, until one rejects. */
  function ToggleCalls(s: PlaybackState): seq<EngineCall>
    requires s.player.Some?
  {
    if s.playing then [ContextSuspend]
    else if s.player.value == Stopped then [ToneStart, PlayerStart]
    else [ContextResume]
  }

  /** The engine calls a stop makes, in order, until one rejects. */
  function StopCalls(s: PlaybackState): seq<EngineCall>
    requires s.player.Some?
  {
    (if s.context == Suspended then [ContextResume] else []) +
    (if s.player.value == Started then [PlayerStop] else [])
  }

  /** The first call of `calls` that rejects, if any. */
  function FirstRejected(calls: seq<EngineCall>, faults: map<EngineCall, Thrown>): (c: Option<EngineCall>)
    ensures c.None? <==> forall i :: 0 <= i < |calls| ==> calls[i] !in faults
    ensures c.Some? ==> exists i :: (0 <= i < |calls| && calls[i] == c.value && c.value in faults &&
                                     forall j :: 0 <= j < i ==> calls[j] !in faults)
  {
    if calls == [] then None
    else if calls[0] in faults then Some(calls[0])
    else FirstRejected(calls[1..], faults)
  }

  /**
   * A toggle with a player sets the error exactly when one of its engine calls
   * rejects, and then to the message of the first call that rejects; otherwise
   * it clears the error.
   */
  lemma ToggleRejects(s: PlaybackState, duration: real, faults: map<EngineCall, Thrown>)
    requires s.player.Some?
    ensures var r := Toggle(s, duration, faults);
      var first := FirstRejected(ToggleCalls(s), faults);
      (r.error.Some? <==> exists c :: c in ToggleCalls(s) && c in faults) &&
      r.error == (if first.Some? then Some(ErrorMessage(faults[first.value])) else None)
  {
    var calls := ToggleCalls(s);
    if s.playing {
      assert calls[0] == ContextSuspend;
    } else if s.player.value == Stopped {
      assert calls[0] == ToneStart && calls[1] == PlayerStart;
      assert calls[1..] == [PlayerStart];
    } else {
      assert calls[0] == ContextResume;
    }
  }

  /** A stop with a player fires no callback exactly when one of its engine calls rejects. */
  lemma StopRejects(s: PlaybackState, faults: map<EngineCall, Thrown>)
    requires s.player.Some?
    ensures Stop(s, faults).events == s.events <==> exists c :: c in StopCalls(s) && c in faults
  {
    var r := Stop(s, faults);
    if exists c :: c in StopCalls(s) && c in faults {
      var c :| c in StopCalls(s) && c in faults;
      assert c == ContextResume || c == PlayerStop;
    } else {
      if s.context == Suspended {
        assert ContextResume in StopCalls(s);
      }
      if s.player.value == Started {
        assert PlayerStop in StopCalls(s);
      }
      assert |r.events| == |s.events| + 1;
    }
  }

  // ---------------------------------------------------------------------------
  // Properties of sequences of steps

  /** After a successful stop, the next toggle restarts the player from the top rather than resuming. */
  lemma StopThenToggleRestarts(s: PlaybackState, duration: real)
    requires s.player.Some?
    ensures var r := Toggle(Stop(s, map[]), duration, map[]);
      r.player == Some(Started) && r.playing && r.context == Running &&
      r.events == s.events + [PlayStop, PlayStart(duration)]
  {
    var stopped := Stop(s, map[]);
    StopSucceeds(s);
    ToggleFromStoppedStarts(stopped, duration);
  }

  /** From playing with a started player, two toggles pause then resume and end playing with the context running. */
  lemma TwoTogglesResume(s: PlaybackState, duration: real)
    requires s.player == Some(Started) && s.playing
    ensures Toggle(Toggle(s, duration, map[]), duration, map[]) ==
      s.(context := Running, error := None, events := s.events + [PlayPause, PlayResume])
  {
    ToggleWhilePlayingPauses(s, duration);
    ToggleFromPausedResumes(Toggle(s, duration, map[]), duration);
  }

  /** Sound comes out exactly when the player is started and the context runs. */
  predicate Audible(s: PlaybackState) {
    s.player == Some(Started) && s.context == Running
  }

  /** The controller's `playing` agrees with what the engine is doing. */
  predicate InSync(s: PlaybackState) {
    s.playing <==> Audible(s)
  }

  /** A toggle keeps `playing` in sync with the engine, whichever engine calls reject. */
  lemma ToggleKeepsSync(s: PlaybackState, duration: real, faults: map<EngineCall, Thrown>)
    requires InSync(s)
    ensures InSync(Toggle(s, duration, faults))
  {
  }

  /**
   * A stop keeps `playing` in sync with the engine unless it starts from a
   * suspended context with a started player, the context resume succeeds and
   * stopping the player rejects.
   */
  lemma StopKeepsSync(s: PlaybackState, faults: map<EngineCall, Thrown>)
    requires InSync(s)
    requires !(s.context == Suspended && s.player == Some(Started) &&
               ContextResume !in faults && PlayerStop in faults)
    ensures InSync(Stop(s, faults))
  {
  }

  /**
   * A stop from the paused state whose context resume succeeds but whose
   * player stop rejects leaves the track audible while `playing` is false.
   */
  lemma StopFailureAfterResumeDesyncs(s: PlaybackState, t: Thrown)
    requires s.player == Some(Started) && s.context == Suspended && !s.playing
    ensures var r := Stop(s, map[PlayerStop := t]);
      InSync(s) && Audible(r) && !r.playing && !InSync(r)
  {
  }

  /** The user's operations. */
  datatype Op = ToggleOp(duration: real, faults: map<EngineCall, Thrown>) | StopOp(faults: map<EngineCall, Thrown>)

  function Apply(s: PlaybackState, op: Op): PlaybackState {
    match op
    case ToggleOp(d, f) => Toggle(s, d, f)
    case StopOp(f) => Stop(s, f)
  }

  function RunOps(s: PlaybackState, ops: seq<Op>): PlaybackState
    decreases |ops|
  {
    if ops == [] then s else RunOps(Apply(s, ops[0]), ops[1..])
  }

  /** No stop in the sequence has its player stop rejected. */
  predicate StopsSucceedAtPlayer(ops: seq<Op>) {
    forall i :: 0 <= i < |ops| && ops[i].StopOp? ==> PlayerStop !in ops[i].faults
  }

  /** Any sequence of operations keeps `playing` in sync with the engine, as long as no player stop rejects. */
  lemma {:induction false} RunKeepsSync(s: PlaybackState, ops: seq<Op>)
    requires InSync(s) && StopsSucceedAtPlayer(ops)
    ensures InSync(RunOps(s, ops))
    decreases |ops|
  {
    if ops != [] {
      match ops[0] {
        case ToggleOp(d, f) => ToggleKeepsSync(s, d, f);
        case StopOp(f) => StopKeepsSync(s, f);
      }
      assert StopsSucceedAtPlayer(ops[1..]) by {
        forall i | 0 <= i < |ops[1..]| && ops[1..][i].StopOp? ensures PlayerStop !in ops[1..][i].faults {
          assert ops[1..][i] == ops[i + 1];
        }
      }
      RunKeepsSync(Apply(s, ops[0]), ops[1..]);
    }
  }

  /** A freshly loaded, never played track is in sync. */
  lemma LoadedIsInSync(context: ContextState)
    ensures InSync(PlaybackState(Some(Stopped), context, false, None, []))
  {
  }
}
