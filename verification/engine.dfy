/**
 * The audio engine as the core sees it: the Tone objects whose fields the
 * hooks write, and the shared audio context. Signal processing is not modelled;
 * each object is the handful of numbers and states the core reads or writes.
 */
module Engine {

  /** `Player.state`: a looping player is either running or stopped. */
  datatype PlayerRunState = Started | Stopped

  /** `AudioContext.state` */
  datatype ContextState = Running | Suspended

  /** `Tone.Player`: the source stage. */
  class Player {
    var playbackRate: real
    var state: PlayerRunState
  }

  /** `Tone.PitchShift`: `pitch` in semitones. */
  class PitchShift {
    var pitch: real
  }

  /** `Tone.Reverb`: `wet.value`, the wet/dry mix. */
  class Reverb {
    var wet: real
  }

  /** `Tone.EQ3`: `low.value`, `mid.value`, `high.value`, in dB. */
  class EQ3 {
    var low: real
    var mid: real
    var high: real
  }

  /** `Tone.Volume`: `volume.value`, in dB. */
  class Volume {
    var volume: real
  }

  /** The shared (raw) audio context of the engine. */
  class AudioContext {
    var state: ContextState
  }

  /** The nodes handed to the hooks; any of them may be missing (`null`). */
  datatype AudioNodes = AudioNodes(
    player: Player?,
    volume: Volume?,
    pitchShift: PitchShift?,
    eq3: EQ3?,
    reverb: Reverb?)

  /** The kinds of stage, in the fixed order the signal flows through them. */
  datatype StageKind = SourceStage | VolumeStage | PitchStage | EQStage | ReverbStage

  /** Player -> Volume -> PitchShift -> EQ3 -> Reverb -> speakers. */
  const ChainOrder: seq<StageKind> := [SourceStage, VolumeStage, PitchStage, EQStage, ReverbStage]

  /** The objects of the stages that are present. */
  function Stages(n: AudioNodes): set<object> {
    var a: set<object> := if n.player != null then {n.player} else {};
    var b: set<object> := if n.volume != null then {n.volume} else {};
    var c: set<object> := if n.pitchShift != null then {n.pitchShift} else {};
    var d: set<object> := if n.eq3 != null then {n.eq3} else {};
    var e: set<object> := if n.reverb != null then {n.reverb} else {};
    a + b + c + d + e
  }
}
