/**
 * The effect-parameter record of the player (`AudioEffects`), its keys,
 * its default value and the ranges its sliders allow.
 */
module AudioTypes {

  /** The seven effect parameters; every field is a plain number. */
  datatype AudioEffects = AudioEffects(
    speed: real,   // playback-rate multiplier
    pitch: real,   // semitones
    reverb: real,  // wet mix, 0..1
    lowEQ: real,   // dB
    midEQ: real,   // dB
    highEQ: real,  // dB
    volume: real)  // linear gain, 0..1

  /** The keys of the record (`keyof AudioEffects`). */
  datatype EffectName = Speed | Pitch | Reverb | LowEQ | MidEQ | HighEQ | Volume

  const AllNames: seq<EffectName> := [Speed, Pitch, Reverb, LowEQ, MidEQ, HighEQ, Volume]

  /** `DEFAULT_EFFECTS` */
  const DefaultEffects: AudioEffects := AudioEffects(1.0, 0.0, 0.0, 0.0, 0.0, 0.0, 0.7)

  /** `effects[name]` */
  function Get(e: AudioEffects, name: EffectName): real {
    match name
    case Speed => e.speed
    case Pitch => e.pitch
    case Reverb => e.reverb
    case LowEQ => e.lowEQ
    case MidEQ => e.midEQ
    case HighEQ => e.highEQ
    case Volume => e.volume
  }

  /** `{ ...e, [name]: v }`: the record with one field replaced. */
  function With(e: AudioEffects, name: EffectName, v: real): (r: AudioEffects)
    ensures Get(r, name) == v
    ensures forall n :: n != name ==> Get(r, n) == Get(e, n)
  {
    match name
    case Speed => e.(speed := v)
    case Pitch => e.(pitch := v)
    case Reverb => e.(reverb := v)
    case LowEQ => e.(lowEQ := v)
    case MidEQ => e.(midEQ := v)
    case HighEQ => e.(highEQ := v)
    case Volume => e.(volume := v)
  }

  /** Lower bound of the slider that edits `name`. */
  function SliderMin(name: EffectName): real {
    match name
    case Speed => 0.25
    case Pitch => -12.0
    case Reverb => 0.0
    case LowEQ | MidEQ | HighEQ => -20.0
    case Volume => 0.0
  }

  /** Upper bound of the slider that edits `name`. */
  function SliderMax(name: EffectName): real {
    match name
    case Speed => 2.0
    case Pitch => 12.0
    case Reverb => 1.0
    case LowEQ | MidEQ | HighEQ => 20.0
    case Volume => 1.0
  }

  predicate InSliderRange(name: EffectName, v: real) {
    SliderMin(name) <= v <= SliderMax(name)
  }

  /** Every field lies within the range of its slider. */
  predicate InRange(e: AudioEffects) {
    forall n :: InSliderRange(n, Get(e, n))
  }

  /** The seven keys name the seven fields: two records that agree on every key are equal. */
  lemma EffectsExtensional(a: AudioEffects, b: AudioEffects)
    requires forall n :: Get(a, n) == Get(b, n)
    ensures a == b
  {
    assert Get(a, Speed) == Get(b, Speed) && Get(a, Pitch) == Get(b, Pitch);
    assert Get(a, Reverb) == Get(b, Reverb) && Get(a, Volume) == Get(b, Volume);
    assert Get(a, LowEQ) == Get(b, LowEQ) && Get(a, MidEQ) == Get(b, MidEQ);
    assert Get(a, HighEQ) == Get(b, HighEQ);
  }

  /** `AllNames` lists every key exactly once. */
  lemma AllNamesComplete()
    ensures |AllNames| == 7
    ensures forall n :: n in AllNames
    ensures forall i, j :: 0 <= i < j < |AllNames| ==> AllNames[i] != AllNames[j]
  {
    forall n ensures n in AllNames {
      match n
      case Speed => assert AllNames[0] == n;
      case Pitch => assert AllNames[1] == n;
      case Reverb => assert AllNames[2] == n;
      case LowEQ => assert AllNames[3] == n;
      case MidEQ => assert AllNames[4] == n;
      case HighEQ => assert AllNames[5] == n;
      case Volume => assert AllNames[6] == n;
    }
  }

  /** The defaults: speed 1, volume 0.7, everything else 0; each inside its slider range. */
  lemma DefaultsInRange()
    ensures Get(DefaultEffects, Speed) == 1.0 && Get(DefaultEffects, Volume) == 0.7
    ensures forall n :: n != Speed && n != Volume ==> Get(DefaultEffects, n) == 0.0
    ensures InRange(DefaultEffects)
  {
  }

  /** Writing a value inside its slider range keeps the whole record in range. */
  lemma WithKeepsInRange(e: AudioEffects, name: EffectName, v: real)
    requires InRange(e) && InSliderRange(name, v)
    ensures InRange(With(e, name, v))
  {
  }

  /** Updating one field twice is the same as updating it once with the last value. */
  lemma WithOverwrites(e: AudioEffects, name: EffectName, a: real, b: real)
    ensures With(With(e, name, a), name, b) == With(e, name, b)
  {
    EffectsExtensional(With(With(e, name, a), name, b), With(e, name, b));
  }

  /** Updates of two different fields commute. */
  lemma WithCommutes(e: AudioEffects, m: EffectName, a: real, n: EffectName, b: real)
    requires m != n
    ensures With(With(e, m, a), n, b) == With(With(e, n, b), m, a)
  {
    EffectsExtensional(With(With(e, m, a), n, b), With(With(e, n, b), m, a));
  }

  /** Writing back the value a field already holds changes nothing. */
  lemma WithSameValue(e: AudioEffects, name: EffectName)
    ensures With(e, name, Get(e, name)) == e
  {
    EffectsExtensional(With(e, name, Get(e, name)), e);
  }
}
