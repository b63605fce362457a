/**
 * Writing effect parameters into the engine stages: one parameter
 * (`applySingleEffect`) or all seven (`applyEffects`).
 *
 * The engine's parameters are seen through View: one slot per effect name
 * whose stage is present. Tone's `gainToDb` is a parameter of the operations,
 * left uninterpreted.
 */
module EffectsUtils {
  import opened AudioTypes
  import opened Engine
  import opened Wrappers

  /** The value that lands in the engine for `name`: only volume is converted (linear gain to dB). */
  function EngineValue(name: EffectName, v: real, gainToDb: real -> real): real {
    if name == Volume then gainToDb(v) else v
  }

  /**
   * The engine's parameter slots, one per effect name: the value the engine
   * holds for it, or None when the stage that carries it is missing.
   */
  datatype Slots = Slots(
    rate: Option<real>,  // player.playbackRate
    pitch: Option<real>, // pitchShift.pitch
    wet: Option<real>,   // reverb.wet.value
    low: Option<real>,   // eq3.low.value
    mid: Option<real>,   // eq3.mid.value
    high: Option<real>,  // eq3.high.value
    gain: Option<real>)  // volume.volume.value

  /** The slot that carries `name`. */
  function Slot(s: Slots, name: EffectName): Option<real> {
    match name
    case Speed => s.rate
    case Pitch => s.pitch
    case Reverb => s.wet
    case LowEQ => s.low
    case MidEQ => s.mid
    case HighEQ => s.high
    case Volume => s.gain
  }

  /** Two views that agree on every slot are equal. */
  lemma SlotsExtensional(a: Slots, b: Slots)
    requires forall n :: Slot(a, n) == Slot(b, n)
    ensures a == b
  {
    assert Slot(a, Speed) == Slot(b, Speed) && Slot(a, Pitch) == Slot(b, Pitch);
    assert Slot(a, Reverb) == Slot(b, Reverb) && Slot(a, Volume) == Slot(b, Volume);
    assert Slot(a, LowEQ) == Slot(b, LowEQ) && Slot(a, MidEQ) == Slot(b, MidEQ);
    assert Slot(a, HighEQ) == Slot(b, HighEQ);
  }

  /** The slots of the nodes as they are now. */
  function View(n: AudioNodes): Slots
    reads Stages(n)
  {
    Slots(
      if n.player != null then Some(n.player.playbackRate) else None,
      if n.pitchShift != null then Some(n.pitchShift.pitch) else None,
      if n.reverb != null then Some(n.reverb.wet) else None,
      if n.eq3 != null then Some(n.eq3.low) else None,
      if n.eq3 != null then Some(n.eq3.mid) else None,
      if n.eq3 != null then Some(n.eq3.high) else None,
      if n.volume != null then Some(n.volume.volume) else None)
  }

  /**
   * What `applySingleEffect(name, v)` does to the slots: the slot of `name`, when
   * its stage is present, receives the engine value of v; every other slot keeps
   * its value and no stage appears or disappears.
   */
  function WriteOne(s: Slots, name: EffectName, v: real, gainToDb: real -> real): (r: Slots)
    ensures Slot(r, name) == if Slot(s, name).Some? then Some(EngineValue(name, v, gainToDb)) else None
    ensures forall k :: k != name ==> Slot(r, k) == Slot(s, k)
  {
    var x := Some(EngineValue(name, v, gainToDb));
    match name
    case Speed => if s.rate.Some? then s.(rate := x) else s
    case Pitch => if s.pitch.Some? then s.(pitch := x) else s
    case Reverb => if s.wet.Some? then s.(wet := x) else s
    case LowEQ => if s.low.Some? then s.(low := x) else s
    case MidEQ => if s.mid.Some? then s.(mid := x) else s
    case HighEQ => if s.high.Some? then s.(high := x) else s
    case Volume => if s.gain.Some? then s.(gain := x) else s
  }

  /**
   * What `applyEffects(e)` does to the slots: nothing without a player; with one,
   * every present slot receives the engine value of its field of e.
   */
  function WriteAll(s: Slots, e: AudioEffects, gainToDb: real -> real): (r: Slots)
    ensures s.rate.None? ==> r == s
    ensures s.rate.Some? ==> forall k :: (Slot(r, k) ==
      if Slot(s, k).Some? then Some(EngineValue(k, Get(e, k), gainToDb)) else None)
  {
    if s.rate.None? then s
    else
      var rate := WriteOne(s, Speed, e.speed, gainToDb);
      var pitch := WriteOne(rate, Pitch, e.pitch, gainToDb);
      var wet := WriteOne(pitch, Reverb, e.reverb, gainToDb);
      var eq := WriteOne(WriteOne(WriteOne(wet, LowEQ, e.lowEQ, gainToDb), MidEQ, e.midEQ, gainToDb), HighEQ, e.highEQ, gainToDb);
      WriteOne(eq, Volume, e.volume, gainToDb)
  }

  /** `applyEffects(effects, nodes)` */
  method ApplyEffects(effects: AudioEffects, nodes: AudioNodes, gainToDb: real -> real)
    modifies Stages(nodes)
    ensures View(nodes) == WriteAll(old(View(nodes)), effects, gainToDb)
    ensures nodes.player != null ==> nodes.player.state == old(nodes.player.state)
  {
    if nodes.player == null {
      return;
    }
    nodes.player.playbackRate := effects.speed;
    if nodes.pitchShift != null {
      nodes.pitchShift.pitch := effects.pitch;
    }
    if nodes.reverb != null {
      nodes.reverb.wet := effects.reverb;
    }
    if nodes.eq3 != null {
      nodes.eq3.low := effects.lowEQ;
      nodes.eq3.mid := effects.midEQ;
      nodes.eq3.high := effects.highEQ;
    }
    if nodes.volume != null {
      nodes.volume.volume := gainToDb(effects.volume);
    }
  }

  /** `applySingleEffect(effectName, value, nodes)` */
  method ApplySingleEffect(name: EffectName, value: real, nodes: AudioNodes, gainToDb: real -> real)
    modifies Stages(nodes)
    ensures View(nodes) == WriteOne(old(View(nodes)), name, value, gainToDb)
    ensures nodes.player != null ==> nodes.player.state == old(nodes.player.state)
  {
    match name
    case Speed =>
      if nodes.player != null {
        nodes.player.playbackRate := value;
      }
    case Pitch =>
      if nodes.pitchShift != null {
        nodes.pitchShift.pitch := value;
      }
    case Reverb =>
      if nodes.reverb != null {
        nodes.reverb.wet := value;
      }
    case LowEQ =>
      if nodes.eq3 != null {
        nodes.eq3.low := value;
      }
    case MidEQ =>
      if nodes.eq3 != null {
        nodes.eq3.mid := value;
      }
    case HighEQ =>
      if nodes.eq3 != null {
        nodes.eq3.high := value;
      }
    case Volume =>
      if nodes.volume != null {
        nodes.volume.volume := gainToDb(value);
      }
  }

  /** Applying the single-effect rule for each name of `names`, in that order. */
  function WriteEach(s: Slots, e: AudioEffects, names: seq<EffectName>, gainToDb: real -> real): Slots
    decreases |names|
  {
    if names == [] then s
    else WriteEach(WriteOne(s, names[0], Get(e, names[0]), gainToDb), e, names[1..], gainToDb)
  }

  /** After the single-effect rule for each of `names`, a present slot holds e's value iff its name was among them. */
  lemma {:induction false} WriteEachAt(s: Slots, e: AudioEffects, names: seq<EffectName>, gainToDb: real -> real)
    ensures forall k :: (Slot(WriteEach(s, e, names, gainToDb), k) ==
      if k in names && Slot(s, k).Some? then Some(EngineValue(k, Get(e, k), gainToDb)) else Slot(s, k))
    decreases |names|
  {
    if names != [] {
      var next := WriteOne(s, names[0], Get(e, names[0]), gainToDb);
      WriteEachAt(next, e, names[1..], gainToDb);
      forall k
        ensures Slot(WriteEach(s, e, names, gainToDb), k) ==
          if k in names && Slot(s, k).Some? then Some(EngineValue(k, Get(e, k), gainToDb)) else Slot(s, k)
      {
        assert k in names <==> k == names[0] || k in names[1..];
      }
    }
  }

  /**
   * With a player present, writing all parameters equals applying the
   * single-effect rule to all seven names, in any order (repeats allowed).
   */
  lemma WriteAllIsEveryWriteOne(s: Slots, e: AudioEffects, names: seq<EffectName>, gainToDb: real -> real)
    requires s.rate.Some?
    requires forall n :: n in names
    ensures WriteEach(s, e, names, gainToDb) == WriteAll(s, e, gainToDb)
  {
    WriteEachAt(s, e, names, gainToDb);
    SlotsExtensional(WriteEach(s, e, names, gainToDb), WriteAll(s, e, gainToDb));
  }

  /** Without a player, writing all parameters changes nothing, while the single-effect rule still writes every present stage but the rate. */
  lemma OnlyAllNeedsPlayer(s: Slots, e: AudioEffects, name: EffectName, v: real, gainToDb: real -> real)
    requires s.rate.None? && Slot(s, name).Some?
    ensures WriteAll(s, e, gainToDb) == s
    ensures Slot(WriteOne(s, name, v, gainToDb), name) == Some(EngineValue(name, v, gainToDb))
    ensures name != Speed
  {
  }

  /** Writing all parameters twice is the same as writing them once. */
  lemma WriteAllIdempotent(s: Slots, e: AudioEffects, gainToDb: real -> real)
    ensures WriteAll(WriteAll(s, e, gainToDb), e, gainToDb) == WriteAll(s, e, gainToDb)
  {
    var once := WriteAll(s, e, gainToDb);
    if s.rate.Some? {
      assert Slot(once, Speed).Some?;
      SlotsExtensional(WriteAll(once, e, gainToDb), once);
    }
  }

  /** Writing one parameter twice leaves the last value. */
  lemma WriteOneOverwrites(s: Slots, name: EffectName, a: real, b: real, gainToDb: real -> real)
    ensures WriteOne(WriteOne(s, name, a, gainToDb), name, b, gainToDb) == WriteOne(s, name, b, gainToDb)
  {
    SlotsExtensional(WriteOne(WriteOne(s, name, a, gainToDb), name, b, gainToDb), WriteOne(s, name, b, gainToDb));
  }

  /**
   * The default record written to a chain with a player reads back as the
   * defaults: rate 1, the volume stage gainToDb(0.7), every other present slot 0.
   */
  lemma DefaultsReadBack(s: Slots, gainToDb: real -> real)
    requires s.rate.Some?
    ensures var r := WriteAll(s, DefaultEffects, gainToDb);
      r.rate == Some(1.0) &&
      (s.gain.Some? ==> r.gain == Some(gainToDb(0.7))) &&
      (forall k :: k != Speed && k != Volume && Slot(s, k).Some? ==> Slot(r, k) == Some(0.0))
  {
    var r := WriteAll(s, DefaultEffects, gainToDb);
    assert Slot(r, Speed) == Some(1.0);
    assert Slot(r, Volume) == if s.gain.Some? then Some(gainToDb(0.7)) else None;
  }
}
