/**
 * The effects hook: the current effect record, kept in range of the sliders,
 * and the operations that change it and push it to the engine.
 */
module UseEffects {
  import opened AudioTypes
  import opened Engine
  import opened EffectsUtils

  class EffectsHook {
    /** The `effects` state. */
    var effects: AudioEffects

    /** Every field lies within its slider's range. */
    ghost predicate Valid()
      reads this
    {
      InRange(effects)
    }

    /** The hook starts from `DEFAULT_EFFECTS`. */
    constructor ()
      ensures Valid() && effects == DefaultEffects
    {
      effects := DefaultEffects;
      DefaultsInRange();
    }

    /** `getEffect(effectName)`: the current value, always within that slider's range. */
    function GetEffect(name: EffectName): (v: real)
      reads this
      ensures v == Get(effects, name)
      ensures Valid() ==> InSliderRange(name, v)
    {
      Get(effects, name)
    }

    /** `updateEffect(effectName, value, nodes)`: store one value and push only it to the engine. */
    method UpdateEffect(name: EffectName, value: real, nodes: AudioNodes, gainToDb: real -> real)
      requires Valid() && InSliderRange(name, value)
      modifies this, Stages(nodes)
      ensures Valid()
      ensures effects == With(old(effects), name, value)
      ensures GetEffect(name) == value
      ensures forall n :: n != name ==> GetEffect(n) == old(GetEffect(n))
      ensures View(nodes) == WriteOne(old(View(nodes)), name, value, gainToDb)
      ensures nodes.player != null ==> nodes.player.state == old(nodes.player.state)
    {
      WithKeepsInRange(effects, name, value);
      effects := With(effects, name, value);
      ApplySingleEffect(name, value, nodes, gainToDb);
    }

    /** `applyAllEffects(nodes)`: push the whole current record; the record itself is untouched. */
    method ApplyAllEffects(nodes: AudioNodes, gainToDb: real -> real)
      modifies Stages(nodes)
      ensures effects == old(effects)
      ensures View(nodes) == WriteAll(old(View(nodes)), effects, gainToDb)
      ensures nodes.player != null ==> nodes.player.state == old(nodes.player.state)
    {
      ApplyEffects(effects, nodes, gainToDb);
    }

    /** `resetEffects(nodes)`: back to the defaults, in the record and (given a player) in the engine. */
    method ResetEffects(nodes: AudioNodes, gainToDb: real -> real)
      modifies this, Stages(nodes)
      ensures Valid() && effects == DefaultEffects
      ensures View(nodes) == WriteAll(old(View(nodes)), DefaultEffects, gainToDb)
      ensures nodes.player != null ==> nodes.player.state == old(nodes.player.state)
    {
      ghost var before := View(nodes);
      effects := DefaultEffects;
      assert View(nodes) == before;
      DefaultsInRange();
      ApplyEffects(DefaultEffects, nodes, gainToDb);
    }
  }

  /** Resetting twice leaves the record and the engine as resetting once does. */
  lemma ResetIdempotent(view: Slots, gainToDb: real -> real)
    ensures WriteAll(WriteAll(view, DefaultEffects, gainToDb), DefaultEffects, gainToDb)
         == WriteAll(view, DefaultEffects, gainToDb)
  {
    WriteAllIdempotent(view, DefaultEffects, gainToDb);
  }
}
