/** Effects of src/game/effect.rs and their resolution against a `HasLife` target. */
module Effects {
  import opened Numeric
  import opened Life

  datatype EffectType = Heal | Damage | Move | Summon

  /** How an effect resolution ended: `Move` and `Summon` are unfinished (`todo!()`) in the source. */
  datatype Outcome = Applied | Unsupported

  /**
   * The life a target ends with after an effect: a new value, or `Unchanged`
   * for a kind that does not touch life.
   */
  datatype LifeAfter = Unchanged | Set(life: U32)

  /** `Effect::new(effect_type, nb)` is this constructor: it stores both fields unchanged. */
  datatype Effect = Effect(effectType: EffectType, nb: U32) {

    /** The arithmetic `affect_target` needs: no `u32` overflow on heal, no underflow on damage. */
    predicate Fits(life: U32) {
      match effectType
      case Heal => life + nb <= U32Max
      case Damage => nb <= life
      case _ => true
    }

    /**
     * The new life of a target with `life` out of `max`, as the dispatch picks
     * it: a heal raises the life by `nb` but never past the maximum, a damage
     * lowers it by exactly `nb`, and the other kinds leave it alone.
     */
    function Resolve(life: U32, max: U32): (r: LifeAfter)
      requires Fits(life)
      ensures effectType == Heal ==>
        && r.Set?
        && r.life <= max && r.life <= life + nb
        && (r.life == max || r.life == life + nb)
        && (life <= max ==> life <= r.life)
      ensures effectType == Damage ==> r.Set? && r.life + nb == life
      ensures effectType == Move || effectType == Summon ==> r == Unchanged
    {
      match effectType
      case Heal => Set(Healed(life, max, nb))
      case Damage => Set(Damaged(life, nb))
      case Move => Unchanged
      case Summon => Unchanged
    }

    /**
     * `affect_target`: Heal and Damage call the target's `heal`/`damage` with
     * `nb`; Move and Summon report `Unsupported` and leave the target alone.
     * The effect itself is a value and is not changed.
     */
    method AffectTarget(target: LifeHolder) returns (outcome: Outcome)
      requires Fits(target.life)
      modifies target
      ensures outcome == Unsupported <==> effectType == Move || effectType == Summon
      ensures target.lifeMax == old(target.lifeMax)
      ensures outcome == Applied ==> Resolve(old(target.life), old(target.lifeMax)) == Set(target.life)
      ensures outcome == Unsupported ==> target.life == old(target.life)
    {
      match effectType {
        case Heal =>
          target.Heal(nb);
          outcome := Applied;
        case Damage =>
          target.Damage(nb);
          outcome := Applied;
        case Move =>
          outcome := Unsupported;
        case Summon =>
          outcome := Unsupported;
      }
    }
  }

  /** A heal effect with magnitude `nb` keeps a life within `[current, max]`. */
  lemma HealEffectInRange(e: Effect, life: U32, max: U32)
    requires e.effectType == Heal && e.Fits(life) && life <= max
    ensures e.Resolve(life, max).Set? && life <= e.Resolve(life, max).life <= max
  {
    HealStaysInRange(life, max, e.nb);
  }

  /** A damage effect followed by a heal effect of the same magnitude restores the life. */
  lemma DamageThenHealEffects(n: U32, life: U32, max: U32)
    requires n <= life <= max
    ensures Effect(Heal, n).Fits(Effect(Damage, n).Resolve(life, max).life)
    ensures Effect(Heal, n).Resolve(Effect(Damage, n).Resolve(life, max).life, max) == Set(life)
  {
    DamageThenHealRestores(life, max, n);
  }
}
