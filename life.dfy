/**
 * The `HasLife` capability of src/game/life.rs: any entity with a current and
 * a maximum life, healed with a clamp at the maximum and damaged without one.
 */
module Life {
  import opened Numeric

  /** The life `heal(delta)` stores: `min(max, current + delta)`. */
  function Healed(current: U32, max: U32, delta: U32): (r: U32)
    requires current + delta <= U32Max
    ensures r <= max && r <= current + delta
    ensures r == max || r == current + delta
  {
    Min(max, current + delta)
  }

  /** The life `damage(delta)` stores: `current - delta`, with no clamp at zero. */
  function Damaged(current: U32, delta: U32): (r: U32)
    requires delta <= current
    ensures r + delta == current
  {
    current - delta
  }

  /**
   * An implementer of `HasLife`. The two fields are what `get_life_current`
   * and `get_life_max` return; `set_life` stores into `life`.
   */
  class LifeHolder {
    var life: U32
    var lifeMax: U32

    constructor (life: U32, lifeMax: U32)
      ensures this.life == life && this.lifeMax == lifeMax
    {
      this.life := life;
      this.lifeMax := lifeMax;
    }

    function GetLifeCurrent(): U32
      reads this
    {
      life
    }

    function GetLifeMax(): U32
      reads this
    {
      lifeMax
    }

    method SetLife(value: U32)
      modifies this
      ensures life == value && lifeMax == old(lifeMax)
    {
      life := value;
    }

    /** `heal`: one `set_life` with the clamped sum; the addition must not overflow `u32`. */
    method Heal(delta: U32)
      requires life + delta <= U32Max
      modifies this
      ensures life == Healed(old(life), lifeMax, delta) && lifeMax == old(lifeMax)
      ensures old(life) <= lifeMax ==> old(life) <= life <= lifeMax
    {
      var newLife := Min(GetLifeMax(), GetLifeCurrent() + delta);
      SetLife(newLife);
    }

    /** `damage`: one `set_life` with the difference; the subtraction must not underflow `u32`. */
    method Damage(delta: U32)
      requires delta <= life
      modifies this
      ensures life == Damaged(old(life), delta) && lifeMax == old(lifeMax)
      ensures life <= old(life)
    {
      SetLife(GetLifeCurrent() - delta);
    }
  }

  /** Healing never exceeds the maximum, and never lowers a life that is within it. */
  lemma HealStaysInRange(current: U32, max: U32, delta: U32)
    requires current + delta <= U32Max
    requires current <= max
    ensures current <= Healed(current, max, delta) <= max
    ensures delta == 0 ==> Healed(current, max, delta) == current
  {
  }

  /** Healing an entity already at its maximum leaves it there. */
  lemma HealAtMaxUnchanged(max: U32, delta: U32)
    requires max + delta <= U32Max
    ensures Healed(max, max, delta) == max
  {
  }

  /** Damage followed by a heal of the same amount restores a life within the maximum. */
  lemma DamageThenHealRestores(current: U32, max: U32, delta: U32)
    requires current <= max && delta <= current
    ensures Healed(Damaged(current, delta), max, delta) == current
  {
  }

  /** Unlike heal, damage has no lower clamp: every amount up to the current life is subtracted in full. */
  lemma DamageIsExact(current: U32, delta: U32)
    requires delta <= current
    ensures Damaged(current, delta) == 0 <==> delta == current
  {
  }
}
