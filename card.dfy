/**
 * The card kinds the hand and the player work with. Only the parts the core
 * reads are kept: the shared basic information (with the action-point cost),
 * and for an effect card its effect.
 */
module Cards {
  import opened Numeric
  import Effects

  /** Name, description and action-point cost; the display colour is not modelled. */
  datatype CardBasicInfo = CardBasicInfo(name: string, description: string, cost: U32)

  datatype CreatureCard = CreatureCard(basicInfo: CardBasicInfo)

  datatype EffectCard = EffectCard(basicInfo: CardBasicInfo, effect: Effects.Effect)

  /** The closed two-variant card union. */
  datatype Card = Creature(creature: CreatureCard) | Effect(effectCard: EffectCard) {

    function Info(): CardBasicInfo {
      match this
      case Creature(c) => c.basicInfo
      case Effect(e) => e.basicInfo
    }

    function Cost(): U32 {
      Info().cost
    }
  }
}
