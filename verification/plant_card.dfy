/**
 * The health indicator on a plant card: a score drawn from `Math.random()`
 * (passed in here), its status word and the colour of its bar.
 */
module PlantCard {

  const ExcellentThreshold: int := 85
  const GoodThreshold: int := 70
  const FairThreshold: int := 50
  const NeedsAttentionThreshold: int := 30

  /** The five statuses, best first. */
  datatype HealthStatus = Excellent | Good | Fair | NeedsAttention | Critical {

    /** The word shown on the card. */
    function Text(): string {
      match this
      case Excellent => "Excellent"
      case Good => "Good"
      case Fair => "Fair"
      case NeedsAttention => "Needs Attention"
      case Critical => "Critical"
    }

    /** 4 for the best status down to 0 for the worst. */
    function Rank(): nat {
      match this
      case Excellent => 4
      case Good => 3
      case Fair => 2
      case NeedsAttention => 1
      case Critical => 0
    }
  }

  /** `Math.min(100, Math.max(0, x))`. */
  function Clamp(x: int): (r: int)
    ensures 0 <= r <= 100
    ensures 0 <= x <= 100 ==> r == x
    ensures x < 0 ==> r == 0
    ensures x > 100 ==> r == 100
  {
    if x > 100 then 100 else if x < 0 then 0 else x
  }

  /** `calculateHealthScore`, given the value `Math.random()` returned. */
  function HealthScore(random: real): (score: int)
    requires 0.0 <= random < 1.0
    ensures GoodThreshold <= score <= 99
  {
    var drawn := 70 + (random * 30.0).Floor;
    assert 0.0 <= random * 30.0 < 30.0;
    Clamp(drawn)
  }

  /** `getHealthStatus`: the best status whose threshold the score reaches. */
  function StatusOf(score: int): (s: HealthStatus)
    ensures s == Excellent <==> score >= ExcellentThreshold
    ensures s == Good <==> GoodThreshold <= score < ExcellentThreshold
    ensures s == Fair <==> FairThreshold <= score < GoodThreshold
    ensures s == NeedsAttention <==> NeedsAttentionThreshold <= score < FairThreshold
    ensures s == Critical <==> score < NeedsAttentionThreshold
  {
    if score >= ExcellentThreshold then Excellent
    else if score >= GoodThreshold then Good
    else if score >= FairThreshold then Fair
    else if score >= NeedsAttentionThreshold then NeedsAttention
    else Critical
  }

  /** The bar colours of `getHealthBarClass`. */
  datatype BarColour = Green | Yellow | Red {
    function ClassName(): string {
      match this
      case Green => "bg-green-500"
      case Yellow => "bg-yellow-500"
      case Red => "bg-red-500"
    }
  }

  /** `getHealthBarClass`. */
  function BarOf(score: int): (b: BarColour)
    ensures b == Green <==> score >= GoodThreshold
    ensures b == Red <==> score < FairThreshold
  {
    if score >= GoodThreshold then Green
    else if score >= FairThreshold then Yellow
    else Red
  }

  /** The bands are ordered: each threshold lies strictly below the previous one. */
  lemma ThresholdsDecrease()
    ensures ExcellentThreshold > GoodThreshold > FairThreshold > NeedsAttentionThreshold > 0
  {
  }

  /** A higher score never gives a worse status. */
  lemma StatusMonotone(a: int, b: int)
    requires a <= b
    ensures StatusOf(a).Rank() <= StatusOf(b).Rank()
  {
  }

  /** The bar is green for Excellent and Good, yellow for Fair, red for the two lowest statuses. */
  lemma BarAgreesWithStatus(score: int)
    ensures BarOf(score) == Green <==> StatusOf(score).Rank() >= 3
    ensures BarOf(score) == Yellow <==> StatusOf(score) == Fair
    ensures BarOf(score) == Red <==> StatusOf(score).Rank() <= 1
  {
  }

  /** Every score the card can draw reads Excellent or Good with a green bar. */
  lemma DrawnScoresLookHealthy(random: real)
    requires 0.0 <= random < 1.0
    ensures StatusOf(HealthScore(random)).Rank() >= 3
    ensures BarOf(HealthScore(random)) == Green
  {
  }
}
