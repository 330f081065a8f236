/**
  The rule-based risk scorer of the health coach's analysis endpoint.

  Each of the four vitals is compared against fixed thresholds and adds points
  to a score; the score is then placed in one of three risk tiers, and each
  tier carries a fixed label and a fixed recommendation text. The vitals are
  taken as exact reals: the scorer only compares them against constants.
*/
module RiskScorer {

  /** The four measurements an analysis request submits. */
  datatype Vitals = Vitals(bmi: real, heartRate: real, sleep: real, bp: real)

  /** The three risk tiers, from least to most severe. */
  datatype Tier = Low | Moderate | High

  const LowLabel: string := "Low Risk"
  const ModerateLabel: string := "Moderate Risk"
  const HighLabel: string := "High Risk"

  const LowAdvice: string :=
    "Maintain healthy lifestyle. Continue balanced diet and regular exercise."
  const ModerateAdvice: string :=
    "Improve diet, increase physical activity, and monitor vitals regularly."
  const HighAdvice: string :=
    "Consult a doctor immediately and monitor health indicators daily."

  // ---------------------------------------------------------------------
  // Specification: the score as a sum of per-metric contributions
  // ---------------------------------------------------------------------

  /** Points from the body-mass index: 2 above 30, 1 above 25, otherwise none. */
  function BmiPoints(bmi: real): nat {
    if bmi > 30.0 then 2 else if bmi > 25.0 then 1 else 0
  }

  /** Points from the heart rate: 2 above 100, otherwise none. */
  function HeartRatePoints(heartRate: real): nat {
    if heartRate > 100.0 then 2 else 0
  }

  /** Points from the hours of sleep: 2 below 6, otherwise none. */
  function SleepPoints(sleep: real): nat {
    if sleep < 6.0 then 2 else 0
  }

  /** Points from the systolic blood pressure: 2 above 140, otherwise none. */
  function BpPoints(bp: real): nat {
    if bp > 140.0 then 2 else 0
  }

  /** The risk score: each metric contributes exactly once, independently of the others. */
  function Score(v: Vitals): (s: nat)
    ensures s <= 8
    ensures s % 2 == 1 <==> 25.0 < v.bmi <= 30.0
  {
    BmiPoints(v.bmi) + HeartRatePoints(v.heartRate) + SleepPoints(v.sleep) + BpPoints(v.bp)
  }

  /** The tier of a score; the bands are tried in order and the first match wins. */
  function Classify(score: int): Tier {
    if score <= 2 then Low else if score <= 5 then Moderate else High
  }

  /** The stored and returned risk level of a tier. */
  function Label(t: Tier): string {
    match t
    case Low => LowLabel
    case Moderate => ModerateLabel
    case High => HighLabel
  }

  /** The recommendation text of a tier. */
  function Advice(t: Tier): string {
    match t
    case Low => LowAdvice
    case Moderate => ModerateAdvice
    case High => HighAdvice
  }

  /** Severity order on tiers. */
  function Rank(t: Tier): nat {
    match t
    case Low => 0
    case Moderate => 1
    case High => 2
  }

  // ---------------------------------------------------------------------
  // The scorer as the handler runs it: a score built up step by step,
  // then an if/elif chain choosing level and recommendation
  // ---------------------------------------------------------------------

  method Evaluate(v: Vitals) returns (score: int, level: string, recommendation: string)
    ensures score == Score(v)
    ensures level == Label(Classify(score))
    ensures recommendation == Advice(Classify(score))
  {
    score := 0;

    if v.bmi > 30.0 {
      score := score + 2;
    } else if v.bmi > 25.0 {
      score := score + 1;
    }

    if v.heartRate > 100.0 {
      score := score + 2;
    }

    if v.sleep < 6.0 {
      score := score + 2;
    }

    if v.bp > 140.0 {
      score := score + 2;
    }

    if score <= 2 {
      level := LowLabel;
      recommendation := LowAdvice;
    } else if score <= 5 {
      level := ModerateLabel;
      recommendation := ModerateAdvice;
    } else {
      level := HighLabel;
      recommendation := HighAdvice;
    }
  }

  // ---------------------------------------------------------------------
  // Properties of the scorer
  // ---------------------------------------------------------------------

  /** The bmi contribution is 2, 1 or 0, and which one is decided by the two thresholds alone. */
  lemma BmiContribution(bmi: real)
    ensures BmiPoints(bmi) == 2 <==> bmi > 30.0
    ensures BmiPoints(bmi) == 1 <==> 25.0 < bmi <= 30.0
    ensures BmiPoints(bmi) == 0 <==> bmi <= 25.0
  {
  }

  /** How many of the four two-point thresholds the vitals cross. */
  function SevereFactors(v: Vitals): nat {
    (if v.bmi > 30.0 then 1 else 0) + (if v.heartRate > 100.0 then 1 else 0)
    + (if v.sleep < 6.0 then 1 else 0) + (if v.bp > 140.0 then 1 else 0)
  }

  /** Whether the bmi lies in the one-point band. */
  predicate Overweight(v: Vitals) {
    25.0 < v.bmi <= 30.0
  }

  /**
    The tier in terms of risk factors: High exactly when at least three of the
    four two-point thresholds are crossed, so the one-point bmi band never
    tips the balance into High; Low exactly when none is crossed, or one is
    and the bmi is not in the one-point band.
  */
  lemma {:induction false} TierByRiskFactors(v: Vitals)
    ensures Score(v) == 2 * SevereFactors(v) + (if Overweight(v) then 1 else 0)
    ensures Classify(Score(v)) == High <==> SevereFactors(v) >= 3
    ensures Classify(Score(v)) == Low <==>
      SevereFactors(v) == 0 || (SevereFactors(v) == 1 && !Overweight(v))
  {
    assert Score(v) == 2 * SevereFactors(v) + (if Overweight(v) then 1 else 0);
    TierBands(Score(v));
  }

  /** The tiers partition the integers into three bands: at most 2, 3 to 5, and 6 or more. */
  lemma TierBands(score: int)
    ensures Classify(score) == Low <==> score <= 2
    ensures Classify(score) == Moderate <==> 3 <= score <= 5
    ensures Classify(score) == High <==> 6 <= score
  {
  }

  /** Over the scores the scorer can produce, each band is non-empty. */
  lemma EveryTierReachable()
    ensures Classify(Score(Vitals(22.0, 70.0, 8.0, 110.0))) == Low
    ensures Classify(Score(Vitals(32.0, 110.0, 7.0, 120.0))) == Moderate
    ensures Classify(Score(Vitals(32.0, 110.0, 5.0, 150.0))) == High
  {
  }

  /** The tier never decreases as the score grows. */
  lemma ClassifyMonotone(s: int, t: int)
    requires s <= t
    ensures Rank(Classify(s)) <= Rank(Classify(t))
  {
  }

  /** Worse vitals never give a lower score, nor a less severe tier. */
  lemma ScoreMonotone(v: Vitals, w: Vitals)
    requires v.bmi <= w.bmi && v.heartRate <= w.heartRate
    requires w.sleep <= v.sleep && v.bp <= w.bp
    ensures Score(v) <= Score(w)
    ensures Rank(Classify(Score(v))) <= Rank(Classify(Score(w)))
  {
    ClassifyMonotone(Score(v), Score(w));
  }

  /** Labels and recommendations are distinct per tier, so either one identifies the tier. */
  lemma TextsIdentifyTier(t: Tier, u: Tier)
    ensures Label(t) == Label(u) ==> t == u
    ensures Advice(t) == Advice(u) ==> t == u
  {
    if t != u {
      assert |LowLabel| == 8 && |ModerateLabel| == 13 && |HighLabel| == 9;
      assert |LowAdvice| == 72 && |ModerateAdvice| == 71 && |HighAdvice| == 65;
    }
  }

  /** The worked examples: every threshold crossed, none crossed, only the lower bmi threshold. */
  lemma ScoreExamples()
    ensures Score(Vitals(32.0, 110.0, 5.0, 150.0)) == 8
    ensures Label(Classify(8)) == "High Risk"
    ensures Score(Vitals(22.0, 70.0, 8.0, 110.0)) == 0
    ensures Score(Vitals(27.0, 95.0, 7.0, 120.0)) == 1
    ensures Label(Classify(0)) == "Low Risk" && Label(Classify(1)) == "Low Risk"
  {
  }

  /** Boundary values are not risky: the comparisons are strict. */
  lemma ThresholdsAreStrict()
    ensures Score(Vitals(25.0, 100.0, 6.0, 140.0)) == 0
    ensures Score(Vitals(30.0, 100.0, 6.0, 140.0)) == 1
  {
  }
}
