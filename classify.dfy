/**
 * The health classifier of the dashboard: the blood-pressure and BMI status
 * of the health summary and the risk tiers of the risk assessment. Each is a
 * fixed sequence of threshold checks in which a later check overrides an
 * earlier one; the contracts state the resulting partition of the inputs.
 */
module Classify {

  datatype BpStatus = Normal | Elevated | High

  datatype BmiStatus = Normal | Overweight | Obese

  datatype Risk = Low | Medium | High

  /** Risk tiers per disease category, as the risk assessment panel lists them. */
  datatype RiskProfile = RiskProfile(cardiovascular: Risk, diabetes: Risk, stroke: Risk)

  /**
   * Normal by default; Elevated when systolic > 130 or diastolic > 80; that
   * overridden by High when systolic > 140 or diastolic > 90.
   */
  function BloodPressureStatus(systolic: int, diastolic: int): (status: BpStatus)
    ensures status == BpStatus.Normal <==> systolic <= 130 && diastolic <= 80
    ensures status == BpStatus.High <==> systolic > 140 || diastolic > 90
    ensures status == BpStatus.Elevated <==>
              (systolic > 130 || diastolic > 80) && systolic <= 140 && diastolic <= 90
  {
    var initial := BpStatus.Normal;
    var checked := if systolic > 130 || diastolic > 80 then BpStatus.Elevated else initial;
    if systolic > 140 || diastolic > 90 then BpStatus.High else checked
  }

  /** Normal by default; Overweight above 25; that overridden by Obese above 30. */
  function BmiStatusOf(bmi: real): (status: BmiStatus)
    ensures status == BmiStatus.Normal <==> bmi <= 25.0
    ensures status == BmiStatus.Overweight <==> 25.0 < bmi <= 30.0
    ensures status == BmiStatus.Obese <==> bmi > 30.0
  {
    var initial := BmiStatus.Normal;
    var checked := if bmi > 25.0 then BmiStatus.Overweight else initial;
    if bmi > 30.0 then BmiStatus.Obese else checked
  }

  /**
   * Low by default; Medium when systolic > 130 or total cholesterol > 200;
   * that overridden by High when systolic > 140 and cholesterol > 240.
   */
  function CardiovascularRisk(systolic: int, cholesterol: int): (risk: Risk)
    ensures risk == Risk.High <==> systolic > 140 && cholesterol > 240
    ensures risk == Risk.Medium <==>
              (systolic > 130 || cholesterol > 200) && !(systolic > 140 && cholesterol > 240)
    ensures risk == Risk.Low <==> systolic <= 130 && cholesterol <= 200
  {
    var initial := Risk.Low;
    var checked := if systolic > 130 || cholesterol > 200 then Risk.Medium else initial;
    if systolic > 140 && cholesterol > 240 then Risk.High else checked
  }

  /** The stroke tier repeats the cardiovascular one; the diabetes tier is always Low. */
  function AssessRisk(systolic: int, cholesterol: int): (profile: RiskProfile)
    ensures profile.stroke == profile.cardiovascular
    ensures profile.diabetes == Risk.Low
    ensures profile.cardiovascular == Risk.Low <==> systolic <= 130 && cholesterol <= 200
    ensures profile.cardiovascular == Risk.High <==> systolic > 140 && cholesterol > 240
  {
    var cvd := CardiovascularRisk(systolic, cholesterol);
    RiskProfile(cvd, Risk.Low, cvd)
  }

  function BpRank(s: BpStatus): nat
  {
    match s
    case Normal => 0
    case Elevated => 1
    case High => 2
  }

  function RiskRank(r: Risk): nat
  {
    match r
    case Low => 0
    case Medium => 1
    case High => 2
  }

  /** Higher readings never give a milder blood-pressure status. */
  lemma BloodPressureStatusMonotone(s1: int, d1: int, s2: int, d2: int)
    requires s1 <= s2 && d1 <= d2
    ensures BpRank(BloodPressureStatus(s1, d1)) <= BpRank(BloodPressureStatus(s2, d2))
  {
  }

  /** Higher readings never give a lower cardiovascular risk tier. */
  lemma CardiovascularRiskMonotone(s1: int, c1: int, s2: int, c2: int)
    requires s1 <= s2 && c1 <= c2
    ensures RiskRank(CardiovascularRisk(s1, c1)) <= RiskRank(CardiovascularRisk(s2, c2))
  {
  }

  /** The thresholds are strict: 140/90 is still Elevated and cholesterol 200 alone is still Low. */
  lemma ClassificationBoundaries()
    ensures BloodPressureStatus(140, 90) == BpStatus.Elevated
    ensures BloodPressureStatus(141, 70) == BpStatus.High
    ensures BloodPressureStatus(130, 80) == BpStatus.Normal
    ensures BmiStatusOf(25.0) == BmiStatus.Normal && BmiStatusOf(30.0) == BmiStatus.Overweight
    ensures CardiovascularRisk(120, 200) == Risk.Low
    ensures CardiovascularRisk(131, 201) == Risk.Medium
    ensures CardiovascularRisk(141, 240) == Risk.Medium
  {
  }
}
