/** Findings, the rules that produce them, and the order in which they are ranked. */
module Diagnoses {
  import opened Wrappers
  import opened Differential
  import opened Sorting

  datatype Severity = Critical | High | Medium | Info | Unnamed(text: string)

  function SeverityRank(s: Severity): nat {
    match s
    case Critical => 4
    case High => 3
    case Medium => 2
    case Info => 1
    case Unnamed(_) => 0
  }

  /** CRITICAL, HIGH, MEDIUM, INFO, anything else. */
  predicate MoreSevere(x: Severity, y: Severity) {
    match x
    case Critical => !y.Critical?
    case High => y.Medium? || y.Info? || y.Unnamed?
    case Medium => y.Info? || y.Unnamed?
    case Info => y.Unnamed?
    case Unnamed(_) => false
  }

  lemma SeverityOrder(x: Severity, y: Severity)
    ensures SeverityRank(x) > SeverityRank(y) <==> MoreSevere(x, y)
  {}

  datatype Diagnosis = Diagnosis(
    ruleID: string, tier: int, severity: Severity, confidence: real, title: string, culpritPID: int)

  /** A rule is what the engine sees of it; `evaluate` is its threshold test. */
  datatype Rule = Rule(
    id: string, tier: int, pidDependent: bool, suppresses: seq<string>, evaluate: SnapshotDiff -> Option<Diagnosis>)

  /** What every shipped rule does: it signs its findings and keeps its confidence in range. */
  ghost predicate Honest(r: Rule) {
    forall diff :: r.evaluate(diff).Some? ==>
      var d := r.evaluate(diff).value;
      d.ruleID == r.id && d.tier == r.tier && 0.0 <= d.confidence <= 1.0
  }

  /** The comparison handed to the library sort. */
  predicate Precedes(x: Diagnosis, y: Diagnosis) {
    if x.tier != y.tier then x.tier < y.tier
    else if SeverityRank(x.severity) != SeverityRank(y.severity)
      then SeverityRank(x.severity) > SeverityRank(y.severity)
    else x.confidence > y.confidence
  }

  predicate NotAfter(x: Diagnosis, y: Diagnosis) { !Precedes(y, x) }

  lemma RankingIsPreorder()
    ensures Preorder(NotAfter)
  {}

  // ---------------------------------------------------------------- Confidence

  /** A clock jump halves a finding's confidence, a missing privilege takes 40% off a PID-dependent one. */
  function EvaluateRule(rule: Rule, diff: SnapshotDiff, isRoot: bool): Option<Diagnosis> {
    match rule.evaluate(diff)
    case None => None
    case Some(d) =>
      var c1 := if diff.clockJumpDetected then d.confidence * 0.50 else d.confidence;
      var c2 := if !isRoot && rule.pidDependent then c1 * 0.60 else c1;
      Some(d.(confidence := c2))
  }

  /** The penalties take a half, two fifths, or both, of the confidence and change nothing else. */
  lemma PenaltiesOnlyLower(rule: Rule, diff: SnapshotDiff, isRoot: bool)
    requires Honest(rule)
    ensures EvaluateRule(rule, diff, isRoot).Some? <==> rule.evaluate(diff).Some?
    ensures EvaluateRule(rule, diff, isRoot).Some? ==>
      var raw, d := rule.evaluate(diff).value, EvaluateRule(rule, diff, isRoot).value;
      && d == raw.(confidence := d.confidence)
      && 0.0 <= d.confidence <= raw.confidence
      && (diff.clockJumpDetected ==> d.confidence <= 0.5)
      && (!isRoot && rule.pidDependent ==> d.confidence <= 0.6)
      && (var jump, weak := diff.clockJumpDetected, !isRoot && rule.pidDependent;
          && (jump && !weak ==> 2.0 * d.confidence == raw.confidence)
          && (!jump && weak ==> 5.0 * d.confidence == 3.0 * raw.confidence)
          && (jump && weak ==> 10.0 * d.confidence == 3.0 * raw.confidence))
      && (d.confidence == raw.confidence <==>
            (raw.confidence == 0.0 || !(diff.clockJumpDetected || (!isRoot && rule.pidDependent))))
  {}

  datatype Category = Memory | IO | CPU | Other

  function ClampConfidence(c: real): (r: real)
    ensures 0.0 <= r <= 1.0 && (0.0 <= c <= 1.0 <==> r == c)
  {
    if c > 1.0 then 1.0 else if c < 0.0 then 0.0 else c
  }

  function Adjusted(pressure: real, c: real): real {
    if pressure > 20.0 then c * 1.10 else if pressure < 1.0 then c * 0.70 else c
  }

  function PressureOf(psi: PSIInfo, category: Category): Option<real> {
    match category
    case Memory => Some(psi.memory)
    case IO => Some(psi.io)
    case CPU => Some(psi.cpu)
    case Other => None
  }

  /** High pressure on a finding's resource raises its confidence by 10%, none lowers it by 30%. */
  function Calibrate(classify: string -> Category, psi: PSIInfo, d: Diagnosis): Diagnosis {
    var c := match PressureOf(psi, classify(d.ruleID))
             case Some(p) => Adjusted(p, d.confidence)
             case None => d.confidence;
    d.(confidence := ClampConfidence(c))
  }

  /** Which way, and how far, a pressure moves a confidence. */
  ghost predicate MovedBy(pressure: real, before: real, after: real) {
    && (after > before <==> pressure > 20.0 && 0.0 < before < 1.0)
    && (after < before <==> pressure < 1.0 && before > 0.0)
    && 0.0 <= after <= 1.0
    && (pressure > 20.0 ==> after == 1.0 || 10.0 * after == 11.0 * before)
    && (pressure > 20.0 && 11.0 * before <= 10.0 ==> 10.0 * after == 11.0 * before)
    && (pressure < 1.0 ==> 10.0 * after == 7.0 * before)
  }

  /** Only the pressure on the finding's own resource counts, and only the confidence moves. */
  lemma CalibrationMeaning(classify: string -> Category, psi: PSIInfo, d: Diagnosis)
    requires 0.0 <= d.confidence <= 1.0
    ensures var r := Calibrate(classify, psi, d);
      && r == d.(confidence := r.confidence)
      && (classify(d.ruleID) == Memory ==> MovedBy(psi.memory, d.confidence, r.confidence))
      && (classify(d.ruleID) == IO ==> MovedBy(psi.io, d.confidence, r.confidence))
      && (classify(d.ruleID) == CPU ==> MovedBy(psi.cpu, d.confidence, r.confidence))
      && (classify(d.ruleID) == Other ==> r == d)
  {}

  /** More pressure never makes a finding less credible. */
  lemma CalibrationMonotoneInPressure(classify: string -> Category, low: PSIInfo, high: PSIInfo, d: Diagnosis)
    requires d.confidence >= 0.0
    requires low.memory <= high.memory && low.io <= high.io && low.cpu <= high.cpu
    ensures Calibrate(classify, low, d).confidence <= Calibrate(classify, high, d).confidence
  {}

  /** Two findings about the same resource keep their order of confidence. */
  lemma CalibrationKeepsOrder(classify: string -> Category, psi: PSIInfo, d: Diagnosis, e: Diagnosis)
    requires classify(d.ruleID) == classify(e.ruleID) && 0.0 <= d.confidence <= e.confidence
    ensures Calibrate(classify, psi, d).confidence <= Calibrate(classify, psi, e).confidence
  {}

  /** Across resources calibration may overturn the order: that is its purpose. */
  lemma CalibrationMayInvert()
    ensures var classify := (id: string) => if id == "MEM" then Memory else CPU;
            var psi := PSIInfo(true, 0.0, 30.0, 0.0);
            var d := Diagnosis("MEM", 2, High, 0.80, "", 0);
            var e := Diagnosis("CPU", 2, High, 0.85, "", 0);
      Calibrate(classify, psi, d).confidence > Calibrate(classify, psi, e).confidence
  {}
}
