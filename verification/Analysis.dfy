/**
  What the correlation engine computes, as functions of its rules, its settings and one
  window, and the laws of the report. The engine itself is in Engine.dfy.
*/
module Analysis {
  import opened Wrappers
  import opened Differential
  import opened Sorting
  import opened Joins
  import opened Diagnoses

  const SKIP_TIER3_THRESHOLD := 0.90

  datatype Settings = Settings(rules: seq<Rule>, disabled: set<string>, disableEarlyExit: bool)

  /** What the engine is asked about: the window, the privilege and the classifier of rule IDs. */
  datatype Query = Query(diff: SnapshotDiff, isRoot: bool, classify: string -> Category)

  datatype Report = Report(
    primary: Option<Diagnosis>, contributing: seq<Diagnosis>, secondary: seq<Diagnosis>,
    tier3Evaluated: bool, calibrated: bool, root: bool)

  function OfTier(rules: seq<Rule>, tier: int): seq<Rule> {
    Filter((r: Rule) => r.tier == tier, rules)
  }

  /** The findings of the rules that are not disabled, in rule order. */
  function Fired(rules: seq<Rule>, disabled: set<string>, q: Query): seq<Diagnosis> {
    if rules == [] then []
    else
      var r := rules[|rules| - 1];
      Fired(rules[..|rules| - 1], disabled, q)
      + (if r.id in disabled then []
         else match EvaluateRule(r, q.diff, q.isRoot) case Some(d) => [d] case None => [])
  }

  predicate HighConfidence(ds: seq<Diagnosis>) {
    exists i :: 0 <= i < |ds| && ds[i].confidence >= SKIP_TIER3_THRESHOLD
  }

  function FiredIn(s: Settings, tier: int, q: Query): seq<Diagnosis> {
    Fired(OfTier(s.rules, tier), s.disabled, q)
  }

  predicate Tier3Runs(s: Settings, q: Query) {
    s.disableEarlyExit || !HighConfidence(FiredIn(s, 1, q))
  }

  function Triggered(s: Settings, q: Query): seq<Diagnosis> {
    FiredIn(s, 1, q) + FiredIn(s, 2, q) + (if Tier3Runs(s, q) then FiredIn(s, 3, q) else [])
  }

  predicate Calibrates(q: Query) { q.diff.latest.Some? && q.diff.latest.value.psi.available }

  function Calibration(q: Query): Diagnosis -> Diagnosis {
    if Calibrates(q) then d => Calibrate(q.classify, q.diff.latest.value.psi, d) else d => d
  }

  function Ranked(s: Settings, q: Query): seq<Diagnosis> {
    Sorted(NotAfter, Map(Calibration(q), Triggered(s, q)))
  }

  // ---------------------------------------------------------------- Categorisation

  /** What the first rule with the primary's ID makes redundant. */
  function Suppressed(rules: seq<Rule>, primaryID: string): seq<string> {
    if rules == [] then []
    else if rules[0].id == primaryID then rules[0].suppresses
    else Suppressed(rules[1..], primaryID)
  }

  predicate Serious(s: Severity) { s.Critical? || s.High? }

  datatype Slot = Contributing | Secondary | Dropped

  /** Where a finding behind the primary goes. */
  function SlotOf(rules: seq<Rule>, primary: Diagnosis, d: Diagnosis): Slot {
    if d.ruleID in Suppressed(rules, primary.ruleID) then Dropped
    else if primary.tier == 1 then (if Serious(d.severity) then Contributing else Secondary)
    else if d.tier == primary.tier || SeverityRank(d.severity) >= SeverityRank(High) then Contributing
    else Secondary
  }

  function InSlot(rules: seq<Rule>, primary: Diagnosis, slot: Slot): Diagnosis -> bool {
    d => SlotOf(rules, primary, d) == slot
  }

  function Slice(rules: seq<Rule>, ranked: seq<Diagnosis>, slot: Slot): seq<Diagnosis> {
    if ranked == [] then [] else Filter(InSlot(rules, ranked[0], slot), ranked[1..])
  }

  function ReportOf(s: Settings, q: Query): Report {
    var ranked := Ranked(s, q);
    Report(
      if ranked == [] then None else Some(ranked[0]),
      Slice(s.rules, ranked, Contributing), Slice(s.rules, ranked, Secondary),
      Tier3Runs(s, q), Calibrates(q), q.isRoot)
  }

  // ---------------------------------------------------------------- Where findings come from

  ghost predicate AllHonest(rules: seq<Rule>) { forall i :: 0 <= i < |rules| ==> Honest(rules[i]) }

  lemma {:induction false} TierIsHonest(rules: seq<Rule>, tier: int)
    requires AllHonest(rules)
    ensures AllHonest(OfTier(rules, tier))
    ensures forall i :: 0 <= i < |OfTier(rules, tier)| ==> OfTier(rules, tier)[i].tier == tier
  {
    if rules != [] { TierIsHonest(rules[..|rules| - 1], tier); }
  }

  ghost predicate GoodFinding(d: Diagnosis, tier: int, q: Query) {
    d.tier == tier && 0.0 <= d.confidence <= 1.0 && (q.diff.clockJumpDetected ==> d.confidence <= 0.5)
  }

  lemma {:induction false} FiredFindings(rules: seq<Rule>, disabled: set<string>, q: Query, tier: int)
    requires AllHonest(rules) && forall i :: 0 <= i < |rules| ==> rules[i].tier == tier
    ensures forall i :: 0 <= i < |Fired(rules, disabled, q)| ==> GoodFinding(Fired(rules, disabled, q)[i], tier, q)
  {
    if rules != [] {
      var n := |rules| - 1;
      FiredFindings(rules[..n], disabled, q, tier);
      PenaltiesOnlyLower(rules[n], q.diff, q.isRoot);
    }
  }

  lemma TierFindings(s: Settings, q: Query, tier: int)
    requires AllHonest(s.rules)
    ensures forall i :: 0 <= i < |FiredIn(s, tier, q)| ==> GoodFinding(FiredIn(s, tier, q)[i], tier, q)
  {
    TierIsHonest(s.rules, tier);
    FiredFindings(OfTier(s.rules, tier), s.disabled, q, tier);
  }

  /** A clock jump always keeps Tier 3 in play. */
  lemma ClockJumpRunsTier3(s: Settings, q: Query)
    requires AllHonest(s.rules) && q.diff.clockJumpDetected
    ensures Tier3Runs(s, q)
  {
    TierFindings(s, q, 1);
  }

  /** So does an unprivileged run in which only PID-dependent Tier 1 rules fire. */
  lemma UnprivilegedRunsTier3(s: Settings, q: Query)
    requires AllHonest(s.rules) && !q.isRoot
    requires forall r :: r in OfTier(s.rules, 1) && r.evaluate(q.diff).Some? ==> r.pidDependent || r.id in s.disabled
    ensures Tier3Runs(s, q)
  {
    TierIsHonest(s.rules, 1);
    WeakFindings(OfTier(s.rules, 1), s.disabled, q);
  }

  lemma {:induction false} WeakFindings(rules: seq<Rule>, disabled: set<string>, q: Query)
    requires AllHonest(rules) && !q.isRoot
    requires forall r :: r in rules && r.evaluate(q.diff).Some? ==> r.pidDependent || r.id in disabled
    ensures forall i :: 0 <= i < |Fired(rules, disabled, q)| ==> Fired(rules, disabled, q)[i].confidence <= 0.6
  {
    if rules != [] {
      var n := |rules| - 1;
      WeakFindings(rules[..n], disabled, q);
      assert rules[n] in rules;
      PenaltiesOnlyLower(rules[n], q.diff, q.isRoot);
    }
  }

  /** Reported confidences stay in 0..1. */
  lemma ConfidencesInRange(s: Settings, q: Query)
    requires AllHonest(s.rules)
    ensures forall d :: d in Ranked(s, q) ==> 0.0 <= d.confidence <= 1.0
  {
    TierFindings(s, q, 1);
    TierFindings(s, q, 2);
    TierFindings(s, q, 3);
    var items := Map(Calibration(q), Triggered(s, q));
    forall i | 0 <= i < |items| ensures 0.0 <= items[i].confidence <= 1.0 {
      var t := Triggered(s, q)[i];
      assert items[i] == Calibration(q)(t);
    }
    SortedElements(NotAfter, items);
  }

  // ---------------------------------------------------------------- Exactly what fires

  /** Rule r is switched on and finds d. */
  ghost predicate Finds(s: Settings, q: Query, r: Rule, d: Diagnosis) {
    r in s.rules && r.id !in s.disabled && EvaluateRule(r, q.diff, q.isRoot) == Some(d)
  }

  lemma {:induction false} FiredFrom(rules: seq<Rule>, disabled: set<string>, q: Query, d: Diagnosis)
    requires d in Fired(rules, disabled, q)
    ensures exists r :: r in rules && r.id !in disabled && EvaluateRule(r, q.diff, q.isRoot) == Some(d)
  {
    var n := |rules| - 1;
    if d in Fired(rules[..n], disabled, q) {
      FiredFrom(rules[..n], disabled, q, d);
      var r :| r in rules[..n] && r.id !in disabled && EvaluateRule(r, q.diff, q.isRoot) == Some(d);
      assert r in rules;
    } else {
      assert rules[n] in rules;
    }
  }

  lemma {:induction false} FiringIsListed(rules: seq<Rule>, disabled: set<string>, q: Query, r: Rule, d: Diagnosis)
    requires r in rules && r.id !in disabled && EvaluateRule(r, q.diff, q.isRoot) == Some(d)
    ensures d in Fired(rules, disabled, q)
  {
    var n := |rules| - 1;
    if rules[n] != r {
      assert r in rules[..n];
      FiringIsListed(rules[..n], disabled, q, r, d);
    }
  }

  /** A tier's findings are those of its enabled rules, no more and no fewer. */
  lemma FiredInIff(s: Settings, q: Query, tier: int, d: Diagnosis)
    ensures d in FiredIn(s, tier, q) <==> exists r: Rule :: r.tier == tier && Finds(s, q, r, d)
  {
    FilterElements((r: Rule) => r.tier == tier, s.rules);
    if d in FiredIn(s, tier, q) {
      FiredFrom(OfTier(s.rules, tier), s.disabled, q, d);
      var r :| r in OfTier(s.rules, tier) && r.id !in s.disabled && EvaluateRule(r, q.diff, q.isRoot) == Some(d);
      assert r.tier == tier && Finds(s, q, r, d);
    }
    if r: Rule :| r.tier == tier && Finds(s, q, r, d) {
      FiringIsListed(OfTier(s.rules, tier), s.disabled, q, r, d);
    }
  }

  /** Findings come in rule order: first those of the rules in front. */
  lemma {:induction false} FiredConcat(a: seq<Rule>, b: seq<Rule>, disabled: set<string>, q: Query)
    ensures Fired(a + b, disabled, q) == Fired(a, disabled, q) + Fired(b, disabled, q)
  {
    if b == [] {
      assert a + b == a;
    } else {
      assert (a + b)[..|a + b| - 1] == a + b[..|b| - 1];
      FiredConcat(a, b[..|b| - 1], disabled, q);
    }
  }

  /** Tier 3 is skipped exactly when early exit is on and an enabled Tier 1 rule is at least 90% sure. */
  lemma Tier3SkippedIff(s: Settings, q: Query)
    ensures !Tier3Runs(s, q) <==>
      !s.disableEarlyExit && exists r: Rule, d: Diagnosis :: r.tier == 1 && Finds(s, q, r, d) && d.confidence >= 0.90
  {
    if HighConfidence(FiredIn(s, 1, q)) {
      var i :| 0 <= i < |FiredIn(s, 1, q)| && FiredIn(s, 1, q)[i].confidence >= SKIP_TIER3_THRESHOLD;
      FiredInIff(s, q, 1, FiredIn(s, 1, q)[i]);
    }
    if r: Rule, d: Diagnosis :| r.tier == 1 && Finds(s, q, r, d) && d.confidence >= 0.90 {
      FiredInIff(s, q, 1, d);
    }
  }

  /** What is triggered: Tiers 1 and 2 always, Tier 3 when it runs, rules of other tiers never. */
  lemma TriggeredIff(s: Settings, q: Query, d: Diagnosis)
    ensures d in Triggered(s, q) <==>
      exists r :: Finds(s, q, r, d) && (r.tier == 1 || r.tier == 2 || (r.tier == 3 && Tier3Runs(s, q)))
  {
    FiredInIff(s, q, 1, d);
    FiredInIff(s, q, 2, d);
    FiredInIff(s, q, 3, d);
  }

  /** Without a snapshot that has pressure data nothing is calibrated, with one everything is. */
  lemma CalibrationGuard(s: Settings, q: Query)
    ensures q.diff.latest.None? || !q.diff.latest.value.psi.available ==>
      !ReportOf(s, q).calibrated && Ranked(s, q) == Sorted(NotAfter, Triggered(s, q))
    ensures q.diff.latest.Some? && q.diff.latest.value.psi.available ==>
      && ReportOf(s, q).calibrated
      && Ranked(s, q)
         == Sorted(NotAfter, Map((d: Diagnosis) => Calibrate(q.classify, q.diff.latest.value.psi, d), Triggered(s, q)))
  {
    if Calibrates(q) {
      assert Map((d: Diagnosis) => Calibrate(q.classify, q.diff.latest.value.psi, d), Triggered(s, q))
          == Map(Calibration(q), Triggered(s, q));
    } else {
      assert Map(Calibration(q), Triggered(s, q)) == Triggered(s, q);
    }
  }

  // ---------------------------------------------------------------- Causal suppression

  /** The first rule with the ID decides what is suppressed, and it alone. */
  lemma {:induction false} SuppressedByFirst(rules: seq<Rule>, id: string, i: nat)
    requires i < |rules| && rules[i].id == id && forall k :: 0 <= k < i ==> rules[k].id != id
    ensures Suppressed(rules, id) == rules[i].suppresses
  {
    if i > 0 { SuppressedByFirst(rules[1..], id, i - 1); }
  }

  lemma {:induction false} SuppressedByNone(rules: seq<Rule>, id: string)
    requires forall k :: 0 <= k < |rules| ==> rules[k].id != id
    ensures Suppressed(rules, id) == []
  {
    if rules != [] {
      assert forall k :: 0 <= k < |rules[1..]| ==> rules[1..][k] == rules[k + 1];
      SuppressedByNone(rules[1..], id);
    }
  }

  /** Rule i is the first with the ID of the report's primary. */
  ghost predicate IsPrimaryRule(s: Settings, q: Query, i: nat)
    requires Ranked(s, q) != []
  {
    && i < |s.rules| && s.rules[i].id == ReportOf(s, q).primary.value.ruleID
    && forall k :: 0 <= k < i ==> s.rules[k].id != s.rules[i].id
  }

  /**
    Behind the primary, exactly the findings that its rule names are left out. Every other one
    contributes if it is CRITICAL or HIGH, or of the primary's tier where that is not the first,
    and is secondary if not.
  */
  lemma ListedUnlessSuppressed(s: Settings, q: Query, i: nat, d: Diagnosis)
    requires Ranked(s, q) != [] && IsPrimaryRule(s, q, i)
    ensures var r := ReportOf(s, q);
      && (d.ruleID in s.rules[i].suppresses ==> d !in r.contributing && d !in r.secondary)
      && (d in Ranked(s, q)[1..] && d.ruleID !in s.rules[i].suppresses ==>
            var p := r.primary.value;
            var contributes := Serious(d.severity) || (p.tier != 1 && d.tier == p.tier);
            (d in r.contributing <==> contributes) && (d in r.secondary <==> !contributes))
  {
    SuppressedByFirst(s.rules, s.rules[i].id, i);
    ListedFindings(s, q, d);
  }

  // ---------------------------------------------------------------- The report is a partition

  lemma RankingSplits(rules: seq<Rule>, ranked: seq<Diagnosis>)
    requires ranked != []
    ensures multiset(ranked)
         == multiset{ranked[0]} + multiset(Slice(rules, ranked, Contributing))
            + multiset(Slice(rules, ranked, Secondary)) + multiset(Slice(rules, ranked, Dropped))
  {
    var p, tail := ranked[0], ranked[1..];
    assert ranked == [p] + tail;
    ThreeWay(InSlot(rules, p, Contributing), InSlot(rules, p, Secondary), InSlot(rules, p, Dropped), tail);
  }

  /**
    Every triggered finding lands in exactly one place: primary, contributing, secondary, or
    dropped as a consequence of the primary. The lists keep the ranking's order.
  */
  lemma ReportPartitions(s: Settings, q: Query)
    requires Triggered(s, q) != []
    ensures var ranked, r := Ranked(s, q), ReportOf(s, q);
      && ranked != [] && r.primary == Some(ranked[0])
      && multiset(Map(Calibration(q), Triggered(s, q)))
         == multiset{r.primary.value} + multiset(r.contributing) + multiset(r.secondary)
            + multiset(Slice(s.rules, ranked, Dropped))
  {
    SortedElements(NotAfter, Map(Calibration(q), Triggered(s, q)));
    RankingSplits(s.rules, Ranked(s, q));
  }

  lemma ThreeWay(a: Diagnosis -> bool, b: Diagnosis -> bool, c: Diagnosis -> bool, ds: seq<Diagnosis>)
    requires forall d :: (a(d) || b(d) || c(d)) && !(a(d) && b(d)) && !(a(d) && c(d)) && !(b(d) && c(d))
    ensures multiset(ds) == multiset(Filter(a, ds)) + multiset(Filter(b, ds)) + multiset(Filter(c, ds))
  {
    var bc := (d: Diagnosis) => !a(d);
    FilterSplits(a, bc, ds);
    FilterElements(bc, ds);
    FilterSplits(b, c, Filter(bc, ds));
    FilterFilter(b, bc, b, ds);
    FilterFilter(c, bc, c, ds);
  }

  /** The primary is the earliest registered finding that no other precedes. */
  lemma PrimaryIsFirstLeast(s: Settings, q: Query) returns (k: int)
    requires Triggered(s, q) != []
    ensures FirstLeast(NotAfter, Map(Calibration(q), Triggered(s, q)), k)
    ensures ReportOf(s, q).primary == Some(Calibration(q)(Triggered(s, q)[k]))
  {
    RankingIsPreorder();
    k := HeadIsFirstLeast(NotAfter, Map(Calibration(q), Triggered(s, q)));
  }

  /** The ranking is by tier, then by severity, then by confidence, at every two places. */
  lemma RankingOrder(s: Settings, q: Query, i: nat, j: nat)
    requires i < j < |Ranked(s, q)|
    ensures var x, y := Ranked(s, q)[i], Ranked(s, q)[j];
      && x.tier <= y.tier
      && (x.tier == y.tier ==> !MoreSevere(y.severity, x.severity))
      && (x.tier == y.tier && !MoreSevere(x.severity, y.severity) ==> x.confidence >= y.confidence)
  {
    RankingIsPreorder();
    SortedIsSorted(NotAfter, Map(Calibration(q), Triggered(s, q)));
    var x, y := Ranked(s, q)[i], Ranked(s, q)[j];
    assert NotAfter(x, y);
    SeverityOrder(x.severity, y.severity);
    SeverityOrder(y.severity, x.severity);
  }

  /** Nothing in the ranking beats the primary on tier, then severity, then confidence. */
  lemma PrimaryDominates(s: Settings, q: Query, d: Diagnosis)
    requires d in Ranked(s, q)
    ensures var p := ReportOf(s, q).primary.value;
      && p.tier <= d.tier
      && (p.tier == d.tier ==> SeverityRank(p.severity) >= SeverityRank(d.severity))
      && (p.tier == d.tier && SeverityRank(p.severity) == SeverityRank(d.severity) ==> p.confidence >= d.confidence)
  {
    RankingIsPreorder();
    SortedIsSorted(NotAfter, Map(Calibration(q), Triggered(s, q)));
    var ranked := Ranked(s, q);
    var i :| 0 <= i < |ranked| && ranked[i] == d;
    assert NotAfter(ranked[0], ranked[i]);
  }

  /**
    Behind the primary, a finding it does not suppress contributes exactly when it is CRITICAL
    or HIGH, or shares the primary's tier and that tier is not the first; otherwise it is secondary.
  */
  lemma ListedFindings(s: Settings, q: Query, d: Diagnosis)
    requires Ranked(s, q) != []
    ensures var ranked, r := Ranked(s, q), ReportOf(s, q);
      var p := r.primary.value;
      var listed := d in ranked[1..] && d.ruleID !in Suppressed(s.rules, p.ruleID);
      var contributes := Serious(d.severity) || (p.tier != 1 && d.tier == p.tier);
      && (d in r.contributing <==> listed && contributes)
      && (d in r.secondary <==> listed && !contributes)
  {
    var ranked := Ranked(s, q);
    FilterElements(InSlot(s.rules, ranked[0], Secondary), ranked[1..]);
    FilterElements(InSlot(s.rules, ranked[0], Contributing), ranked[1..]);
  }
}
