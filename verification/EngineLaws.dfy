/** The two laws that span whole runs of the engine: early exit is sound, disabling is filtering. */
module EngineLaws {
  import opened Wrappers
  import opened Differential
  import opened Sorting
  import opened Joins
  import opened Diagnoses
  import opened Analysis

  lemma MapConcat<S, T>(f: S -> T, a: seq<S>, b: seq<S>)
    ensures Map(f, a + b) == Map(f, a) + Map(f, b)
  {}

  lemma {:induction false} FilterMap<S, T>(f: S -> T, p: T -> bool, q: S -> bool, s: seq<S>)
    requires forall x :: x in s ==> (p(f(x)) <==> q(x))
    ensures Filter(p, Map(f, s)) == Map(f, Filter(q, s))
  {
    if s != [] {
      var n := |s| - 1;
      assert Map(f, s)[..n] == Map(f, s[..n]);
      FilterMap(f, p, q, s[..n]);
      MapConcat(f, Filter(q, s[..n]), if q(s[n]) then [s[n]] else []);
      assert s[n] in s;
      if !q(s[n]) { assert Filter(q, s) == Filter(q, s[..n]) && Filter(p, Map(f, s)) == Filter(p, Map(f, s[..n])); }
    }
  }

  lemma CalibrationKeepsRest(q: Query, d: Diagnosis)
    ensures Calibration(q)(d) == d.(confidence := Calibration(q)(d).confidence)
  {}

  // ---------------------------------------------------------------- Early exit

  ghost predicate AllOfTier3(ds: seq<Diagnosis>) { forall i :: 0 <= i < |ds| ==> ds[i].tier == 3 }

  /** The first two tiers, and the third, after calibration. */
  function Upper(s: Settings, q: Query): seq<Diagnosis> {
    Map(Calibration(q), FiredIn(s, 1, q) + FiredIn(s, 2, q))
  }

  function Lower(s: Settings, q: Query): seq<Diagnosis> {
    Map(Calibration(q), FiredIn(s, 3, q))
  }

  lemma TiersOfHalves(s: Settings, q: Query)
    requires AllHonest(s.rules)
    ensures forall d :: d in Upper(s, q) ==> d.tier == 1 || d.tier == 2
    ensures forall d :: d in Lower(s, q) ==> d.tier == 3
  {
    TierFindings(s, q, 1);
    TierFindings(s, q, 2);
    TierFindings(s, q, 3);
    forall i | 0 <= i < |Upper(s, q)| ensures Upper(s, q)[i].tier == 1 || Upper(s, q)[i].tier == 2 {
      CalibrationKeepsRest(q, (FiredIn(s, 1, q) + FiredIn(s, 2, q))[i]);
    }
    forall i | 0 <= i < |Lower(s, q)| ensures Lower(s, q)[i].tier == 3 {
      CalibrationKeepsRest(q, FiredIn(s, 3, q)[i]);
    }
  }

  /** Tier 3 findings are ranked on their own, behind everything else. */
  lemma RankedInHalves(s: Settings, q: Query)
    requires AllHonest(s.rules)
    ensures Ranked(s, q) == Sorted(NotAfter, Upper(s, q))
      + (if Tier3Runs(s, q) then Sorted(NotAfter, Lower(s, q)) else [])
  {
    TiersOfHalves(s, q);
    var a := FiredIn(s, 1, q) + FiredIn(s, 2, q);
    if Tier3Runs(s, q) {
      MapConcat(Calibration(q), a, FiredIn(s, 3, q));
      SortedConcat(NotAfter, Upper(s, q), Lower(s, q));
    } else {
      assert a + [] == a;
    }
  }

  function Eager(s: Settings): Settings { s.(disableEarlyExit := false) }
  function Thorough(s: Settings): Settings { s.(disableEarlyExit := true) }

  lemma SliceInHalves(rules: seq<Rule>, a: seq<Diagnosis>, b: seq<Diagnosis>, slot: Slot)
    requires a != []
    ensures Slice(rules, a + b, slot) == Slice(rules, a, slot) + Filter(InSlot(rules, a[0], slot), b)
  {
    assert (a + b)[1..] == a[1..] + b;
    FilterConcat(InSlot(rules, a[0], slot), a[1..], b);
  }

  /**
    Early exit is sound. Whatever it skips, the primary is that of the full run, both lists
    are prefixes of the full run's lists, and what they lack is Tier 3 only.
  */
  lemma EarlyExitIsSound(s: Settings, q: Query)
    requires AllHonest(s.rules)
    ensures var quick, full := ReportOf(Eager(s), q), ReportOf(Thorough(s), q);
      && (quick.tier3Evaluated ==> quick == full)
      && quick.primary == full.primary
      && quick.contributing <= full.contributing && quick.secondary <= full.secondary
      && AllOfTier3(full.contributing[|quick.contributing|..])
      && AllOfTier3(full.secondary[|quick.secondary|..])
  {
    var e, t := Eager(s), Thorough(s);
    RankedInHalves(e, q);
    RankedInHalves(t, q);
    if Tier3Runs(e, q) {
      assert Ranked(e, q) == Ranked(t, q);
    } else {
      ExitHalves(s, q);
    }
  }

  lemma ExitHalves(s: Settings, q: Query)
    requires AllHonest(s.rules) && !Tier3Runs(Eager(s), q)
    ensures var up, low := Sorted(NotAfter, Upper(s, q)), Sorted(NotAfter, Lower(s, q));
      && up != [] && Ranked(Eager(s), q) == up && Ranked(Thorough(s), q) == up + low
      && (forall slot :: Slice(s.rules, up + low, slot)
            == Slice(s.rules, up, slot) + Filter(InSlot(s.rules, up[0], slot), low))
      && (forall slot :: AllOfTier3(Filter(InSlot(s.rules, up[0], slot), low)))
  {
    RankedInHalves(Eager(s), q);
    RankedInHalves(Thorough(s), q);
    var up, low := Sorted(NotAfter, Upper(s, q)), Sorted(NotAfter, Lower(s, q));
    assert |Upper(s, q)| > 0;
    assert up + [] == up;
    TiersOfHalves(s, q);
    SortedElements(NotAfter, Lower(s, q));
    forall slot ensures Slice(s.rules, up + low, slot)
            == Slice(s.rules, up, slot) + Filter(InSlot(s.rules, up[0], slot), low)
      ensures AllOfTier3(Filter(InSlot(s.rules, up[0], slot), low))
    {
      SliceInHalves(s.rules, up, low, slot);
      var kept := Filter(InSlot(s.rules, up[0], slot), low);
      FilterElements(InSlot(s.rules, up[0], slot), low);
      forall i | 0 <= i < |kept| ensures kept[i].tier == 3 { assert kept[i] in kept; }
    }
  }

  /** An exit changes nothing at all exactly when the primary suppresses every Tier 3 finding. */
  lemma EarlyExitIsExact(s: Settings, q: Query)
    requires AllHonest(s.rules) && !Tier3Runs(Eager(s), q)
    ensures var quick, full := ReportOf(Eager(s), q), ReportOf(Thorough(s), q);
      quick.contributing == full.contributing && quick.secondary == full.secondary
      <==> (forall d :: d in FiredIn(s, 3, q) ==> d.ruleID in Suppressed(s.rules, quick.primary.value.ruleID))
  {
    ExitHalves(s, q);
    var up, low := Sorted(NotAfter, Upper(s, q)), Sorted(NotAfter, Lower(s, q));
    NothingKept(s.rules, up[0], low);
    LowerIDs(s, q, Suppressed(s.rules, up[0].ruleID));
    var c, o := Filter(InSlot(s.rules, up[0], Contributing), low), Filter(InSlot(s.rules, up[0], Secondary), low);
    assert Slice(s.rules, up + low, Contributing) == Slice(s.rules, up, Contributing) + c;
    assert Slice(s.rules, up + low, Secondary) == Slice(s.rules, up, Secondary) + o;
  }

  lemma LowerIDs(s: Settings, q: Query, ids: seq<string>)
    ensures (forall d :: d in Sorted(NotAfter, Lower(s, q)) ==> d.ruleID in ids)
      <==> (forall d :: d in FiredIn(s, 3, q) ==> d.ruleID in ids)
  {
    SortedElements(NotAfter, Lower(s, q));
  }

  lemma NothingKept(rules: seq<Rule>, p: Diagnosis, ds: seq<Diagnosis>)
    ensures Filter(InSlot(rules, p, Contributing), ds) == [] && Filter(InSlot(rules, p, Secondary), ds) == []
      <==> (forall d :: d in ds ==> d.ruleID in Suppressed(rules, p.ruleID))
  {
    FilterElements(InSlot(rules, p, Contributing), ds);
    FilterElements(InSlot(rules, p, Secondary), ds);
    var c, o := Filter(InSlot(rules, p, Contributing), ds), Filter(InSlot(rules, p, Secondary), ds);
    if c != [] { assert c[0] in c; }
    if o != [] { assert o[0] in o; }
    if d :| d in ds && d.ruleID !in Suppressed(rules, p.ruleID) {
      assert d in c || d in o;
    }
  }

  // ---------------------------------------------------------------- Disabling rules

  function Disable(s: Settings, more: set<string>): Settings { s.(disabled := s.disabled + more) }
  function Kept(more: set<string>): Diagnosis -> bool { (d: Diagnosis) => d.ruleID !in more }

  lemma {:induction false} DisabledFire(rules: seq<Rule>, disabled: set<string>, more: set<string>, q: Query)
    requires AllHonest(rules)
    ensures Fired(rules, disabled + more, q) == Filter(Kept(more), Fired(rules, disabled, q))
  {
    if rules != [] {
      var n := |rules| - 1;
      DisabledFire(rules[..n], disabled, more, q);
      PenaltiesOnlyLower(rules[n], q.diff, q.isRoot);
      var front := Fired(rules[..n], disabled, q);
      var d := EvaluateRule(rules[n], q.diff, q.isRoot);
      assert front + [] == front && Filter(Kept(more), front) + [] == Filter(Kept(more), front);
      if d.Some? && rules[n].id !in disabled {
        FilterConcat(Kept(more), front, [d.value]);
        assert Filter(Kept(more), [d.value]) == if rules[n].id in more then [] else [d.value];
      }
    }
  }

  lemma TierDisabled(s: Settings, more: set<string>, q: Query, tier: int)
    requires AllHonest(s.rules)
    ensures FiredIn(Disable(s, more), tier, q) == Filter(Kept(more), FiredIn(s, tier, q))
  {
    TierIsHonest(s.rules, tier);
    DisabledFire(OfTier(s.rules, tier), s.disabled, more, q);
  }

  /** Disabling rules can only bring Tier 3 into play, never take it out. */
  lemma Tier3NeverLost(s: Settings, more: set<string>, q: Query)
    requires AllHonest(s.rules) && Tier3Runs(s, q)
    ensures Tier3Runs(Disable(s, more), q)
  {
    TierDisabled(s, more, q, 1);
    var before, after := FiredIn(s, 1, q), FiredIn(Disable(s, more), 1, q);
    FilterElements(Kept(more), before);
    if HighConfidence(after) {
      var i :| 0 <= i < |after| && after[i].confidence >= SKIP_TIER3_THRESHOLD;
      assert after[i] in before;
    }
  }

  /** What the remaining rules trigger: the old findings that are kept, plus Tier 3 if it only now runs. */
  lemma TriggeredAfterDisabling(s: Settings, more: set<string>, q: Query)
    requires AllHonest(s.rules)
    ensures Triggered(Disable(s, more), q) == Filter(Kept(more), Triggered(s, q))
      + (if !Tier3Runs(s, q) && Tier3Runs(Disable(s, more), q) then FiredIn(Disable(s, more), 3, q) else [])
  {
    TierDisabled(s, more, q, 1);
    TierDisabled(s, more, q, 2);
    TierDisabled(s, more, q, 3);
    if Tier3Runs(s, q) { Tier3NeverLost(s, more, q); }
    var t1, t2 := FiredIn(s, 1, q), FiredIn(s, 2, q);
    FilterConcat(Kept(more), t1, t2);
    FilterConcat(Kept(more), t1 + t2, FiredIn(s, 3, q));
    assert t1 + t2 + [] == t1 + t2;
  }

  lemma RankingOfKept(s: Settings, more: set<string>, q: Query)
    ensures Filter(Kept(more), Ranked(s, q))
         == Sorted(NotAfter, Map(Calibration(q), Filter(Kept(more), Triggered(s, q))))
  {
    RankingIsPreorder();
    SortCommutesWithFilter(NotAfter, Kept(more), Map(Calibration(q), Triggered(s, q)));
    forall d ensures Calibration(q)(d).ruleID == d.ruleID { CalibrationKeepsRest(q, d); }
    FilterMap(Calibration(q), Kept(more), Kept(more), Triggered(s, q));
  }

  /**
    Disabling further rules removes exactly their findings from the ranking, and moves
    nothing else, if and only if it does not bring a Tier 3 finding into play that early
    exit had skipped.
  */
  lemma DisablingFiltersRanking(s: Settings, more: set<string>, q: Query)
    requires AllHonest(s.rules)
    ensures Ranked(Disable(s, more), q) == Filter(Kept(more), Ranked(s, q))
      <==> (Tier3Runs(s, q) == Tier3Runs(Disable(s, more), q) || FiredIn(Disable(s, more), 3, q) == [])
  {
    TriggeredAfterDisabling(s, more, q);
    RankingOfKept(s, more, q);
    if Tier3Runs(s, q) { Tier3NeverLost(s, more, q); }
    var kept := Filter(Kept(more), Triggered(s, q));
    assert kept + [] == kept;
    assert |Ranked(Disable(s, more), q)| == |Triggered(Disable(s, more), q)|;
    assert |Filter(Kept(more), Ranked(s, q))| == |kept|;
  }

  lemma {:induction false} FilterHead<T>(p: T -> bool, s: seq<T>)
    requires s != [] && p(s[0])
    ensures Filter(p, s) == [s[0]] + Filter(p, s[1..])
  {
    assert s == [s[0]] + s[1..];
    FilterConcat(p, [s[0]], s[1..]);
  }

  lemma SliceOfKept(rules: seq<Rule>, ranked: seq<Diagnosis>, more: set<string>, slot: Slot)
    requires ranked != [] && ranked[0].ruleID !in more
    ensures Slice(rules, Filter(Kept(more), ranked), slot) == Filter(Kept(more), Slice(rules, ranked, slot))
  {
    FilterHead(Kept(more), ranked);
    var p, tail := InSlot(rules, ranked[0], slot), ranked[1..];
    assert Filter(Kept(more), ranked)[1..] == Filter(Kept(more), tail);
    var both := (d: Diagnosis) => p(d) && Kept(more)(d);
    FilterFilter(p, Kept(more), both, tail);
    FilterFilter(Kept(more), p, both, tail);
  }

  /**
    With early exit off, disabling any set of rules that leaves the primary's rule alone
    yields the same report with exactly those rules' findings removed, order unchanged.
    With early exit on the same holds whenever Tier 3 runs in both or in neither.
  */
  lemma DisablingFiltersReport(s: Settings, more: set<string>, q: Query)
    requires AllHonest(s.rules) && Triggered(s, q) != []
    requires s.disableEarlyExit || Tier3Runs(s, q) == Tier3Runs(Disable(s, more), q)
    requires ReportOf(s, q).primary.value.ruleID !in more
    ensures var before, after := ReportOf(s, q), ReportOf(Disable(s, more), q);
      && after.primary == before.primary
      && after.contributing == Filter(Kept(more), before.contributing)
      && after.secondary == Filter(Kept(more), before.secondary)
  {
    DisablingFiltersRanking(s, more, q);
    var ranked := Ranked(s, q);
    FilterHead(Kept(more), ranked);
    SliceOfKept(s.rules, ranked, more, Contributing);
    SliceOfKept(s.rules, ranked, more, Secondary);
  }

  /** Without its newly fired Tier 3 findings the ranking after disabling is the filtered one. */
  lemma NewlyRankedInHalves(s: Settings, more: set<string>, q: Query)
    requires AllHonest(s.rules) && !Tier3Runs(s, q) && Tier3Runs(Disable(s, more), q)
    ensures Ranked(Disable(s, more), q)
         == Filter(Kept(more), Ranked(s, q)) + Sorted(NotAfter, Lower(Disable(s, more), q))
  {
    var d := Disable(s, more);
    TierDisabled(s, more, q, 1);
    TierDisabled(s, more, q, 2);
    FilterConcat(Kept(more), FiredIn(s, 1, q), FiredIn(s, 2, q));
    assert Triggered(s, q) == FiredIn(s, 1, q) + FiredIn(s, 2, q);
    RankingOfKept(s, more, q);
    RankedInHalves(d, q);
  }

  lemma NewSlices(s: Settings, more: set<string>, q: Query)
    requires AllHonest(s.rules) && !Tier3Runs(s, q) && Tier3Runs(Disable(s, more), q)
    requires Triggered(s, q) != [] && ReportOf(s, q).primary.value.ruleID !in more
    ensures var before, after := ReportOf(s, q), ReportOf(Disable(s, more), q);
      var low := Sorted(NotAfter, Lower(Disable(s, more), q));
      && after.primary == before.primary
      && after.contributing
         == Filter(Kept(more), before.contributing) + Filter(InSlot(s.rules, before.primary.value, Contributing), low)
      && after.secondary
         == Filter(Kept(more), before.secondary) + Filter(InSlot(s.rules, before.primary.value, Secondary), low)
  {
    var ranked := Ranked(s, q);
    var kept, low := Filter(Kept(more), ranked), Sorted(NotAfter, Lower(Disable(s, more), q));
    NewlyRankedInHalves(s, more, q);
    FilterHead(Kept(more), ranked);
    SliceOfKept(s.rules, ranked, more, Contributing);
    SliceOfKept(s.rules, ranked, more, Secondary);
    SliceInHalves(s.rules, kept, low, Contributing);
    SliceInHalves(s.rules, kept, low, Secondary);
  }

  /**
    Disabling rules other than the primary's never changes the primary. It filters both lists
    exactly when Tier 3 runs in both analyses or in neither, or the primary suppresses every
    Tier 3 finding that only now fires.
  */
  lemma DisablingFiltersReportIff(s: Settings, more: set<string>, q: Query)
    requires AllHonest(s.rules) && Triggered(s, q) != [] && ReportOf(s, q).primary.value.ruleID !in more
    ensures var before, after := ReportOf(s, q), ReportOf(Disable(s, more), q);
      && after.primary == before.primary
      && (after.contributing == Filter(Kept(more), before.contributing)
          && after.secondary == Filter(Kept(more), before.secondary)
          <==> (Tier3Runs(s, q) == Tier3Runs(Disable(s, more), q)
                || forall d :: d in FiredIn(Disable(s, more), 3, q) ==>
                  d.ruleID in Suppressed(s.rules, before.primary.value.ruleID)))
  {
    if Tier3Runs(s, q) { Tier3NeverLost(s, more, q); }
    if Tier3Runs(s, q) == Tier3Runs(Disable(s, more), q) {
      DisablingFiltersReport(s, more, q);
    } else {
      var p, low := ReportOf(s, q).primary.value, Sorted(NotAfter, Lower(Disable(s, more), q));
      NewSlices(s, more, q);
      NothingKept(s.rules, p, low);
      LowerIDs(Disable(s, more), q, Suppressed(s.rules, p.ruleID));
    }
  }

  // Early exit on, two Tier 1 findings of which only the second reaches the threshold.

  function DiskFull(): Diagnosis { Diagnosis("DISK", 1, Critical, 0.80, "", 0) }
  function TableFull(): Diagnosis { Diagnosis("CONNTRACK", 1, High, 0.95, "", 0) }
  function PipeStall(): Diagnosis { Diagnosis("PIPE", 3, Medium, 0.70, "", 0) }

  function Always(d: Diagnosis): Rule { Rule(d.ruleID, d.tier, false, [], (diff: SnapshotDiff) => Some(d)) }

  function Example(): Settings {
    Settings([Always(DiskFull()), Always(TableFull()), Always(PipeStall())], {}, false)
  }

  lemma ExampleFires(q: Query)
    requires !q.diff.clockJumpDetected
    ensures FiredIn(Example(), 1, q) == [DiskFull(), TableFull()]
    ensures FiredIn(Example(), 2, q) == [] && FiredIn(Example(), 3, q) == [PipeStall()]
    ensures Triggered(Example(), q) == [DiskFull(), TableFull()]
  {
    ThreeRules(Example(), q, Always(DiskFull()), Always(TableFull()), Always(PipeStall()));
    assert FiredIn(Example(), 1, q)[1].confidence >= SKIP_TIER3_THRESHOLD;
  }

  lemma ExamplePrimary(q: Query)
    requires !q.diff.clockJumpDetected
    ensures ReportOf(Example(), q).primary.Some? && ReportOf(Example(), q).primary.value.ruleID == "DISK"
  {
    ExampleFires(q);
    var k := PrimaryIsFirstLeast(Example(), q);
    var items := Map(Calibration(q), Triggered(Example(), q));
    CalibrationKeepsRest(q, DiskFull());
    CalibrationKeepsRest(q, TableFull());
    assert NotAfter(items[k], items[0]);
  }

  lemma ExampleDisabledTier1(q: Query)
    requires !q.diff.clockJumpDetected && AllHonest(Example().rules)
    ensures Tier3Runs(Disable(Example(), {"CONNTRACK"}), q)
  {
    var off := {"CONNTRACK"};
    ExampleFires(q);
    TierDisabled(Example(), off, q, 1);
    var after := FiredIn(Disable(Example(), off), 1, q);
    FilterElements(Kept(off), [DiskFull(), TableFull()]);
    forall i | 0 <= i < |after| ensures after[i].confidence < SKIP_TIER3_THRESHOLD { assert after[i] in after; }
  }

  /** Before: only the two Tier 1 findings are ranked. */
  lemma ExampleBefore(q: Query, d: Diagnosis)
    requires !q.diff.clockJumpDetected && d in Ranked(Example(), q)
    ensures d.ruleID != "PIPE" && d.tier == 1
  {
    var items := Map(Calibration(q), Triggered(Example(), q));
    ExampleFires(q);
    SortedElements(NotAfter, items);
    var i :| 0 <= i < |items| && items[i] == d;
    CalibrationKeepsRest(q, Triggered(Example(), q)[i]);
  }

  /** After: the Tier 3 finding is ranked too. */
  lemma ExampleAfter(q: Query)
    requires !q.diff.clockJumpDetected && AllHonest(Example().rules)
    ensures Calibration(q)(PipeStall()) in Ranked(Disable(Example(), {"CONNTRACK"}), q)
  {
    var off := Disable(Example(), {"CONNTRACK"});
    ExampleDisabledTier1(q);
    var items := Map(Calibration(q), Triggered(off, q));
    var i :| 0 <= i < |Triggered(off, q)| && Triggered(off, q)[i] == PipeStall();
    assert items[i] == Calibration(q)(PipeStall());
    SortedElements(NotAfter, items);
  }

  lemma ExampleKeepsPrimary(q: Query)
    requires !q.diff.clockJumpDetected
    ensures var before, after := ReportOf(Example(), q), ReportOf(Disable(Example(), {"CONNTRACK"}), q);
      && before.primary.Some? && after.primary == before.primary
      && before.primary.value.ruleID == "DISK" && before.primary.value.tier == 1
  {
    ExampleHonest();
    ExampleFires(q);
    ExamplePrimary(q);
    DisablingFiltersReportIff(Example(), {"CONNTRACK"}, q);
    ExampleBefore(q, Ranked(Example(), q)[0]);
  }

  lemma ExampleListsPipe(q: Query)
    requires !q.diff.clockJumpDetected
    ensures Calibration(q)(PipeStall()) in ReportOf(Disable(Example(), {"CONNTRACK"}), q).secondary
  {
    var off, pipe := Disable(Example(), {"CONNTRACK"}), Calibration(q)(PipeStall());
    ExampleHonest();
    ExampleKeepsPrimary(q);
    ExampleAfter(q);
    CalibrationKeepsRest(q, PipeStall());
    ListedFindings(off, q, pipe);
  }

  lemma ExampleHadNoPipe(q: Query, d: Diagnosis)
    requires !q.diff.clockJumpDetected
    requires d in ReportOf(Example(), q).contributing || d in ReportOf(Example(), q).secondary
    ensures d.ruleID != "PIPE"
  {
    ExampleKeepsPrimary(q);
    ListedFindings(Example(), q, d);
    ExampleBefore(q, d);
  }

  /**
    With early exit on, disabling a rule that is not the primary's can add a finding to the
    report: here it removes the only Tier 1 finding above the threshold.
  */
  lemma DisablingMayAddFindings(q: Query)
    requires !q.diff.clockJumpDetected
    ensures var before, after := ReportOf(Example(), q), ReportOf(Disable(Example(), {"CONNTRACK"}), q);
      && before.primary.Some? && after.primary == before.primary && before.primary.value.ruleID == "DISK"
      && (forall d :: d in before.contributing || d in before.secondary ==> d.ruleID != "PIPE")
      && Calibration(q)(PipeStall()) in after.secondary && Calibration(q)(PipeStall()).ruleID == "PIPE"
  {
    ExampleKeepsPrimary(q);
    ExampleListsPipe(q);
    CalibrationKeepsRest(q, PipeStall());
    forall d | d in ReportOf(Example(), q).contributing || d in ReportOf(Example(), q).secondary
      ensures d.ruleID != "PIPE"
    {
      ExampleHadNoPipe(q, d);
    }
  }

  lemma ExampleHonest()
    ensures AllHonest(Example().rules)
  {}

  lemma ThreeRules(s: Settings, q: Query, a: Rule, b: Rule, c: Rule)
    requires s.rules == [a, b, c] && s.disabled == {} && !q.diff.clockJumpDetected
    requires a.tier == 1 && b.tier == 1 && c.tier == 3 && !a.pidDependent && !b.pidDependent && !c.pidDependent
    requires a.evaluate(q.diff).Some? && b.evaluate(q.diff).Some? && c.evaluate(q.diff).Some?
    ensures FiredIn(s, 1, q) == [a.evaluate(q.diff).value, b.evaluate(q.diff).value]
    ensures FiredIn(s, 2, q) == []
    ensures FiredIn(s, 3, q) == [c.evaluate(q.diff).value]
  {
    OfTierThree(a, b, c, 1);
    OfTierThree(a, b, c, 2);
    OfTierThree(a, b, c, 3);
    FiredAppend([a], b, {}, q);
    assert [a] + [b] == [a, b];
  }

  lemma OfTierThree(a: Rule, b: Rule, c: Rule, tier: int)
    requires a.tier == 1 && b.tier == 1 && c.tier == 3
    ensures OfTier([a, b, c], tier) == if tier == 1 then [a, b] else if tier == 3 then [c] else []
  {
    OfTierAppend([], a, tier);
    OfTierAppend([a], b, tier);
    OfTierAppend([a, b], c, tier);
    assert [] + [a] == [a] && [a] + [b] == [a, b] && [a, b] + [c] == [a, b, c];
  }

  lemma OfTierAppend(rules: seq<Rule>, r: Rule, tier: int)
    ensures OfTier(rules + [r], tier) == OfTier(rules, tier) + (if r.tier == tier then [r] else [])
  {
    assert (rules + [r])[..|rules|] == rules;
  }

  lemma FiredAppend(rules: seq<Rule>, r: Rule, disabled: set<string>, q: Query)
    requires r.evaluate(q.diff).Some? && r.id !in disabled
    requires !q.diff.clockJumpDetected && !r.pidDependent
    ensures Fired(rules + [r], disabled, q) == Fired(rules, disabled, q) + [r.evaluate(q.diff).value]
  {
    assert (rules + [r])[..|rules|] == rules;
  }
}
