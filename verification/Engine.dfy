/** The correlation engine: its registered rules, its settings, and one analysis. */
module CorrelationEngine {
  import opened Wrappers
  import opened Differential
  import opened Sorting
  import opened Joins
  import opened Diagnoses
  import opened Analysis
  import opened Text

  /** The IDs taken from a trimmed --disable-rules list, up to the first one that is not registered. */
  function Accepted(known: set<string>, ids: seq<string>): seq<string> {
    if ids == [] then []
    else if ids[0] == "" then Accepted(known, ids[1..])
    else if ids[0] !in known then []
    else [ids[0]] + Accepted(known, ids[1..])
  }

  /** The first ID that is not registered, if any. */
  function Rejected(known: set<string>, ids: seq<string>): Option<string> {
    if ids == [] then None
    else if ids[0] == "" || ids[0] in known then Rejected(known, ids[1..])
    else Some(ids[0])
  }

  /** A list is rejected exactly when it names something unregistered; blanks never matter. */
  lemma {:induction false} RejectedIDs(known: set<string>, ids: seq<string>)
    ensures Rejected(known, ids) == None <==> (forall id :: id in ids ==> id == "" || id in known)
  {
    if ids != [] {
      RejectedIDs(known, ids[1..]);
      assert forall id :: id in ids <==> id == ids[0] || id in ids[1..];
    }
  }

  /** Only registered IDs are ever disabled, and an accepted list disables all it names. */
  lemma {:induction false} AcceptedIDs(known: set<string>, ids: seq<string>)
    ensures forall id :: id in Accepted(known, ids) ==> id in known && id in ids && id != ""
    ensures Rejected(known, ids) == None ==> forall id :: id in ids && id != "" ==> id in Accepted(known, ids)
  {
    if ids != [] {
      AcceptedIDs(known, ids[1..]);
      assert forall id :: id in ids <==> id == ids[0] || id in ids[1..];
    }
  }

  function NotBlank(): string -> bool { (id: string) => id != "" }

  /** Whatever the verdict, the IDs disabled are the non-blank ones in front of the first unknown one, in order. */
  lemma {:induction false} AcceptedInFront(known: set<string>, ids: seq<string>, n: nat)
    requires n <= |ids| && forall i :: 0 <= i < n ==> ids[i] == "" || ids[i] in known
    requires n < |ids| ==> ids[n] != "" && ids[n] !in known
    ensures Accepted(known, ids) == Filter(NotBlank(), ids[..n])
    ensures Rejected(known, ids) == if n < |ids| then Some(ids[n]) else None
  {
    if n > 0 {
      AcceptedInFront(known, ids[1..], n - 1);
      assert ids[..n] == [ids[0]] + ids[1..][..n - 1];
      FilterConcat(NotBlank(), [ids[0]], ids[1..][..n - 1]);
      assert [ids[0]][..0] == [];
    }
  }

  /** The IDs `list` were taken from the first i entries without meeting an unknown one. */
  ghost predicate AcceptedSoFar(known: set<string>, ids: seq<string>, i: nat, list: seq<string>)
    requires i <= |ids|
  {
    Accepted(known, ids) == list + Accepted(known, ids[i..]) && Rejected(known, ids) == Rejected(known, ids[i..])
  }

  lemma AcceptStep(known: set<string>, ids: seq<string>, i: nat, list: seq<string>)
    requires i < |ids| && AcceptedSoFar(known, ids, i, list)
    ensures ids[i] == "" ==> AcceptedSoFar(known, ids, i + 1, list)
    ensures ids[i] != "" && ids[i] in known ==> AcceptedSoFar(known, ids, i + 1, list + [ids[i]])
    ensures ids[i] != "" && ids[i] !in known ==> Accepted(known, ids) == list && Rejected(known, ids) == Some(ids[i])
  {
    assert ids[i..][0] == ids[i] && ids[i..][1..] == ids[i + 1..];
    assert list + ([ids[i]] + Accepted(known, ids[i + 1..])) == list + [ids[i]] + Accepted(known, ids[i + 1..]);
    assert list + [] == list;
  }

  ghost function IDsOf(rules: seq<Rule>): set<string> {
    if rules == [] then {} else IDsOf(rules[..|rules| - 1]) + {rules[|rules| - 1].id}
  }

  ghost predicate SameIDs(ids: set<string>, list: seq<string>) { forall id :: id in ids <==> id in list }

  ghost predicate IsFirstWith(rules: seq<Rule>, id: string, i: int) {
    0 <= i < |rules| && rules[i].id == id && forall k :: 0 <= k < i ==> rules[k].id != id
  }

  lemma SuppressedMeaning(rules: seq<Rule>, id: string)
    ensures forall i :: IsFirstWith(rules, id, i) ==> Suppressed(rules, id) == rules[i].suppresses
    ensures (forall k :: 0 <= k < |rules| ==> rules[k].id != id) ==> Suppressed(rules, id) == []
  {
    forall i | IsFirstWith(rules, id, i) ensures Suppressed(rules, id) == rules[i].suppresses {
      SuppressedByFirst(rules, id, i);
    }
    if forall k :: 0 <= k < |rules| ==> rules[k].id != id { SuppressedByNone(rules, id); }
  }

  /** The registered IDs are those of the rules. */
  lemma {:induction false} IDsOfRules(rules: seq<Rule>, id: string)
    ensures id in IDsOf(rules) <==> exists i :: 0 <= i < |rules| && rules[i].id == id
  {
    if rules != [] {
      var n := |rules| - 1;
      IDsOfRules(rules[..n], id);
      if i :| 0 <= i < n && rules[..n][i].id == id { assert rules[i].id == id; }
      if i :| 0 <= i < |rules| && rules[i].id == id && i < n { assert rules[..n][i].id == id; }
    }
  }

  ghost function Members(ids: seq<string>): set<string> { set id | id in ids }

  class Engine {
    var rules: seq<Rule>
    var tier1Rules: seq<Rule>
    var tier2Rules: seq<Rule>
    var tier3Rules: seq<Rule>
    var disabledRules: set<string>
    var disabledList: seq<string>
    var disableEarlyExit: bool

    ghost predicate Valid()
      reads this
    {
      && tier1Rules == OfTier(rules, 1) && tier2Rules == OfTier(rules, 2) && tier3Rules == OfTier(rules, 3)
      && disabledRules == Members(disabledList)
    }

    ghost function Settings(): Settings
      reads this
    {
      Analysis.Settings(rules, disabledRules, disableEarlyExit)
    }

    constructor (tier1: seq<Rule>, tier2: seq<Rule>, tier3: seq<Rule>)
      ensures Valid()
      ensures Settings() == Analysis.Settings(tier1 + tier2 + tier3, {}, false) && disabledList == []
    {
      rules, tier1Rules, tier2Rules, tier3Rules := [], [], [], [];
      disabledRules, disabledList, disableEarlyExit := {}, [], false;
      new;
      RegisterRules(tier1);
      RegisterRules(tier2);
      RegisterRules(tier3);
      assert [] + tier1 + tier2 + tier3 == tier1 + tier2 + tier3;
    }

    method RegisterRules(more: seq<Rule>)
      requires Valid()
      modifies this`rules, this`tier1Rules, this`tier2Rules, this`tier3Rules
      ensures Valid() && rules == old(rules) + more
    {
      rules := rules + more;
      assert old(rules) + more[..0] == old(rules);
      for i := 0 to |more|
        modifies this`tier1Rules, this`tier2Rules, this`tier3Rules
        invariant tier1Rules == OfTier(old(rules) + more[..i], 1)
        invariant tier2Rules == OfTier(old(rules) + more[..i], 2)
        invariant tier3Rules == OfTier(old(rules) + more[..i], 3)
      {
        TierAppend(old(rules), more, i, 1);
        TierAppend(old(rules), more, i, 2);
        TierAppend(old(rules), more, i, 3);
        match more[i].tier
        case 1 => tier1Rules := tier1Rules + [more[i]];
        case 2 => tier2Rules := tier2Rules + [more[i]];
        case 3 => tier3Rules := tier3Rules + [more[i]];
        case _ =>
      }
      assert more[..|more|] == more;
    }

    method RegisteredIDs() returns (ids: set<string>)
      ensures ids == IDsOf(rules)
    {
      ids := {};
      for i := 0 to |rules|
        invariant ids == IDsOf(rules[..i])
      {
        assert rules[..i + 1][..i] == rules[..i];
        ids := ids + {rules[i].id};
      }
      assert rules[..|rules|] == rules;
    }

    /** On an unknown ID the IDs before it stay disabled; the previous set is gone either way. */
    method SetDisabledRules(ids: seq<string>) returns (err: Option<string>)
      requires Valid()
      modifies this`disabledRules, this`disabledList
      ensures Valid()
      ensures disabledList == Accepted(IDsOf(rules), Map(TrimSpace, ids))
      ensures err == Rejected(IDsOf(rules), Map(TrimSpace, ids))
    {
      var registered := RegisteredIDs();
      disabledRules, disabledList := {}, [];
      for i := 0 to |ids|
        modifies this`disabledRules, this`disabledList
        invariant disabledRules == Members(disabledList)
        invariant AcceptedSoFar(registered, Map(TrimSpace, ids), i, disabledList)
      {
        var id := TrimSpace(ids[i]);
        AcceptStep(registered, Map(TrimSpace, ids), i, disabledList);
        if id == "" { continue; }
        if id !in registered { return Some(id); }
        Disable(id);
      }
      return None;
    }

    method Disable(id: string)
      modifies this`disabledRules, this`disabledList
      ensures disabledRules == old(disabledRules) + {id} && disabledList == old(disabledList) + [id]
      ensures old(disabledRules) == Members(old(disabledList)) ==> disabledRules == Members(disabledList)
    {
      disabledRules := disabledRules + {id};
      disabledList := disabledList + [id];
    }

    method GetRule(id: string) returns (found: Option<Rule>)
      ensures found.Some? <==> exists i :: 0 <= i < |rules| && rules[i].id == id
      ensures found.Some? ==> exists i :: (0 <= i < |rules| && rules[i] == found.value && rules[i].id == id
        && forall k :: 0 <= k < i ==> rules[k].id != id)
    {
      for i := 0 to |rules|
        invariant forall k :: 0 <= k < i ==> rules[k].id != id
      {
        if rules[i].id == id { return Some(rules[i]); }
      }
      return None;
    }

    /** One tier's loop: the findings of its enabled rules, and whether one reaches the threshold. */
    method EvaluateTier(tierRules: seq<Rule>, q: Query) returns (found: seq<Diagnosis>, highConfidence: bool)
      ensures found == Fired(tierRules, disabledRules, q)
      ensures highConfidence <==> HighConfidence(found)
    {
      found, highConfidence := [], false;
      for i := 0 to |tierRules|
        invariant found == Fired(tierRules[..i], disabledRules, q)
        invariant highConfidence <==> HighConfidence(found)
      {
        assert tierRules[..i + 1][..i] == tierRules[..i];
        var rule := tierRules[i];
        if rule.id in disabledRules { continue; }
        match EvaluateRule(rule, q.diff, q.isRoot) {
          case None =>
          case Some(d) =>
            HighConfidenceAppend(found, d);
            found := found + [d];
            if d.confidence >= SKIP_TIER3_THRESHOLD { highConfidence := true; }
        }
      }
      assert tierRules[..|tierRules|] == tierRules;
    }

    method BuildSuppressionSet(primaryID: string) returns (suppressed: set<string>)
      ensures suppressed == Members(Suppressed(rules, primaryID))
      ensures forall i :: IsFirstWith(rules, primaryID, i) ==> SameIDs(suppressed, rules[i].suppresses)
      ensures (forall k :: 0 <= k < |rules| ==> rules[k].id != primaryID) ==> suppressed == {}
    {
      SuppressedMeaning(rules, primaryID);
      for i := 0 to |rules|
        invariant Suppressed(rules, primaryID) == Suppressed(rules[i..], primaryID)
      {
        assert rules[i..][1..] == rules[i + 1..];
        if rules[i].id == primaryID {
          suppressed := set id | id in rules[i].suppresses;
          return;
        }
      }
      suppressed := {};
    }

    method Categorize(sorted: seq<Diagnosis>) returns (contributing: seq<Diagnosis>, secondary: seq<Diagnosis>)
      requires sorted != []
      ensures contributing == Slice(rules, sorted, Contributing) && secondary == Slice(rules, sorted, Secondary)
    {
      var primary, remaining := sorted[0], sorted[1..];
      var suppressedIDs := BuildSuppressionSet(primary.ruleID);
      contributing, secondary := [], [];
      for i := 0 to |remaining|
        invariant contributing == Filter(InSlot(rules, primary, Contributing), remaining[..i])
        invariant secondary == Filter(InSlot(rules, primary, Secondary), remaining[..i])
      {
        assert remaining[..i + 1][..i] == remaining[..i];
        var d := remaining[i];
        if d.ruleID in suppressedIDs { continue; }
        if primary.tier == 1 {
          if d.severity == Critical || d.severity == High {
            contributing := contributing + [d];
          } else {
            secondary := secondary + [d];
          }
        } else if d.tier == primary.tier || SeverityRank(d.severity) >= SeverityRank(High) {
          contributing := contributing + [d];
        } else {
          secondary := secondary + [d];
        }
      }
      assert remaining[..|remaining|] == remaining;
    }

    /** No window, no findings; otherwise the report of the current settings, and nothing changes. */
    method Analyze(diff: Option<SnapshotDiff>, isRoot: bool, classify: string -> Category)
      returns (report: Report, disabled: seq<string>)
      requires Valid()
      ensures diff == None ==> report == Report(None, [], [], false, false, isRoot)
      ensures diff.Some? ==> report == ReportOf(Settings(), Query(diff.value, isRoot, classify))
      ensures disabled == disabledList
    {
      disabled := disabledList;
      if diff == None {
        return Report(None, [], [], false, false, isRoot), disabled;
      }
      var q := Query(diff.value, isRoot, classify);
      var triggered, hasHighConfTier1 := EvaluateTier(tier1Rules, q);
      var second, _ := EvaluateTier(tier2Rules, q);
      triggered := triggered + second;
      var tier3Evaluated := disableEarlyExit || !hasHighConfTier1;
      if tier3Evaluated {
        var third, _ := EvaluateTier(tier3Rules, q);
        triggered := triggered + third;
      } else {
        assert triggered + [] == triggered;
      }
      assert triggered == Triggered(Settings(), q);
      report := Report(None, [], [], tier3Evaluated, Calibrates(q), isRoot);
      if |triggered| == 0 { return; }
      var calibrated := CalibrateDiagnoses(triggered, q);
      var sorted := SliceStable(NotAfter, calibrated);
      var contributing, secondary := Categorize(sorted);
      report := report.(primary := Some(sorted[0]), contributing := contributing, secondary := secondary);
    }
  }

  lemma TierAppend(rules: seq<Rule>, more: seq<Rule>, i: nat, tier: int)
    requires i < |more|
    ensures OfTier(rules + more[..i + 1], tier)
         == OfTier(rules + more[..i], tier) + (if more[i].tier == tier then [more[i]] else [])
  {
    var s := rules + more[..i + 1];
    assert s[..|s| - 1] == rules + more[..i] && s[|s| - 1] == more[i];
  }

  lemma HighConfidenceAppend(ds: seq<Diagnosis>, d: Diagnosis)
    ensures HighConfidence(ds + [d]) <==> HighConfidence(ds) || d.confidence >= SKIP_TIER3_THRESHOLD
  {
    assert (ds + [d])[|ds|] == d;
    if HighConfidence(ds) {
      var i :| 0 <= i < |ds| && ds[i].confidence >= SKIP_TIER3_THRESHOLD;
      assert (ds + [d])[i] == ds[i];
    }
  }

  /** Only with pressure data does the loop over the findings adjust their confidence. */
  method CalibrateDiagnoses(items: seq<Diagnosis>, q: Query) returns (r: seq<Diagnosis>)
    ensures r == Map(Calibration(q), items)
  {
    r := items;
    if Calibrates(q) {
      var psi := q.diff.latest.value.psi;
      for i := 0 to |items|
        invariant |r| == |items|
        invariant forall k :: 0 <= k < i ==> r[k] == Calibration(q)(items[k])
        invariant forall k :: i <= k < |items| ==> r[k] == items[k]
      {
        r := r[i := Calibrate(q.classify, psi, r[i])];
      }
    }
  }
}
