/**
 * The milestone rules engine (src/logic/engine.ts): risk classification,
 * blocker detection, next-action prioritisation and prep-pack assembly.
 * The clock is a parameter `now` (milliseconds since the epoch).
 */
module Engine {
  import opened Domain
  import opened Text
  import Lists
  import StableSort

  // ================================================================== risk

  datatype RiskLevel = Green | Amber | Red

  /** Green < Amber < Red. */
  function Severity(r: RiskLevel): nat {
    match r
    case Green => 0
    case Amber => 1
    case Red => 2
  }

  /** Whole days until the milestone is due, rounded toward minus infinity. */
  function DaysUntilDue(m: Milestone, now: int): int {
    WholeDays(m.due - now)
  }

  /** `computeRisk`. */
  function ComputeRisk(m: Milestone, now: int): (r: RiskLevel)
    ensures r == Red ==> m.status == Overdue || m.status == Active
    ensures r == Amber ==> m.status == Active || m.status == Upcoming
  {
    var days := DaysUntilDue(m, now);
    if m.status == Overdue then Red
    else if m.status == Completed then Green
    else if m.status == Active && (days < 7 || Below(m.progress, 30)) then Red
    else if m.status == Active && (days < 14 || Below(m.progress, 60)) then Amber
    else if m.status == Upcoming && days < 30 then Amber
    else Green
  }

  /** Overdue is always red and completed always green, whatever the date and progress. */
  lemma RiskOfClosedStatus(m: Milestone, now: int)
    ensures m.status == Overdue ==> ComputeRisk(m, now) == Red
    ensures m.status == Completed ==> ComputeRisk(m, now) == Green
  {
  }

  /** The two thresholds of an active milestone are independent disjunctions. */
  lemma RiskOfActive(m: Milestone, now: int)
    requires m.status == Active
    ensures var days := DaysUntilDue(m, now);
      var red := days < 7 || Below(m.progress, 30);
      var amber := days < 14 || Below(m.progress, 60);
      (ComputeRisk(m, now) == Red <==> red)
      && (ComputeRisk(m, now) == Amber <==> !red && amber)
      && (ComputeRisk(m, now) == Green <==> !red && !amber)
  {
  }

  /** An upcoming milestone is amber inside thirty days and green otherwise. */
  lemma RiskOfUpcoming(m: Milestone, now: int)
    requires m.status == Upcoming
    ensures ComputeRisk(m, now) == (if DaysUntilDue(m, now) < 30 then Amber else Green)
  {
  }

  /** A progress of `NaN` (a milestone without steps) passes both progress thresholds. */
  lemma RiskIgnoresNaNProgress(m: Milestone, now: int)
    ensures ComputeRisk(m.(progress := NaN), now) == ComputeRisk(m.(progress := Pct(100)), now)
  {
  }

  lemma WholeDaysMonotone(a: int, b: int)
    requires a <= b
    ensures WholeDays(a) <= WholeDays(b)
  {
    DivFloor(a, DAY_MS);
    DivFloor(b, DAY_MS);
    MulMonotone(DAY_MS, a / DAY_MS, b / DAY_MS);
  }

  /** As the clock advances the risk of a milestone never drops. */
  lemma RiskGrowsWithTime(m: Milestone, now: int, later: int)
    requires now <= later
    ensures Severity(ComputeRisk(m, now)) <= Severity(ComputeRisk(m, later))
  {
    WholeDaysMonotone(m.due - later, m.due - now);
  }

  /** More progress never raises the risk. */
  lemma RiskFallsWithProgress(m: Milestone, now: int, p: int, q: int)
    requires p <= q
    ensures Severity(ComputeRisk(m.(progress := Pct(q)), now)) <= Severity(ComputeRisk(m.(progress := Pct(p)), now))
  {
  }

  /** An active milestone due in three days with 20% progress is red. */
  lemma RiskScenarioActiveSoon(m: Milestone, now: int)
    requires m.status == Active && m.due == now + 3 * DAY_MS && m.progress == Pct(20)
    ensures ComputeRisk(m, now) == Red
  {
  }

  /** An upcoming milestone due in forty-five days is green. */
  lemma RiskScenarioUpcomingLater(m: Milestone, now: int)
    requires m.status == Upcoming && m.due == now + 45 * DAY_MS
    ensures ComputeRisk(m, now) == Green
  {
  }

  // ============================================================== blockers

  datatype BlockerKind = DocBlocker | EligibilityBlocker

  datatype Blocker = Blocker(id: string, caption: string, kind: BlockerKind, milestoneId: string, stepId: Option<string>)

  /** `documents.some(d => d.category === cat && d.milestoneId === id)`. */
  predicate HasScopedDoc(docs: seq<StoredDoc>, cat: DocCategory, id: string) {
    exists i :: 0 <= i < |docs| && docs[i].category == cat && docs[i].milestoneId == Some(id)
  }

  /** `documents.some(d => d.category === cat)`. */
  predicate HasDocOf(docs: seq<StoredDoc>, cat: DocCategory) {
    exists i :: 0 <= i < |docs| && docs[i].category == cat
  }

  /** A step that still waits for an upload. */
  predicate IsPendingUpload(s: Step) {
    !s.done && s.requiresUpload
  }

  predicate HasPendingUpload(steps: seq<Step>) {
    exists i :: 0 <= i < |steps| && IsPendingUpload(steps[i])
  }

  /** `steps.filter(isPendingUpload).length > 0` says the same. */
  lemma PendingFilterNonEmpty(steps: seq<Step>)
    ensures |Lists.Filter(steps, IsPendingUpload)| > 0 <==> HasPendingUpload(steps)
  {
    var p := Lists.Filter(steps, IsPendingUpload);
    Lists.FilterMembers(steps, IsPendingUpload);
    if |p| > 0 {
      assert p[0] in steps && IsPendingUpload(p[0]);
    }
    if HasPendingUpload(steps) {
      var i :| 0 <= i < |steps| && IsPendingUpload(steps[i]);
      assert steps[i] in p;
    }
  }

  /** Whole thirty-day months from `now` until `expiry`, rounded toward minus infinity. */
  function MonthsUntil(expiry: int, now: int): int {
    (expiry - now) / MONTH30_MS
  }

  /** The six blocker rules, in the order the engine evaluates them. */
  datatype Rule = MissingI20 | MissingPassport | MissingI20Dso | MissingJobOffer | PassportExpiry | IncompleteSteps

  function Rank(r: Rule): nat {
    match r
    case MissingI20 => 0
    case MissingPassport => 1
    case MissingI20Dso => 2
    case MissingJobOffer => 3
    case PassportExpiry => 4
    case IncompleteSteps => 5
  }

  /** The id suffix each rule appends to the milestone id. */
  function Suffix(r: Rule): string {
    match r
    case MissingI20 => "-missing-i20"
    case MissingPassport => "-missing-passport"
    case MissingI20Dso => "-missing-i20-dso"
    case MissingJobOffer => "-missing-job-offer"
    case PassportExpiry => "-passport-expiry"
    case IncompleteSteps => "-incomplete-steps"
  }

  lemma SuffixInjective(r1: Rule, r2: Rule)
    requires Suffix(r1) == Suffix(r2)
    ensures r1 == r2
  {
  }

  /** Whether a rule fires for a milestone. */
  predicate Fires(r: Rule, m: Milestone, docs: seq<StoredDoc>, profile: Option<Profile>, now: int) {
    match r
    case MissingI20 => m.kind == SSN && !HasScopedDoc(docs, I20Document, m.id)
    case MissingPassport => m.kind == SSN && !HasDocOf(docs, Passport)
    case MissingI20Dso => m.kind == OPT && !HasScopedDoc(docs, I20Document, m.id)
    case MissingJobOffer => m.kind == CPT && !HasScopedDoc(docs, JobOffer, m.id)
    case PassportExpiry =>
      profile.Some? && profile.value.passportExpiry.Some?
      && MonthsUntil(profile.value.passportExpiry.value, now) < 6
      && (m.kind == TRAVEL || m.kind == OPT)
    case IncompleteSteps => HasPendingUpload(m.steps) && m.status == Active
  }

  /** "N required step(s) incomplete". */
  function PendingCaption(n: nat): string {
    NatToString(n) + " required step" + (if n > 1 then "s" else "") + " incomplete"
  }

  /** The blocker record a firing rule contributes. */
  function BlockerFor(r: Rule, m: Milestone, profile: Option<Profile>, now: int): (b: Blocker)
    ensures b.id == m.id + Suffix(r) && b.milestoneId == m.id
    ensures b.kind == DocBlocker <==> Rank(r) <= 3
  {
    match r
    case MissingI20 => Blocker(m.id + Suffix(r), "Missing I-20 document", DocBlocker, m.id, None)
    case MissingPassport => Blocker(m.id + Suffix(r), "Missing passport copy", DocBlocker, m.id, None)
    case MissingI20Dso => Blocker(m.id + Suffix(r), "Missing I-20 with DSO endorsement", DocBlocker, m.id, None)
    case MissingJobOffer => Blocker(m.id + Suffix(r), "Missing job offer letter", DocBlocker, m.id, None)
    case PassportExpiry =>
      var months := if profile.Some? && profile.value.passportExpiry.Some?
        then MonthsUntil(profile.value.passportExpiry.value, now) else 0;
      Blocker(m.id + Suffix(r), "Passport expires in " + IntToString(months) + " months (need 6+ for visa)",
              EligibilityBlocker, m.id, None)
    case IncompleteSteps =>
      var pending := Lists.Filter(m.steps, IsPendingUpload);
      Blocker(m.id + Suffix(r), PendingCaption(|pending|), EligibilityBlocker, m.id,
              if pending == [] then None else Some(pending[0].id))
  }

  /** The rule at a given position of the evaluation order. */
  function RuleAt(k: nat): (r: Rule)
    requires k < 6
    ensures Rank(r) == k
  {
    [MissingI20, MissingPassport, MissingI20Dso, MissingJobOffer, PassportExpiry, IncompleteSteps][k]
  }

  /** The rules among the first `k` that fire, in evaluation order. */
  function FiredUpTo(k: nat, m: Milestone, docs: seq<StoredDoc>, profile: Option<Profile>, now: int): seq<Rule>
    requires k <= 6
  {
    if k == 0 then []
    else
      var r := RuleAt(k - 1);
      FiredUpTo(k - 1, m, docs, profile, now) + (if Fires(r, m, docs, profile, now) then [r] else [])
  }

  /** One more rule of the evaluation order: it is appended exactly when it fires. */
  lemma FiredNext(k: nat, r: Rule, m: Milestone, docs: seq<StoredDoc>, profile: Option<Profile>, now: int)
    requires k < 6 && r == RuleAt(k)
    ensures FiredUpTo(k + 1, m, docs, profile, now)
      == FiredUpTo(k, m, docs, profile, now) + (if Fires(r, m, docs, profile, now) then [r] else [])
  {
  }

  /** Exactly the firing rules among the first `k` are listed, in strictly increasing rank. */
  lemma {:induction false} FiredUpToExact(k: nat, m: Milestone, docs: seq<StoredDoc>, profile: Option<Profile>, now: int)
    requires k <= 6
    ensures var rs := FiredUpTo(k, m, docs, profile, now);
      (forall r :: r in rs <==> Rank(r) < k && Fires(r, m, docs, profile, now))
      && (forall i, j :: 0 <= i < j < |rs| ==> Rank(rs[i]) < Rank(rs[j]))
  {
    if k > 0 {
      FiredUpToExact(k - 1, m, docs, profile, now);
      var rs := FiredUpTo(k - 1, m, docs, profile, now);
      var r := RuleAt(k - 1);
      var add := if Fires(r, m, docs, profile, now) then [r] else [];
      assert FiredUpTo(k, m, docs, profile, now) == rs + add;
      forall x ensures x in rs + add <==> Rank(x) < k && Fires(x, m, docs, profile, now) {
        assert x in rs + add <==> x in rs || x in add;
      }
      forall i, j | 0 <= i < j < |rs + add| ensures Rank((rs + add)[i]) < Rank((rs + add)[j]) {
        if j >= |rs| {
          assert (rs + add)[i] == rs[i] && rs[i] in rs;
        }
      }
    }
  }

  /** The rules that fire, in evaluation order. */
  function FiredRules(m: Milestone, docs: seq<StoredDoc>, profile: Option<Profile>, now: int): seq<Rule> {
    FiredUpTo(6, m, docs, profile, now)
  }

  /** A rule is listed iff it fires, and the list follows the evaluation order. */
  lemma FiredRulesExact(m: Milestone, docs: seq<StoredDoc>, profile: Option<Profile>, now: int)
    ensures var rs := FiredRules(m, docs, profile, now);
      (forall r :: r in rs <==> Fires(r, m, docs, profile, now))
      && (forall i, j :: 0 <= i < j < |rs| ==> Rank(rs[i]) < Rank(rs[j]))
  {
    FiredUpToExact(6, m, docs, profile, now);
  }

  /** The blocker record of each rule, for one milestone. */
  function BlockerOf(m: Milestone, profile: Option<Profile>, now: int): Rule -> Blocker {
    r => BlockerFor(r, m, profile, now)
  }

  function BlockersOf(rs: seq<Rule>, m: Milestone, profile: Option<Profile>, now: int): (bs: seq<Blocker>)
    ensures |bs| == |rs|
  {
    Lists.Map(rs, BlockerOf(m, profile, now))
  }

  lemma BlockersOfAt(rs: seq<Rule>, m: Milestone, profile: Option<Profile>, now: int)
    ensures var bs := BlockersOf(rs, m, profile, now);
      forall i :: 0 <= i < |rs| ==> bs[i] == BlockerFor(rs[i], m, profile, now)
  {
    Lists.MapAt(rs, BlockerOf(m, profile, now));
  }

  /** The blockers of a milestone: one record per firing rule, in rule order. */
  function Blockers(m: Milestone, docs: seq<StoredDoc>, profile: Option<Profile>, now: int): seq<Blocker> {
    BlockersOf(FiredRules(m, docs, profile, now), m, profile, now)
  }

  /** `findBlockers`: rule by rule, each firing rule appends its blocker. */
  method FindBlockers(m: Milestone, docs: seq<StoredDoc>, profile: Option<Profile>, now: int)
    returns (blockers: seq<Blocker>)
    ensures blockers == Blockers(m, docs, profile, now)
  {
    ghost var fired;
    blockers, fired := DocumentBlockers(m, docs, profile, now);
    if profile.Some? && profile.value.passportExpiry.Some? {
      var months := MonthsUntil(profile.value.passportExpiry.value, now);
      if months < 6 && (m.kind == TRAVEL || m.kind == OPT) {
        blockers, fired := Push(blockers, fired, PassportExpiry, m, profile, now);
      }
    }
    assert fired == FiredUpTo(5, m, docs, profile, now);
    ghost var before := fired;
    var incomplete := Lists.Filter(m.steps, IsPendingUpload);
    PendingFilterNonEmpty(m.steps);
    assert Fires(IncompleteSteps, m, docs, profile, now) <==> |incomplete| > 0 && m.status == Active;
    if |incomplete| > 0 && m.status == Active {
      blockers, fired := Push(blockers, fired, IncompleteSteps, m, profile, now);
    }
    assert fired == before + if Fires(IncompleteSteps, m, docs, profile, now) then [IncompleteSteps] else [];
  }

  /** The missing-document rules of `findBlockers`, for SSN, OPT and CPT milestones. */
  method DocumentBlockers(m: Milestone, docs: seq<StoredDoc>, profile: Option<Profile>, now: int)
    returns (blockers: seq<Blocker>, ghost fired: seq<Rule>)
    ensures fired == FiredUpTo(4, m, docs, profile, now)
    ensures blockers == BlockersOf(fired, m, profile, now)
  {
    blockers, fired := [], [];
    ghost var before := fired;
    if m.kind == SSN {
      if !HasScopedDoc(docs, I20Document, m.id) {
        blockers, fired := Push(blockers, fired, MissingI20, m, profile, now);
      }
      before := fired;
      if !HasDocOf(docs, Passport) {
        blockers, fired := Push(blockers, fired, MissingPassport, m, profile, now);
      }
    }
    FiredNext(0, MissingI20, m, docs, profile, now);
    FiredNext(1, MissingPassport, m, docs, profile, now);
    assert fired == FiredUpTo(2, m, docs, profile, now);
    before := fired;
    if m.kind == OPT {
      if !HasScopedDoc(docs, I20Document, m.id) {
        blockers, fired := Push(blockers, fired, MissingI20Dso, m, profile, now);
      }
    }
    FiredNext(2, MissingI20Dso, m, docs, profile, now);
    assert fired == FiredUpTo(3, m, docs, profile, now);
    before := fired;
    if m.kind == CPT {
      if !HasScopedDoc(docs, JobOffer, m.id) {
        blockers, fired := Push(blockers, fired, MissingJobOffer, m, profile, now);
      }
    }
    FiredNext(3, MissingJobOffer, m, docs, profile, now);
  }

  /** One `blockers.push`, with the rules fired so far as a ghost record. */
  method Push(blockers: seq<Blocker>, ghost fired: seq<Rule>, r: Rule, m: Milestone, profile: Option<Profile>, now: int)
    returns (blockers': seq<Blocker>, ghost fired': seq<Rule>)
    requires blockers == BlockersOf(fired, m, profile, now)
    ensures fired' == fired + [r]
    ensures blockers' == BlockersOf(fired', m, profile, now)
  {
    blockers' := blockers + [BlockerFor(r, m, profile, now)];
    fired' := fired + [r];
    Lists.MapConcat(fired, [r], BlockerOf(m, profile, now));
  }

  lemma PrefixCancel(p: string, x: string, y: string)
    requires p + x == p + y
    ensures x == y
  {
    assert x == (p + x)[|p|..];
    assert y == (p + y)[|p|..];
  }

  /** Every blocker belongs to the milestone, and ids are pairwise distinct. */
  lemma BlockersIdentified(m: Milestone, docs: seq<StoredDoc>, profile: Option<Profile>, now: int)
    ensures var bs := Blockers(m, docs, profile, now);
      (forall i :: 0 <= i < |bs| ==> bs[i].milestoneId == m.id)
      && (forall i, j :: 0 <= i < j < |bs| ==> bs[i].id != bs[j].id)
  {
    var rs := FiredRules(m, docs, profile, now);
    BlockersOfAt(rs, m, profile, now);
    var bs := Blockers(m, docs, profile, now);
    FiredRulesExact(m, docs, profile, now);
    forall i, j | 0 <= i < j < |bs| ensures bs[i].id != bs[j].id {
      if bs[i].id == bs[j].id {
        PrefixCancel(m.id, Suffix(rs[i]), Suffix(rs[j]));
        SuffixInjective(rs[i], rs[j]);
      }
    }
  }

  /** A blocker with a rule's id is present iff that rule fires. */
  lemma BlockerPresentIffFires(m: Milestone, docs: seq<StoredDoc>, profile: Option<Profile>, now: int, r: Rule)
    ensures var bs := Blockers(m, docs, profile, now);
      (exists i :: 0 <= i < |bs| && bs[i].id == m.id + Suffix(r)) <==> Fires(r, m, docs, profile, now)
  {
    var rs := FiredRules(m, docs, profile, now);
    BlockersOfAt(rs, m, profile, now);
    var bs := Blockers(m, docs, profile, now);
    FiredRulesExact(m, docs, profile, now);
    if Fires(r, m, docs, profile, now) {
      var i :| 0 <= i < |rs| && rs[i] == r;
      assert bs[i].id == m.id + Suffix(r);
    }
    if i :| 0 <= i < |bs| && bs[i].id == m.id + Suffix(r) {
      PrefixCancel(m.id, Suffix(rs[i]), Suffix(r));
      SuffixInjective(rs[i], r);
      assert rs[i] in rs;
    }
  }

  /** Document blockers arise only for SSN, OPT and CPT milestones, and there are at most three blockers. */
  lemma BlockersBounded(m: Milestone, docs: seq<StoredDoc>, profile: Option<Profile>, now: int)
    ensures var bs := Blockers(m, docs, profile, now);
      |bs| <= 3
      && forall i :: 0 <= i < |bs| && bs[i].kind == DocBlocker ==> m.kind in {SSN, OPT, CPT}
  {
    var rs := FiredRules(m, docs, profile, now);
    BlockersOfAt(rs, m, profile, now);
    var bs := Blockers(m, docs, profile, now);
    assert |rs| <= 3 by {
      FiredCount(m, docs, profile, now);
    }
    FiredRulesExact(m, docs, profile, now);
    forall i | 0 <= i < |bs| && bs[i].kind == DocBlocker ensures m.kind in {SSN, OPT, CPT} {
      var r := rs[i];
      assert bs[i] == BlockerFor(r, m, profile, now);
      assert r in rs;
      DocumentRuleKinds(r, m, docs, profile, now);
    }
  }

  /** The four document rules fire only for SSN, OPT and CPT milestones. */
  lemma DocumentRuleKinds(r: Rule, m: Milestone, docs: seq<StoredDoc>, profile: Option<Profile>, now: int)
    requires Rank(r) <= 3 && Fires(r, m, docs, profile, now)
    ensures m.kind in {SSN, OPT, CPT}
  {
  }

  /**
   * The incomplete-steps blocker, when present, is the last one; it counts the
   * pending upload steps and points at the first of them.
   */
  lemma IncompleteStepsBlocker(m: Milestone, docs: seq<StoredDoc>, profile: Option<Profile>, now: int)
    requires Fires(IncompleteSteps, m, docs, profile, now)
    ensures var bs := Blockers(m, docs, profile, now);
      |bs| > 0
      && bs[|bs| - 1].id == m.id + "-incomplete-steps"
      && bs[|bs| - 1].caption == PendingCaption(Lists.Count(m.steps, IsPendingUpload))
      && exists k :: 0 <= k < |m.steps| && IsPendingUpload(m.steps[k])
           && (forall j :: 0 <= j < k ==> !IsPendingUpload(m.steps[j]))
           && bs[|bs| - 1].stepId == Some(m.steps[k].id)
  {
    var rs := FiredRules(m, docs, profile, now);
    BlockersOfAt(rs, m, profile, now);
    assert rs == FiredUpTo(5, m, docs, profile, now) + [IncompleteSteps];
    var k := FirstPending(m.steps);
    Lists.FilterHead(m.steps, IsPendingUpload, k);
  }

  /** The least index of a pending upload step. */
  lemma FirstPending(steps: seq<Step>) returns (k: nat)
    requires HasPendingUpload(steps)
    ensures k < |steps| && IsPendingUpload(steps[k])
    ensures forall j :: 0 <= j < k ==> !IsPendingUpload(steps[j])
  {
    k := 0;
    while !IsPendingUpload(steps[k])
      invariant k < |steps|
      invariant forall j :: 0 <= j < k ==> !IsPendingUpload(steps[j])
      invariant exists i :: k <= i < |steps| && IsPendingUpload(steps[i])
      decreases |steps| - k
    {
      k := k + 1;
    }
  }

  /**
   * An SSN milestone with no I-20 and no passport on file, and no pending
   * upload step, has exactly the two missing-document blockers.
   */
  lemma SsnMissingBothDocuments(m: Milestone, docs: seq<StoredDoc>, profile: Option<Profile>, now: int)
    requires m.kind == SSN
    requires forall i :: 0 <= i < |docs| ==> docs[i].category != I20Document && docs[i].category != Passport
    requires !HasPendingUpload(m.steps)
    ensures var bs := Blockers(m, docs, profile, now);
      |bs| == 2 && bs[0].kind == DocBlocker && bs[1].kind == DocBlocker
      && bs[0].id == m.id + "-missing-i20" && bs[1].id == m.id + "-missing-passport"
  {
    FiredCount(m, docs, profile, now);
    assert FiredRules(m, docs, profile, now) == [MissingI20, MissingPassport];
    BlockersOfAt([MissingI20, MissingPassport], m, profile, now);
  }

  /** The rule table written out: each rule contributes itself when it fires. */
  lemma FiredCount(m: Milestone, docs: seq<StoredDoc>, profile: Option<Profile>, now: int)
    ensures FiredRules(m, docs, profile, now)
      == (if Fires(MissingI20, m, docs, profile, now) then [MissingI20] else [])
       + (if Fires(MissingPassport, m, docs, profile, now) then [MissingPassport] else [])
       + (if Fires(MissingI20Dso, m, docs, profile, now) then [MissingI20Dso] else [])
       + (if Fires(MissingJobOffer, m, docs, profile, now) then [MissingJobOffer] else [])
       + (if Fires(PassportExpiry, m, docs, profile, now) then [PassportExpiry] else [])
       + (if Fires(IncompleteSteps, m, docs, profile, now) then [IncompleteSteps] else [])
  {
    assert FiredUpTo(0, m, docs, profile, now) == [];
    assert FiredUpTo(1, m, docs, profile, now) == (if Fires(MissingI20, m, docs, profile, now) then [MissingI20] else []);
    assert FiredUpTo(2, m, docs, profile, now) == FiredUpTo(1, m, docs, profile, now) + (if Fires(MissingPassport, m, docs, profile, now) then [MissingPassport] else []);
    assert FiredUpTo(3, m, docs, profile, now) == FiredUpTo(2, m, docs, profile, now) + (if Fires(MissingI20Dso, m, docs, profile, now) then [MissingI20Dso] else []);
    assert FiredUpTo(4, m, docs, profile, now) == FiredUpTo(3, m, docs, profile, now) + (if Fires(MissingJobOffer, m, docs, profile, now) then [MissingJobOffer] else []);
    assert FiredUpTo(5, m, docs, profile, now) == FiredUpTo(4, m, docs, profile, now) + (if Fires(PassportExpiry, m, docs, profile, now) then [PassportExpiry] else []);
  }

  // ========================================================== next actions

  datatype Cta = OpenUpload | OpenForm | OpenStep | GeneratePrepPack

  datatype NextAction = NextAction(id: string, caption: string, cta: Cta, milestoneId: string, stepId: Option<string>, icon: string)

  predicate IsPriority(m: Milestone) {
    m.status == Active || m.status == Overdue
  }

  /** The comparator as a key: overdue milestones first, then by due date. */
  function PriorityKey(m: Milestone): (int, int) {
    (if m.status == Overdue then 0 else 1, m.due)
  }

  /** The active and overdue milestones in the order the engine works through them. */
  function PriorityMilestones(ms: seq<Milestone>): seq<Milestone> {
    StableSort.Sort(Lists.Filter(ms, IsPriority), PriorityKey)
  }

  /** `steps.find(s => !s.done)`, as an index. */
  function FirstOpenStep(steps: seq<Step>): (k: Option<nat>)
    ensures k.Some? ==> (k.value < |steps| && !steps[k.value].done
                         && forall j :: 0 <= j < k.value ==> steps[j].done)
    ensures k.None? ==> forall j :: 0 <= j < |steps| ==> steps[j].done
  {
    if steps == [] then None
    else if !steps[0].done then Some(0)
    else match FirstOpenStep(steps[1..])
      case None => None
      case Some(k) => Some(k + 1)
  }

  /** The call to action for a step: upload first, then a form, then the step itself. */
  function StepCta(s: Step): Cta {
    if s.requiresUpload then OpenUpload else if s.formId.Some? then OpenForm else OpenStep
  }

  function StepAction(m: Milestone, s: Step): (a: NextAction)
    ensures a.cta == StepCta(s) && a.milestoneId == m.id && a.stepId == Some(s.id)
  {
    if s.requiresUpload then
      NextAction("upload-" + m.id + "-" + s.id, "Upload " + s.title + " for " + m.title, OpenUpload, m.id, Some(s.id), "Upload")
    else if s.formId.Some? then
      NextAction("form-" + m.id + "-" + s.id, "Fill " + FormName(s.formId.value) + " form for " + m.title, OpenForm, m.id, Some(s.id), "FileText")
    else
      NextAction("step-" + m.id + "-" + s.id, s.title, OpenStep, m.id, Some(s.id), "CheckSquare")
  }

  /** Due in one to thirteen whole days and more than half done. */
  predicate PrepPackDue(m: Milestone, now: int) {
    var days := DaysUntilDue(m, now);
    days < 14 && days > 0 && Above(m.progress, 50)
  }

  function PrepPackAction(m: Milestone): (a: NextAction)
    ensures a.cta == GeneratePrepPack && a.milestoneId == m.id && a.stepId == None
  {
    NextAction("preppack-" + m.id, "Generate " + m.title + " prep pack", GeneratePrepPack, m.id, None, "Package")
  }

  /** What one milestone contributes: its first open step, then possibly a prep pack. */
  function ActionsFor(m: Milestone, now: int): (r: seq<NextAction>)
    ensures |r| <= 2 && forall x :: 0 <= x < |r| ==> r[x].milestoneId == m.id
  {
    (match FirstOpenStep(m.steps)
     case None => []
     case Some(k) => [StepAction(m, m.steps[k])])
    + (if PrepPackDue(m, now) then [PrepPackAction(m)] else [])
  }

  function StepPart(m: Milestone): seq<NextAction> {
    match FirstOpenStep(m.steps)
    case None => []
    case Some(k) => [StepAction(m, m.steps[k])]
  }

  function PrepPart(m: Milestone, now: int): seq<NextAction> {
    if PrepPackDue(m, now) then [PrepPackAction(m)] else []
  }

  /** The two parts of a milestone's actions, as the loop body computes them. */
  lemma ActionsForParts(m: Milestone, now: int)
    ensures ActionsFor(m, now) == StepPart(m) + PrepPart(m, now)
    ensures var open := FirstOpenStep(m.steps);
      StepPart(m) == if open.Some? then [StepAction(m, m.steps[open.value])] else []
    ensures var days := WholeDays(m.due - now);
      PrepPart(m, now) == if days < 14 && days > 0 && Above(m.progress, 50) then [PrepPackAction(m)] else []
  {
  }

  /** The actions of the first `i` milestones of a list, one milestone after another. */
  function FlattenUpTo(ps: seq<Milestone>, i: nat, now: int): seq<NextAction>
    requires i <= |ps|
  {
    if i == 0 then [] else FlattenUpTo(ps, i - 1, now) + ActionsFor(ps[i - 1], now)
  }

  /** Working through more milestones only appends actions. */
  lemma {:induction false} FlattenUpToPrefix(ps: seq<Milestone>, i: nat, j: nat, now: int)
    requires i <= j <= |ps|
    ensures FlattenUpTo(ps, i, now) <= FlattenUpTo(ps, j, now)
  {
    if i < j {
      FlattenUpToPrefix(ps, i, j - 1, now);
      var a, b := FlattenUpTo(ps, i, now), FlattenUpTo(ps, j - 1, now);
      assert FlattenUpTo(ps, j, now) == b + ActionsFor(ps[j - 1], now);
      assert a <= b;
      PrefixOfAppend(a, b, ActionsFor(ps[j - 1], now));
    }
  }

  lemma PrefixOfAppend<T>(a: seq<T>, b: seq<T>, c: seq<T>)
    requires a <= b
    ensures a <= b + c
  {
    assert (b + c)[..|a|] == b[..|a|];
  }

  /** `xs.slice(0, n)`. */
  function Take<T>(xs: seq<T>, n: nat): (r: seq<T>)
    ensures |r| <= n && r <= xs
    ensures |xs| <= n ==> r == xs
  {
    if |xs| <= n then xs else xs[..n]
  }

  /** The next actions: the first three of the flattened, prioritised list. */
  function NextActionsOf(ms: seq<Milestone>, now: int): seq<NextAction> {
    var ps := PriorityMilestones(ms);
    Take(FlattenUpTo(ps, |ps|, now), 3)
  }

  /** `nextActions`: walk the prioritised milestones, stop once three actions are collected. */
  method NextActions(ms: seq<Milestone>, now: int) returns (actions: seq<NextAction>)
    ensures actions == NextActionsOf(ms, now)
    ensures |actions| <= 3
  {
    var priority := PriorityMilestones(ms);
    actions := [];
    var i := 0;
    while i < |priority|
      invariant 0 <= i <= |priority|
      invariant actions == FlattenUpTo(priority, i, now)
      invariant |actions| < 3
    {
      actions := PushMilestoneActions(actions, priority[i], now);
      i := i + 1;
      if |actions| >= 3 {
        break;
      }
    }
    FlattenCut(priority, i, now);
    actions := Take(actions, 3);
  }

  /** The loop body of `nextActions`: push the milestone's step action, then its prep-pack action. */
  method PushMilestoneActions(actions: seq<NextAction>, m: Milestone, now: int) returns (actions': seq<NextAction>)
    ensures actions' == actions + ActionsFor(m, now)
  {
    actions' := actions;
    var open := FirstOpenStep(m.steps);
    if open.Some? {
      actions' := actions' + [StepAction(m, m.steps[open.value])];
    }
    var days := WholeDays(m.due - now);
    if days < 14 && days > 0 && Above(m.progress, 50) {
      actions' := actions' + [PrepPackAction(m)];
    }
    ActionsForParts(m, now);
  }

  /** Once three actions are collected, the remaining milestones cannot change the first three. */
  lemma FlattenCut(ps: seq<Milestone>, i: nat, now: int)
    requires i <= |ps|
    requires i == |ps| || |FlattenUpTo(ps, i, now)| >= 3
    ensures Take(FlattenUpTo(ps, i, now), 3) == Take(FlattenUpTo(ps, |ps|, now), 3)
  {
    FlattenUpToPrefix(ps, i, |ps|, now);
  }

  /**
   * What one milestone contributes: at most one step action, for its first
   * open step, with the call to action that step calls for; and a prep-pack
   * action iff the milestone is due in 1..13 days and more than half done,
   * placed last, whether or not a step is open.
   */
  lemma ActionsForShape(m: Milestone, now: int)
    ensures var a := ActionsFor(m, now);
      ((exists x :: 0 <= x < |a| && a[x].cta == GeneratePrepPack) <==> PrepPackDue(m, now))
      && (PrepPackDue(m, now) ==> a[|a| - 1] == PrepPackAction(m))
      && (forall x, y :: 0 <= x < |a| && 0 <= y < |a| && a[x].cta != GeneratePrepPack && a[y].cta != GeneratePrepPack ==> x == y)
      && ((exists x :: 0 <= x < |a| && a[x].cta != GeneratePrepPack) <==> exists k :: 0 <= k < |m.steps| && !m.steps[k].done)
      && (forall k :: 0 <= k < |m.steps| && !m.steps[k].done && (forall j :: 0 <= j < k ==> m.steps[j].done) ==>
            a[0].stepId == Some(m.steps[k].id) && a[0].cta == StepCta(m.steps[k]))
  {
    var a := ActionsFor(m, now);
    var open := FirstOpenStep(m.steps);
    ActionsForParts(m, now);
    if PrepPackDue(m, now) {
      assert a[|a| - 1].cta == GeneratePrepPack;
    } else {
      assert a == StepPart(m);
    }
    if open.Some? {
      assert a[0] == StepAction(m, m.steps[open.value]);
      assert a[0].cta != GeneratePrepPack;
      assert a[0].stepId == Some(m.steps[open.value].id);
    }
  }

  /** Every action names one of the milestones. */
  predicate NamesAmong(acts: seq<NextAction>, ms: seq<Milestone>) {
    forall x :: 0 <= x < |acts| ==> exists k :: 0 <= k < |ms| && acts[x].milestoneId == ms[k].id
  }

  /** Every action the first `i` milestones contribute names one of them. */
  lemma {:induction false} FlattenUpToOwners(ps: seq<Milestone>, i: nat, now: int)
    requires i <= |ps|
    ensures NamesAmong(FlattenUpTo(ps, i, now), ps[..i])
  {
    if i > 0 {
      FlattenUpToOwners(ps, i - 1, now);
      var g := FlattenUpTo(ps, i - 1, now);
      var a := ActionsFor(ps[i - 1], now);
      var f: seq<NextAction> := g + a;
      assert FlattenUpTo(ps, i, now) == f;
      forall x | 0 <= x < |f| ensures exists k :: 0 <= k < i && f[x].milestoneId == ps[..i][k].id {
        if x < |g| {
          var k :| 0 <= k < i - 1 && g[x].milestoneId == ps[..i - 1][k].id;
          assert f[x].milestoneId == ps[..i][k].id;
        } else {
          assert f[x] == a[x - |g|];
          assert f[x].milestoneId == ps[..i][i - 1].id;
        }
      }
    }
  }

  /**
   * The prioritised milestones are exactly the active and overdue ones,
   * overdue before active, each group by ascending due date, and equal keys
   * in their original order.
   */
  lemma PriorityOrder(ms: seq<Milestone>)
    ensures var ps := PriorityMilestones(ms);
      multiset(ps) == multiset(Lists.Filter(ms, IsPriority))
      && (forall i :: 0 <= i < |ps| ==> IsPriority(ps[i]) && ps[i] in ms)
      && (forall i, j :: 0 <= i < j < |ps| && ps[j].status == Overdue ==> ps[i].status == Overdue)
      && (forall i, j :: 0 <= i < j < |ps| && ps[i].status == ps[j].status ==> ps[i].due <= ps[j].due)
      && (forall k :: StableSort.WithKey(ps, PriorityKey, k) == StableSort.WithKey(Lists.Filter(ms, IsPriority), PriorityKey, k))
  {
    var fs := Lists.Filter(ms, IsPriority);
    var ps := PriorityMilestones(ms);
    StableSort.SortPermutes(fs, PriorityKey);
    StableSort.SortSorted(fs, PriorityKey);
    Lists.FilterMembers(ms, IsPriority);
    forall k ensures StableSort.WithKey(ps, PriorityKey, k) == StableSort.WithKey(fs, PriorityKey, k) {
      StableSort.SortStable(fs, PriorityKey, k);
    }
    PriorityMembers(ms);
    forall i, j | 0 <= i < j < |ps| ensures StableSort.KeyAtMost(PriorityKey(ps[i]), PriorityKey(ps[j])) {
    }
  }

  lemma PriorityMembers(ms: seq<Milestone>)
    ensures var ps := PriorityMilestones(ms);
      forall i :: 0 <= i < |ps| ==> IsPriority(ps[i]) && ps[i] in ms
  {
    var fs := Lists.Filter(ms, IsPriority);
    var ps := PriorityMilestones(ms);
    StableSort.SortPermutes(fs, PriorityKey);
    Lists.FilterMembers(ms, IsPriority);
    forall i | 0 <= i < |ps| ensures IsPriority(ps[i]) && ps[i] in ms {
      assert ps[i] in multiset(fs);
      var j :| 0 <= j < |fs| && fs[j] == ps[i];
    }
  }

  /** With no active or overdue milestone there is nothing to do. */
  lemma NoPriorityNoActions(ms: seq<Milestone>, now: int)
    requires forall i :: 0 <= i < |ms| ==> !IsPriority(ms[i])
    ensures NextActionsOf(ms, now) == []
  {
    Lists.FilterNone(ms, IsPriority);
  }

  /** Every action refers to an active or overdue milestone of the input. */
  lemma ActionsReferencePriority(ms: seq<Milestone>, now: int)
    ensures var r := NextActionsOf(ms, now);
      forall x :: 0 <= x < |r| ==> exists i :: 0 <= i < |ms| && ms[i].id == r[x].milestoneId && IsPriority(ms[i])
  {
    var ps := PriorityMilestones(ms);
    var r := NextActionsOf(ms, now);
    var f := FlattenUpTo(ps, |ps|, now);
    PriorityMembers(ms);
    FlattenUpToOwners(ps, |ps|, now);
    assert ps[..|ps|] == ps;
    forall x | 0 <= x < |r|
      ensures exists i :: 0 <= i < |ms| && ms[i].id == r[x].milestoneId && IsPriority(ms[i])
    {
      assert r[x] == f[x];
      var k :| 0 <= k < |ps| && f[x].milestoneId == ps[k].id;
      assert ps[k] in ms;
      var i :| 0 <= i < |ms| && ms[i] == ps[k];
    }
  }

  /**
   * An overdue milestone comes before an active one even when the active one
   * is due sooner: given the active milestone first, with an open upload step,
   * and an overdue one with an open first step, the overdue milestone's step
   * comes first and the active milestone's upload is still among the three.
   */
  lemma OverdueFirstScenario(active: Milestone, overdue: Milestone, now: int)
    requires active.status == Active && overdue.status == Overdue
    requires |active.steps| > 0 && !active.steps[0].done && active.steps[0].requiresUpload
    requires |overdue.steps| > 0 && !overdue.steps[0].done
    ensures var r := NextActionsOf([active, overdue], now);
      |r| >= 2 && r[0] == StepAction(overdue, overdue.steps[0])
      && exists x :: 0 < x < |r| && r[x] == StepAction(active, active.steps[0]) && r[x].cta == OpenUpload
  {
    var ms := [active, overdue];
    var ps := PriorityMilestones(ms);
    assert ps == [overdue, active] by {
      assert Lists.Filter(ms, IsPriority) == ms by {
        Lists.FilterKeepsAll(ms, IsPriority);
      }
      assert StableSort.Sort(ms[..1], PriorityKey) == [active];
    }
    var o, a := ActionsFor(overdue, now), ActionsFor(active, now);
    assert FlattenUpTo(ps, 2, now) == o + a by {
      assert FlattenUpTo(ps, 1, now) == o;
    }
    assert o[0] == StepAction(overdue, overdue.steps[0]);
    assert a[0] == StepAction(active, active.steps[0]);
    var r := NextActionsOf(ms, now);
    assert r == Take(o + a, 3);
    assert r[|o|] == StepAction(active, active.steps[0]);
  }

  // ============================================================= prep pack

  datatype PrepPack = PrepPack(
    id: string,
    milestoneId: string,
    title: string,
    checklist: seq<string>,
    includedDocIds: seq<string>,
    notes: string)

  /** `steps.map(s => s.title)`. */
  function StepTitles(steps: seq<Step>): (r: seq<string>)
    ensures |r| == |steps| && forall i :: 0 <= i < |steps| ==> r[i] == steps[i].title
  {
    if steps == [] then [] else [steps[0].title] + StepTitles(steps[1..])
  }

  /** `documents.filter(d => d.milestoneId === id).map(d => d.id)`. */
  function ScopedDocIds(docs: seq<StoredDoc>, id: string): seq<string> {
    if docs == [] then []
    else (if docs[0].milestoneId == Some(id) then [docs[0].id] else []) + ScopedDocIds(docs[1..], id)
  }

  /** The listed ids are exactly those of the documents filed under the milestone. */
  lemma {:induction false} ScopedDocIdsExact(docs: seq<StoredDoc>, id: string)
    ensures forall x :: x in ScopedDocIds(docs, id) <==>
      exists i :: 0 <= i < |docs| && docs[i].milestoneId == Some(id) && docs[i].id == x
  {
    if docs != [] {
      ScopedDocIdsExact(docs[1..], id);
      forall x | (exists i :: 0 <= i < |docs| && docs[i].milestoneId == Some(id) && docs[i].id == x)
        ensures x in ScopedDocIds(docs, id)
      {
        var i :| 0 <= i < |docs| && docs[i].milestoneId == Some(id) && docs[i].id == x;
        if i > 0 {
          assert docs[1..][i - 1] == docs[i];
        }
      }
      forall x | x in ScopedDocIds(docs[1..], id)
        ensures exists i :: 0 <= i < |docs| && docs[i].milestoneId == Some(id) && docs[i].id == x
      {
        var j :| 0 <= j < |docs[1..]| && docs[1..][j].milestoneId == Some(id) && docs[1..][j].id == x;
        assert docs[j + 1] == docs[1..][j];
      }
    }
  }

  /** The ids keep the order of the document list: scoping works piecewise. */
  lemma {:induction false} ScopedDocIdsConcat(a: seq<StoredDoc>, b: seq<StoredDoc>, id: string)
    ensures ScopedDocIds(a + b, id) == ScopedDocIds(a, id) + ScopedDocIds(b, id)
  {
    if a == [] {
      assert a + b == b;
    } else {
      assert (a + b)[1..] == a[1..] + b;
      ScopedDocIdsConcat(a[1..], b, id);
    }
  }

  /**
   * `genPrepPack`. `nowMs` stands for `Date.now()` and `dateText` for the
   * locale date string of the notes.
   */
  function GenPrepPack(m: Milestone, docs: seq<StoredDoc>, nowMs: int, dateText: string): (p: PrepPack)
    ensures p.milestoneId == m.id
    ensures p.title == m.title + " Preparation Pack"
    ensures |p.checklist| == |m.steps| && forall i :: 0 <= i < |m.steps| ==> p.checklist[i] == m.steps[i].title
    ensures forall x :: x in p.includedDocIds <==>
      exists i :: 0 <= i < |docs| && docs[i].milestoneId == Some(m.id) && docs[i].id == x
  {
    ScopedDocIdsExact(docs, m.id);
    PrepPack("preppack-" + m.id + "-" + IntToString(nowMs), m.id, m.title + " Preparation Pack",
             StepTitles(m.steps), ScopedDocIds(docs, m.id), "Generated on " + dateText)
  }

  /** Packs generated at different instants carry different ids. */
  lemma PrepPackIdsDiffer(m: Milestone, docs: seq<StoredDoc>, t1: int, t2: int, d1: string, d2: string)
    requires t1 != t2
    ensures GenPrepPack(m, docs, t1, d1).id != GenPrepPack(m, docs, t2, d2).id
  {
    var prefix := "preppack-" + m.id + "-";
    if GenPrepPack(m, docs, t1, d1).id == GenPrepPack(m, docs, t2, d2).id {
      assert prefix + IntToString(t1) == prefix + IntToString(t2);
      PrefixCancel(prefix, IntToString(t1), IntToString(t2));
      IntToStringInjective(t1, t2);
    }
  }
}
