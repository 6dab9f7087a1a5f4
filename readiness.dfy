/**
 * The readiness view of a milestone (src/components/ReadinessView.tsx): the
 * requirement checklist for its kind, the share of requirements met, and
 * whether an SSA appointment or an OPT application can go ahead.
 *
 * `now` stands for the clock reading the view takes, and the profile date
 * fields are time values (see module Domain).
 */
module Readiness {
  import opened Domain
  import opened Text
  import Lists
  import Engine

  datatype Requirement = Requirement(id: string, caption: string, satisfied: bool, docId: Option<string>)

  // ================================================== document look-ups

  /** The test `d => d.milestoneId === id`. */
  function FiledUnder(id: string): StoredDoc -> bool {
    (d: StoredDoc) => d.milestoneId == Some(id)
  }

  /** `documents.filter(d => d.milestoneId === milestone.id)`. */
  function MilestoneDocs(docs: seq<StoredDoc>, id: string): seq<StoredDoc> {
    Lists.Filter(docs, FiledUnder(id))
  }

  /** `docs.some(d => d.category === cat)`. */
  function SomeOfCategory(docs: seq<StoredDoc>, cat: DocCategory): bool {
    docs != [] && (docs[0].category == cat || SomeOfCategory(docs[1..], cat))
  }

  /** `docs.find(d => d.category === cat)`. */
  function FindOfCategory(docs: seq<StoredDoc>, cat: DocCategory): Option<StoredDoc> {
    if docs == [] then None
    else if docs[0].category == cat then Some(docs[0])
    else FindOfCategory(docs[1..], cat)
  }

  /** A requirement met by a document of `cat` in `pool`, citing the first such document. */
  function DocRequirement(id: string, caption: string, pool: seq<StoredDoc>, cat: DocCategory): Requirement {
    Requirement(id, caption, SomeOfCategory(pool, cat),
                match FindOfCategory(pool, cat) case Some(d) => Some(d.id) case None => None)
  }

  /**
   * A document counts for a requirement of category `cat` and scope `scope`:
   * filed under that milestone when the scope is given, any document otherwise.
   */
  predicate Counts(d: StoredDoc, scope: Option<string>, cat: DocCategory) {
    d.category == cat && (scope.Some? ==> d.milestoneId == scope)
  }

  function Pool(docs: seq<StoredDoc>, scope: Option<string>): seq<StoredDoc> {
    if scope.Some? then MilestoneDocs(docs, scope.value) else docs
  }

  /** The index of the first document counting for the requirement, when there is one. */
  predicate IsFirstCounting(docs: seq<StoredDoc>, k: int, scope: Option<string>, cat: DocCategory) {
    0 <= k < |docs| && Counts(docs[k], scope, cat)
    && forall j :: 0 <= j < k ==> !Counts(docs[j], scope, cat)
  }

  /** The first document of `docs` counting for the requirement, scanning `docs` itself. */
  function FindCounting(docs: seq<StoredDoc>, scope: Option<string>, cat: DocCategory): Option<StoredDoc> {
    if docs == [] then None
    else if Counts(docs[0], scope, cat) then Some(docs[0])
    else FindCounting(docs[1..], scope, cat)
  }

  /** Searching the milestone's documents is searching all documents for ones that count. */
  lemma {:induction false} PoolSearch(docs: seq<StoredDoc>, scope: Option<string>, cat: DocCategory)
    ensures FindOfCategory(Pool(docs, scope), cat) == FindCounting(docs, scope, cat)
    ensures SomeOfCategory(Pool(docs, scope), cat) == FindCounting(docs, scope, cat).Some?
  {
    if docs != [] {
      PoolSearch(docs[1..], scope, cat);
      if scope.Some? {
        var keep := FiledUnder(scope.value);
        assert keep(docs[0]) == (docs[0].milestoneId == scope);
        assert Pool(docs, scope) == (if keep(docs[0]) then [docs[0]] else []) + Pool(docs[1..], scope);
        if keep(docs[0]) {
          var pool := Pool(docs, scope);
          assert pool != [] && pool[0] == docs[0] && pool[1..] == Pool(docs[1..], scope);
          assert FindOfCategory(pool, cat) == if docs[0].category == cat then Some(docs[0]) else FindOfCategory(pool[1..], cat);
          assert SomeOfCategory(pool, cat) == (docs[0].category == cat || SomeOfCategory(pool[1..], cat));
        } else {
          assert Pool(docs, scope) == Pool(docs[1..], scope);
          assert !Counts(docs[0], scope, cat);
        }
      }
    }
  }

  lemma {:induction false} FindCountingFirst(docs: seq<StoredDoc>, scope: Option<string>, cat: DocCategory)
    ensures FindCounting(docs, scope, cat).Some? <==> exists i :: 0 <= i < |docs| && Counts(docs[i], scope, cat)
    ensures FindCounting(docs, scope, cat).Some? ==>
      exists k :: IsFirstCounting(docs, k, scope, cat) && FindCounting(docs, scope, cat).value == docs[k]
  {
    if docs != [] {
      var tail := docs[1..];
      FindCountingFirst(tail, scope, cat);
      if Counts(docs[0], scope, cat) {
        assert IsFirstCounting(docs, 0, scope, cat);
      } else {
        if FindCounting(tail, scope, cat).Some? {
          var k :| IsFirstCounting(tail, k, scope, cat) && FindCounting(tail, scope, cat).value == tail[k];
          assert IsFirstCounting(docs, k + 1, scope, cat);
          var i :| 0 <= i < |tail| && Counts(tail[i], scope, cat);
          assert docs[i + 1] == tail[i];
        } else {
          forall i | 0 <= i < |docs| ensures !Counts(docs[i], scope, cat) {
            if i > 0 {
              assert docs[i] == tail[i - 1];
            }
          }
        }
      }
    }
  }

  /**
   * A document-backed requirement is met iff some document counts for it; it
   * cites a document iff it is met, and then the first one that counts.
   */
  lemma DocRequirementMeaning(id: string, caption: string, docs: seq<StoredDoc>,
                              scope: Option<string>, cat: DocCategory)
    ensures var r := DocRequirement(id, caption, Pool(docs, scope), cat);
      (r.satisfied <==> exists i :: 0 <= i < |docs| && Counts(docs[i], scope, cat))
      && (r.docId.Some? <==> r.satisfied)
      && (r.docId.Some? ==> exists k :: IsFirstCounting(docs, k, scope, cat) && r.docId.value == docs[k].id)
  {
    PoolSearch(docs, scope, cat);
    FindCountingFirst(docs, scope, cat);
  }

  // ======================================================== requirements

  /** `steps.some(s => s.title.includes(word) && s.done)`. */
  function SomeDoneStepWith(steps: seq<Step>, word: string): bool {
    steps != [] && ((Contains(steps[0].title, word) && steps[0].done) || SomeDoneStepWith(steps[1..], word))
  }

  lemma {:induction false} SomeDoneStepWithMeaning(steps: seq<Step>, word: string)
    ensures SomeDoneStepWith(steps, word) <==>
      exists i :: 0 <= i < |steps| && steps[i].done && Contains(steps[i].title, word)
  {
    if steps != [] {
      SomeDoneStepWithMeaning(steps[1..], word);
      if SomeDoneStepWith(steps[1..], word) {
        var i :| 0 <= i < |steps[1..]| && steps[1..][i].done && Contains(steps[1..][i].title, word);
        assert steps[i + 1] == steps[1..][i];
      }
      forall i | 0 < i < |steps| && steps[i].done && Contains(steps[i].title, word)
        ensures SomeDoneStepWith(steps[1..], word)
      {
        assert steps[1..][i - 1] == steps[i];
      }
    }
  }

  /** Six thirty-day months, the margin of the OPT passport requirement. */
  const SIX_MONTHS_MS: int := 6 * 30 * DAY_MS
  const YEAR_MS: int := 365 * DAY_MS

  function PassportValidSixMonths(profile: Option<Profile>, now: int): bool {
    profile.Some? && profile.value.passportExpiry.Some? && profile.value.passportExpiry.value > now + SIX_MONTHS_MS
  }

  function EnrolledOverAYear(profile: Option<Profile>, now: int): bool {
    profile.Some? && profile.value.degreeStart.Some? && now - profile.value.degreeStart.value > YEAR_MS
  }

  function PassportValid(profile: Option<Profile>, now: int): bool {
    profile.Some? && profile.value.passportExpiry.Some? && profile.value.passportExpiry.value > now
  }

  function SsnRequirements(m: Milestone, docs: seq<StoredDoc>): seq<Requirement> {
    var scoped := MilestoneDocs(docs, m.id);
    [DocRequirement("i20", "Valid I-20 with recent date", scoped, I20Document),
     DocRequirement("passport", "Passport with F-1 visa stamp", docs, Passport),
     DocRequirement("job-offer", "Employment authorization letter", scoped, JobOffer),
     Requirement("10-day-rule", "In US for at least 10 days", Above(m.progress, 0), None)]
  }

  function OptRequirements(m: Milestone, docs: seq<StoredDoc>, profile: Option<Profile>, now: int): seq<Requirement> {
    [DocRequirement("i20-dso", "I-20 with DSO recommendation", MilestoneDocs(docs, m.id), I20Document),
     Requirement("passport-valid", "Passport valid for 6+ months", PassportValidSixMonths(profile, now), None),
     Requirement("application-window", "Within OPT application window", m.status == Active, None),
     Requirement("fee-payment", "$410 USCIS fee ready", SomeDoneStepWith(m.steps, "fee"), None)]
  }

  function CptRequirements(m: Milestone, docs: seq<StoredDoc>, profile: Option<Profile>, now: int): seq<Requirement> {
    [DocRequirement("job-offer", "Job offer letter from employer", MilestoneDocs(docs, m.id), JobOffer),
     Requirement("full-time-enrollment", "Full-time enrollment for 1+ year", EnrolledOverAYear(profile, now), None),
     Requirement("dso-approval", "DSO approval received", SomeDoneStepWith(m.steps, "DSO"), None)]
  }

  function TravelRequirements(m: Milestone, docs: seq<StoredDoc>, profile: Option<Profile>, now: int): seq<Requirement> {
    [Requirement("valid-passport", "Valid passport", PassportValid(profile, now), None),
     Requirement("travel-signature", "I-20 travel signature (< 1 year old)", SomeDoneStepWith(m.steps, "signature"), None),
     Requirement("valid-visa", "Valid F-1 visa stamp", SomeOfCategory(docs, Visa), None)]
  }

  /** The requirement a step stands for on a milestone of another kind. */
  function StepRequirement(s: Step): Requirement {
    Requirement(s.id, s.title, s.done, None)
  }

  /** One requirement per step, in step order. */
  function StepRequirements(steps: seq<Step>): (r: seq<Requirement>)
    ensures |r| == |steps|
  {
    if steps == [] then [] else StepRequirements(steps[..|steps| - 1]) + [StepRequirement(steps[|steps| - 1])]
  }

  lemma {:induction false} StepRequirementsPointwise(steps: seq<Step>)
    ensures forall i :: 0 <= i < |steps| ==> StepRequirements(steps)[i] == StepRequirement(steps[i])
  {
    if steps != [] {
      StepRequirementsPointwise(steps[..|steps| - 1]);
    }
  }

  /** The checklist `getRequirements` builds for a milestone. */
  function Requirements(m: Milestone, docs: seq<StoredDoc>, profile: Option<Profile>, now: int): (r: seq<Requirement>)
    ensures |r| == match m.kind
      case SSN => 4
      case OPT => 4
      case CPT => 3
      case TRAVEL => 3
      case _ => |m.steps|
  {
    match m.kind
    case SSN => SsnRequirements(m, docs)
    case OPT => OptRequirements(m, docs, profile, now)
    case CPT => CptRequirements(m, docs, profile, now)
    case TRAVEL => TravelRequirements(m, docs, profile, now)
    case _ => StepRequirements(m.steps)
  }

  /** `getRequirements`: pushes the kind's requirements, or one per step in step order. */
  method GetRequirements(m: Milestone, docs: seq<StoredDoc>, profile: Option<Profile>, now: int)
    returns (reqs: seq<Requirement>)
    ensures reqs == Requirements(m, docs, profile, now)
  {
    reqs := [];
    var scoped := MilestoneDocs(docs, m.id);
    match m.kind {
      case SSN =>
        reqs := reqs + [DocRequirement("i20", "Valid I-20 with recent date", scoped, I20Document)];
        reqs := reqs + [DocRequirement("passport", "Passport with F-1 visa stamp", docs, Passport)];
        reqs := reqs + [DocRequirement("job-offer", "Employment authorization letter", scoped, JobOffer)];
        reqs := reqs + [Requirement("10-day-rule", "In US for at least 10 days", Above(m.progress, 0), None)];
      case OPT =>
        reqs := reqs + [DocRequirement("i20-dso", "I-20 with DSO recommendation", scoped, I20Document)];
        reqs := reqs + [Requirement("passport-valid", "Passport valid for 6+ months", PassportValidSixMonths(profile, now), None)];
        reqs := reqs + [Requirement("application-window", "Within OPT application window", m.status == Active, None)];
        reqs := reqs + [Requirement("fee-payment", "$410 USCIS fee ready", SomeDoneStepWith(m.steps, "fee"), None)];
      case CPT =>
        reqs := reqs + [DocRequirement("job-offer", "Job offer letter from employer", scoped, JobOffer)];
        reqs := reqs + [Requirement("full-time-enrollment", "Full-time enrollment for 1+ year", EnrolledOverAYear(profile, now), None)];
        reqs := reqs + [Requirement("dso-approval", "DSO approval received", SomeDoneStepWith(m.steps, "DSO"), None)];
      case TRAVEL =>
        reqs := reqs + [Requirement("valid-passport", "Valid passport", PassportValid(profile, now), None)];
        reqs := reqs + [Requirement("travel-signature", "I-20 travel signature (< 1 year old)", SomeDoneStepWith(m.steps, "signature"), None)];
        reqs := reqs + [Requirement("valid-visa", "Valid F-1 visa stamp", SomeOfCategory(docs, Visa), None)];
      case _ =>
        reqs := PushStepRequirements(reqs, m.steps);
    }
  }

  /** The `forEach` of the default case: one requirement pushed per step. */
  method PushStepRequirements(reqs: seq<Requirement>, steps: seq<Step>) returns (reqs': seq<Requirement>)
    ensures reqs' == reqs + StepRequirements(steps)
  {
    reqs' := reqs;
    for i := 0 to |steps|
      invariant reqs' == reqs + StepRequirements(steps[..i])
    {
      assert steps[..i + 1][..i] == steps[..i];
      reqs' := reqs' + [StepRequirement(steps[i])];
    }
    assert steps[..|steps|] == steps;
  }

  function Ids(reqs: seq<Requirement>): (r: seq<string>)
    ensures |r| == |reqs| && forall i :: 0 <= i < |reqs| ==> r[i] == reqs[i].id
  {
    if reqs == [] then [] else [reqs[0].id] + Ids(reqs[1..])
  }

  /** SSN: four requirements in a fixed order, documents scoped as the source scopes them. */
  lemma SsnChecklist(m: Milestone, docs: seq<StoredDoc>, profile: Option<Profile>, now: int)
    requires m.kind == SSN
    ensures var r := Requirements(m, docs, profile, now);
      Ids(r) == ["i20", "passport", "job-offer", "10-day-rule"]
      && (r[0].satisfied <==> Engine.HasScopedDoc(docs, I20Document, m.id))
      && (r[1].satisfied <==> Engine.HasDocOf(docs, Passport))
      && (r[2].satisfied <==> Engine.HasScopedDoc(docs, JobOffer, m.id))
      && (r[3].satisfied <==> Above(m.progress, 0))
      && (forall i :: 0 <= i < 3 ==> (r[i].docId.Some? <==> r[i].satisfied))
      && r[3].docId.None?
  {
    DocRequirementMeaning("i20", "Valid I-20 with recent date", docs, Some(m.id), I20Document);
    DocRequirementMeaning("passport", "Passport with F-1 visa stamp", docs, None, Passport);
    DocRequirementMeaning("job-offer", "Employment authorization letter", docs, Some(m.id), JobOffer);
    ScopedMeaning(docs, m.id, I20Document);
    ScopedMeaning(docs, m.id, JobOffer);
    AnyMeaning(docs, Passport);
  }

  lemma ScopedMeaning(docs: seq<StoredDoc>, id: string, cat: DocCategory)
    ensures (exists i :: 0 <= i < |docs| && Counts(docs[i], Some(id), cat)) <==> Engine.HasScopedDoc(docs, cat, id)
  {
  }

  lemma AnyMeaning(docs: seq<StoredDoc>, cat: DocCategory)
    ensures (exists i :: 0 <= i < |docs| && Counts(docs[i], None, cat)) <==> Engine.HasDocOf(docs, cat)
  {
  }

  /** OPT: four requirements; the document one is scoped to the milestone. */
  lemma OptChecklist(m: Milestone, docs: seq<StoredDoc>, profile: Option<Profile>, now: int)
    requires m.kind == OPT
    ensures var r := Requirements(m, docs, profile, now);
      Ids(r) == ["i20-dso", "passport-valid", "application-window", "fee-payment"]
      && (r[0].satisfied <==> Engine.HasScopedDoc(docs, I20Document, m.id))
      && (r[0].docId.Some? <==> r[0].satisfied)
      && (r[1].satisfied <==> profile.Some? && profile.value.passportExpiry.Some?
                              && profile.value.passportExpiry.value > now + 180 * DAY_MS)
      && (r[2].satisfied <==> m.status == Active)
      && (r[3].satisfied <==> exists i :: 0 <= i < |m.steps| && m.steps[i].done && Contains(m.steps[i].title, "fee"))
      && r[1].docId.None? && r[2].docId.None? && r[3].docId.None?
  {
    DocRequirementMeaning("i20-dso", "I-20 with DSO recommendation", docs, Some(m.id), I20Document);
    ScopedMeaning(docs, m.id, I20Document);
    SomeDoneStepWithMeaning(m.steps, "fee");
  }

  /** CPT: three requirements; the job offer must be filed under the milestone. */
  lemma CptChecklist(m: Milestone, docs: seq<StoredDoc>, profile: Option<Profile>, now: int)
    requires m.kind == CPT
    ensures var r := Requirements(m, docs, profile, now);
      Ids(r) == ["job-offer", "full-time-enrollment", "dso-approval"]
      && (r[0].satisfied <==> Engine.HasScopedDoc(docs, JobOffer, m.id))
      && (r[0].docId.Some? <==> r[0].satisfied)
      && (r[1].satisfied <==> profile.Some? && profile.value.degreeStart.Some?
                              && now - profile.value.degreeStart.value > 365 * DAY_MS)
      && (r[2].satisfied <==> exists i :: 0 <= i < |m.steps| && m.steps[i].done && Contains(m.steps[i].title, "DSO"))
      && r[1].docId.None? && r[2].docId.None?
  {
    DocRequirementMeaning("job-offer", "Job offer letter from employer", docs, Some(m.id), JobOffer);
    ScopedMeaning(docs, m.id, JobOffer);
    SomeDoneStepWithMeaning(m.steps, "DSO");
  }

  /** TRAVEL: three requirements; any visa document counts, wherever it is filed. */
  lemma TravelChecklist(m: Milestone, docs: seq<StoredDoc>, profile: Option<Profile>, now: int)
    requires m.kind == TRAVEL
    ensures var r := Requirements(m, docs, profile, now);
      Ids(r) == ["valid-passport", "travel-signature", "valid-visa"]
      && (r[0].satisfied <==> profile.Some? && profile.value.passportExpiry.Some?
                              && profile.value.passportExpiry.value > now)
      && (r[1].satisfied <==> exists i :: 0 <= i < |m.steps| && m.steps[i].done && Contains(m.steps[i].title, "signature"))
      && (r[2].satisfied <==> Engine.HasDocOf(docs, Visa))
      && r[0].docId.None? && r[1].docId.None? && r[2].docId.None?
  {
    DocRequirementMeaning("valid-visa", "Valid F-1 visa stamp", docs, None, Visa);
    AnyMeaning(docs, Visa);
    SomeDoneStepWithMeaning(m.steps, "signature");
  }

  /** Any other kind: one requirement per step, in step order, met iff the step is done. */
  lemma OtherChecklist(m: Milestone, docs: seq<StoredDoc>, profile: Option<Profile>, now: int)
    requires m.kind !in {SSN, OPT, CPT, TRAVEL}
    ensures var r := Requirements(m, docs, profile, now);
      |r| == |m.steps|
      && forall i :: 0 <= i < |r| ==>
        r[i].id == m.steps[i].id && r[i].caption == m.steps[i].title
        && (r[i].satisfied <==> m.steps[i].done) && r[i].docId.None?
  {
    StepRequirementsPointwise(m.steps);
  }

  // =========================================================== readiness

  /** The test `r => r.satisfied`. */
  function IsSatisfied(r: Requirement): bool {
    r.satisfied
  }

  /** `requirements.filter(r => r.satisfied).length`. */
  function SatisfiedCount(reqs: seq<Requirement>): (n: nat)
    ensures n <= |reqs|
  {
    Lists.Count(reqs, IsSatisfied)
  }

  /** `Math.round((satisfiedCount / requirements.length) * 100)`. */
  function ReadinessPercent(reqs: seq<Requirement>): (p: Percent)
    ensures reqs != [] && SatisfiedCount(reqs) == |reqs| ==> p == Pct(100)
    ensures reqs != [] && SatisfiedCount(reqs) == 0 ==> p == Pct(0)
  {
    RoundPercent(SatisfiedCount(reqs), |reqs|)
  }

  /** The share is a whole percentage when there is a requirement, `NaN` when there is none. */
  lemma ReadinessPercentRange(reqs: seq<Requirement>)
    ensures reqs != [] ==> ReadinessPercent(reqs).Pct? && 0 <= ReadinessPercent(reqs).n <= 100
    ensures reqs == [] ==> ReadinessPercent(reqs).NaN?
  {
  }

  lemma {:induction false} CountAll(reqs: seq<Requirement>)
    ensures SatisfiedCount(reqs) == |reqs| <==> forall i :: 0 <= i < |reqs| ==> reqs[i].satisfied
  {
    if reqs != [] {
      CountAll(reqs[1..]);
      assert forall i :: 0 < i < |reqs| ==> reqs[i] == reqs[1..][i - 1];
    }
  }

  datatype AppointmentReadiness = AppointmentReadiness(ready: bool, message: string, action: Option<string>)

  const SSN_READY: string := "You're ready to book your SSA appointment!"
  const SSN_ALMOST: string := "Almost ready! Please wait until you've been in the US for 10 days."
  const SSN_INCOMPLETE: string := "Complete all requirements before booking."
  const OPT_READY: string := "All requirements met. You can submit your I-765 application."

  /** The test `r => r.id !== '10-day-rule'`. */
  function NotTenDayRule(r: Requirement): bool {
    r.id != "10-day-rule"
  }

  /** `requirements.filter(...).every(r => r.satisfied)`. */
  function AllSatisfied(reqs: seq<Requirement>): bool {
    reqs == [] || (reqs[0].satisfied && AllSatisfied(reqs[1..]))
  }

  /** `requirements.find(r => r.id === id)`. */
  function FindById(reqs: seq<Requirement>, id: string): Option<Requirement> {
    if reqs == [] then None else if reqs[0].id == id then Some(reqs[0]) else FindById(reqs[1..], id)
  }

  /** `getAppointmentReadiness`: the booking verdict for SSN and OPT milestones, `null` otherwise. */
  function AppointmentReadinessOf(kind: MilestoneKind, reqs: seq<Requirement>): (r: Option<AppointmentReadiness>)
    ensures r.Some? ==> (r.value.action.Some? <==> r.value.ready)
  {
    if kind == SSN then
      var hasAllDocs := AllSatisfied(Lists.Filter(reqs, NotTenDayRule));
      var tenDays := FindById(reqs, "10-day-rule");
      var has10Days := tenDays.Some? && tenDays.value.satisfied;
      if hasAllDocs && has10Days then Some(AppointmentReadiness(true, SSN_READY, Some("Book Appointment")))
      else if hasAllDocs && !has10Days then Some(AppointmentReadiness(false, SSN_ALMOST, None))
      else Some(AppointmentReadiness(false, SSN_INCOMPLETE, None))
    else if kind == OPT then
      if ReadinessPercent(reqs) == Pct(100) then
        Some(AppointmentReadiness(true, OPT_READY, Some("Submit Application")))
      else
        Some(AppointmentReadiness(false, NatToString(SatisfiedCount(reqs)) + "/" + NatToString(|reqs|)
                                         + " requirements met. Complete remaining items first.", None))
    else None
  }

  /**
   * SSN: ready exactly when all four requirements are met; "almost ready" exactly
   * when the three document requirements are met and the 10-day rule is not.
   */
  lemma SsnAppointment(m: Milestone, docs: seq<StoredDoc>, profile: Option<Profile>, now: int)
    requires m.kind == SSN
    ensures var r := Requirements(m, docs, profile, now);
      var a := AppointmentReadinessOf(m.kind, r);
      a.Some?
      && (a.value.ready <==> r[0].satisfied && r[1].satisfied && r[2].satisfied && r[3].satisfied)
      && (a.value.message == SSN_ALMOST <==> r[0].satisfied && r[1].satisfied && r[2].satisfied && !r[3].satisfied)
      && (a.value.message == SSN_INCOMPLETE <==> !(r[0].satisfied && r[1].satisfied && r[2].satisfied))
      && (a.value.action.Some? <==> a.value.ready)
  {
    var r := Requirements(m, docs, profile, now);
    SsnChecklist(m, docs, profile, now);
    var docsOnly := Lists.Filter(r, NotTenDayRule);
    assert docsOnly == r[..3] by {
      assert r == r[..3] + [r[3]];
      Lists.FilterConcat(r[..3], [r[3]], NotTenDayRule);
      Lists.FilterKeepsAll(r[..3], NotTenDayRule);
    }
    AllSatisfiedMeaning(r[..3]);
    FindByIdFirst(r, "10-day-rule", 3);
  }

  lemma {:induction false} AllSatisfiedMeaning(reqs: seq<Requirement>)
    ensures AllSatisfied(reqs) <==> forall i :: 0 <= i < |reqs| ==> reqs[i].satisfied
  {
    if reqs != [] {
      AllSatisfiedMeaning(reqs[1..]);
      assert forall i :: 0 < i < |reqs| ==> reqs[i] == reqs[1..][i - 1];
    }
  }

  /** `find` by id returns the first requirement carrying it. */
  lemma {:induction false} FindByIdFirst(reqs: seq<Requirement>, id: string, k: nat)
    requires k < |reqs| && reqs[k].id == id
    requires forall j :: 0 <= j < k ==> reqs[j].id != id
    ensures FindById(reqs, id) == Some(reqs[k])
  {
    if k > 0 {
      FindByIdFirst(reqs[1..], id, k - 1);
    }
  }

  /** OPT: ready exactly when every one of its four requirements is met. */
  lemma OptAppointment(m: Milestone, docs: seq<StoredDoc>, profile: Option<Profile>, now: int)
    requires m.kind == OPT
    ensures var r := Requirements(m, docs, profile, now);
      var a := AppointmentReadinessOf(m.kind, r);
      a.Some? && (a.value.ready <==> forall i :: 0 <= i < |r| ==> r[i].satisfied)
  {
    var r := Requirements(m, docs, profile, now);
    RoundPercentFull(SatisfiedCount(r), |r|);
    CountAll(r);
  }

  /** Only SSN and OPT milestones have an appointment verdict. */
  lemma NoAppointmentOtherwise(kind: MilestoneKind, reqs: seq<Requirement>)
    ensures AppointmentReadinessOf(kind, reqs).Some? <==> kind == SSN || kind == OPT
  {
  }
}
