/**
 * The four-step onboarding wizard (`Onboarding`, src/pages/Onboarding.tsx):
 * personal and university details, visa and dates, the two initial uploads,
 * then review. The wizard holds the current step, the profile being filled in
 * and two upload flags; its handlers update them in place. Each form field is
 * only shown on its own step, and Continue only advances past a step whose
 * fields are filled in, so by the review step the whole profile is present.
 */
module Onboarding {
  import opened Domain
  import Store

  const FIRST_STEP := 1
  const LAST_STEP := 4

  /** One `updateProfile(field, value)` call: the field and the value typed into it. */
  datatype ProfileEdit =
    | FullName(name: string)
    | University(university: string)
    | DsoName(dsoName: string)
    | DsoEmail(email: string)
    | VisaTypeChoice(visa: VisaType)
    | DegreeStart(start: Option<int>)
    | DegreeEnd(end: Option<int>)
    | Country(country: string)
    | PassportExpiry(expiry: Option<int>)

  datatype UploadKind = PassportUpload | AdmissionUpload

  /** `{ ...profile, [field]: value }`. */
  function ApplyEdit(p: Profile, e: ProfileEdit): Profile {
    match e
    case FullName(v) => p.(fullName := v)
    case University(v) => p.(university := v)
    case DsoName(v) => p.(dsoName := v)
    case DsoEmail(v) => p.(dsoEmail := v)
    case VisaTypeChoice(v) => p.(visaType := Some(v))
    case DegreeStart(v) => p.(degreeStart := v)
    case DegreeEnd(v) => p.(degreeEnd := v)
    case Country(v) => p.(country := v)
    case PassportExpiry(v) => p.(passportExpiry := v)
  }

  /** The step whose form shows the field. */
  function FieldStep(e: ProfileEdit): (step: int)
    ensures FIRST_STEP <= step < 3
  {
    match e
    case FullName(_) => 1
    case University(_) => 1
    case DsoName(_) => 1
    case DsoEmail(_) => 1
    case _ => 2
  }

  /** Step 1's guard: the four personal and university fields are non-empty. */
  predicate PersonalComplete(p: Profile) {
    p.fullName != "" && p.university != "" && p.dsoName != "" && p.dsoEmail != ""
  }

  /** Step 2's guard: visa type, degree start, country and passport expiry are set; the degree end is optional. */
  predicate VisaComplete(p: Profile) {
    p.visaType.Some? && p.degreeStart.Some? && p.country != "" && p.passportExpiry.Some?
  }

  /** `canProceed()`, as a function of the wizard's state. */
  function CanProceedAt(step: int, p: Profile, passport: bool, admission: bool): (ok: bool)
    ensures ok ==> FIRST_STEP <= step <= LAST_STEP
    ensures step == LAST_STEP ==> ok
  {
    if step == 1 then PersonalComplete(p)
    else if step == 2 then VisaComplete(p)
    else if step == 3 then passport && admission
    else step == 4
  }

  /** Editing a field sets that field of the profile to the typed value and keeps every other field. */
  lemma ApplyEditChangesOnlyField(p: Profile, e: ProfileEdit)
    ensures var q := ApplyEdit(p, e);
      && q.fullName == (if e.FullName? then e.name else p.fullName)
      && q.university == (if e.University? then e.university else p.university)
      && q.dsoName == (if e.DsoName? then e.dsoName else p.dsoName)
      && q.dsoEmail == (if e.DsoEmail? then e.email else p.dsoEmail)
      && q.visaType == (if e.VisaTypeChoice? then Some(e.visa) else p.visaType)
      && q.degreeStart == (if e.DegreeStart? then e.start else p.degreeStart)
      && q.degreeEnd == (if e.DegreeEnd? then e.end else p.degreeEnd)
      && q.country == (if e.Country? then e.country else p.country)
      && q.passportExpiry == (if e.PassportExpiry? then e.expiry else p.passportExpiry)
  {
  }

  /** Editing is idempotent: typing the same value twice is typing it once. */
  lemma ApplyEditIdempotent(p: Profile, e: ProfileEdit)
    ensures ApplyEdit(ApplyEdit(p, e), e) == ApplyEdit(p, e)
  {
  }

  /** Editing a field of one step leaves the other step's guard as it was. */
  lemma EditKeepsOtherGuard(p: Profile, e: ProfileEdit)
    ensures FieldStep(e) != 1 ==> (PersonalComplete(ApplyEdit(p, e)) <==> PersonalComplete(p))
    ensures FieldStep(e) != 2 ==> (VisaComplete(ApplyEdit(p, e)) <==> VisaComplete(p))
  {
  }

  /** The degree end date never decides whether the wizard may go on. */
  lemma DegreeEndNotRequired(step: int, p: Profile, end: Option<int>, passport: bool, admission: bool)
    ensures CanProceedAt(step, p.(degreeEnd := end), passport, admission) == CanProceedAt(step, p, passport, admission)
  {
  }

  /** The review step always proceeds; a step outside 1..4 never does; the uploads matter only on step 3. */
  lemma CanProceedCases(step: int, p: Profile, passport: bool, admission: bool)
    ensures step == 4 ==> CanProceedAt(step, p, passport, admission)
    ensures !(FIRST_STEP <= step <= LAST_STEP) ==> !CanProceedAt(step, p, passport, admission)
    ensures step != 3 ==> CanProceedAt(step, p, passport, admission) == CanProceedAt(step, p, false, false)
    ensures step == 3 ==> (CanProceedAt(step, p, passport, admission) <==> passport && admission)
  {
  }

  /** Uploading more never takes away the right to proceed. */
  lemma CanProceedMonotone(step: int, p: Profile, passport: bool, admission: bool)
    requires CanProceedAt(step, p, passport, admission)
    ensures CanProceedAt(step, p, true, admission) && CanProceedAt(step, p, passport, true)
  {
  }

  class Wizard {
    var step: int
    var profile: Profile
    var passportUploaded: bool
    var admissionUploaded: bool

    /**
     * The step is within 1..4, and every step already passed still meets its
     * guard: fields are only editable on their own step, so going back and
     * clearing one also leaves the later steps.
     */
    predicate Valid()
      reads this
    {
      && FIRST_STEP <= step <= LAST_STEP
      && (step > 1 ==> PersonalComplete(profile))
      && (step > 2 ==> VisaComplete(profile))
      && (step > 3 ==> passportUploaded && admissionUploaded)
    }

    function CanProceed(): bool
      reads this
    {
      CanProceedAt(step, profile, passportUploaded, admissionUploaded)
    }

    /** A fresh wizard: step 1, an empty profile, nothing uploaded. */
    constructor()
      ensures Valid()
      ensures step == FIRST_STEP && profile == EmptyProfile
      ensures !passportUploaded && !admissionUploaded
    {
      step := FIRST_STEP;
      profile := EmptyProfile;
      passportUploaded := false;
      admissionUploaded := false;
    }

    /** `updateProfile`: the named field takes the new value; step and uploads stay. */
    method UpdateProfile(e: ProfileEdit)
      modifies this
      ensures profile == ApplyEdit(old(profile), e)
      ensures step == old(step)
      ensures passportUploaded == old(passportUploaded) && admissionUploaded == old(admissionUploaded)
      ensures old(Valid()) && FieldStep(e) == step ==> Valid()
    {
      EditKeepsOtherGuard(profile, e);
      profile := ApplyEdit(profile, e);
    }

    /** `handleMockUpload`: the chosen flag becomes true; nothing else changes and no flag is cleared. */
    method MockUpload(kind: UploadKind)
      modifies this
      ensures passportUploaded == (old(passportUploaded) || kind == PassportUpload)
      ensures admissionUploaded == (old(admissionUploaded) || kind == AdmissionUpload)
      ensures step == old(step) && profile == old(profile)
      ensures old(Valid()) ==> Valid()
    {
      if kind == PassportUpload {
        passportUploaded := true;
      } else {
        admissionUploaded := true;
      }
    }

    /** The Continue button: shown below step 4, enabled only while `canProceed()`. */
    method Continue()
      modifies this
      ensures step == (if old(step) < LAST_STEP && old(CanProceed()) then old(step) + 1 else old(step))
      ensures profile == old(profile)
      ensures passportUploaded == old(passportUploaded) && admissionUploaded == old(admissionUploaded)
      ensures old(Valid()) ==> Valid()
    {
      if step < LAST_STEP && CanProceed() {
        step := step + 1;
      }
    }

    /** The Back button: shown above step 1. */
    method Back()
      modifies this
      ensures step == (if old(step) > FIRST_STEP then old(step) - 1 else old(step))
      ensures profile == old(profile)
      ensures passportUploaded == old(passportUploaded) && admissionUploaded == old(admissionUploaded)
      ensures old(Valid()) ==> Valid()
    {
      if step > FIRST_STEP {
        step := step - 1;
      }
    }

    /**
     * `handleComplete`: the Complete button exists only on step 4, where it is
     * always enabled. It dispatches COMPLETE_ONBOARDING with the collected
     * profile and the seed milestones; by then every required field is filled
     * in and both documents are uploaded.
     */
    method Complete(seed: seq<Milestone>) returns (action: Option<Store.AppAction>)
      requires Valid()
      ensures action.Some? <==> step == LAST_STEP
      ensures action.Some? ==> action.value == Store.CompleteOnboarding(profile, seed)
      ensures action.Some? ==>
        PersonalComplete(profile) && VisaComplete(profile) && passportUploaded && admissionUploaded
    {
      if step == LAST_STEP && CanProceed() {
        action := Some(Store.CompleteOnboarding(profile, seed));
      } else {
        action := None;
      }
    }
  }
}
