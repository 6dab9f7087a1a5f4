/**
 * The client-side store: one state record holding every collection, and the
 * reducer that maps a state and one of fifteen actions to the next state
 * (`appReducer`, src/context/AppContext.tsx). The reducer never mutates: each
 * case builds a new state from the old one.
 */
module Store {
  import opened Domain
  import Lists

  datatype AppState = AppState(
    profile: Option<Profile>,
    milestones: seq<Milestone>,
    notifications: seq<Notification>,
    documents: seq<StoredDoc>,
    activities: seq<ActivityEntry>,
    chatThreads: seq<ChatThread>,
    onboardingComplete: bool)

  datatype AppAction =
    | SetProfile(profile: Profile)
    | UpdateMilestone(milestone: Milestone)
    | UpdateStep(milestoneId: string, stepId: string, done: bool)
    | AddNotification(notification: Notification)
    | UpdateNotification(notification: Notification)
    | DeleteNotification(id: string)
    | SnoozeNotification(id: string, until: string)
    | AddDocument(document: StoredDoc)
    | UpdateDocument(document: StoredDoc)
    | DeleteDocument(id: string)
    | AddActivity(activity: ActivityEntry)
    | AddChatThread(thread: ChatThread)
    | UpdateChatThread(thread: ChatThread)
    | DeleteChatThread(id: string)
    | CompleteOnboarding(profile: Profile, milestones: seq<Milestone>)

  function MilestoneId(m: Milestone): string { m.id }
  function NotificationId(n: Notification): string { n.id }
  function DocumentId(d: StoredDoc): string { d.id }
  function ThreadId(t: ChatThread): string { t.id }

  function IsDone(s: Step): bool { s.done }

  // ------------------------------------------------------------ UPDATE_STEP

  /** `steps.map(s => s.id === stepId ? { ...s, done } : s)`. */
  function MarkSteps(steps: seq<Step>, stepId: string, done: bool): (r: seq<Step>)
    ensures |r| == |steps|
    ensures forall j :: 0 <= j < |steps| ==>
      r[j] == if steps[j].id == stepId then steps[j].(done := done) else steps[j]
  {
    if steps == [] then []
    else [if steps[0].id == stepId then steps[0].(done := done) else steps[0]] + MarkSteps(steps[1..], stepId, done)
  }

  /** The status rule of UPDATE_STEP: 100 completes, above 0 activates, otherwise the old status stays. */
  function DeriveStatus(progress: Percent, prior: Status): Status {
    if progress == Pct(100) then Completed else if Above(progress, 0) then Active else prior
  }

  /** What UPDATE_STEP does to a milestone whose id matches. */
  function ApplyStep(m: Milestone, stepId: string, done: bool): Milestone {
    var steps := MarkSteps(m.steps, stepId, done);
    var progress := RoundPercent(Lists.Count(steps, IsDone), |steps|);
    m.(steps := steps, progress := progress, status := DeriveStatus(progress, m.status))
  }

  function UpdateStepIn(ms: seq<Milestone>, milestoneId: string, stepId: string, done: bool): (r: seq<Milestone>)
    ensures |r| == |ms|
    ensures forall i :: 0 <= i < |ms| ==>
      r[i] == if ms[i].id == milestoneId then ApplyStep(ms[i], stepId, done) else ms[i]
  {
    if ms == [] then []
    else
      var head := if ms[0].id == milestoneId then ApplyStep(ms[0], stepId, done) else ms[0];
      [head] + UpdateStepIn(ms[1..], milestoneId, stepId, done)
  }

  // ----------------------------------------------------- SNOOZE_NOTIFICATION

  function SnoozeIn(ns: seq<Notification>, id: string, until: string): (r: seq<Notification>)
    ensures |r| == |ns|
    ensures forall i :: 0 <= i < |ns| ==>
      r[i] == if ns[i].id == id then ns[i].(snoozedUntil := Some(until)) else ns[i]
  {
    if ns == [] then []
    else [if ns[0].id == id then ns[0].(snoozedUntil := Some(until)) else ns[0]] + SnoozeIn(ns[1..], id, until)
  }

  // ---------------------------------------------------------------- reducer

  /** `appReducer(state, action)`. */
  function Reduce(s: AppState, a: AppAction): (r: AppState)
    ensures r.onboardingComplete <==> s.onboardingComplete || a.CompleteOnboarding?
    ensures s.profile.Some? ==> r.profile.Some?
    ensures !a.CompleteOnboarding? ==> |r.milestones| == |s.milestones|
    ensures r.activities == (if a.AddActivity? then [a.activity] else []) + s.activities
  {
    match a
    case SetProfile(p) => s.(profile := Some(p))
    case UpdateMilestone(m) => s.(milestones := Lists.ReplaceById(s.milestones, MilestoneId, m))
    case UpdateStep(mid, sid, done) => s.(milestones := UpdateStepIn(s.milestones, mid, sid, done))
    case AddNotification(n) => s.(notifications := [n] + s.notifications)
    case UpdateNotification(n) => s.(notifications := Lists.ReplaceById(s.notifications, NotificationId, n))
    case DeleteNotification(id) => s.(notifications := Lists.RemoveById(s.notifications, NotificationId, id))
    case SnoozeNotification(id, until) => s.(notifications := SnoozeIn(s.notifications, id, until))
    case AddDocument(d) => s.(documents := [d] + s.documents)
    case UpdateDocument(d) => s.(documents := Lists.ReplaceById(s.documents, DocumentId, d))
    case DeleteDocument(id) => s.(documents := Lists.RemoveById(s.documents, DocumentId, id))
    case AddActivity(e) => s.(activities := [e] + s.activities)
    case AddChatThread(t) => s.(chatThreads := [t] + s.chatThreads)
    case UpdateChatThread(t) => s.(chatThreads := Lists.ReplaceById(s.chatThreads, ThreadId, t))
    case DeleteChatThread(id) => s.(chatThreads := Lists.RemoveById(s.chatThreads, ThreadId, id))
    case CompleteOnboarding(p, ms) => s.(profile := Some(p), milestones := ms, onboardingComplete := true)
  }

  /** A sequence of dispatches, applied in order. */
  function ReduceAll(s: AppState, actions: seq<AppAction>): AppState
    decreases |actions|
  {
    if actions == [] then s else ReduceAll(Reduce(s, actions[0]), actions[1..])
  }

  // ------------------------------------------------------------ the frame

  datatype Part = ProfilePart | MilestonesPart | NotificationsPart | DocumentsPart
                | ActivitiesPart | ChatThreadsPart | OnboardedPart

  /** The parts of the state an action may change. */
  function Footprint(a: AppAction): set<Part> {
    match a
    case SetProfile(_) => {ProfilePart}
    case UpdateMilestone(_) => {MilestonesPart}
    case UpdateStep(_, _, _) => {MilestonesPart}
    case AddNotification(_) => {NotificationsPart}
    case UpdateNotification(_) => {NotificationsPart}
    case DeleteNotification(_) => {NotificationsPart}
    case SnoozeNotification(_, _) => {NotificationsPart}
    case AddDocument(_) => {DocumentsPart}
    case UpdateDocument(_) => {DocumentsPart}
    case DeleteDocument(_) => {DocumentsPart}
    case AddActivity(_) => {ActivitiesPart}
    case AddChatThread(_) => {ChatThreadsPart}
    case UpdateChatThread(_) => {ChatThreadsPart}
    case DeleteChatThread(_) => {ChatThreadsPart}
    case CompleteOnboarding(_, _) => {ProfilePart, MilestonesPart, OnboardedPart}
  }

  predicate SamePart(s: AppState, t: AppState, p: Part) {
    match p
    case ProfilePart => s.profile == t.profile
    case MilestonesPart => s.milestones == t.milestones
    case NotificationsPart => s.notifications == t.notifications
    case DocumentsPart => s.documents == t.documents
    case ActivitiesPart => s.activities == t.activities
    case ChatThreadsPart => s.chatThreads == t.chatThreads
    case OnboardedPart => s.onboardingComplete == t.onboardingComplete
  }

  /** Every action leaves every part outside its footprint as it was. */
  lemma ReduceFrame(s: AppState, a: AppAction)
    ensures forall p :: p !in Footprint(a) ==> SamePart(s, Reduce(s, a), p)
  {
  }

  // ------------------------------------------------------ adding to a list

  /** The four ADD_* actions put the payload in front of the old list. */
  lemma AddPrepends(s: AppState, a: AppAction)
    ensures a.AddNotification? ==> Reduce(s, a).notifications == [a.notification] + s.notifications
    ensures a.AddDocument? ==> Reduce(s, a).documents == [a.document] + s.documents
    ensures a.AddActivity? ==> Reduce(s, a).activities == [a.activity] + s.activities
    ensures a.AddChatThread? ==> Reduce(s, a).chatThreads == [a.thread] + s.chatThreads
  {
  }

  // ------------------------------------------------- replacing and deleting

  /** The UPDATE_* record actions carry a record whose id is looked up. */
  predicate IsRecordUpdate(a: AppAction) {
    a.UpdateMilestone? || a.UpdateNotification? || a.UpdateDocument? || a.UpdateChatThread?
  }

  /** The id a record update or a delete names. */
  function TargetId(a: AppAction): string
    requires IsRecordUpdate(a) || a.DeleteNotification? || a.DeleteDocument? || a.DeleteChatThread?
  {
    match a
    case UpdateMilestone(m) => m.id
    case UpdateNotification(n) => n.id
    case UpdateDocument(d) => d.id
    case UpdateChatThread(t) => t.id
    case DeleteNotification(id) => id
    case DeleteDocument(id) => id
    case DeleteChatThread(id) => id
  }

  /** Whether the list the action works on holds an element with id `id`. */
  predicate HasId(s: AppState, a: AppAction, id: string) {
    match a
    case UpdateMilestone(_) => exists i :: 0 <= i < |s.milestones| && s.milestones[i].id == id
    case UpdateNotification(_) => exists i :: 0 <= i < |s.notifications| && s.notifications[i].id == id
    case DeleteNotification(_) => exists i :: 0 <= i < |s.notifications| && s.notifications[i].id == id
    case UpdateDocument(_) => exists i :: 0 <= i < |s.documents| && s.documents[i].id == id
    case DeleteDocument(_) => exists i :: 0 <= i < |s.documents| && s.documents[i].id == id
    case UpdateChatThread(_) => exists i :: 0 <= i < |s.chatThreads| && s.chatThreads[i].id == id
    case DeleteChatThread(_) => exists i :: 0 <= i < |s.chatThreads| && s.chatThreads[i].id == id
    case _ => false
  }

  /** An update or a delete of an id that is not present leaves the whole state unchanged. */
  lemma UnknownIdIsNoOp(s: AppState, a: AppAction)
    requires IsRecordUpdate(a) || a.DeleteNotification? || a.DeleteDocument? || a.DeleteChatThread?
    requires !HasId(s, a, TargetId(a))
    ensures Reduce(s, a) == s
  {
    match a
    case UpdateMilestone(m) => Lists.ReplaceUnknownId(s.milestones, MilestoneId, m);
    case UpdateNotification(n) => Lists.ReplaceUnknownId(s.notifications, NotificationId, n);
    case UpdateDocument(d) => Lists.ReplaceUnknownId(s.documents, DocumentId, d);
    case UpdateChatThread(t) => Lists.ReplaceUnknownId(s.chatThreads, ThreadId, t);
    case DeleteNotification(id) => Lists.RemoveUnknownId(s.notifications, NotificationId, id);
    case DeleteDocument(id) => Lists.RemoveUnknownId(s.documents, DocumentId, id);
    case DeleteChatThread(id) => Lists.RemoveUnknownId(s.chatThreads, ThreadId, id);
  }

  /** A record update keeps the list's length and order, replacing exactly the elements with its id. */
  lemma UpdateReplacesById(s: AppState, a: AppAction)
    requires IsRecordUpdate(a)
    ensures a.UpdateMilestone? ==>
      var r := Reduce(s, a).milestones;
      |r| == |s.milestones| &&
      forall i :: 0 <= i < |r| ==>
        (s.milestones[i].id == a.milestone.id ==> r[i] == a.milestone) &&
        (s.milestones[i].id != a.milestone.id ==> r[i] == s.milestones[i])
    ensures a.UpdateNotification? ==>
      var r := Reduce(s, a).notifications;
      |r| == |s.notifications| &&
      forall i :: 0 <= i < |r| ==>
        (s.notifications[i].id == a.notification.id ==> r[i] == a.notification) &&
        (s.notifications[i].id != a.notification.id ==> r[i] == s.notifications[i])
    ensures a.UpdateDocument? ==>
      var r := Reduce(s, a).documents;
      |r| == |s.documents| &&
      forall i :: 0 <= i < |r| ==>
        (s.documents[i].id == a.document.id ==> r[i] == a.document) &&
        (s.documents[i].id != a.document.id ==> r[i] == s.documents[i])
    ensures a.UpdateChatThread? ==>
      var r := Reduce(s, a).chatThreads;
      |r| == |s.chatThreads| &&
      forall i :: 0 <= i < |r| ==>
        (s.chatThreads[i].id == a.thread.id ==> r[i] == a.thread) &&
        (s.chatThreads[i].id != a.thread.id ==> r[i] == s.chatThreads[i])
  {
  }

  /** After a delete no element carries the id, and every other element is still there, in order. */
  lemma DeleteRemovesId(s: AppState, id: string)
    ensures var r := Reduce(s, DeleteNotification(id)).notifications;
      (forall i :: 0 <= i < |r| ==> r[i].id != id) &&
      (forall i :: 0 <= i < |s.notifications| && s.notifications[i].id != id ==> s.notifications[i] in r)
    ensures var r := Reduce(s, DeleteDocument(id)).documents;
      (forall i :: 0 <= i < |r| ==> r[i].id != id) &&
      (forall i :: 0 <= i < |s.documents| && s.documents[i].id != id ==> s.documents[i] in r)
    ensures var r := Reduce(s, DeleteChatThread(id)).chatThreads;
      (forall i :: 0 <= i < |r| ==> r[i].id != id) &&
      (forall i :: 0 <= i < |s.chatThreads| && s.chatThreads[i].id != id ==> s.chatThreads[i] in r)
  {
  }

  /** Deleting twice is deleting once. */
  lemma DeleteIdempotent(s: AppState, a: AppAction)
    requires a.DeleteNotification? || a.DeleteDocument? || a.DeleteChatThread?
    ensures Reduce(Reduce(s, a), a) == Reduce(s, a)
  {
    var t := Reduce(s, a);
    UnknownIdIsNoOp(t, a);
  }

  /** Deleting an id right after updating it leaves the same state as deleting it outright. */
  lemma DeleteAfterUpdate(s: AppState, d: StoredDoc)
    ensures Reduce(Reduce(s, UpdateDocument(d)), DeleteDocument(d.id)) == Reduce(s, DeleteDocument(d.id))
  {
    Lists.RemoveAfterReplace(s.documents, DocumentId, d);
  }

  // ---------------------------------------------------------------- snooze

  /** SNOOZE_NOTIFICATION sets `snoozedUntil` on the notifications with the id and nothing else. */
  lemma SnoozeSetsOnlySnooze(s: AppState, id: string, until: string)
    ensures var r := Reduce(s, SnoozeNotification(id, until)).notifications;
      |r| == |s.notifications| &&
      forall i :: 0 <= i < |r| ==>
        (s.notifications[i].id == id ==> r[i].snoozedUntil == Some(until)) &&
        r[i].(snoozedUntil := s.notifications[i].snoozedUntil) == s.notifications[i]
  {
  }

  // ------------------------------------------------------- onboarding done

  /** COMPLETE_ONBOARDING installs profile and milestones and raises the flag; the other lists stay. */
  lemma CompleteOnboardingResult(s: AppState, p: Profile, ms: seq<Milestone>)
    ensures var r := Reduce(s, CompleteOnboarding(p, ms));
      r.profile == Some(p) && r.milestones == ms && r.onboardingComplete &&
      r.notifications == s.notifications && r.documents == s.documents &&
      r.activities == s.activities && r.chatThreads == s.chatThreads
  {
  }

  // ----------------------------------------------------- UPDATE_STEP facts

  /**
   * UPDATE_STEP touches only milestones with the id; in them it flips `done` on the
   * steps with the step id, recomputes progress from the done count, and derives status.
   */
  lemma UpdateStepEffect(s: AppState, mid: string, sid: string, done: bool)
    ensures var r := Reduce(s, UpdateStep(mid, sid, done)).milestones;
      |r| == |s.milestones| &&
      forall i :: 0 <= i < |r| ==>
        var m, m' := s.milestones[i], r[i];
        (m.id != mid ==> m' == m) &&
        (m.id == mid ==>
          m'.(steps := m.steps, progress := m.progress, status := m.status) == m &&
          |m'.steps| == |m.steps| &&
          (forall j :: 0 <= j < |m.steps| ==>
             m'.steps[j].(done := m.steps[j].done) == m.steps[j] &&
             m'.steps[j].done == (if m.steps[j].id == sid then done else m.steps[j].done)) &&
          m'.progress == RoundPercent(Lists.Count(m'.steps, IsDone), |m'.steps|))
  {
  }

  /** The progress UPDATE_STEP writes lies in 0..100 unless the milestone has no steps (then NaN). */
  lemma ApplyStepProgress(m: Milestone, sid: string, done: bool)
    ensures var m' := ApplyStep(m, sid, done);
      (|m.steps| > 0 ==> m'.progress.Pct? && 0 <= m'.progress.n <= 100) &&
      (|m.steps| == 0 ==> m'.progress == NaN)
  {
  }

  /**
   * The status UPDATE_STEP writes: completed exactly at 100, active exactly above 0
   * and below 100, and otherwise the prior status, so never a new upcoming or overdue.
   */
  lemma ApplyStepStatus(m: Milestone, sid: string, done: bool)
    ensures var m' := ApplyStep(m, sid, done);
      (m'.status == Completed <== m'.progress == Pct(100)) &&
      (m'.status == Active <== Above(m'.progress, 0) && m'.progress != Pct(100)) &&
      (m'.status == m.status <== !Above(m'.progress, 0)) &&
      (m'.status == Completed || m'.status == Active || m'.status == m.status)
  {
  }

  /** Repeating the same UPDATE_STEP changes nothing more. */
  lemma {:induction false} ApplyStepIdempotent(m: Milestone, sid: string, done: bool)
    ensures ApplyStep(ApplyStep(m, sid, done), sid, done) == ApplyStep(m, sid, done)
  {
    var m1 := ApplyStep(m, sid, done);
    var m2 := ApplyStep(m1, sid, done);
    assert m2.steps == m1.steps;
  }

  /** Marking the steps with the given ids done, one UPDATE_STEP after another. */
  function MarkAll(m: Milestone, ids: seq<string>): Milestone
    decreases |ids|
  {
    if ids == [] then m else MarkAll(ApplyStep(m, ids[0], true), ids[1..])
  }

  function StepIds(steps: seq<Step>): (r: seq<string>)
    ensures |r| == |steps| && forall j :: 0 <= j < |steps| ==> r[j] == steps[j].id
  {
    seq(|steps|, j requires 0 <= j < |steps| => steps[j].id)
  }

  /** After marking a list of ids, every step whose id is listed is done, and ids and titles stay. */
  lemma {:induction false} MarkAllMarks(m: Milestone, ids: seq<string>)
    ensures var m' := MarkAll(m, ids);
      |m'.steps| == |m.steps| &&
      forall j :: 0 <= j < |m.steps| ==>
        m'.steps[j].id == m.steps[j].id && (m.steps[j].id in ids || m.steps[j].done ==> m'.steps[j].done)
    decreases |ids|
  {
    if ids != [] {
      MarkAllMarks(ApplyStep(m, ids[0], true), ids[1..]);
    }
  }

  lemma {:induction false} CountAllDone(steps: seq<Step>)
    requires forall j :: 0 <= j < |steps| ==> steps[j].done
    ensures Lists.Count(steps, IsDone) == |steps|
  {
    if steps != [] {
      CountAllDone(steps[1..]);
    }
  }

  /**
   * Marking every step of a milestone done, one UPDATE_STEP per step, sets
   * progress to 100 and status to completed.
   */
  lemma MarkingEveryStepCompletes(m: Milestone)
    requires |m.steps| > 0
    ensures MarkAll(m, StepIds(m.steps)).progress == Pct(100)
    ensures MarkAll(m, StepIds(m.steps)).status == Completed
  {
    var ids := StepIds(m.steps);
    MarkAllMarks(m, ids);
    forall j | 0 <= j < |m.steps| ensures m.steps[j].id in ids {
      assert ids[j] == m.steps[j].id;
    }
    LastStepCompletes(m, ids);
  }

  /** If the steps end up all done, the last UPDATE_STEP wrote progress 100 and completed. */
  lemma {:induction false} LastStepCompletes(m: Milestone, ids: seq<string>)
    requires ids != [] && |m.steps| > 0
    requires forall j :: 0 <= j < |MarkAll(m, ids).steps| ==> MarkAll(m, ids).steps[j].done
    ensures MarkAll(m, ids).progress == Pct(100) && MarkAll(m, ids).status == Completed
    decreases |ids|
  {
    var m1 := ApplyStep(m, ids[0], true);
    if |ids| == 1 {
      assert MarkAll(m, ids) == m1;
      CountAllDone(m1.steps);
      RoundPercentFull(|m1.steps|, |m1.steps|);
    } else {
      assert MarkAll(m, ids) == MarkAll(m1, ids[1..]);
      LastStepCompletes(m1, ids[1..]);
    }
  }

  lemma {:induction false} CountNoneDone(steps: seq<Step>)
    requires forall j :: 0 <= j < |steps| ==> !steps[j].done
    ensures Lists.Count(steps, IsDone) == 0
  {
    if steps != [] {
      CountNoneDone(steps[1..]);
    }
  }

  /** Marking the only step with the first step's id done, in a milestone with nothing done yet. */
  lemma FirstStepDoneCount(m: Milestone)
    requires |m.steps| >= 1
    requires forall j :: 0 <= j < |m.steps| ==> !m.steps[j].done
    requires forall j :: 1 <= j < |m.steps| ==> m.steps[j].id != m.steps[0].id
    ensures var m' := ApplyStep(m, m.steps[0].id, true);
      m'.progress == RoundPercent(1, |m.steps|)
  {
    var steps := MarkSteps(m.steps, m.steps[0].id, true);
    assert steps == [steps[0]] + steps[1..];
    CountNoneDone(steps[1..]);
  }

  /**
   * Marking the first step of an untouched milestone with 2 to 200 steps done
   * makes it active.
   */
  lemma FirstStepDoneActivates(m: Milestone)
    requires 2 <= |m.steps| <= 200
    requires forall j :: 0 <= j < |m.steps| ==> !m.steps[j].done
    requires forall j :: 1 <= j < |m.steps| ==> m.steps[j].id != m.steps[0].id
    ensures ApplyStep(m, m.steps[0].id, true).status == Active
  {
    FirstStepDoneCount(m);
  }

  /**
   * With more than 200 steps, one done step rounds to 0%, so the status stays
   * what it was (for instance upcoming).
   */
  lemma FirstStepDoneOfManyKeepsStatus(m: Milestone)
    requires |m.steps| > 200
    requires forall j :: 0 <= j < |m.steps| ==> !m.steps[j].done
    requires forall j :: 1 <= j < |m.steps| ==> m.steps[j].id != m.steps[0].id
    ensures ApplyStep(m, m.steps[0].id, true).progress == Pct(0)
    ensures ApplyStep(m, m.steps[0].id, true).status == m.status
  {
    FirstStepDoneCount(m);
  }
}
