/**
 * The records of the student-visa tracker: profile, milestones and their
 * steps, stored documents, notifications, activity entries and chat threads
 * (src/types/index.ts).
 *
 * Conventions of the model:
 *  - instants are integer milliseconds since the Unix epoch, the value of
 *    `Date.prototype.getTime`;
 *  - a profile date field (`degreeStart`, `degreeEnd`, `passportExpiry`) is
 *    `None` when the string is empty or absent and `Some(ms)` for the date an
 *    `<input type="date">` produced, which is always a valid date;
 *  - an optional field (`milestoneId?`, `formId?`) is an `Option`; an optional
 *    boolean (`requiresUpload?`) is `false` when absent, as JavaScript's
 *    truthiness treats it;
 *  - a number that may be `NaN` is a `Percent`.
 */
module Domain {

  datatype Option<+T> = None | Some(value: T)

  const SECOND_MS: int := 1000
  const HOUR_MS: int := 60 * 60 * 1000
  const DAY_MS: int := 1000 * 60 * 60 * 24
  /** The "month" of the engine's passport rule: thirty days. */
  const MONTH30_MS: int := 1000 * 60 * 60 * 24 * 30

  /** `Math.floor(ms / DAY_MS)`: Dafny's `/` by a positive divisor rounds toward minus infinity. */
  function WholeDays(ms: int): int {
    ms / DAY_MS
  }

  // ---------------------------------------------------------------- profile

  datatype VisaType = VisaF1 | VisaJ1

  /** A profile; every field may still be empty while the onboarding wizard fills it in. */
  datatype Profile = Profile(
    fullName: string,
    university: string,
    dsoName: string,
    dsoEmail: string,
    degreeStart: Option<int>,
    degreeEnd: Option<int>,
    visaType: Option<VisaType>,
    country: string,
    passportExpiry: Option<int>)

  const EmptyProfile: Profile := Profile("", "", "", "", None, None, None, "", None)

  // ------------------------------------------------------------- milestones

  datatype FormId = FormI765 | FormSSN | FormCPT | FormI20

  function FormName(f: FormId): string {
    match f
    case FormI765 => "I-765"
    case FormSSN => "SSN"
    case FormCPT => "CPT"
    case FormI20 => "I-20"
  }

  datatype Step = Step(id: string, title: string, done: bool, requiresUpload: bool, formId: Option<FormId>)

  datatype MilestoneKind = F1 | I20 | SEVIS | SSN | CPT | OPT | TRAVEL

  datatype Status = Upcoming | Active | Completed | Overdue

  /** A JavaScript number that is either an integer or `NaN` (`0 / 0`). */
  datatype Percent = Pct(n: int) | NaN

  /** `p < k`: false for `NaN`. */
  predicate Below(p: Percent, k: int) {
    p.Pct? && p.n < k
  }

  /** `p > k`: false for `NaN`. */
  predicate Above(p: Percent, k: int) {
    p.Pct? && p.n > k
  }

  datatype Milestone = Milestone(
    id: string,
    kind: MilestoneKind,
    title: string,
    description: string,
    due: int,
    status: Status,
    progress: Percent,
    steps: seq<Step>)

  // -------------------------------------------------------------- documents

  datatype DocCategory = Passport | Visa | I20Document | JobOffer | SSA | Misc

  datatype StoredDoc = StoredDoc(
    id: string,
    name: string,
    category: DocCategory,
    uploadedAt: string,
    milestoneId: Option<string>,
    size: Option<int>)

  // ---------------------------------------------------------- notifications

  datatype NotificationKind = Deadline | DocumentNotice | Alert | Reminder

  datatype NotificationLink = NotificationLink(caption: string, href: string)

  datatype Notification = Notification(
    id: string,
    title: string,
    body: string,
    kind: NotificationKind,
    createdAt: string,
    read: bool,
    snoozedUntil: Option<string>,
    action: Option<NotificationLink>)

  // ------------------------------------------------------- activity, chat

  datatype ActivityType = StepCompleted | DocUploaded | StatusChange | DeadlineCreated | AppointmentBooked | NoteAdded

  datatype Actor = UserActor | SystemActor

  datatype ActivityEntry = ActivityEntry(
    id: string,
    milestoneId: Option<string>,
    activity: ActivityType,
    title: string,
    description: Option<string>,
    createdAt: string,
    actor: Actor,
    relatedDocId: Option<string>,
    relatedStepId: Option<string>)

  datatype SourceKind = DocumentSource | MilestoneSource | ActivitySource

  /** A citation attached to an advisor answer or a chat message. */
  datatype Source = Source(kind: SourceKind, id: string, caption: string)

  datatype Role = UserRole | AssistantRole | SystemRole

  datatype ChatMessage = ChatMessage(id: string, role: Role, text: string, createdAt: string, sources: Option<seq<Source>>)

  datatype ChatThread = ChatThread(id: string, title: string, messages: seq<ChatMessage>, createdAt: string)

  // ------------------------------------------------------------ percentages

  /**
   * `Math.round((count / total) * 100)`, with exact rational arithmetic:
   * round half up of 100·count/total, and `NaN` for `0 / 0`.
   */
  function RoundPercent(count: nat, total: nat): (p: Percent)
    requires count <= total
    ensures total == 0 <==> p.NaN?
    ensures p.Pct? ==> 0 <= p.n <= 100
    ensures p.Pct? ==> (p.n == 100 <==> 200 * count >= 199 * total)
    ensures p.Pct? ==> (p.n > 0 <==> 200 * count >= total)
    ensures p.Pct? ==> 2 * total * p.n <= 200 * count + total < 2 * total * p.n + 2 * total
  {
    if total == 0 then NaN
    else
      var r := (200 * count + total) / (2 * total);
      RoundBounds(count, total, r);
      Pct(r)
  }

  lemma RoundBounds(count: nat, total: nat, r: int)
    requires 0 < total && count <= total && r == (200 * count + total) / (2 * total)
    ensures 2 * total * r <= 200 * count + total < 2 * total * r + 2 * total
    ensures 0 <= r <= 100
    ensures r == 100 <==> 200 * count >= 199 * total
    ensures r > 0 <==> 200 * count >= total
  {
    DivFloor(200 * count + total, 2 * total);
    RoundedBetween(count, total, r, (2 * total) * r);
  }

  /** What a whole number r with 2t·r <= 200c + t < 2t·r + 2t can be. */
  lemma RoundedBetween(count: nat, total: nat, r: int, lo: int)
    requires 0 < total && count <= total && lo == (2 * total) * r
    requires lo <= 200 * count + total < lo + 2 * total
    ensures 0 <= r <= 100
    ensures r == 100 <==> 200 * count >= 199 * total
    ensures r > 0 <==> 200 * count >= total
  {
    RoundedRange(count, total, r, lo);
    RoundedFull(count, total, r, lo);
    RoundedPositive(count, total, r, lo);
  }

  lemma RoundedRange(count: nat, total: nat, r: int, lo: int)
    requires 0 < total && count <= total && lo == (2 * total) * r
    requires lo <= 200 * count + total < lo + 2 * total
    ensures 0 <= r <= 100
  {
    MulMonotone(2 * total, 101, r);
    MulMonotone(2 * total, r, -1);
  }

  lemma RoundedFull(count: nat, total: nat, r: int, lo: int)
    requires 0 < total && count <= total && lo == (2 * total) * r
    requires lo <= 200 * count + total < lo + 2 * total
    ensures r == 100 <==> 200 * count >= 199 * total
  {
    RoundedRange(count, total, r, lo);
    if r == 100 {
      assert lo == 200 * total;
    } else {
      MulMonotone(2 * total, r, 99);
      assert lo <= 198 * total;
    }
  }

  lemma RoundedPositive(count: nat, total: nat, r: int, lo: int)
    requires 0 < total && count <= total && lo == (2 * total) * r
    requires lo <= 200 * count + total < lo + 2 * total
    ensures r > 0 <==> 200 * count >= total
  {
    MulMonotone(2 * total, 1, r);
    MulMonotone(2 * total, r, 0);
  }

  lemma DivFloor(x: int, d: int)
    requires d > 0
    ensures d * (x / d) <= x < d * (x / d) + d
  {
    assert x == d * (x / d) + x % d;
  }

  lemma MulMonotone(k: int, a: int, b: int)
    requires k > 0
    ensures a <= b <==> k * a <= k * b
  {
    if a <= b {
      assert k * b - k * a == k * (b - a);
    } else {
      assert k * a - k * b == k * (a - b);
    }
  }

  /** Every step done gives 100; with at most 199 steps, 100 means every step is done. */
  lemma RoundPercentFull(count: nat, total: nat)
    requires 0 < total && count <= total
    ensures count == total ==> RoundPercent(count, total) == Pct(100)
    ensures total < 200 ==> (RoundPercent(count, total) == Pct(100) <==> count == total)
  {
  }
}
