/**
 * The offline advisor: `askAdvisor(question, opts, context)`. The lower-cased
 * question is matched against six keyword groups in a fixed order; the first
 * group found picks the topic, and the topic decides the canned answer, the
 * milestones and documents cited as sources and the action buttons offered.
 * The simulated network delay is left out, so the reply is a plain value.
 */
module Advisor {
  import opened Domain
  import opened Text
  import Lists
  import Readiness
  import Calendar

  datatype AdvisorOptions = AdvisorOptions(useProfile: bool, useMilestones: bool, docIds: Option<seq<string>>)

  datatype ActionKind = GeneratePrepPack | CreateReminder | OpenStep | EmailDso

  /** The `data` object of an action: the milestone it is about and, for a reminder, its title. */
  datatype ActionData = ActionData(title: Option<string>, milestoneId: string)

  datatype AdvisorAction = AdvisorAction(id: string, caption: string, action: ActionKind, data: ActionData)

  /** `actions` is absent (`undefined`) rather than empty. */
  datatype AdvisorResponse = AdvisorResponse(answer: string, sources: seq<Source>, actions: Option<seq<AdvisorAction>>)

  // ------------------------------------------------------------- topics

  datatype Topic = SsnTopic | OptTopic | CptTopic | DeadlineTopic | I20Topic | TravelTopic | GeneralTopic

  /** The keyword topics, in the order the question is tested against them. */
  const TOPICS: seq<Topic> := [SsnTopic, OptTopic, CptTopic, DeadlineTopic, I20Topic, TravelTopic]

  function Keywords(t: Topic): seq<string> {
    match t
    case SsnTopic => ["ssn", "social security"]
    case OptTopic => ["opt", "optional practical"]
    case CptTopic => ["cpt", "curricular practical"]
    case DeadlineTopic => ["expire", "deadline", "upcoming"]
    case I20Topic => ["i-20", "i20"]
    case TravelTopic => ["travel", "leave", "visit"]
    case GeneralTopic => []
  }

  /** `words.some(w => q.includes(w))`. */
  predicate Mentions(q: string, words: seq<string>) {
    words != [] && (Contains(q, words[0]) || Mentions(q, words[1..]))
  }

  lemma {:induction false} MentionsMeaning(q: string, words: seq<string>)
    ensures Mentions(q, words) <==> exists i :: 0 <= i < |words| && Contains(q, words[i])
  {
    if words != [] {
      MentionsMeaning(q, words[1..]);
      if Mentions(q, words[1..]) {
        var i :| 0 <= i < |words[1..]| && Contains(q, words[1..][i]);
        assert Contains(q, words[i + 1]);
      }
      forall i | 1 <= i < |words| && Contains(q, words[i]) ensures Mentions(q, words[1..]) {
        assert words[1..][i - 1] == words[i];
      }
    }
  }

  /** The first topic of `ts` whose keywords the question mentions. */
  function FirstTopic(q: string, ts: seq<Topic>): Topic {
    if ts == [] then GeneralTopic
    else if Mentions(q, Keywords(ts[0])) then ts[0]
    else FirstTopic(q, ts[1..])
  }

  /** The topic of an already lower-cased question. */
  function TopicOf(lowerQ: string): Topic {
    FirstTopic(lowerQ, TOPICS)
  }

  lemma {:induction false} FirstTopicFound(q: string, ts: seq<Topic>, k: nat)
    requires k < |ts| && Mentions(q, Keywords(ts[k]))
    requires forall j :: 0 <= j < k ==> !Mentions(q, Keywords(ts[j]))
    ensures FirstTopic(q, ts) == ts[k]
  {
    if k > 0 {
      assert !Mentions(q, Keywords(ts[0]));
      FirstTopicFound(q, ts[1..], k - 1);
    }
  }

  lemma {:induction false} FirstTopicNone(q: string, ts: seq<Topic>)
    requires forall j :: 0 <= j < |ts| ==> !Mentions(q, Keywords(ts[j]))
    ensures FirstTopic(q, ts) == GeneralTopic
  {
    if ts != [] {
      FirstTopicNone(q, ts[1..]);
    }
  }

  /**
   * The first keyword group the question mentions decides the topic; a question
   * mentioning none of them gets the general answer.
   */
  lemma TopicOfFirstMatch(q: string, k: nat)
    requires k < |TOPICS|
    ensures TopicOf(q) == TOPICS[k] <==>
      Mentions(q, Keywords(TOPICS[k])) && forall j :: 0 <= j < k ==> !Mentions(q, Keywords(TOPICS[j]))
    ensures TopicOf(q) == GeneralTopic <==> forall j :: 0 <= j < |TOPICS| ==> !Mentions(q, Keywords(TOPICS[j]))
  {
    if exists j :: 0 <= j < |TOPICS| && Mentions(q, Keywords(TOPICS[j])) {
      var j :| 0 <= j < |TOPICS| && Mentions(q, Keywords(TOPICS[j]));
      var i := Earliest(q, j);
      FirstTopicFound(q, TOPICS, i);
    } else {
      FirstTopicNone(q, TOPICS);
    }
  }

  /** The earliest topic at or before `j` that the question mentions. */
  lemma Earliest(q: string, j: nat) returns (i: nat)
    requires j < |TOPICS| && Mentions(q, Keywords(TOPICS[j]))
    ensures i <= j && Mentions(q, Keywords(TOPICS[i]))
    ensures forall m :: 0 <= m < i ==> !Mentions(q, Keywords(TOPICS[m]))
  {
    i := 0;
    while !Mentions(q, Keywords(TOPICS[i]))
      invariant i <= j
      invariant forall m :: 0 <= m < i ==> !Mentions(q, Keywords(TOPICS[m]))
      decreases j - i
    {
      i := i + 1;
    }
  }

  /** Any question that mentions "optional practical" also mentions "opt", so the longer keyword never decides alone. */
  lemma {:induction false} OptionalPracticalMentionsOpt(q: string)
    requires Contains(q, "optional practical")
    ensures Contains(q, "opt")
  {
    if q[..18] != "optional practical" {
      OptionalPracticalMentionsOpt(q[1..]);
    } else {
      assert q[..3] == "optional practical"[..3];
    }
  }

  // ------------------------------------------------------- canned answers

  const SSN_DOCUMENTS_ANSWER: string :=
    "For your SSN appointment at the Social Security Administration office, you'll need:\n\n1. **Original passport** with valid F-1 visa stamp\n2. **Original I-94** arrival/departure record (electronic or paper)\n3. **Current I-20** with your DSO's signature (must be recent)\n4. **Employment authorization letter** (job offer letter or on-campus employment verification)\n5. **University admission letter** (if available)\n6. **Completed SS-5 form** (Application for Social Security Card)\n\nImportant notes:\n- All documents must be original or certified copies\n- You must have been in the US for at least 10 days\n- You need valid employment authorization (on-campus job, CPT, or OPT)\n- Arrive 15 minutes early for your appointment"

  const SSN_ELIGIBILITY_ANSWER: string :=
    "To be eligible for an SSN as an F-1 student:\n\n\U{2713} You must be physically present in the US for at least 10 days\n\U{2713} You need valid employment authorization (one of the following):\n  - On-campus employment offer\n  - Approved CPT (Curricular Practical Training)\n  - Approved OPT (Optional Practical Training)\n\U{2713} Your I-20 must be current and valid\n\U{2713} You must be maintaining valid F-1 status\n\nIf you don't have employment authorization yet, you cannot apply for an SSN. Once you secure an on-campus job or get CPT/OPT approval, you can proceed with the application."

  const SSN_PROCESS_ANSWER: string :=
    "The SSN (Social Security Number) application process for F-1 students involves:\n\n1. Ensuring you have valid employment authorization\n2. Being in the US for at least 10 days\n3. Completing Form SS-5\n4. Booking an appointment at your local SSA office\n5. Bringing all required documents to the appointment\n\nYour SSN card typically arrives by mail within 2-3 weeks after the appointment. You'll need this number for employment, filing taxes, and opening bank accounts."

  const OPT_GENERAL_INTRO: string :=
    "Your OPT (Optional Practical Training) application timeline:\n\n**Application Window:**\n- You can apply up to 90 days BEFORE your program completion date\n- You can apply up to 60 days AFTER your program completion date\n- Your application must be received by USCIS within 30 days of DSO recommendation\n\n**Key steps:**\n"

  const OPT_FOOTER: string :=
    "\n\n**Processing time:** 3-5 months on average\n**Filing fee:** $410"

  const CPT_ANSWER: string :=
    "CPT (Curricular Practical Training) allows F-1 students to work off-campus in positions related to their field of study.\n\n**Requirements:**\n- You must have been enrolled full-time for at least one academic year\n- The job must be directly related to your major\n- Your DSO must authorize it on your I-20\n\n**Process:**\n1. Secure a job offer from an employer\n2. Complete your school's CPT request form\n3. Submit to your DSO with the job offer letter\n4. Receive updated I-20 with CPT authorization\n5. Provide I-20 copy to employer before starting work\n\n**Important:** 12+ months of full-time CPT will make you ineligible for OPT."

  const DEADLINE_HEADER: string :=
    "Here are your upcoming deadlines:\n\n"

  const I20_ANSWER: string :=
    "Your I-20 (Certificate of Eligibility for F-1 Status) is one of your most important documents.\n\n**Key points:**\n- Keep it with you at all times\n- Get a travel signature from your DSO before international travel (valid for 1 year)\n- Report any changes (address, major, funding) to your DSO\n- You'll need an updated I-20 for CPT or OPT authorization\n\n**When you need a new I-20:**\n- Program extension\n- Change of major or educational level\n- Reduced course load\n- CPT or OPT authorization\n\nAlways carry your I-20 when traveling, along with your passport and visa."

  const TRAVEL_ANSWER: string :=
    "When planning international travel as an F-1 student:\n\n**Before you leave:**\n1. Get a travel signature on your I-20 from your DSO (valid for 1 year)\n2. Ensure your passport is valid for at least 6 months\n3. Check that your F-1 visa is valid (if expired, you may need to apply for a new visa)\n4. Get a letter from your school verifying enrollment\n\n**Documents to carry:**\n- Valid passport\n- Valid F-1 visa (or visa application if renewing)\n- I-20 with recent travel signature (within 1 year)\n- Enrollment verification letter\n- Recent transcript or proof of student status\n\n**Important:** If your visa has expired, you can re-enter the US only after getting a new visa stamp at a US embassy/consulate abroad. Plan ahead as visa appointments can take weeks."

  const GENERAL_ANSWER: string :=
    "I'm here to help with questions about your F-1 visa journey, including:\n\n- SSN application process and requirements\n- OPT and CPT authorization\n- I-20 management and travel signatures\n- Document requirements and deadlines\n- Timeline planning for your milestones\n\nYou can ask me specific questions like:\n- \"What should I bring to my SSN appointment?\"\n- \"When is my OPT application window?\"\n- \"What documents do I need for international travel?\"\n- \"What expires next?\"\n\nFeel free to attach relevant documents or enable profile/milestone context for more personalized guidance."

  /** The SSN answer: what to bring, who is eligible, or the process in general. */
  function SsnAnswer(lowerQ: string): string {
    if Mentions(lowerQ, ["bring", "appointment", "documents"]) then SSN_DOCUMENTS_ANSWER
    else if Mentions(lowerQ, ["eligibility", "eligible"]) then SSN_ELIGIBILITY_ANSWER
    else SSN_PROCESS_ANSWER
  }

  /** `profile?.degreeEnd` is set and profile use is switched on. */
  predicate UsesTimeline(opts: AdvisorOptions, profile: Option<Profile>) {
    opts.useProfile && profile.Some? && profile.value.degreeEnd.Some?
  }

  function NumberedLines(steps: seq<Step>): (lines: seq<string>)
    ensures |lines| == |steps|
  {
    seq(|steps|, i requires 0 <= i < |steps| => NatToString(i + 1) + ". " + steps[i].title)
  }

  /** `steps.map((s, i) => `${i + 1}. ${s.title}`).join("\n")` for a non-empty list. */
  function NumberedList(steps: seq<Step>): string
    requires steps != []
  {
    Calendar.JoinLines(NumberedLines(steps))
  }

  predicate Pending(s: Step) {
    !s.done
  }

  function PendingSteps(m: Milestone): seq<Step> {
    Lists.Filter(m.steps, Pending)
  }

  /**
   * The OPT answer: the timeline introduction (built from the profile's
   * completion date when it is used, `timelineIntro` standing for that
   * locale-formatted text), then the numbered pending steps of the OPT
   * milestone and the processing footer when there are any.
   */
  function OptAnswer(opts: AdvisorOptions, profile: Option<Profile>, opt: Option<Milestone>, timelineIntro: string): string {
    (if UsesTimeline(opts, profile) then timelineIntro else OPT_GENERAL_INTRO)
    + (if opt.Some? && PendingSteps(opt.value) != [] then NumberedList(PendingSteps(opt.value)) + OPT_FOOTER else "")
  }

  // ----------------------------------------------------- sources, actions

  /** `milestones.find(m => m.kind === kind)`. */
  function FindKind(ms: seq<Milestone>, kind: MilestoneKind): Option<Milestone> {
    if ms == [] then None
    else if ms[0].kind == kind then Some(ms[0])
    else FindKind(ms[1..], kind)
  }

  /** The result is the first milestone of that kind, and there is none exactly when the search fails. */
  lemma {:induction false} FindKindFirst(ms: seq<Milestone>, kind: MilestoneKind)
    ensures FindKind(ms, kind).None? <==> forall i :: 0 <= i < |ms| ==> ms[i].kind != kind
    ensures FindKind(ms, kind).Some? ==>
      exists i :: 0 <= i < |ms| && ms[i] == FindKind(ms, kind).value && ms[i].kind == kind
        && forall j :: 0 <= j < i ==> ms[j].kind != kind
  {
    if ms != [] && ms[0].kind != kind {
      FindKindFirst(ms[1..], kind);
      if FindKind(ms, kind).Some? {
        var i :| 0 <= i < |ms[1..]| && ms[1..][i] == FindKind(ms, kind).value && ms[1..][i].kind == kind
          && forall j :: 0 <= j < i ==> ms[1..][j].kind != kind;
        assert ms[i + 1] == ms[1..][i];
        forall j | 0 <= j < i + 1 ensures ms[j].kind != kind {
          if j > 0 {
            assert ms[j] == ms[1..][j - 1];
          }
        }
      }
      forall i | 0 <= i < |ms| && FindKind(ms, kind).None? ensures ms[i].kind != kind {
        if i > 0 {
          assert ms[i] == ms[1..][i - 1];
        }
      }
    }
  }

  function MilestoneSourceOf(m: Milestone): Source {
    Source(MilestoneSource, m.id, m.title)
  }

  function DocumentSourceOf(d: StoredDoc): Source {
    Source(DocumentSource, d.id, d.name)
  }

  /** The source pushed for a milestone found by `find`, if one was. */
  function FoundMilestone(m: Option<Milestone>): seq<Source> {
    if m.Some? then [MilestoneSourceOf(m.value)] else []
  }

  function FoundDocument(d: Option<StoredDoc>): seq<Source> {
    if d.Some? then [DocumentSourceOf(d.value)] else []
  }

  predicate ActiveOrUpcoming(m: Milestone) {
    m.status == Active || m.status == Upcoming
  }

  /** `activeMilestones.slice(0, 2)`. */
  function FirstTwo(ms: seq<Milestone>): (r: seq<Milestone>)
    ensures |r| <= 2 && |r| <= |ms|
    ensures forall i :: 0 <= i < |r| ==> r[i] == ms[i]
  {
    if |ms| <= 2 then ms else ms[..2]
  }

  function MilestoneSources(ms: seq<Milestone>): (r: seq<Source>)
    ensures |r| == |ms|
  {
    seq(|ms|, i requires 0 <= i < |ms| => MilestoneSourceOf(ms[i]))
  }

  function PrepPackAction(id: string, caption: string, m: Milestone): AdvisorAction {
    AdvisorAction(id, caption, GeneratePrepPack, ActionData(None, m.id))
  }

  function SsnActions(ssn: Option<Milestone>): seq<AdvisorAction> {
    if ssn.Some? then [PrepPackAction("ssn-prep", "Generate SSN Prep Pack", ssn.value)] else []
  }

  function OptActions(opt: Option<Milestone>): seq<AdvisorAction> {
    if opt.Some? then
      [PrepPackAction("opt-prep", "Generate OPT Prep Pack", opt.value),
       AdvisorAction("opt-reminder", "Set OPT Deadline Reminder", CreateReminder,
                     ActionData(Some("OPT Application Deadline"), opt.value.id))]
    else []
  }

  function CptActions(cpt: Option<Milestone>): seq<AdvisorAction> {
    if cpt.Some? then [AdvisorAction("cpt-email", "Email DSO Template", EmailDso, ActionData(None, cpt.value.id))] else []
  }

  // -------------------------------------------------------------- replies

  /** What a branch assembles before the response is returned. */
  datatype Reply = Reply(answer: string, sources: seq<Source>, actions: seq<AdvisorAction>)

  function TopicReply(topic: Topic, lowerQ: string, opts: AdvisorOptions, profile: Option<Profile>,
                      ms: seq<Milestone>, docs: seq<StoredDoc>, timelineIntro: string): Reply
  {
    match topic
    case SsnTopic =>
      Reply(SsnAnswer(lowerQ),
            FoundMilestone(FindKind(ms, SSN)) + FoundDocument(Readiness.FindOfCategory(docs, I20Document)),
            SsnActions(FindKind(ms, SSN)))
    case OptTopic =>
      Reply(OptAnswer(opts, profile, FindKind(ms, OPT), timelineIntro), FoundMilestone(FindKind(ms, OPT)),
            OptActions(FindKind(ms, OPT)))
    case CptTopic =>
      Reply(CPT_ANSWER, FoundMilestone(FindKind(ms, CPT)), CptActions(FindKind(ms, CPT)))
    case DeadlineTopic =>
      Reply(DEADLINE_HEADER, MilestoneSources(FirstTwo(Lists.Filter(ms, ActiveOrUpcoming))), [])
    case I20Topic =>
      Reply(I20_ANSWER,
            FoundMilestone(FindKind(ms, I20)) + FoundDocument(Readiness.FindOfCategory(docs, I20Document)), [])
    case TravelTopic =>
      Reply(TRAVEL_ANSWER, FoundMilestone(FindKind(ms, TRAVEL)), [])
    case GeneralTopic =>
      Reply(GENERAL_ANSWER, [], [])
  }

  /** The response returned for a question, given the caller's options and context. */
  function Advise(question: string, opts: AdvisorOptions, profile: Option<Profile>,
                  ms: seq<Milestone>, docs: seq<StoredDoc>, timelineIntro: string): (r: AdvisorResponse)
    ensures r.actions.Some? ==> |r.actions.value| > 0
  {
    var lowerQ := ToLower(question);
    var reply := TopicReply(TopicOf(lowerQ), lowerQ, opts, profile, ms, docs, timelineIntro);
    AdvisorResponse(reply.answer, reply.sources, if reply.actions == [] then None else Some(reply.actions))
  }

  /**
   * `askAdvisor`: lower-cases the question, picks the topic and returns what
   * the topic's branch assembled, leaving `actions` out when it is empty.
   */
  method AskAdvisor(question: string, opts: AdvisorOptions, profile: Option<Profile>,
                    ms: seq<Milestone>, docs: seq<StoredDoc>, timelineIntro: string)
    returns (response: AdvisorResponse)
    ensures response == Advise(question, opts, profile, ms, docs, timelineIntro)
  {
    var lowerQ := ToLower(question);
    var topic := TopicOf(lowerQ);
    var answer, sources, actions;
    if topic == SsnTopic {
      answer, sources, actions := SsnBranch(lowerQ, ms, docs);
    } else if topic == OptTopic {
      answer, sources, actions := OptBranch(opts, profile, ms, timelineIntro);
    } else if topic == CptTopic {
      answer, sources, actions := CptBranch(ms);
    } else if topic == DeadlineTopic {
      answer, sources, actions := DeadlineBranch(ms);
    } else if topic == I20Topic {
      answer, sources, actions := I20Branch(ms, docs);
    } else if topic == TravelTopic {
      answer, sources, actions := TravelBranch(ms);
    } else {
      answer, sources, actions := GENERAL_ANSWER, [], [];
    }
    response := AdvisorResponse(answer, sources, if |actions| > 0 then Some(actions) else None);
  }

  method SsnBranch(lowerQ: string, ms: seq<Milestone>, docs: seq<StoredDoc>)
    returns (answer: string, sources: seq<Source>, actions: seq<AdvisorAction>)
    ensures Reply(answer, sources, actions) == TopicReply(SsnTopic, lowerQ, AdvisorOptions(false, false, None), None, ms, docs, "")
  {
    sources, actions := [], [];
    var ssn := FindKind(ms, SSN);
    if ssn.Some? {
      sources := sources + [MilestoneSourceOf(ssn.value)];
    }
    var i20Doc := Readiness.FindOfCategory(docs, I20Document);
    if i20Doc.Some? {
      sources := sources + [DocumentSourceOf(i20Doc.value)];
    }
    answer := SsnAnswer(lowerQ);
    if ssn.Some? {
      actions := actions + [PrepPackAction("ssn-prep", "Generate SSN Prep Pack", ssn.value)];
    }
  }

  method OptBranch(opts: AdvisorOptions, profile: Option<Profile>, ms: seq<Milestone>, timelineIntro: string)
    returns (answer: string, sources: seq<Source>, actions: seq<AdvisorAction>)
    ensures Reply(answer, sources, actions) == TopicReply(OptTopic, "", opts, profile, ms, [], timelineIntro)
  {
    sources, actions := [], [];
    var opt := FindKind(ms, OPT);
    if opt.Some? {
      sources := sources + [MilestoneSourceOf(opt.value)];
    }
    var intro := if UsesTimeline(opts, profile) then timelineIntro else OPT_GENERAL_INTRO;
    answer := intro;
    if opt.Some? {
      var pending := PendingSteps(opt.value);
      if |pending| > 0 {
        answer := answer + NumberedList(pending);
        answer := answer + OPT_FOOTER;
        assert answer == intro + (NumberedList(pending) + OPT_FOOTER);
      }
    }
    assert answer == OptAnswer(opts, profile, opt, timelineIntro);
    if opt.Some? {
      actions := actions + [PrepPackAction("opt-prep", "Generate OPT Prep Pack", opt.value)];
      actions := actions + [AdvisorAction("opt-reminder", "Set OPT Deadline Reminder", CreateReminder,
                                          ActionData(Some("OPT Application Deadline"), opt.value.id))];
    }
  }

  method CptBranch(ms: seq<Milestone>)
    returns (answer: string, sources: seq<Source>, actions: seq<AdvisorAction>)
    ensures Reply(answer, sources, actions) == TopicReply(CptTopic, "", AdvisorOptions(false, false, None), None, ms, [], "")
  {
    sources, actions := [], [];
    var cpt := FindKind(ms, CPT);
    if cpt.Some? {
      sources := sources + [MilestoneSourceOf(cpt.value)];
    }
    answer := CPT_ANSWER;
    if cpt.Some? {
      actions := actions + [AdvisorAction("cpt-email", "Email DSO Template", EmailDso, ActionData(None, cpt.value.id))];
    }
  }

  /** Cites the first two active or upcoming milestones, one push per milestone. */
  method DeadlineBranch(ms: seq<Milestone>)
    returns (answer: string, sources: seq<Source>, actions: seq<AdvisorAction>)
    ensures Reply(answer, sources, actions) == TopicReply(DeadlineTopic, "", AdvisorOptions(false, false, None), None, ms, [], "")
  {
    sources, actions := [], [];
    var active := Lists.Filter(ms, ActiveOrUpcoming);
    var cited := FirstTwo(active);
    for i := 0 to |cited|
      invariant sources == MilestoneSources(cited[..i])
    {
      sources := sources + [MilestoneSourceOf(cited[i])];
    }
    assert cited[..|cited|] == cited;
    answer := DEADLINE_HEADER;
  }

  method I20Branch(ms: seq<Milestone>, docs: seq<StoredDoc>)
    returns (answer: string, sources: seq<Source>, actions: seq<AdvisorAction>)
    ensures Reply(answer, sources, actions) == TopicReply(I20Topic, "", AdvisorOptions(false, false, None), None, ms, docs, "")
  {
    sources, actions := [], [];
    var i20 := FindKind(ms, I20);
    if i20.Some? {
      sources := sources + [MilestoneSourceOf(i20.value)];
    }
    var i20Doc := Readiness.FindOfCategory(docs, I20Document);
    if i20Doc.Some? {
      sources := sources + [DocumentSourceOf(i20Doc.value)];
    }
    answer := I20_ANSWER;
  }

  method TravelBranch(ms: seq<Milestone>)
    returns (answer: string, sources: seq<Source>, actions: seq<AdvisorAction>)
    ensures Reply(answer, sources, actions) == TopicReply(TravelTopic, "", AdvisorOptions(false, false, None), None, ms, [], "")
  {
    sources, actions := [], [];
    var travel := FindKind(ms, TRAVEL);
    if travel.Some? {
      sources := sources + [MilestoneSourceOf(travel.value)];
    }
    answer := TRAVEL_ANSWER;
  }

  // ------------------------------------------------------------- properties

  /**
   * SSN questions cite the first SSN milestone and then the first I-20 document,
   * each when present, and offer one prep-pack action exactly when there is an
   * SSN milestone.
   */
  lemma SsnReply(question: string, opts: AdvisorOptions, profile: Option<Profile>,
                 ms: seq<Milestone>, docs: seq<StoredDoc>, timelineIntro: string)
    requires TopicOf(ToLower(question)) == SsnTopic
    ensures var r := Advise(question, opts, profile, ms, docs, timelineIntro);
      && r.sources == FoundMilestone(FindKind(ms, SSN)) + FoundDocument(Readiness.FindOfCategory(docs, I20Document))
      && (r.actions.Some? <==> exists i :: 0 <= i < |ms| && ms[i].kind == SSN)
      && (r.actions.Some? ==>
            r.actions.value == [AdvisorAction("ssn-prep", "Generate SSN Prep Pack", GeneratePrepPack,
                                              ActionData(None, FindKind(ms, SSN).value.id))]
            && FindKind(ms, SSN).value.kind == SSN)
      && (r.answer == SSN_DOCUMENTS_ANSWER <==> Mentions(ToLower(question), ["bring", "appointment", "documents"]))
  {
    FindKindFirst(ms, SSN);
  }

  /**
   * OPT questions cite the first OPT milestone, list its pending steps after the
   * introduction, and offer a prep pack and a deadline reminder exactly when
   * there is an OPT milestone.
   */
  lemma OptReply(question: string, opts: AdvisorOptions, profile: Option<Profile>,
                 ms: seq<Milestone>, docs: seq<StoredDoc>, timelineIntro: string)
    requires TopicOf(ToLower(question)) == OptTopic
    ensures var r := Advise(question, opts, profile, ms, docs, timelineIntro);
      var opt := FindKind(ms, OPT);
      && r.sources == FoundMilestone(opt)
      && (r.actions.Some? <==> exists i :: 0 <= i < |ms| && ms[i].kind == OPT)
      && (r.actions.Some? ==>
            (opt.Some? && opt.value.kind == OPT && |r.actions.value| == 2
             && r.actions.value[0].action == GeneratePrepPack && r.actions.value[1].action == CreateReminder
             && r.actions.value[0].data.milestoneId == opt.value.id && r.actions.value[1].data.milestoneId == opt.value.id))
      && r.answer == (if UsesTimeline(opts, profile) then timelineIntro else OPT_GENERAL_INTRO)
                     + (if opt.Some? && PendingSteps(opt.value) != [] then NumberedList(PendingSteps(opt.value)) + OPT_FOOTER else "")
  {
    FindKindFirst(ms, OPT);
  }

  /**
   * The numbered list splits back into one line per pending step, line `i`
   * reading `i + 1`, a dot and the step's title, when no title spans lines.
   */
  lemma NumberedListLines(steps: seq<Step>)
    requires steps != []
    requires forall i :: 0 <= i < |steps| ==> Calendar.SingleLine(steps[i].title)
    ensures var lines := Calendar.SplitLines(NumberedList(steps));
      |lines| == |steps| && forall i :: 0 <= i < |steps| ==> lines[i] == NatToString(i + 1) + ". " + steps[i].title
  {
    var lines := NumberedLines(steps);
    forall i | 0 <= i < |lines| ensures Calendar.SingleLine(lines[i]) {
      NumberedLineSingle(NatToString(i + 1), steps[i].title);
    }
    Calendar.SplitJoin(lines);
  }

  lemma NumberedLineSingle(digits: string, title: string)
    requires AllDigits(digits) && Calendar.SingleLine(title)
    ensures Calendar.SingleLine(digits + ". " + title)
  {
    Calendar.SingleLineDigits(digits);
    Calendar.SingleLineConcat(digits, ". ");
    Calendar.SingleLineConcat(digits + ". ", title);
  }

  /** The pending steps are exactly the steps not yet done, in their order. */
  lemma PendingStepsMeaning(m: Milestone)
    ensures forall i :: 0 <= i < |PendingSteps(m)| ==> !PendingSteps(m)[i].done && PendingSteps(m)[i] in m.steps
    ensures forall i :: 0 <= i < |m.steps| && !m.steps[i].done ==> m.steps[i] in PendingSteps(m)
  {
    Lists.FilterMembers(m.steps, Pending);
  }

  /** CPT questions cite the first CPT milestone and offer the DSO e-mail exactly when there is one. */
  lemma CptReply(question: string, opts: AdvisorOptions, profile: Option<Profile>,
                 ms: seq<Milestone>, docs: seq<StoredDoc>, timelineIntro: string)
    requires TopicOf(ToLower(question)) == CptTopic
    ensures var r := Advise(question, opts, profile, ms, docs, timelineIntro);
      && r.answer == CPT_ANSWER
      && r.sources == FoundMilestone(FindKind(ms, CPT))
      && (r.actions.Some? <==> exists i :: 0 <= i < |ms| && ms[i].kind == CPT)
      && (r.actions.Some? ==>
            (|r.actions.value| == 1 && r.actions.value[0].action == EmailDso
             && r.actions.value[0].data.milestoneId == FindKind(ms, CPT).value.id))
  {
    FindKindFirst(ms, CPT);
  }

  /**
   * Deadline questions cite at most two milestones: the first active or
   * upcoming ones, in list order; they offer no actions.
   */
  lemma DeadlineReply(question: string, opts: AdvisorOptions, profile: Option<Profile>,
                      ms: seq<Milestone>, docs: seq<StoredDoc>, timelineIntro: string)
    requires TopicOf(ToLower(question)) == DeadlineTopic
    ensures var r := Advise(question, opts, profile, ms, docs, timelineIntro);
      var active := Lists.Filter(ms, ActiveOrUpcoming);
      && r.actions.None?
      && |r.sources| == (if |active| < 2 then |active| else 2)
      && forall i :: 0 <= i < |r.sources| ==>
           r.sources[i] == MilestoneSourceOf(active[i]) && ActiveOrUpcoming(active[i]) && active[i] in ms
  {
    Lists.FilterMembers(ms, ActiveOrUpcoming);
  }

  /** I-20, travel and general questions offer no actions; general questions cite nothing. */
  lemma InformationalReplies(question: string, opts: AdvisorOptions, profile: Option<Profile>,
                             ms: seq<Milestone>, docs: seq<StoredDoc>, timelineIntro: string)
    requires TopicOf(ToLower(question)) in {I20Topic, TravelTopic, GeneralTopic}
    ensures var r := Advise(question, opts, profile, ms, docs, timelineIntro);
      && r.actions.None?
      && (TopicOf(ToLower(question)) == I20Topic ==>
            r.answer == I20_ANSWER
            && r.sources == FoundMilestone(FindKind(ms, I20)) + FoundDocument(Readiness.FindOfCategory(docs, I20Document)))
      && (TopicOf(ToLower(question)) == TravelTopic ==>
            r.answer == TRAVEL_ANSWER && r.sources == FoundMilestone(FindKind(ms, TRAVEL)))
      && (TopicOf(ToLower(question)) == GeneralTopic ==> r.answer == GENERAL_ANSWER && r.sources == [])
  {
  }
}
