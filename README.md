# Student visa tracker — a verified model of its core logic

The application is an international student's companion. It follows visa milestones (F-1 status, I-20, SEVIS, SSN, CPT, OPT, travel), each with steps, a due date, a status and a progress percentage, together with uploaded documents, notifications, an activity log and advisor chats. This project models the logic at its core in Dafny:

- **Engine** (`src/logic/engine.ts`):
  - the risk level of a milestone (red, amber or green);
  - the blockers that stand in a milestone's way;
  - the next three actions across all milestones;
  - the preparation pack for a milestone;
  - the calendar (`.ics`) text for a deadline, and the name of the downloaded file.
- **Store** (`src/context/AppContext.tsx`): the reducer that applies each of the fifteen actions to the application state.
- **Readiness** (`src/components/ReadinessView.tsx`): the requirements checklist of a milestone, the share of requirements met, and whether an SSN or OPT appointment can be booked.
- **Advisor** (`src/services/ai.ts`): the offline advisor, which answers a question by keyword, cites milestones and documents, and offers action buttons.
- **Onboarding** (`src/pages/Onboarding.tsx`): the four-step onboarding wizard. Its Continue button is guarded by the fields each step requires.

Modules follow the source files:

| file | module | models |
|---|---|---|
| `domain.dfy` | `Domain` | the records of `src/types`, and `Math.round` of a share as a percentage |
| `text.dfy` | `Text` | `String(n)`, `includes`, ASCII `toLowerCase` |
| `lists.dfy` | `Lists` | the `filter`, `map`, `map`-by-id and count idioms |
| `sorting.dfy` | `StableSort` | `Array.prototype.sort`, which ECMAScript requires to be stable |
| `engine.dfy` | `Engine` | risk, blockers, next actions, preparation pack |
| `calendar.dfy` | `Calendar` | `toISOString` on the proleptic Gregorian calendar, `toICS`, the download file name |
| `store.dfy` | `Store` | `appReducer` |
| `readiness.dfy` | `Readiness` | `getRequirements`, the readiness percentage, `getAppointmentReadiness` |
| `advisor.dfy` | `Advisor` | `askAdvisor` |
| `onboarding.dfy` | `Onboarding` | the wizard's state, handlers and guard |

Some conventions hold throughout:

- **Times.** Times are integer milliseconds since the Unix epoch. The current time is a parameter (`now`, `nowMs`). Profile dates are `Option<int>`, where `None` is an empty form field.
- **NaN progress.** A JavaScript number that may be `NaN` is `Percent = Pct(n) | NaN`. A milestone without steps has progress `0 / 0`.
- **Imperative code.** Where the source builds a result step by step with `push` and loops, a method does the same. That method's postcondition ties its result to a specification function, and the properties are proved about that function. Examples are `findBlockers`, `nextActions`, `getRequirements` and `askAdvisor`.
- **The wizard.** The wizard's state is a class whose handlers update its fields in place.

The code and the written design description disagree in one place, and the model follows the code. The design says that marking the first step of a milestone done makes the milestone active. UPDATE_STEP rounds the new progress to a whole percentage, so with more than 200 steps one done step gives 0%, and the status stays what it was. `Store.FirstStepDoneOfManyKeepsStatus` states this, and `Store.FirstStepDoneActivates` covers 2 to 200 steps.

## Model

| member | source | states |
|---|---|---|
| `Domain.RoundPercent` | src/context/AppContext.tsx:65 | `Math.round(count / total * 100)`: NaN iff there are no items; otherwise 0..100, equal to 100 iff at least 99.5% are counted, and above 0 iff at least 0.5% are |
| `Domain.RoundPercentFull` | src/components/ReadinessView.tsx:136 | every item counted rounds to 100; for fewer than 200 items, 100 also means every item counts (at 200 items, 199 counted already rounds to 100) |
| `Lists.FilterConcat` | src/context/AppContext.tsx:89 | filtering works piecewise, so kept elements stay in their relative order |
| `Lists.FilterIdempotent` | src/context/AppContext.tsx:117 | filtering twice with the same test is filtering once |
| `Lists.ReplaceById` | src/context/AppContext.tsx:50-52 | the map-by-id keeps length and order, and replaces exactly the elements that carry the record's id |
| `Lists.RemoveById` | src/context/AppContext.tsx:143 | no kept element carries the id; every element with another id is kept |
| `Lists.RemoveAfterReplace` | src/context/AppContext.tsx:106-118 | removing an id after replacing that id equals removing it from the original list |
| `Lists.Count` | src/context/AppContext.tsx:64 | `filter(...).length`: never above the list length, and the length of the filtered list |
| `Text.NatToString` | src/context/AppContext.tsx:65 | `String(n)`: at least one character, all decimal digits |
| `Text.NatToStringValue` | src/logic/engine.ts:90 | the printed digits read back as `n`, with no leading zero |
| `Text.IntToStringInjective` | src/logic/engine.ts:178 | different integers print as different strings |
| `Text.ToLower` | src/services/ai.ts:29 | same length; each character lower-cased, with ASCII letters mapped to lower case |
| `StableSort.SortSorted` | src/logic/engine.ts:112-116 | the sort's result is ordered by the comparator's key |
| `StableSort.SortPermutes` | src/logic/engine.ts:112-116 | the sort's result is a permutation of its input |
| `StableSort.SortStable` | src/logic/engine.ts:112-116 | elements with equal keys keep their relative order |
| `StableSort.StableSortUnique` | src/logic/engine.ts:112-116 | two sorted, stable orderings of the same list are equal, so the built-in sort gives the model's order |
| `Engine.ComputeRisk` | src/logic/engine.ts:4-22 | red only for overdue or active milestones; amber only for active or upcoming ones |
| `Engine.RiskOfClosedStatus` | src/logic/engine.ts:9-10 | overdue is always red and completed always green, whatever the dates and progress |
| `Engine.RiskOfActive` | src/logic/engine.ts:13-16 | active: red iff days < 7 or progress < 30; amber iff neither, but days < 14 or progress < 60; green otherwise |
| `Engine.RiskOfUpcoming` | src/logic/engine.ts:19-21 | upcoming: amber iff due in fewer than 30 whole days, green otherwise |
| `Engine.RiskIgnoresNaNProgress` | src/logic/engine.ts:14-15 | a NaN progress fails both `<` tests, so it is treated like 100% |
| `Engine.RiskGrowsWithTime` | src/logic/engine.ts:7-21 | as the clock advances, a milestone's risk never decreases |
| `Engine.RiskFallsWithProgress` | src/logic/engine.ts:14-15 | more progress never raises the risk |
| `Engine.RiskScenarioActiveSoon` | src/logic/engine.ts:14 | an active milestone due in 3 days with 20% progress is red |
| `Engine.RiskScenarioUpcomingLater` | src/logic/engine.ts:19-21 | an upcoming milestone due in 45 days is green |
| `Engine.FindBlockers` | src/logic/engine.ts:25-98 | the blockers pushed rule by rule equal the specification's list: one blocker per firing rule, in rule order |
| `Engine.DocumentBlockers` | src/logic/engine.ts:30-69 | the missing-document checks push exactly the first four rules that fire |
| `Engine.FiredRulesExact` | src/logic/engine.ts:25-98 | a rule is listed iff it fires, and the list follows the evaluation order |
| `Engine.FiredCount` | src/logic/engine.ts:30-95 | the blocker table: each of the six rules contributes itself when its condition holds |
| `Engine.BlockerPresentIffFires` | src/logic/engine.ts:31-87 | a blocker with a rule's id is present iff that rule's condition holds |
| `Engine.BlockersIdentified` | src/logic/engine.ts:33-93 | every blocker names the milestone, and blocker ids are pairwise distinct |
| `Engine.BlockersBounded` | src/logic/engine.ts:30-95 | at most three blockers; document blockers arise only for SSN, OPT and CPT milestones |
| `Engine.IncompleteStepsBlocker` | src/logic/engine.ts:86-95 | when present, the incomplete-steps blocker comes last, counts the pending upload steps and points at the first of them |
| `Engine.SsnMissingBothDocuments` | src/logic/engine.ts:30-47 | an SSN milestone with no I-20, no passport and no pending upload has exactly the two missing-document blockers |
| `Engine.PendingFilterNonEmpty` | src/logic/engine.ts:86-87 | the filtered list of pending upload steps is non-empty iff some step still waits for an upload |
| `Engine.NextActions` | src/logic/engine.ts:101-168 | the loop with its early break returns the first three actions of the full prioritised list, never more than three |
| `Engine.PushMilestoneActions` | src/logic/engine.ts:119-162 | one loop pass appends exactly that milestone's actions |
| `Engine.FlattenCut` | src/logic/engine.ts:164-167 | once three actions are collected, the remaining milestones cannot change the first three |
| `Engine.PriorityOrder` | src/logic/engine.ts:110-116 | the prioritised milestones are exactly the active and overdue ones; overdue come first, each status group runs by ascending due date, and ties keep the input order |
| `Engine.ActionsForShape` | src/logic/engine.ts:120-162 | per milestone: one step action iff a step is open, for the first open step and with the step's call to action; a prep-pack action iff due in 1..13 days and over 50% done, placed last |
| `Engine.FirstOpenStep` | src/logic/engine.ts:120 | `find(s => !s.done)`: the first open step, or none when every step is done |
| `Engine.NoPriorityNoActions` | src/logic/engine.ts:110-118 | with no active or overdue milestone there are no actions |
| `Engine.ActionsReferencePriority` | src/logic/engine.ts:118-167 | every action names an active or overdue milestone of the input |
| `Engine.OverdueFirstScenario` | src/logic/engine.ts:113-114 | an overdue milestone's action precedes an active one's, even when the active one is listed first |
| `Engine.GenPrepPack` | src/logic/engine.ts:171-185 | the pack names the milestone, its title is suffixed " Preparation Pack", its checklist is the step titles in order, and it includes exactly the ids of the documents filed under the milestone |
| `Engine.ScopedDocIdsConcat` | src/logic/engine.ts:173-175 | the included ids follow the order of the document list |
| `Engine.PrepPackIdsDiffer` | src/logic/engine.ts:178 | packs generated at different instants get different ids |
| `Calendar.ToDateTime` | src/logic/engine.ts:190 | the UTC calendar fields of a time value: the unique well-formed fields that denote that instant |
| `Calendar.CivilFields` | src/logic/engine.ts:190 | the calendar arithmetic (day number, year, month, day, clock) yields well-formed fields that denote the instant again |
| `Calendar.FieldsUnique` | src/logic/engine.ts:190 | two well-formed sets of fields that denote the same instant are equal, so the fields are determined by the instant |
| `Calendar.ToDateTimeComputed` | src/logic/engine.ts:190 | the arithmetic gives exactly the fields of the instant |
| `Calendar.YearOf` | src/logic/engine.ts:190 | the year containing a day number, on the proleptic Gregorian calendar |
| `Calendar.DaysBeforeYearCycle` | src/logic/engine.ts:190 | the calendar repeats every 400 years of 146097 days |
| `Calendar.StampFormat` | src/logic/engine.ts:190-191 | for years 0..9999 the stamp is 16 characters: YYYYMMDD, `T`, HHMMSS, `Z` |
| `Calendar.StampRoundTrip` | src/logic/engine.ts:190 | a stamp reads back as its instant truncated to the whole second |
| `Calendar.EndIsOneHourLater` | src/logic/engine.ts:191 | DTEND reads back as exactly one hour after DTSTART |
| `Calendar.ToICS` | src/logic/engine.ts:188-207 | the event text is produced iff the date and the date plus one hour are valid time values, and it is then the template filled in; otherwise `toISOString` throws |
| `Calendar.IcsStructure` | src/logic/engine.ts:193-206 | when no field spans lines, the filled-in template splits back into exactly its lines: UID from the clock reading, DTSTAMP, DTSTART and DTEND stamps, and the fields |
| `Calendar.PayloadLines` | src/logic/engine.ts:193-206 | the fourteen lines, with their fixed frame, DTSTART, DTEND, SUMMARY and DESCRIPTION, and a LOCATION line iff a non-empty location is given |
| `Calendar.SplitJoin` | src/logic/engine.ts:193-206 | splitting joined single-line strings at newlines gives the lines back |
| `Calendar.CollapseRun` | src/logic/engine.ts:215 | each run of whitespace in the title becomes a single underscore |
| `Calendar.IcsFileName` | src/logic/engine.ts:215 | the download name ends in `.ics` and has no whitespace; `CollapseRun`, `CollapseKeepsPlain` and `CollapseIdempotent` state how the title is rewritten |
| `Calendar.CollapseLeavesNoSpace` | src/logic/engine.ts:215 | the download file name has no whitespace left |
| `Calendar.CollapseKeepsPlain` | src/logic/engine.ts:215 | a title without whitespace is kept as it is |
| `Calendar.CollapseIdempotent` | src/logic/engine.ts:215 | collapsing twice is collapsing once |
| `Store.Reduce` | src/context/AppContext.tsx:42-157 | `appReducer`: the onboarding flag only rises, and only COMPLETE_ONBOARDING raises it; a profile once set stays set; only COMPLETE_ONBOARDING changes the number of milestones; the activity log only grows, newest first. The case-by-case effects are the lemmas below |
| `Store.ReduceFrame` | src/context/AppContext.tsx:42-157 | every action leaves the parts of the state outside its footprint unchanged |
| `Store.AddPrepends` | src/context/AppContext.tsx:72-130 | the ADD actions put the payload in front of the old list |
| `Store.UnknownIdIsNoOp` | src/context/AppContext.tsx:47-144 | an update or delete of an absent id leaves the whole state unchanged |
| `Store.UpdateReplacesById` | src/context/AppContext.tsx:47-138 | a record update keeps length and order, and replaces exactly the elements with its id |
| `Store.DeleteRemovesId` | src/context/AppContext.tsx:86-144 | after a delete no element has the id, and every other element remains |
| `Store.DeleteIdempotent` | src/context/AppContext.tsx:86-144 | deleting twice is deleting once |
| `Store.DeleteAfterUpdate` | src/context/AppContext.tsx:106-118 | deleting a document right after updating it leaves the same state as deleting it outright |
| `Store.SnoozeSetsOnlySnooze` | src/context/AppContext.tsx:92-98 | snoozing sets `snoozedUntil` on the notifications with the id and changes nothing else |
| `Store.CompleteOnboardingResult` | src/context/AppContext.tsx:146-152 | COMPLETE_ONBOARDING installs the profile and milestones, raises the flag and keeps the other lists |
| `Store.UpdateStepEffect` | src/context/AppContext.tsx:55-70 | UPDATE_STEP touches only milestones with the id; there it sets `done` on the matching steps and recomputes progress from the done count |
| `Store.ApplyStepProgress` | src/context/AppContext.tsx:64-65 | the new progress is in 0..100, or NaN when the milestone has no steps |
| `Store.ApplyStepStatus` | src/context/AppContext.tsx:66 | completed at 100, active above 0, the prior status otherwise; never a new upcoming or overdue |
| `Store.ApplyStepIdempotent` | src/context/AppContext.tsx:55-70 | repeating the same UPDATE_STEP changes nothing more |
| `Store.MarkingEveryStepCompletes` | src/context/AppContext.tsx:55-70 | marking every step done, one action per step, gives progress 100 and status completed |
| `Store.LastStepCompletes` | src/context/AppContext.tsx:64-66 | if all steps end up done, the last UPDATE_STEP wrote 100 and completed |
| `Store.FirstStepDoneActivates` | src/context/AppContext.tsx:64-66 | the first done step of an untouched milestone with 2 to 200 steps makes it active |
| `Store.FirstStepDoneOfManyKeepsStatus` | src/context/AppContext.tsx:64-66 | with more than 200 steps one done step rounds to 0%, and the status is kept |
| `Readiness.Requirements` | src/components/ReadinessView.tsx:24-132 | `getRequirements`: four requirements for SSN and OPT, three for CPT and TRAVEL, one per step otherwise; `SsnChecklist`, `OptChecklist`, `CptChecklist`, `TravelChecklist` and `OtherChecklist` give each one's meaning |
| `Readiness.GetRequirements` | src/components/ReadinessView.tsx:24-132 | the checklist pushed case by case equals the specification's checklist for the milestone kind |
| `Readiness.PushStepRequirements` | src/components/ReadinessView.tsx:121-129 | the default case appends one requirement per step, in order |
| `Readiness.DocRequirementMeaning` | src/components/ReadinessView.tsx:26-38 | a document requirement is met iff some document counts for it; it cites a document iff it is met, and then the first such document |
| `Readiness.SsnChecklist` | src/components/ReadinessView.tsx:30-55 | SSN: I-20 and job offer filed under the milestone, a passport anywhere, and the 10-day rule met iff progress is above 0 |
| `Readiness.OptChecklist` | src/components/ReadinessView.tsx:56-81 | OPT: the I-20 is scoped to the milestone; the passport is valid for 6+ months iff its expiry is more than 180 days after now; the window is open iff the milestone is active; the fee is paid iff a done step's title contains "fee"; only the I-20 cites a document |
| `Readiness.CptChecklist` | src/components/ReadinessView.tsx:82-102 | CPT: the job offer is scoped to the milestone; full-time enrollment iff the degree started more than 365 days before now; DSO approval iff a done step mentions "DSO"; only the job offer cites a document |
| `Readiness.TravelChecklist` | src/components/ReadinessView.tsx:103-120 | TRAVEL: the passport is valid iff its expiry is after now; the travel signature iff a done step mentions "signature"; a visa document anywhere; no requirement cites a document |
| `Readiness.OtherChecklist` | src/components/ReadinessView.tsx:121-129 | any other kind: one requirement per step, met iff the step is done |
| `Readiness.SomeDoneStepWithMeaning` | src/components/ReadinessView.tsx:77 | `some(s => s.title.includes(w) && s.done)` holds iff such a step exists |
| `Readiness.SatisfiedCount` | src/components/ReadinessView.tsx:135 | the count of met requirements is at most their number |
| `Readiness.ReadinessPercent` | src/components/ReadinessView.tsx:136 | a non-empty checklist with every requirement met is at 100%, and with none met at 0%; `ReadinessPercentRange` bounds it |
| `Readiness.ReadinessPercentRange` | src/components/ReadinessView.tsx:136 | a whole percentage in 0..100, or NaN for an empty checklist |
| `Readiness.CountAll` | src/components/ReadinessView.tsx:135 | every requirement is met iff the count equals the number of requirements |
| `Readiness.SsnAppointment` | src/components/ReadinessView.tsx:140-163 | SSN: ready iff all four are met; "almost" iff the three document requirements are met and the 10-day rule is not; otherwise incomplete; a booking action iff ready |
| `Readiness.OptAppointment` | src/components/ReadinessView.tsx:165-179 | OPT: ready iff every requirement is met |
| `Readiness.AppointmentReadinessOf` | src/components/ReadinessView.tsx:139-182 | `getAppointmentReadiness`: a verdict offers an action exactly when it is ready; `SsnAppointment`, `OptAppointment` and `NoAppointmentOtherwise` give the verdict per kind |
| `Readiness.NoAppointmentOtherwise` | src/components/ReadinessView.tsx:181 | only SSN and OPT milestones get an appointment verdict |
| `Advisor.TopicOfFirstMatch` | src/services/ai.ts:31-165 | the first keyword group mentioned decides the topic, in the order SSN, OPT, CPT, deadlines, I-20, travel; a question naming none gets the general answer |
| `Advisor.MentionsMeaning` | src/services/ai.ts:31 | a disjunction of `includes` holds iff some keyword occurs |
| `Advisor.OptionalPracticalMentionsOpt` | src/services/ai.ts:61 | every question containing "optional practical" already contains "opt" |
| `Advisor.AskAdvisor` | src/services/ai.ts:17-170 | the response assembled branch by branch equals the specification's response |
| `Advisor.DeadlineBranch` | src/services/ai.ts:122-129 | the `forEach` over the first two active or upcoming milestones pushes one source each |
| `Advisor.OptBranch` | src/services/ai.ts:61-101 | the OPT branch's pushes and appends give the specified answer, sources and actions |
| `Advisor.SsnReply` | src/services/ai.ts:31-59 | SSN: cites the first SSN milestone and then the first I-20 document; one prep-pack action iff an SSN milestone exists; the documents answer iff the question mentions bring, appointment or documents |
| `Advisor.OptReply` | src/services/ai.ts:61-101 | OPT: cites the first OPT milestone; a prep-pack and a reminder action for it iff an OPT milestone exists; answer = introduction, then the numbered pending steps and the footer when there are any |
| `Advisor.NumberedListLines` | src/services/ai.ts:83 | the numbered list splits into one line per step, line i reading "i+1. title" |
| `Advisor.PendingStepsMeaning` | src/services/ai.ts:81 | the listed steps are exactly the steps not yet done |
| `Advisor.CptReply` | src/services/ai.ts:104-119 | CPT: a fixed answer citing the first CPT milestone, and one DSO e-mail action iff there is one |
| `Advisor.DeadlineReply` | src/services/ai.ts:122-129 | deadlines: cites the first min(2, n) active or upcoming milestones, in order; no actions |
| `Advisor.InformationalReplies` | src/services/ai.ts:142-167 | I-20, travel and general questions get no actions; I-20 cites the I-20 milestone and document, travel the travel milestone, general nothing |
| `Advisor.Advise` | src/services/ai.ts:17-170 | the response `askAdvisor` returns: `actions` is present only when it holds at least one action; `TopicOfFirstMatch` fixes the topic, and `SsnReply`, `OptReply`, `CptReply`, `DeadlineReply` and `InformationalReplies` the answer, sources and actions per topic |
| `Advisor.FindKindFirst` | src/services/ai.ts:32 | `find(m => m.kind === k)` returns the first milestone of that kind, and none iff there is none |
| `Onboarding.ApplyEditChangesOnlyField` | src/pages/Onboarding.tsx:32-34 | updateProfile sets the named field to the given value (a visa type to `Some` of it) and keeps every other field |
| `Onboarding.EditKeepsOtherGuard` | src/pages/Onboarding.tsx:32-34 | editing a field of one step leaves the other step's guard as it was |
| `Onboarding.CanProceedAt` | src/pages/Onboarding.tsx:58-71 | `canProceed()`: only steps 1..4 can proceed, and the review step always does; `CanProceedCases`, `CanProceedMonotone` and `DegreeEndNotRequired` state the rest |
| `Onboarding.CanProceedCases` | src/pages/Onboarding.tsx:58-71 | step 3 proceeds iff both uploads are done; step 4 always proceeds; any step outside 1..4 never does; uploads matter only on step 3 |
| `Onboarding.DegreeEndNotRequired` | src/pages/Onboarding.tsx:62-63 | the degree end date never decides whether the wizard may go on |
| `Onboarding.CanProceedMonotone` | src/pages/Onboarding.tsx:36-65 | an upload never takes away the right to proceed |
| `Onboarding.Wizard.constructor` | src/pages/Onboarding.tsx:25-30 | a fresh wizard is on step 1, with an empty profile and nothing uploaded |
| `Onboarding.Wizard.UpdateProfile` | src/pages/Onboarding.tsx:32-34 | the named field takes the value, step and uploads stay, and an edit on the field's own step keeps the wizard's invariant |
| `Onboarding.Wizard.MockUpload` | src/pages/Onboarding.tsx:36-39 | only the chosen flag becomes true; no flag is ever cleared |
| `Onboarding.Wizard.Continue` | src/pages/Onboarding.tsx:327-331 | the step increases by exactly 1, only below step 4 and when the guard holds; the step stays within 1..4 |
| `Onboarding.Wizard.Back` | src/pages/Onboarding.tsx:321-325 | the step decreases by 1, only above step 1 |
| `Onboarding.Wizard.Complete` | src/pages/Onboarding.tsx:41-56 | completion happens only on step 4 and dispatches COMPLETE_ONBOARDING with the collected profile and the seed milestones; by then all required fields are filled in and both documents are uploaded |

## Left out

- Rendering, toasts, routing and navigation are left out. So are the `Blob`, object-URL and link handling of `downloadICS`; only its file-name rule is modelled.
- Clock reads (`new Date()`, `Date.now()`) become parameters: `now` in the engine and the readiness checks, and `nowMs` in `genPrepPack` and `toICS`. The UID and DTSTAMP lines of one calendar text read the clock twice in the source; the model uses one reading for both.
- Parsing of date strings is left out. Due dates and profile dates are time values, and an unparseable date given to `toICS` is `None`. The advisor's deadline answer prints `due` as stored, which the model does not hold as text.
- Locale formatting is left out: `toLocaleDateString` in the pack notes is the `dateText` parameter.
- `Engine.GenPrepPack`: the pack id is built from `nowMs`, and its notes from the caller's `dateText`.
- `Advisor.AskAdvisor`: the OPT timeline introduction, built from the profile's completion date with `toLocaleDateString`, is the caller's `timelineIntro`. The ±90/60-day window arithmetic behind it is not modelled.
- `Advisor.AskAdvisor`: the deadline answer holds only its heading. The per-milestone lines and the passport-expiry warning (`src/services/ai.ts:131-138`) are left out, because they print the stored due-date text and read the clock.
- `Advisor.AskAdvisor`: the simulated 800 ms delay and the asynchronous promise are left out, so the reply is a plain value. The options `useMilestones` and `docIds` are carried along, but the source never reads them.
- `Text.ToLower`: only the ASCII letters are lower-cased. The full Unicode case mapping of `toLowerCase` is not modelled.
- `Domain.RoundPercent`: the rounding is exact rational round-half-up. The floating-point error of `c / t * 100` is not modelled.
- `Calendar.StampFormat`: the fixed 16-character shape is proved for years 0..9999. Outside that range, `toISOString` writes a signed six-digit year, which is modelled but not given this shape lemma.
- Escaping and line folding of calendar text are not done by the source, and the model does not add them. Newlines inside the title, description or location would split lines. The structure lemmas assume single-line fields.
- The seed milestones dispatched on completion are a parameter of `Onboarding.Wizard.Complete`. `src/data/seed.ts` is not part of this model.
- Profile fields that come from `<input type="date">` are `Option<int>`, where an empty input is `None`. The visa type comes from a select and is `Option<VisaType>`.
- Stepper and review rendering in the wizard are left out. That each field is shown only on its own step is stated as the condition under which `Onboarding.Wizard.UpdateProfile` keeps the wizard's invariant.
