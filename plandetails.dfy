/** The study-plan details dialog: the progress it shows, the test that tells a listed study plan
    from a plan with milestones, the values it hands to the edit form, and its badge colours. */
module PlanDetails {
  import opened Common
  import opened Text
  import opened Arith
  import ProgressTracker
  import PlanForm

  /** A property of a JavaScript object as read through `any`: absent, `null`, or a value. */
  datatype Prop<+T> = Undefined | Null | Value(value: T)

  /** `p ?? d`: the default for an absent or null property only. */
  function Coalesce<T>(p: Prop<T>, d: T): T {
    if p.Value? then p.value else d
  }

  /** `s || d` on a text property: also the empty text is replaced. */
  function TextOr(p: Prop<string>, d: string): string {
    if p.Value? && p.value != "" then p.value else d
  }

  /** The plan the dialog shows, which is either a listed study plan or a plan with milestones;
      every field the dialog reads besides the three texts may be missing. `progress` is a value
      when it is a number. */
  datatype Plan = Plan(
    title: string, description: string, duration: string,
    subjects: Prop<seq<string>>, progress: Prop<int>, status: Prop<string>, dueDate: Prop<string>,
    difficulty: Prop<string>, studyHoursPerWeek: Prop<int>, startDate: Prop<string>,
    goals: Prop<seq<string>>, prerequisites: Prop<seq<string>>,
    milestones: Prop<seq<ProgressTracker.Milestone>>)

  // ---- progress ----

  /** `computeProgress`: a numeric `progress` is shown as it is; otherwise the rounded percentage
      of completed milestones, which is 0 when there are none. */
  function ComputeProgress(plan: Plan): (r: int)
    ensures plan.progress.Value? ==> r == plan.progress.value
    ensures !plan.progress.Value? ==> 0 <= r <= 100
    ensures !plan.progress.Value? && (!plan.milestones.Value? || plan.milestones.value == []) ==> r == 0
  {
    if plan.progress.Value? then plan.progress.value
    else if plan.milestones.Value? && |plan.milestones.value| > 0 then
      var ms := plan.milestones.value;
      ProgressTracker.OverallProgressIsRoundedFraction(ms);
      RoundedPercent(ProgressTracker.CompletedCount(ms), |ms|)
    else 0
  }

  /** Without a `progress` field the dialog shows the tracker's progress of the same milestones:
      the same rounded fraction when there are milestones, and 0 where the tracker's own
      formula divides by zero. */
  lemma ComputeProgressIsTrackerProgress(plan: Plan)
    requires !plan.progress.Value?
    ensures plan.milestones.Value? ==> ComputeProgress(plan) == ProgressTracker.OverallProgress(plan.milestones.value)
    ensures plan.milestones.Value? && plan.milestones.value != [] ==>
              Some(ComputeProgress(plan)) == ProgressTracker.OverallProgressAsWritten(plan.milestones.value)
    ensures plan.milestones.Value? && plan.milestones.value == [] ==>
              ProgressTracker.OverallProgressAsWritten(plan.milestones.value).None? && ComputeProgress(plan) == 0
  {
    if plan.milestones.Value? {
      ProgressTracker.EmptyPlanProgressIsNaN();
    }
  }

  // ---- the kind of plan ----

  /** `isStudyPlan`: a `status` or a `dueDate` property that is not `undefined`; a `null` one
      counts. */
  predicate IsStudyPlan(plan: Plan) {
    !plan.status.Undefined? || !plan.dueDate.Undefined?
  }

  /** A plan with milestones as the study-plan form creates it has neither field, while a listed
      study plan always has a status, even a null one. */
  lemma IsStudyPlanCases(plan: Plan)
    ensures plan.status.Undefined? && plan.dueDate.Undefined? ==> !IsStudyPlan(plan)
    ensures plan.status == Null ==> IsStudyPlan(plan)
    ensures plan.dueDate.Value? ==> IsStudyPlan(plan)
  {
  }

  // ---- the edit form ----

  /** `toFormData`: the plan's values for the edit form. Missing lists become empty lists, a
      missing or empty difficulty becomes "Beginner", a missing start date the empty text, and
      the hours become 5 only when they are missing or null, so 0 hours are kept. */
  function ToFormData(plan: Plan): (f: PlanForm.FormData)
    ensures f.title == plan.title && f.description == plan.description && f.duration == plan.duration
    ensures f.subjects == (if plan.subjects.Value? then plan.subjects.value else [])
    ensures f.goals == (if plan.goals.Value? then plan.goals.value else [])
    ensures f.prerequisites == (if plan.prerequisites.Value? then plan.prerequisites.value else [])
    ensures f.difficulty == (if plan.difficulty.Value? && plan.difficulty.value != "" then plan.difficulty.value else "Beginner")
    ensures f.studyHoursPerWeek == (if plan.studyHoursPerWeek.Value? then plan.studyHoursPerWeek.value else 5)
    ensures f.startDate == (if plan.startDate.Value? then plan.startDate.value else "")
  {
    PlanForm.FormData(
      plan.title, plan.description, plan.duration, Coalesce(plan.subjects, []),
      TextOr(plan.difficulty, "Beginner"), Coalesce(plan.studyHoursPerWeek, 5),
      TextOr(plan.startDate, ""), Coalesce(plan.goals, []), Coalesce(plan.prerequisites, []))
  }

  /** The plan the study-plan form submits: every form field present, no progress, status or due
      date, and the given milestones. */
  function PlanOfForm(f: PlanForm.FormData, ms: seq<ProgressTracker.Milestone>): (plan: Plan)
    ensures !IsStudyPlan(plan) && plan.milestones == Value(ms)
  {
    Plan(f.title, f.description, f.duration, Value(f.subjects), Undefined, Undefined, Undefined,
         Value(f.difficulty), Value(f.studyHoursPerWeek), Value(f.startDate), Value(f.goals),
         Value(f.prerequisites), Value(ms))
  }

  /** Editing a plan the form created opens the form on the values it was created with, unless
      the difficulty was left empty, which comes back as "Beginner". */
  lemma ToFormDataOfPlanOfForm(f: PlanForm.FormData, ms: seq<ProgressTracker.Milestone>)
    ensures f.difficulty != "" ==> ToFormData(PlanOfForm(f, ms)) == f
    ensures f.difficulty == "" ==> ToFormData(PlanOfForm(f, ms)) == f.(difficulty := "Beginner")
  {
  }

  /** Because 0 hours are kept rather than defaulted, a plan stored with 0 weekly hours opens an
      edit form that fails the hours rule until the hours are changed. */
  lemma ZeroHoursFailEditValidation(plan: Plan)
    requires plan.studyHoursPerWeek == Value(0)
    ensures PlanForm.StudyHoursPerWeek in PlanForm.Validate(ToFormData(plan))
  {
    assert PlanForm.Fails(ToFormData(plan), PlanForm.StudyHoursPerWeek);
  }

  // ---- badge colours ----

  const Green: string := "bg-green-100 text-green-800"
  const Blue: string := "bg-blue-100 text-blue-800"
  const Yellow: string := "bg-yellow-100 text-yellow-800"
  const Red: string := "bg-red-100 text-red-800"
  const Gray: string := "bg-gray-100 text-gray-800"

  /** `getStatusColor`: the lower-cased status picks the colour; any other status is gray. */
  function StatusColor(status: string): (c: string)
    ensures c == Gray <==> ToLowerCase(status) !in {"active", "completed", "paused", "overdue"}
  {
    match ToLowerCase(status)
    case "active" => Green
    case "completed" => Blue
    case "paused" => Yellow
    case "overdue" => Red
    case _ => Gray
  }

  /** The colour does not depend on letter case: lower-casing the status first changes nothing,
      and the backend's upper-case "ACTIVE" is green like "active". */
  lemma StatusColorIgnoresCase(status: string)
    ensures StatusColor(ToLowerCase(status)) == StatusColor(status)
    ensures StatusColor("ACTIVE") == Green
  {
    ToLowerCaseIdempotent(status);
    assert ToLowerCase("ACTIVE") == "active";
  }

  /** `getDifficultyColor`: the lower-cased difficulty picks the colour; a missing one or any
      other value is gray. */
  function DifficultyColor(difficulty: Option<string>): (c: string)
    ensures difficulty.None? ==> c == Gray
    ensures difficulty.Some? ==>
      (c == Gray <==> ToLowerCase(difficulty.value) !in {"beginner", "intermediate", "advanced"})
  {
    match difficulty
    case None => Gray
    case Some(d) =>
      match ToLowerCase(d)
      case "beginner" => Green
      case "intermediate" => Yellow
      case "advanced" => Red
      case _ => Gray
  }

  /** The difficulty colour does not depend on letter case either, and the form's three levels
      get three different colours. */
  lemma DifficultyColorIgnoresCase(d: string)
    ensures DifficultyColor(Some(ToLowerCase(d))) == DifficultyColor(Some(d))
    ensures DifficultyColor(Some("Beginner")) == Green
    ensures DifficultyColor(Some("Intermediate")) == Yellow
    ensures DifficultyColor(Some("Advanced")) == Red
  {
    ToLowerCaseIdempotent(d);
    assert ToLowerCase("Beginner") == "beginner";
    assert ToLowerCase("Intermediate") == "intermediate";
    assert ToLowerCase("Advanced") == "advanced";
  }
}
