/** The study-plan form: its fields, the trimmed duplicate-free subject, goal and prerequisite
    lists, the six validation rules with their error messages, and submission. */
module PlanForm {
  import opened Common
  import opened Text

  datatype FormData = FormData(
    title: string, description: string, duration: string, subjects: seq<string>,
    difficulty: string, studyHoursPerWeek: int, startDate: string,
    goals: seq<string>, prerequisites: seq<string>)

  /** The form's defaults, to which it also returns after a submission. */
  const EmptyForm := FormData("", "", "", [], "Beginner", 5, "", [], [])

  // ---- item lists ----

  /** Every item is non-empty, trimmed and different from the others: what the add rule keeps. */
  predicate WellFormedItems(items: seq<string>) {
    && Distinct(items)
    && forall i | 0 <= i < |items| :: items[i] != [] && Trim(items[i]) == items[i]
  }

  /** The add rule of subjects, goals and prerequisites: the trimmed input is appended when it is
      non-empty and not yet listed; otherwise the input is rejected (`None`) and the list stays. */
  function AddTrimmed(items: seq<string>, input: string): (r: Option<seq<string>>)
    ensures r.Some? <==> Trim(input) != [] && Trim(input) !in items
    ensures r.Some? ==> r.value == items + [Trim(input)]
  {
    var t := Trim(input);
    if t != [] && t !in items then Some(items + [t]) else None
  }

  /** Adding keeps the list non-empty-trimmed-distinct. */
  lemma AddTrimmedKeepsWellFormed(items: seq<string>, input: string)
    requires WellFormedItems(items)
    ensures AddTrimmed(items, input).Some? ==> WellFormedItems(AddTrimmed(items, input).value)
  {
    if AddTrimmed(items, input).Some? {
      TrimIdempotent(input);
      var r := AddTrimmed(items, input).value;
      forall i, j | 0 <= i < j < |r| ensures r[i] != r[j] {
        if j == |items| {
          assert r[i] in items;
        }
      }
    }
  }

  /** Adding the same input a second time is rejected. */
  lemma AddTrimmedTwice(items: seq<string>, input: string)
    ensures AddTrimmed(items, input).Some? ==> AddTrimmed(AddTrimmed(items, input).value, input).None?
  {
    if AddTrimmed(items, input).Some? {
      var r := AddTrimmed(items, input).value;
      assert r[|items|] == Trim(input);
    }
  }

  /** The remove rule: `items.filter(s => s !== value)`. */
  function RemoveAll(items: seq<string>, value: string): (r: seq<string>)
    ensures value !in r
  {
    Filter(items, (s: string) => s != value)
  }

  /** Removing drops every occurrence of the value and keeps every other item, as often as it
      occurred. */
  lemma {:induction false} RemoveAllCounts(items: seq<string>, value: string)
    ensures multiset(RemoveAll(items, value))[value] == 0
    ensures forall x | x != value :: multiset(RemoveAll(items, value))[x] == multiset(items)[x]
  {
    if items != [] {
      var p := (s: string) => s != value;
      RemoveAllCounts(items[1..], value);
      assert items == [items[0]] + items[1..];
      FilterConcat([items[0]], items[1..], p);
      assert Filter(items, p) == Filter([items[0]], p) + Filter(items[1..], p);
    }
  }

  /** Removing a value from a concatenation removes it from each part, so the rest keeps its order. */
  lemma RemoveAllConcat(a: seq<string>, b: seq<string>, value: string)
    ensures RemoveAll(a + b, value) == RemoveAll(a, value) + RemoveAll(b, value)
  {
    FilterConcat(a, b, (s: string) => s != value);
  }

  /** Removing what was just added restores the list. */
  lemma RemoveUndoesAdd(items: seq<string>, input: string)
    requires AddTrimmed(items, input).Some?
    ensures RemoveAll(AddTrimmed(items, input).value, Trim(input)) == items
  {
    var t := Trim(input);
    var p := (s: string) => s != t;
    RemoveAllConcat(items, [t], t);
    FilterKeepsAll(items, p);
    FilterDropsAll([t], p);
  }

  /** Removing keeps the list well formed. */
  lemma RemoveAllKeepsWellFormed(items: seq<string>, value: string)
    requires WellFormedItems(items)
    ensures WellFormedItems(RemoveAll(items, value))
  {
    var r := RemoveAll(items, value);
    FilterDistinct(items, (s: string) => s != value);
    forall i | 0 <= i < |r| ensures r[i] != [] && Trim(r[i]) == r[i] {
      assert r[i] in items;
    }
  }

  // ---- validation ----

  /** The fields a validation rule is attached to; `Key` is the name the error is stored under. */
  datatype Field = Title | Description | Duration | Subjects | StartDate | StudyHoursPerWeek {
    function Key(): string {
      match this
      case Title => "title"
      case Description => "description"
      case Duration => "duration"
      case Subjects => "subjects"
      case StartDate => "startDate"
      case StudyHoursPerWeek => "studyHoursPerWeek"
    }

    function Message(): string {
      match this
      case Title => "Title is required"
      case Description => "Description is required"
      case Duration => "Duration is required"
      case Subjects => "At least one subject is required"
      case StartDate => "Start date is required"
      case StudyHoursPerWeek => "Study hours must be between 1 and 40"
    }
  }

  const AllFields: set<Field> := {Title, Description, Duration, Subjects, StartDate, StudyHoursPerWeek}

  lemma AllFieldsComplete()
    ensures forall field: Field :: field in AllFields
  {
    forall field: Field ensures field in AllFields {
      match field
      case Title =>
      case Description =>
      case Duration =>
      case Subjects =>
      case StartDate =>
      case StudyHoursPerWeek =>
    }
  }

  /** The rule of one field fails: a blank title or description, an empty duration or start
      date, no subject, or study hours outside 1 to 40. */
  predicate Fails(d: FormData, field: Field) {
    match field
    case Title => Trim(d.title) == []
    case Description => Trim(d.description) == []
    case Duration => d.duration == []
    case Subjects => |d.subjects| == 0
    case StartDate => d.startDate == []
    case StudyHoursPerWeek => d.studyHoursPerWeek < 1 || d.studyHoursPerWeek > 40
  }

  /** The six rules the form must meet. */
  predicate Valid(d: FormData) {
    && Trim(d.title) != []
    && Trim(d.description) != []
    && d.duration != []
    && |d.subjects| > 0
    && d.startDate != []
    && 1 <= d.studyHoursPerWeek <= 40
  }

  /** `validateForm`'s error object: exactly one message per failing rule, under that field's
      name. The form is valid exactly when there is none. */
  function Validate(d: FormData): (errors: map<Field, string>)
    ensures forall field :: field in errors <==> Fails(d, field)
    ensures forall field | field in errors :: errors[field] == field.Message()
    ensures |errors| == 0 <==> Valid(d)
  {
    var errors := map field | field in AllFields && Fails(d, field) :: field.Message();
    AllFieldsComplete();
    assert Valid(d) <==> errors.Keys == {} by {
      if !Valid(d) {
        var field :| field in AllFields && Fails(d, field);
        assert field in errors.Keys;
      }
    }
    errors
  }

  /** A form with no title, description, duration, subject or start date, such as the empty
      form with its 5 study hours, gets exactly those five errors when its hours pass. */
  lemma UnfilledFormErrors(d: FormData)
    requires d.title == d.description == d.duration == d.startDate == "" && d.subjects == []
    requires 1 <= d.studyHoursPerWeek <= 40
    ensures Validate(d).Keys == {Title, Description, Duration, Subjects, StartDate}
  {
    var errors := Validate(d);
    assert Trim(d.title) == [] && Trim(d.description) == [];
    forall field: Field
      ensures field in errors.Keys <==> field in {Title, Description, Duration, Subjects, StartDate}
    {
      assert field in errors.Keys <==> Fails(d, field);
    }
  }

  // ---- field edits ----

  /** `{ ...prev, [name]: value }` for the form's named inputs; a name that is not one of them
      leaves the modelled fields alone. */
  function SetField(f: FormData, name: string, value: string): FormData {
    if name == "title" then f.(title := value)
    else if name == "description" then f.(description := value)
    else if name == "duration" then f.(duration := value)
    else if name == "difficulty" then f.(difficulty := value)
    else if name == "studyHoursPerWeek" then f.(studyHoursPerWeek := IntOrZero(value))
    else if name == "startDate" then f.(startDate := value)
    else f
  }

  /** The error object after an edit of the input `name`: a non-empty message stored under that
      name is blanked to "", every other entry is kept. */
  function ClearError(errors: map<Field, string>, name: string): (r: map<Field, string>)
    ensures r.Keys == errors.Keys
    ensures forall field | field in errors && field.Key() == name :: r[field] == ""
    ensures forall field | field in errors && field.Key() != name :: r[field] == errors[field]
  {
    map field | field in errors :: if field.Key() == name then "" else errors[field]
  }

  /** The form component with its state and the data it has handed to `onSubmit`. */
  class StudyPlanForm {
    var formData: FormData
    var currentSubject: string
    var currentGoal: string
    var currentPrerequisite: string
    var errors: map<Field, string>
    var submitted: seq<FormData>

    /** The item lists are well formed: what the add and remove handlers keep, though data
        handed in through `initialData` need not be. */
    predicate ListsWellFormed()
      reads this
    {
      WellFormedItems(formData.subjects) && WellFormedItems(formData.goals) && WellFormedItems(formData.prerequisites)
    }

    constructor (initialData: Option<FormData>)
      ensures formData == initialData.GetOr(EmptyForm)
      ensures currentSubject == currentGoal == currentPrerequisite == ""
      ensures errors == map[] && submitted == []
    {
      formData := initialData.GetOr(EmptyForm);
      currentSubject, currentGoal, currentPrerequisite := "", "", "";
      errors := map[];
      submitted := [];
    }

    /** The prefill effect when the dialog opens: the initial data, or the empty form. */
    method Open(initialData: Option<FormData>)
      modifies this
      ensures formData == initialData.GetOr(EmptyForm)
      ensures currentSubject == old(currentSubject) && currentGoal == old(currentGoal)
      ensures currentPrerequisite == old(currentPrerequisite)
      ensures errors == old(errors) && submitted == old(submitted)
    {
      formData := initialData.GetOr(EmptyForm);
    }

    /** `handleInputChange`: stores the value under the input's name and blanks that field's error. */
    method HandleInputChange(name: string, value: string)
      modifies this
      ensures formData == SetField(old(formData), name, value)
      ensures errors == ClearError(old(errors), name)
      ensures currentSubject == old(currentSubject) && currentGoal == old(currentGoal)
      ensures currentPrerequisite == old(currentPrerequisite) && submitted == old(submitted)
    {
      formData := SetField(formData, name, value);
      errors := ClearError(errors, name);
    }

    /** The `onChange` of the subject input: `setCurrentSubject(e.target.value)`. */
    method SetCurrentSubject(value: string)
      modifies this
      ensures currentSubject == value && currentGoal == old(currentGoal)
      ensures currentPrerequisite == old(currentPrerequisite) && formData == old(formData)
      ensures errors == old(errors) && submitted == old(submitted)
    {
      currentSubject := value;
    }

    /** The `onChange` of the goal input: `setCurrentGoal(e.target.value)`. */
    method SetCurrentGoal(value: string)
      modifies this
      ensures currentGoal == value && currentSubject == old(currentSubject)
      ensures currentPrerequisite == old(currentPrerequisite) && formData == old(formData)
      ensures errors == old(errors) && submitted == old(submitted)
    {
      currentGoal := value;
    }

    /** The `onChange` of the prerequisite input: `setCurrentPrerequisite(e.target.value)`. */
    method SetCurrentPrerequisite(value: string)
      modifies this
      ensures currentPrerequisite == value && currentSubject == old(currentSubject)
      ensures currentGoal == old(currentGoal) && formData == old(formData)
      ensures errors == old(errors) && submitted == old(submitted)
    {
      currentPrerequisite := value;
    }

    /** `addSubject`: appends the trimmed subject and clears the input, or changes nothing. */
    method AddSubject()
      modifies this
      ensures old(ListsWellFormed()) ==> ListsWellFormed()
      ensures match AddTrimmed(old(formData.subjects), old(currentSubject))
              case Some(items) => formData == old(formData).(subjects := items) && currentSubject == ""
              case None => formData == old(formData) && currentSubject == old(currentSubject)
      ensures currentGoal == old(currentGoal) && currentPrerequisite == old(currentPrerequisite)
      ensures errors == old(errors) && submitted == old(submitted)
    {
      if ListsWellFormed() {
        AddTrimmedKeepsWellFormed(formData.subjects, currentSubject);
      }
      match AddTrimmed(formData.subjects, currentSubject) {
        case Some(items) =>
          formData := formData.(subjects := items);
          currentSubject := "";
        case None =>
      }
    }

    /** `addGoal`: the same rule for goals. */
    method AddGoal()
      modifies this
      ensures old(ListsWellFormed()) ==> ListsWellFormed()
      ensures match AddTrimmed(old(formData.goals), old(currentGoal))
              case Some(items) => formData == old(formData).(goals := items) && currentGoal == ""
              case None => formData == old(formData) && currentGoal == old(currentGoal)
      ensures currentSubject == old(currentSubject) && currentPrerequisite == old(currentPrerequisite)
      ensures errors == old(errors) && submitted == old(submitted)
    {
      if ListsWellFormed() {
        AddTrimmedKeepsWellFormed(formData.goals, currentGoal);
      }
      match AddTrimmed(formData.goals, currentGoal) {
        case Some(items) =>
          formData := formData.(goals := items);
          currentGoal := "";
        case None =>
      }
    }

    /** `addPrerequisite`: the same rule for prerequisites. */
    method AddPrerequisite()
      modifies this
      ensures old(ListsWellFormed()) ==> ListsWellFormed()
      ensures match AddTrimmed(old(formData.prerequisites), old(currentPrerequisite))
              case Some(items) => formData == old(formData).(prerequisites := items) && currentPrerequisite == ""
              case None => formData == old(formData) && currentPrerequisite == old(currentPrerequisite)
      ensures currentSubject == old(currentSubject) && currentGoal == old(currentGoal)
      ensures errors == old(errors) && submitted == old(submitted)
    {
      if ListsWellFormed() {
        AddTrimmedKeepsWellFormed(formData.prerequisites, currentPrerequisite);
      }
      match AddTrimmed(formData.prerequisites, currentPrerequisite) {
        case Some(items) =>
          formData := formData.(prerequisites := items);
          currentPrerequisite := "";
        case None =>
      }
    }

    /** `removeSubject(subject)`. */
    method RemoveSubject(subject: string)
      modifies this
      ensures old(ListsWellFormed()) ==> ListsWellFormed()
      ensures formData == old(formData).(subjects := RemoveAll(old(formData.subjects), subject))
      ensures currentSubject == old(currentSubject) && currentGoal == old(currentGoal)
      ensures currentPrerequisite == old(currentPrerequisite)
      ensures errors == old(errors) && submitted == old(submitted)
    {
      if ListsWellFormed() {
        RemoveAllKeepsWellFormed(formData.subjects, subject);
      }
      formData := formData.(subjects := RemoveAll(formData.subjects, subject));
    }

    /** `removeGoal(goal)`. */
    method RemoveGoal(goal: string)
      modifies this
      ensures old(ListsWellFormed()) ==> ListsWellFormed()
      ensures formData == old(formData).(goals := RemoveAll(old(formData.goals), goal))
      ensures currentSubject == old(currentSubject) && currentGoal == old(currentGoal)
      ensures currentPrerequisite == old(currentPrerequisite)
      ensures errors == old(errors) && submitted == old(submitted)
    {
      if ListsWellFormed() {
        RemoveAllKeepsWellFormed(formData.goals, goal);
      }
      formData := formData.(goals := RemoveAll(formData.goals, goal));
    }

    /** `removePrerequisite(prerequisite)`. */
    method RemovePrerequisite(prerequisite: string)
      modifies this
      ensures old(ListsWellFormed()) ==> ListsWellFormed()
      ensures formData == old(formData).(prerequisites := RemoveAll(old(formData.prerequisites), prerequisite))
      ensures currentSubject == old(currentSubject) && currentGoal == old(currentGoal)
      ensures currentPrerequisite == old(currentPrerequisite)
      ensures errors == old(errors) && submitted == old(submitted)
    {
      if ListsWellFormed() {
        RemoveAllKeepsWellFormed(formData.prerequisites, prerequisite);
      }
      formData := formData.(prerequisites := RemoveAll(formData.prerequisites, prerequisite));
    }

    /** `validateForm`: replaces the errors and reports whether there are none. */
    method ValidateForm() returns (ok: bool)
      modifies this
      ensures ok <==> Valid(formData)
      ensures errors == Validate(formData)
      ensures formData == old(formData) && submitted == old(submitted)
      ensures currentSubject == old(currentSubject) && currentGoal == old(currentGoal)
      ensures currentPrerequisite == old(currentPrerequisite)
    {
      errors := Validate(formData);
      ok := |errors| == 0;
    }

    /** `handleSubmit`: a valid form is handed to `onSubmit` and reset to the defaults; an invalid
        one stays as it is, with its errors shown. */
    method HandleSubmit()
      modifies this
      ensures errors == Validate(old(formData))
      ensures Valid(old(formData)) ==> submitted == old(submitted) + [old(formData)] && formData == EmptyForm
      ensures !Valid(old(formData)) ==> submitted == old(submitted) && formData == old(formData)
      ensures currentSubject == old(currentSubject) && currentGoal == old(currentGoal)
      ensures currentPrerequisite == old(currentPrerequisite)
    {
      var ok := ValidateForm();
      // `onSubmit(formData)` and the reset happen only when the form passed
      submitted, formData := if ok then submitted + [formData] else submitted, if ok then EmptyForm else formData;
    }
  }
}
