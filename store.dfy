/** The client-side store of the dashboard: the courses and assignments created in the browser,
    their id counters, quiz attempts, and the assignment list kept in local storage under
    `studymate.assignments`. */
module ClientStore {
  import opened Common

  datatype Course = Course(
    id: int, title: string, description: string, progress: int,
    duration: string, level: string, image: string)

  /** An assignment; `kind` is the `type` field. `courseId`, `attempts` and `score` may be absent
      (the demo assignments have no `courseId`, and an entry read back from storage need not carry
      every field). */
  datatype Assignment = Assignment(
    id: int, title: string, courseId: Option<int>, course: string, kind: string,
    dueDate: string, status: string, points: int, timeLimit: string,
    attempts: Option<int>, maxAttempts: int, score: Option<int>)

  /** A `Partial<Assignment>`: each present field replaces the assignment's own. */
  datatype AssignmentPatch = AssignmentPatch(
    id: Option<int>, title: Option<string>, courseId: Option<int>, course: Option<string>,
    kind: Option<string>, dueDate: Option<string>, status: Option<string>, points: Option<int>,
    timeLimit: Option<string>, attempts: Option<int>, maxAttempts: Option<int>, score: Option<int>)

  const EmptyPatch := AssignmentPatch(None, None, None, None, None, None, None, None, None, None, None, None)

  /** `{ ...a, ...patch }`. */
  function ApplyPatch(a: Assignment, p: AssignmentPatch): Assignment {
    Assignment(
      p.id.GetOr(a.id), p.title.GetOr(a.title),
      if p.courseId.Some? then p.courseId else a.courseId,
      p.course.GetOr(a.course), p.kind.GetOr(a.kind), p.dueDate.GetOr(a.dueDate),
      p.status.GetOr(a.status), p.points.GetOr(a.points), p.timeLimit.GetOr(a.timeLimit),
      if p.attempts.Some? then p.attempts else a.attempts,
      p.maxAttempts.GetOr(a.maxAttempts),
      if p.score.Some? then p.score else a.score)
  }

  /** `updateAssignment(id, patch)`: the patch is merged into exactly the entries with that id; the
      length and every other entry are unchanged. */
  function UpdateById(list: seq<Assignment>, id: int, p: AssignmentPatch): (r: seq<Assignment>)
    ensures |r| == |list|
    ensures forall i | 0 <= i < |list| && list[i].id != id :: r[i] == list[i]
    ensures forall i | 0 <= i < |list| && list[i].id == id :: r[i] == ApplyPatch(list[i], p)
  {
    Map(list, (a: Assignment) => if a.id == id then ApplyPatch(a, p) else a)
  }

  /** An empty patch changes nothing, and a patch that keeps the id has the same effect applied
      once or twice. */
  lemma UpdateByIdIdempotent(list: seq<Assignment>, id: int, p: AssignmentPatch)
    ensures UpdateById(list, id, EmptyPatch) == list
    ensures p.id.None? || p.id == Some(id) ==>
      UpdateById(UpdateById(list, id, p), id, p) == UpdateById(list, id, p)
  {
    var e := UpdateById(list, id, EmptyPatch);
    assert forall i | 0 <= i < |list| :: e[i] == list[i];
    if p.id.None? || p.id == Some(id) {
      var once := UpdateById(list, id, p);
      var twice := UpdateById(once, id, p);
      forall i | 0 <= i < |list| ensures twice[i] == once[i] {
        if list[i].id == id {
          assert once[i].id == id;
        }
      }
    }
  }

  /** One quiz attempt on an assignment: one more attempt (a missing count is 0), the score, and
      status "completed". */
  function Attempted(a: Assignment, score: int): Assignment {
    a.(attempts := Some(a.attempts.GetOr(0) + 1), score := Some(score), status := "completed")
  }

  /** `recordQuizAttempt(id, score)`: every entry with that id gets one more attempt, the score and
      status "completed"; the rest of that entry and every other entry are unchanged. */
  function RecordAttempt(list: seq<Assignment>, id: int, score: int): (r: seq<Assignment>)
    ensures |r| == |list|
    ensures forall i | 0 <= i < |list| && list[i].id != id :: r[i] == list[i]
    ensures forall i | 0 <= i < |list| && list[i].id == id ::
      && r[i].attempts == Some(list[i].attempts.GetOr(0) + 1)
      && r[i].score == Some(score) && r[i].status == "completed"
      && r[i] == list[i].(attempts := r[i].attempts, score := r[i].score, status := r[i].status)
  {
    Map(list, (a: Assignment) => if a.id == id then Attempted(a, score) else a)
  }

  /** `maxAttempts` is never consulted: an assignment whose attempts are used up still accepts
      another attempt, and two attempts add two and keep the later score. */
  lemma RecordAttemptIgnoresMaxAttempts(list: seq<Assignment>, id: int, s1: int, s2: int)
    ensures forall i | 0 <= i < |list| && list[i].id == id ::
      var after := RecordAttempt(RecordAttempt(list, id, s1), id, s2)[i];
      && after.attempts == Some(list[i].attempts.GetOr(0) + 2)
      && after.score == Some(s2)
      && (list[i].attempts == Some(list[i].maxAttempts) ==> after.attempts.value > after.maxAttempts)
  {
    var once := RecordAttempt(list, id, s1);
    forall i | 0 <= i < |list| && list[i].id == id
      ensures RecordAttempt(once, id, s2)[i].attempts == Some(list[i].attempts.GetOr(0) + 2)
    {
      assert once[i].id == id;
    }
  }

  const INITIAL_COURSE_ID := 1000
  const INITIAL_ASSIGNMENT_ID := 5000

  /** The input of `createCourse`: a course without id, with optional progress and image. */
  datatype CourseInput = CourseInput(
    title: string, description: string, duration: string, level: string,
    progress: Option<int>, image: Option<string>)

  /** The assignment `createCourse` adds for a new course, before its id is assigned: a 20-point
      quiz "<title> – Intro Quiz" of the course, pending, with no attempts out of 3, due on
      `dueDate` (the date seven days from now). */
  function StarterAssignment(c: Course, dueDate: string): Assignment {
    Assignment(0, c.title + " \U{2013} Intro Quiz", Some(c.id), c.title, "Quiz", dueDate,
      "pending", 20, "15 minutes", Some(0), 3, None)
  }

  /** What the hydrate effect finds under `studymate.assignments`: a parsed list, or text that does
      not parse. */
  datatype StoredAssignments = StoredList(items: seq<Assignment>) | Malformed

  /** The assignments seeded on first use. */
  const DemoAssignments: seq<Assignment> := [
    Assignment(1, "Linear Algebra Fundamentals Quiz", None, "AI Fundamentals Mastery", "Quiz",
      "2024-01-15", "pending", 100, "45 minutes", Some(0), 3, None),
    Assignment(2, "Python Functions Assignment", None, "Python Programming Bootcamp", "Assignment",
      "2024-01-20", "in-progress", 150, "No limit", Some(1), 5, None),
    Assignment(3, "Neural Network Implementation", None, "AI Fundamentals Mastery", "Project",
      "2024-01-25", "pending", 200, "No limit", Some(0), 3, None),
    Assignment(4, "Data Structures Final Exam", None, "Data Structures & Algorithms", "Exam",
      "2023-12-30", "completed", 250, "2 hours", Some(1), 1, Some(92))
  ]

  /** The hydrate effect: the stored list when there is a non-empty entry that parses, otherwise
      (no entry, an empty one, or one that does not parse) the demo assignments. */
  function Hydrate(raw: Option<StoredAssignments>): (r: seq<Assignment>)
    ensures raw.Some? && raw.value.StoredList? ==> r == raw.value.items
    ensures raw.None? || raw == Some(Malformed) ==> r == DemoAssignments
  {
    match raw
    case Some(StoredList(items)) => items
    case _ => DemoAssignments
  }

  /** The store provider. The id counters live at module level in the source, so they survive a
      remount of the provider but restart at 1000 and 5000 when the page is reloaded; they are
      passed to the constructor. */
  class Store {
    var courses: seq<Course>
    var assignments: seq<Assignment>
    var nextCourseId: int
    var nextAssignmentId: int
    /** The local-storage entry `studymate.assignments`, rewritten whenever the list changes. */
    var stored: Option<StoredAssignments>
    /** The ids handed out by `CreateAssignment`, in order. */
    ghost var issued: seq<int>

    /** The stored entry mirrors the list, and the ids handed out so far are increasing and below
        the counter. */
    ghost predicate Valid()
      reads this
    {
      && stored == Some(StoredList(assignments))
      && (forall i, j | 0 <= i < j < |issued| :: issued[i] < issued[j])
      && (forall i | 0 <= i < |issued| :: issued[i] < nextAssignmentId)
    }

    /** Mounting the provider: the hydrate effect reads the entry, then the persist effect writes
        the hydrated list back. */
    constructor (courseCounter: int, assignmentCounter: int, raw: Option<StoredAssignments>)
      ensures courses == [] && assignments == Hydrate(raw)
      ensures nextCourseId == courseCounter && nextAssignmentId == assignmentCounter
      ensures issued == [] && Valid()
    {
      courses := [];
      assignments := Hydrate(raw);
      nextCourseId := courseCounter;
      nextAssignmentId := assignmentCounter;
      stored := Some(StoredList(Hydrate(raw)));
      issued := [];
    }

    /** `createAssignment(input)`: the input (whose `id` is ignored) gets the current counter as
        its id, the counter advances, and the new assignment is prepended. */
    method CreateAssignment(input: Assignment) returns (a: Assignment)
      requires Valid()
      modifies this
      ensures Valid()
      ensures a == input.(id := old(nextAssignmentId))
      ensures nextAssignmentId == old(nextAssignmentId) + 1 && nextCourseId == old(nextCourseId)
      ensures assignments == [a] + old(assignments) && courses == old(courses)
      ensures issued == old(issued) + [a.id]
    {
      a := input.(id := nextAssignmentId);
      nextAssignmentId := nextAssignmentId + 1;
      assignments := [a] + assignments;
      stored := Some(StoredList(assignments));
      issued := issued + [a.id];
    }

    /** `updateAssignment(id, patch)`. */
    method UpdateAssignment(id: int, p: AssignmentPatch)
      requires Valid()
      modifies this
      ensures Valid()
      ensures assignments == UpdateById(old(assignments), id, p)
      ensures courses == old(courses) && nextAssignmentId == old(nextAssignmentId)
      ensures nextCourseId == old(nextCourseId) && issued == old(issued)
    {
      assignments := UpdateById(assignments, id, p);
      stored := Some(StoredList(assignments));
    }

    /** `recordQuizAttempt(id, score)`. */
    method RecordQuizAttempt(id: int, score: int)
      requires Valid()
      modifies this
      ensures Valid()
      ensures assignments == RecordAttempt(old(assignments), id, score)
      ensures courses == old(courses) && nextAssignmentId == old(nextAssignmentId)
      ensures nextCourseId == old(nextCourseId) && issued == old(issued)
    {
      assignments := RecordAttempt(assignments, id, score);
      stored := Some(StoredList(assignments));
    }

    /** `createCourse(input)`: the course gets the current course counter, progress 0 and the book
        icon unless given, and is prepended; then exactly one starter quiz linked to it is created. */
    method CreateCourse(input: CourseInput, dueDate: string) returns (c: Course)
      requires Valid()
      modifies this
      ensures Valid()
      ensures c == Course(old(nextCourseId), input.title, input.description, input.progress.GetOr(0),
                          input.duration, input.level, input.image.GetOr("\U{1F4D8}"))
      ensures courses == [c] + old(courses) && nextCourseId == old(nextCourseId) + 1
      ensures assignments == [StarterAssignment(c, dueDate).(id := old(nextAssignmentId))] + old(assignments)
      ensures assignments[0].courseId == Some(c.id) && assignments[0].status == "pending"
      ensures nextAssignmentId == old(nextAssignmentId) + 1
    {
      c := Course(nextCourseId, input.title, input.description, input.progress.GetOr(0),
                  input.duration, input.level, input.image.GetOr("\U{1F4D8}"));
      nextCourseId := nextCourseId + 1;
      courses := [c] + courses;
      var _ := CreateAssignment(StarterAssignment(c, dueDate));
    }
  }

  /** Ids handed out in one page session never repeat, but after a reload the counter restarts
      while the list comes back from local storage: the first assignment created after the reload
      gets the same id as the first one created before it. */
  method ReloadReusesAssignmentId(input: Assignment) returns (list: seq<Assignment>)
    ensures |list| == |DemoAssignments| + 2
    ensures list[0].id == list[1].id == INITIAL_ASSIGNMENT_ID
  {
    var before := new Store(INITIAL_COURSE_ID, INITIAL_ASSIGNMENT_ID, None);
    var first := before.CreateAssignment(input);
    var after := new Store(INITIAL_COURSE_ID, INITIAL_ASSIGNMENT_ID, before.stored);
    var second := after.CreateAssignment(input);
    list := after.assignments;
  }
}
