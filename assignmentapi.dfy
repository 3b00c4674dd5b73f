/** The assignment endpoints under `/api/assignments`: listing, optionally for one course,
    reading one, and submitting one, over an in-memory table keyed by assignment id. */
module AssignmentApi {
  import opened Common
  import opened Arith

  datatype Assignment = Assignment(
    id: string, courseId: Option<string>, title: string, description: string, dueDate: string,
    maxScore: Int32, status: string, submittedAt: Option<string>, score: Option<Int32>,
    feedback: Option<string>)

  predicate InCourse(courseId: string, a: Assignment) {
    a.courseId == Some(courseId)
  }

  /** The course filter of the listing: without a course id every assignment is kept; with one,
      also a blank one, exactly the assignments of that course, in their order, so an
      assignment without a course is then never listed. */
  function Listed(all: seq<Assignment>, courseId: Option<string>): (r: seq<Assignment>)
    ensures courseId.None? ==> r == all
    ensures courseId.Some? ==>
              && (forall a | a in r :: a in all && a.courseId == courseId)
              && (forall a | a in all && a.courseId == courseId :: a in r)
  {
    if courseId.None? then all else Filter(all, a => InCourse(courseId.value, a))
  }

  /** Listing for a course and then for the same course again keeps the list; the entries of a
      course are listed exactly once each when the full list has no repetitions. */
  lemma ListedTwice(all: seq<Assignment>, courseId: Option<string>)
    ensures Listed(Listed(all, courseId), courseId) == Listed(all, courseId)
    ensures Distinct(all) ==> Distinct(Listed(all, courseId))
  {
    if courseId.Some? {
      var r := Listed(all, courseId);
      FilterKeepsAll(r, a => InCourse(courseId.value, a));
      if Distinct(all) {
        FilterDistinct(all, a => InCourse(courseId.value, a));
      }
    }
  }

  /** The table after a submission at time `now`: a stored assignment becomes "SUBMITTED" with
      that submission time and keeps its score, maximum score and every other field; an
      unknown id changes nothing. */
  function Submitted(table: map<string, Assignment>, id: string, now: string): (r: map<string, Assignment>)
    ensures id !in table ==> r == table
    ensures id in table ==> r.Keys == table.Keys && forall k | k in table && k != id :: r[k] == table[k]
    ensures id in table ==> && r[id].status == "SUBMITTED" && r[id].submittedAt == Some(now)
                            && r[id] == table[id].(status := r[id].status, submittedAt := r[id].submittedAt)
  {
    if id in table then table[id := table[id].(status := "SUBMITTED", submittedAt := Some(now))] else table
  }

  /** Submitting again only moves the submission time. */
  lemma SubmittedTwice(table: map<string, Assignment>, id: string, first: string, second: string)
    ensures Submitted(Submitted(table, id, first), id, second) == Submitted(table, id, second)
  {
  }

  /** The controller with its assignment table. */
  class AssignmentController {
    var assignments: map<string, Assignment>

    constructor (assignments: map<string, Assignment>)
      ensures this.assignments == assignments
    {
      this.assignments := assignments;
    }

    /** `list`, with `order` the iteration order of the table. */
    method List(courseId: Option<string>, order: seq<string>) returns (r: Response<seq<Assignment>>)
      requires forall k | k in order :: k in assignments
      ensures r == Response(200, Some(Listed(ValuesInOrder(assignments, order), courseId)))
    {
      var all := ValuesInOrder(assignments, order);
      var kept := if courseId.None? then all else Filter(all, a => InCourse(courseId.value, a));
      r := Response(200, Some(kept));
    }

    /** `get`: the stored assignment, or 404. */
    method Get(id: string) returns (r: Response<Assignment>)
      ensures id in assignments ==> r == Response(200, Some(assignments[id]))
      ensures id !in assignments ==> r == Response(404, None)
    {
      if id !in assignments {
        return Response(404, None);
      }
      r := Response(200, Some(assignments[id]));
    }

    /** `submit` at time `now`: always 200. */
    method Submit(id: string, now: string) returns (r: Response<()>)
      modifies this
      ensures assignments == Submitted(old(assignments), id, now)
      ensures r == Response(200, None)
    {
      if id in assignments {
        var a := assignments[id];
        assignments := assignments[id := a.(status := "SUBMITTED", submittedAt := Some(now))];
      }
      r := Response(200, None);
    }
  }
}
