/** The study-plan endpoints under `/api/study-plans`: list, create, update and delete over an
    in-memory table keyed by plan id. Create and update read an untyped JSON object, so the
    values they accept are JSON values, and what they store is what Java's `String.valueOf`,
    casts and `Number.intValue` make of them. */
module StudyPlanApi {
  import opened Common
  import opened Text
  import opened Arith

  /** A JSON value as the JSON reader hands it over: `null`, a boolean, an integer (an `Integer`,
      `Long` or `BigInteger`), a text, a list, or an object with its fields in order. A number
      with a fraction or an exponent, which the reader hands over as a `Double`, is not one of
      these values. */
  datatype Json =
    | JNull
    | JBool(b: bool)
    | JInt(n: int)
    | JStr(s: string)
    | JList(items: seq<Json>)
    | JObject(fields: seq<(string, Json)>)

  /** The pieces separated by `sep`. */
  function JoinWith(pieces: seq<string>, sep: string): string {
    if pieces == [] then ""
    else if |pieces| == 1 then pieces[0]
    else pieces[0] + sep + JoinWith(pieces[1..], sep)
  }

  /** `String.valueOf(v)`: "null" for null, the text itself, the decimal digits of an integer,
      and for a list or an object the bracketed forms `[a, b]` and `{k=v, l=w}` of Java's
      collections. */
  function JavaString(v: Json): (r: string)
    ensures v.JStr? ==> r == v.s
    ensures v.JNull? ==> r == "null"
    ensures v.JInt? ==> ParseInt(r) == Some(v.n)
    ensures v.JList? ==> r != [] && r[0] == '['
    ensures v.JObject? ==> r != [] && r[0] == '{'
  {
    match v
    case JNull => "null"
    case JBool(b) => if b then "true" else "false"
    case JInt(n) =>
      ParseIntOfIntToString(n, "");
      assert IntToString(n) + "" == IntToString(n);
      IntToString(n)
    case JStr(s) => s
    case JList(items) =>
      "[" + JoinWith(seq(|items|, i requires 0 <= i < |items| => JavaString(items[i])), ", ") + "]"
    case JObject(fields) =>
      "{" + JoinWith(seq(|fields|, i requires 0 <= i < |fields| => fields[i].0 + "=" + JavaString(fields[i].1)), ", ") + "}"
  }

  /** `((Number) v).intValue()`: an integer keeps its low 32 bits; null and every other value
      make the cast or the call throw (`None`). */
  function IntValue(v: Json): (r: Option<Int32>)
    ensures r.Some? <==> v.JInt?
    ensures v.JInt? && INT_MIN <= v.n <= INT_MAX ==> r == Some(v.n)
  {
    if v.JInt? then Some(Wrap32(v.n)) else None
  }

  /** The list stored for a `courses` value that is a list: each element as `String.valueOf`
      gives it, in order. */
  function CourseIds(items: seq<Json>): (r: seq<string>)
    ensures |r| == |items| && forall i | 0 <= i < |items| :: r[i] == JavaString(items[i])
  {
    seq(|items|, i requires 0 <= i < |items| => JavaString(items[i]))
  }

  datatype StudyPlan = StudyPlan(
    id: string, userId: string, title: string, description: Option<string>, targetDate: string,
    courses: seq<string>, dailyStudyHours: Int32, progress: Int32, status: string, createdAt: string)

  /** A request body: the JSON object's fields by name. */
  type Request = map<string, Json>

  /** The plan `create` stores, or `None` when it throws: a description that is neither a text
      nor null fails the cast to `String`, and daily hours that are not an integer fail
      `intValue`. A missing title becomes "New Plan" and a null one the text "null"; a missing
      description the empty text and a null one stays null; a missing target date becomes
      `defaultTarget` (thirty days after now); missing hours become 1. The plan belongs to
      "demo-user", is "ACTIVE" and has progress 0. */
  function CreatedPlan(req: Request, id: string, now: string, defaultTarget: string): (r: Option<StudyPlan>)
    ensures r.None? <==>
              || ("description" in req && !req["description"].JStr? && !req["description"].JNull?)
              || ("dailyStudyHours" in req && !req["dailyStudyHours"].JInt?)
    ensures r.Some? ==>
              && r.value.id == id && r.value.userId == "demo-user" && r.value.createdAt == now
              && r.value.progress == 0 && r.value.status == "ACTIVE"
              && r.value.title == (if "title" in req then JavaString(req["title"]) else "New Plan")
              && r.value.description == (if "description" !in req then Some("")
                                          else if req["description"].JStr? then Some(req["description"].s)
                                          else None)
              && r.value.courses == (if "courses" in req && req["courses"].JList? then CourseIds(req["courses"].items) else [])
              && r.value.targetDate == (if "targetDate" in req then JavaString(req["targetDate"]) else defaultTarget)
              && r.value.dailyStudyHours == (if "dailyStudyHours" in req then Wrap32(req["dailyStudyHours"].n) else 1)
  {
    var title := if "title" in req then JavaString(req["title"]) else "New Plan";
    var description: Option<Option<string>> :=
      if "description" !in req then Some(Some(""))
      else match req["description"]
        case JStr(s) => Some(Some(s))
        case JNull => Some(None)
        case _ => None;
    var courses := if "courses" in req && req["courses"].JList? then CourseIds(req["courses"].items) else [];
    var targetDate := if "targetDate" in req then JavaString(req["targetDate"]) else defaultTarget;
    var hours := if "dailyStudyHours" in req then IntValue(req["dailyStudyHours"]) else Some(1);
    if description.None? || hours.None? then None
    else Some(StudyPlan(id, "demo-user", title, description.value, targetDate, courses, hours.value, 0, "ACTIVE", now))
  }

  /** The result of `update` on a stored plan: the plan as it stands afterwards, and whether the
      update ran to the end. */
  datatype Updated = Updated(plan: StudyPlan, completed: bool)

  /** `update` applies the present keys in the order title, description, daily hours, status,
      courses. Title, description and status become `String.valueOf` of the value, so null
      becomes "null"; courses change only when the value is a list. Daily hours that are not an
      integer throw: the title and description written before stay written, and the status
      and courses are not reached. Id, owner, progress, target date and creation time never
      change. */
  function UpdatedPlan(sp: StudyPlan, u: Request): (r: Updated)
    ensures r.plan.id == sp.id && r.plan.userId == sp.userId && r.plan.progress == sp.progress
    ensures r.plan.targetDate == sp.targetDate && r.plan.createdAt == sp.createdAt
    ensures r.plan.title == (if "title" in u then JavaString(u["title"]) else sp.title)
    ensures r.plan.description == (if "description" in u then Some(JavaString(u["description"])) else sp.description)
    ensures r.completed <==> "dailyStudyHours" !in u || u["dailyStudyHours"].JInt?
    ensures r.completed ==>
              && r.plan.dailyStudyHours == (if "dailyStudyHours" in u then Wrap32(u["dailyStudyHours"].n) else sp.dailyStudyHours)
              && r.plan.status == (if "status" in u then JavaString(u["status"]) else sp.status)
              && r.plan.courses == (if "courses" in u && u["courses"].JList? then CourseIds(u["courses"].items) else sp.courses)
    ensures !r.completed ==>
              r.plan.dailyStudyHours == sp.dailyStudyHours && r.plan.status == sp.status && r.plan.courses == sp.courses
  {
    var p1 := if "title" in u then sp.(title := JavaString(u["title"])) else sp;
    var p2 := if "description" in u then p1.(description := Some(JavaString(u["description"]))) else p1;
    var hours := if "dailyStudyHours" in u then IntValue(u["dailyStudyHours"]) else Some(sp.dailyStudyHours);
    if hours.None? then Updated(p2, false)
    else
      var p3 := p2.(dailyStudyHours := hours.value);
      var p4 := if "status" in u then p3.(status := JavaString(u["status"])) else p3;
      var p5 := if "courses" in u && u["courses"].JList? then p4.(courses := CourseIds(u["courses"].items)) else p4;
      Updated(p5, true)
  }

  /** Sending the same update twice leaves the plan as sending it once, with the same outcome;
      an update without keys changes nothing. */
  lemma UpdatedPlanIdempotent(sp: StudyPlan, u: Request)
    ensures UpdatedPlan(UpdatedPlan(sp, u).plan, u) == UpdatedPlan(sp, u)
    ensures UpdatedPlan(sp, map[]) == Updated(sp, true)
  {
    var r := UpdatedPlan(sp, u);
    var r2 := UpdatedPlan(r.plan, u);
    assert r2.plan == r.plan;
  }

  /** A null description is stored as null by `create` but as the text "null" by `update`. */
  lemma NullDescription(sp: StudyPlan, id: string, now: string, defaultTarget: string)
    ensures CreatedPlan(map["description" := JNull], id, now, defaultTarget).value.description == None
    ensures UpdatedPlan(sp, map["description" := JNull]).plan.description == Some("null")
  {
  }

  /** The controller with its plan table. `newId` and `now` are the fresh id and the time a
      created plan receives. */
  class StudyPlanController {
    var plans: map<string, StudyPlan>

    constructor (plans: map<string, StudyPlan>)
      ensures this.plans == plans
    {
      this.plans := plans;
    }

    /** `list`: every stored plan, in the table's iteration order `order`. */
    method List(order: seq<string>) returns (r: Response<seq<StudyPlan>>)
      requires EnumeratesKeys(plans, order)
      ensures r.code == 200 && r.body.Some?
      ensures |r.body.value| == |plans| && forall k | k in plans :: plans[k] in r.body.value
      ensures forall p | p in r.body.value :: p in plans.Values
    {
      ValuesInOrderComplete(plans, order);
      var all := ValuesInOrder(plans, order);
      r := Response(200, Some(all));
    }

    /** `create`: stores the plan of `CreatedPlan` under the fresh id and returns it, or answers
        500 and stores nothing when building it throws. */
    method Create(req: Request, newId: string, now: string, defaultTarget: string)
      returns (r: Response<StudyPlan>)
      modifies this
      ensures match CreatedPlan(req, newId, now, defaultTarget)
              case None => r == Response(500, None) && plans == old(plans)
              case Some(sp) => r == Response(200, Some(sp)) && plans == old(plans)[newId := sp]
    {
      var sp := CreatedPlan(req, newId, now, defaultTarget);
      if sp.None? {
        return Response(500, None);
      }
      plans := plans[newId := sp.value];
      r := Response(200, Some(sp.value));
    }

    /** `update`: 404 for an unknown plan, changing nothing. Otherwise the stored plan is
        changed key by key in place; when the daily hours throw, the changes made up to then
        stay and the answer is 500. */
    method Update(planId: string, updates: Request) returns (r: Response<StudyPlan>)
      modifies this
      ensures planId !in old(plans) ==> r == Response(404, None) && plans == old(plans)
      ensures planId in old(plans) ==>
                var u := UpdatedPlan(old(plans)[planId], updates);
                && plans == old(plans)[planId := u.plan]
                && r == (if u.completed then Response(200, Some(u.plan)) else Response(500, None))
    {
      if planId !in plans {
        return Response(404, None);
      }
      var sp := plans[planId];
      if "title" in updates {
        sp := sp.(title := JavaString(updates["title"]));
      }
      if "description" in updates {
        sp := sp.(description := Some(JavaString(updates["description"])));
      }
      if "dailyStudyHours" in updates {
        var hours := IntValue(updates["dailyStudyHours"]);
        if hours.None? {
          plans := plans[planId := sp];
          return Response(500, None);
        }
        sp := sp.(dailyStudyHours := hours.value);
      }
      if "status" in updates {
        sp := sp.(status := JavaString(updates["status"]));
      }
      if "courses" in updates && updates["courses"].JList? {
        sp := sp.(courses := CourseIds(updates["courses"].items));
      }
      plans := plans[planId := sp];
      r := Response(200, Some(sp));
    }

    /** `delete`: removes the plan if there is one and answers 200 either way, so deleting twice
        is deleting once. */
    method Delete(planId: string) returns (r: Response<()>)
      modifies this
      ensures plans == old(plans) - {planId} && planId !in plans
      ensures r == Response(200, None)
    {
      plans := plans - {planId};
      r := Response(200, None);
    }
  }
}
