/** The milestone tracker of a study plan: completion percentages overall and per week, toggling a
    milestone, the parent's progress notification, and the `{milestones, currentWeek, notes}` entry
    kept in the browser's session storage. */
module ProgressTracker {
  import opened Common
  import opened Arith

  datatype Milestone = Milestone(id: string, title: string, description: string, week: int, completed: bool)

  predicate IsCompleted(m: Milestone) { m.completed }

  /** `milestones.filter(m => m.completed).length`. */
  function CompletedCount(ms: seq<Milestone>): (r: nat)
    ensures r <= |ms|
  {
    |Filter(ms, IsCompleted)|
  }

  /** `milestones.filter(m => m.week === week)`. */
  function InWeek(ms: seq<Milestone>, week: int): (r: seq<Milestone>)
    ensures forall m | m in r :: m in ms && m.week == week
    ensures forall m | m in ms && m.week == week :: m in r
  {
    Filter(ms, (m: Milestone) => m.week == week)
  }

  /** No completed milestone means a count of 0, and every one completed means a count of all. */
  lemma CompletedCountExtremes(ms: seq<Milestone>)
    ensures (forall i | 0 <= i < |ms| :: !ms[i].completed) ==> CompletedCount(ms) == 0
    ensures (forall i | 0 <= i < |ms| :: ms[i].completed) ==> CompletedCount(ms) == |ms|
  {
    FilterKeepsAll(ms, IsCompleted);
    if forall i | 0 <= i < |ms| :: !ms[i].completed {
      FilterDropsAll(ms, IsCompleted);
    }
  }

  // ---- overall progress ----

  /** `calculateProgress` as written: `Math.round(completed / milestones.length * 100)` with no
      guard, so an empty list computes `Math.round(0 / 0 * 100)`, which is NaN (here `None`). */
  function OverallProgressAsWritten(ms: seq<Milestone>): (r: Option<int>)
    ensures r.None? <==> ms == []
  {
    if ms == [] then None else Some(RoundedPercent(CompletedCount(ms), |ms|))
  }

  /** An empty milestone list makes the tracker show NaN percent. */
  lemma EmptyPlanProgressIsNaN()
    ensures OverallProgressAsWritten([]) == None
  {
  }

  /** Overall progress with the zero guard that the plan details view applies to the same ratio:
      0 for an empty list, otherwise the value written above. */
  function OverallProgress(ms: seq<Milestone>): (r: nat)
    ensures ms != [] ==> OverallProgressAsWritten(ms) == Some(r)
  {
    if ms == [] then 0 else RoundedPercent(CompletedCount(ms), |ms|)
  }

  /** Overall progress is a percentage, and for a non-empty list it is `Math.round` of the exact
      completed fraction times 100. */
  lemma OverallProgressIsRoundedFraction(ms: seq<Milestone>)
    ensures 0 <= OverallProgress(ms) <= 100
    ensures ms != [] ==>
      OverallProgress(ms) == JsRound(CompletedCount(ms) as real / |ms| as real * 100.0)
  {
    if ms != [] {
      RoundedPercentRange(CompletedCount(ms), |ms|);
      RoundedPercentIsJsRound(CompletedCount(ms), |ms|);
    }
  }

  /** No milestone completed gives 0, and a non-empty list with every milestone completed gives 100. */
  lemma OverallProgressExtremes(ms: seq<Milestone>)
    ensures (forall i | 0 <= i < |ms| :: !ms[i].completed) ==> OverallProgress(ms) == 0
    ensures ms != [] && (forall i | 0 <= i < |ms| :: ms[i].completed) ==> OverallProgress(ms) == 100
  {
    CompletedCountExtremes(ms);
    if ms != [] {
      RoundedPercentRange(CompletedCount(ms), |ms|);
    }
  }

  /** `n` copies of `m`. */
  function Repeat(m: Milestone, n: nat): (r: seq<Milestone>)
    ensures |r| == n && forall i | 0 <= i < n :: r[i] == m
  {
    if n == 0 then [] else [m] + Repeat(m, n - 1)
  }

  const Open := Milestone("open", "", "", 1, false)
  const Done := Milestone("done", "", "", 1, true)

  /** The converse of the first extreme fails: with one completed milestone among more than 200,
      the percentage still rounds to 0. */
  lemma ZeroProgressWithACompletedMilestone(n: nat)
    requires n >= 200
    ensures var ms := [Done] + Repeat(Open, n);
            OverallProgress(ms) == 0 && ms[0].completed
  {
    var ms := [Done] + Repeat(Open, n);
    CountOfGroups([Done], Repeat(Open, n));
    var w := |ms|;
    var r := RoundedPercent(1, w);
    MulCancelStrict(2 * w, r, 1);
  }

  /** The converse of the second extreme fails: with one open milestone among more than 200,
      the percentage already rounds to 100. */
  lemma FullProgressWithAnOpenMilestone(n: nat)
    requires n >= 200
    ensures var ms := Repeat(Done, n) + [Open];
            OverallProgress(ms) == 100 && !ms[n].completed
  {
    var ms := Repeat(Done, n) + [Open];
    CountOfGroups(Repeat(Done, n), [Open]);
    var w := |ms|;
    var r := RoundedPercent(n, w);
    MulCancelStrict(2 * w, r, 101);
    MulCancelStrict(2 * w, 100, r + 1);
  }

  // ---- week progress ----

  /** `getWeekProgress(week)`: the rounded completed percentage of the week's milestones, 0 for a
      week without milestones. */
  function WeekProgress(ms: seq<Milestone>, week: int): (r: nat)
    ensures (forall i | 0 <= i < |ms| :: ms[i].week != week) ==> r == 0
  {
    var w := InWeek(ms, week);
    assert w != [] ==> w[0] in w;
    if |w| > 0 then RoundedPercent(CompletedCount(w), |w|) else 0
  }

  /** Week progress is a percentage; for a week with milestones it is `Math.round` of that week's
      exact completed fraction times 100. */
  lemma WeekProgressIsRoundedFraction(ms: seq<Milestone>, week: int)
    ensures 0 <= WeekProgress(ms, week) <= 100
    ensures var w := InWeek(ms, week);
            w != [] ==> WeekProgress(ms, week) == JsRound(CompletedCount(w) as real / |w| as real * 100.0)
  {
    var w := InWeek(ms, week);
    if w != [] {
      RoundedPercentRange(CompletedCount(w), |w|);
      RoundedPercentIsJsRound(CompletedCount(w), |w|);
    }
  }

  // ---- toggling ----

  /** `handleMilestoneToggle`'s map: the milestones with the given id get their flag flipped. Every
      milestone keeps its position and every field but `completed`, and the flag changes exactly
      where the id matches. */
  function Toggle(ms: seq<Milestone>, id: string): (r: seq<Milestone>)
    ensures |r| == |ms|
    ensures forall i | 0 <= i < |ms| ::
      && r[i] == ms[i].(completed := r[i].completed)
      && (r[i].completed != ms[i].completed <==> ms[i].id == id)
  {
    Map(ms, (m: Milestone) => if m.id == id then m.(completed := !m.completed) else m)
  }

  /** Toggling the same id twice restores the list. */
  lemma ToggleTwice(ms: seq<Milestone>, id: string)
    ensures Toggle(Toggle(ms, id), id) == ms
  {
    var t := Toggle(Toggle(ms, id), id);
    forall i | 0 <= i < |ms| ensures t[i] == ms[i] {
      assert t[i].completed == ms[i].completed;
    }
  }

  /** Toggling an id that no milestone has changes nothing. */
  lemma ToggleUnknown(ms: seq<Milestone>, id: string)
    requires forall i | 0 <= i < |ms| :: ms[i].id != id
    ensures Toggle(ms, id) == ms
  {
    var t := Toggle(ms, id);
    forall i | 0 <= i < |ms| ensures t[i] == ms[i] {
      assert t[i].completed == ms[i].completed;
    }
  }

  predicate HasId(m: Milestone, id: string) { m.id == id }

  /** The flag passed to `onUpdateProgress`: `!milestones.find(m => m.id === id)?.completed`,
      evaluated on the list before the toggle. With no such milestone `?.completed` is
      `undefined`, and its negation is `true`. */
  function NotifiedFlag(ms: seq<Milestone>, id: string): (r: bool)
  {
    match Find(ms, (m: Milestone) => HasId(m, id))
    case None => true
    case Some(m) => !m.completed
  }

  /** When the id is present, the notified flag is the new flag of its first milestone; when it is
      absent, the notification still reports `true` although nothing changed. */
  lemma NotifiedFlagIsNewFlag(ms: seq<Milestone>, id: string)
    ensures (forall i | 0 <= i < |ms| :: ms[i].id != id) ==> NotifiedFlag(ms, id)
    ensures forall i | 0 <= i < |ms| && ms[i].id == id && (forall j | 0 <= j < i :: ms[j].id != id) ::
      NotifiedFlag(ms, id) == Toggle(ms, id)[i].completed == !ms[i].completed
  {
    var p := (m: Milestone) => HasId(m, id);
    var k := FirstIndex(ms, p);
    forall i | 0 <= i < |ms| && ms[i].id == id && (forall j | 0 <= j < i :: ms[j].id != id)
      ensures NotifiedFlag(ms, id) == !ms[i].completed
    {
      assert p(ms[i]);
    }
  }

  // ---- the session-storage entry ----

  /** The state a tracker persists. */
  datatype TrackerState = TrackerState(milestones: seq<Milestone>, currentWeek: int, notes: string)

  /** The fields given to `persist`, and the fields of a parsed storage entry that have the expected
      JSON type; an absent field is `None`. */
  datatype StatePatch = StatePatch(milestones: Option<seq<Milestone>>, currentWeek: Option<int>, notes: Option<string>)

  const NoPatch := StatePatch(None, None, None)

  /** `{ milestones, currentWeek, notes, ...next }`. */
  function Merge(s: TrackerState, next: StatePatch): TrackerState {
    TrackerState(
      next.milestones.GetOr(s.milestones),
      next.currentWeek.GetOr(s.currentWeek),
      next.notes.GetOr(s.notes))
  }

  /** A stored entry as the load effect sees it after `JSON.parse`: the usable fields, or text that
      does not parse (or parses to something without properties). */
  datatype Stored = Parsed(fields: StatePatch) | Unreadable

  /** `JSON.stringify` of a state, as read back by `JSON.parse`. */
  function Encode(s: TrackerState): Stored {
    Parsed(StatePatch(Some(s.milestones), Some(s.currentWeek), Some(s.notes)))
  }

  /** The load effect: no entry (or an empty one) and an unreadable entry keep the current state;
      otherwise each usable field replaces the current one. */
  function Restore(s: TrackerState, entry: Option<Stored>): TrackerState {
    match entry
    case Some(Parsed(p)) => Merge(s, p)
    case _ => s
  }

  /** Loading what was persisted yields exactly the persisted state, whatever the current state is. */
  lemma RestorePersisted(current: TrackerState, s: TrackerState, next: StatePatch)
    ensures Restore(current, Some(Encode(Merge(s, next)))) == Merge(s, next)
  {
  }

  /** Persisting without fields stores the current state; a field given to `persist` overrides it. */
  lemma MergeOverrides(s: TrackerState, next: StatePatch)
    ensures Merge(s, NoPatch) == s
    ensures next.milestones.Some? ==> Merge(s, next).milestones == next.milestones.value
    ensures next.milestones.None? ==> Merge(s, next).milestones == s.milestones
    ensures next.currentWeek.Some? ==> Merge(s, next).currentWeek == next.currentWeek.value
    ensures next.currentWeek.None? ==> Merge(s, next).currentWeek == s.currentWeek
    ensures next.notes.Some? ==> Merge(s, next).notes == next.notes.value
    ensures next.notes.None? ==> Merge(s, next).notes == s.notes
  {
  }

  /** `sp-state-${studyPlan.id}`. */
  function StorageKey(planId: string): (r: string)
    ensures |r| == 9 + |planId| && r[..9] == "sp-state-" && r[9..] == planId
  {
    "sp-state-" + planId
  }

  /** The tracker component: its state, the session storage it writes, and the calls it makes to
      `onUpdateProgress`. */
  class Tracker {
    const planId: string
    var milestones: seq<Milestone>
    var currentWeek: int
    var notes: string
    /** The browser's session storage, as the entries the tracker reads back. A missing key and an
        empty string are both absent. */
    var session: map<string, Stored>
    /** The `(milestoneId, completed)` arguments of the `onUpdateProgress` calls, in order. */
    var notifications: seq<(string, bool)>

    function State(): TrackerState
      reads this
    {
      TrackerState(milestones, currentWeek, notes)
    }

    function Entry(): Option<Stored>
      reads this
    {
      var key := StorageKey(planId);
      if key in session then Some(session[key]) else None
    }

    /** The initial state: the plan's milestones (or none), week 1 and empty notes. */
    constructor (planId: string, planMilestones: Option<seq<Milestone>>, session: map<string, Stored>)
      ensures this.planId == planId && this.session == session
      ensures State() == TrackerState(planMilestones.GetOr([]), 1, "")
      ensures notifications == []
    {
      this.planId := planId;
      milestones := planMilestones.GetOr([]);
      currentWeek := 1;
      notes := "";
      this.session := session;
      notifications := [];
    }

    /** The load effect, run on mount. */
    method Load()
      modifies this
      ensures State() == Restore(old(State()), Entry())
      ensures session == old(session) && notifications == old(notifications)
    {
      var entry := Entry();
      match entry {
        case Some(Parsed(p)) =>
          if p.milestones.Some? {
            milestones := p.milestones.value;
          }
          if p.currentWeek.Some? {
            currentWeek := p.currentWeek.value;
          }
          if p.notes.Some? {
            notes := p.notes.value;
          }
        case _ =>
      }
    }

    /** `persist(next)`: stores the current state with the given fields overriding. */
    method Persist(next: StatePatch)
      modifies this
      ensures session == old(session)[StorageKey(planId) := Encode(Merge(State(), next))]
      ensures State() == old(State()) && notifications == old(notifications)
    {
      session := session[StorageKey(planId) := Encode(Merge(State(), next))];
    }

    /** `handleMilestoneToggle(id)`: toggles, persists the toggled list and notifies the parent. */
    method ToggleMilestone(id: string)
      modifies this
      ensures milestones == Toggle(old(milestones), id)
      ensures currentWeek == old(currentWeek) && notes == old(notes)
      ensures session == old(session)[StorageKey(planId) := Encode(State())]
      ensures notifications == old(notifications) + [(id, NotifiedFlag(old(milestones), id))]
    {
      var updated := Toggle(milestones, id);
      var flag := NotifiedFlag(milestones, id);
      Persist(StatePatch(Some(updated), None, None));
      milestones := updated;
      notifications := notifications + [(id, flag)];
    }

    /** "Save Progress & Exit": `persist()` with no fields, so a later load restores this state. */
    method SaveAndExit()
      modifies this
      ensures session == old(session)[StorageKey(planId) := Encode(State())]
      ensures State() == old(State()) && notifications == old(notifications)
      ensures Restore(State(), Entry()) == State()
    {
      Persist(NoPatch);
      MergeOverrides(State(), NoPatch);
    }
  }

  // ---- the sample plan ----

  const M1 := Milestone("m1", "Set up development environment", "Install and configure all necessary tools including VS Code, Node.js, Git, and project dependencies", 1, true)
  const M2 := Milestone("m2", "Master React fundamentals", "Complete React tutorial covering components, props, state, and lifecycle methods", 1, true)
  const M3 := Milestone("m3", "Build first React application", "Create a todo application with CRUD operations using React hooks", 2, true)
  const M4 := Milestone("m4", "Learn TypeScript basics", "Understand TypeScript syntax, interfaces, generics, and type definitions", 2, false)
  const M5 := Milestone("m5", "Implement state management", "Learn and implement Redux Toolkit for complex state management", 3, false)
  const M6 := Milestone("m6", "Build RESTful API", "Create a Node.js Express API with MongoDB integration", 3, false)
  const M7 := Milestone("m7", "Authentication system", "Implement JWT authentication and authorization in the API", 4, false)
  const M8 := Milestone("m8", "Database design", "Design and implement MongoDB schemas for the application", 4, false)
  const M9 := Milestone("m9", "Frontend-backend integration", "Connect React frontend with Node.js backend API", 5, false)
  const M10 := Milestone("m10", "Testing implementation", "Write unit and integration tests for both frontend and backend", 6, false)
  const M11 := Milestone("m11", "Deployment preparation", "Prepare applications for deployment to production environment", 7, false)
  const M12 := Milestone("m12", "Final project completion", "Deploy full-stack application and complete final testing", 8, false)

  /** The milestones of the sample study plan, grouped by week. */
  const FirstWeek: seq<Milestone> := [M1, M2]
  const SecondWeek: seq<Milestone> := [M3, M4]
  const ThirdWeek: seq<Milestone> := [M5, M6]
  const LaterWeeks: seq<Milestone> := [M7, M8, M9, M10, M11, M12]
  const SampleMilestones: seq<Milestone> := FirstWeek + SecondWeek + ThirdWeek + LaterWeeks

  /** The sample plan shows 25% overall. */
  lemma SamplePlanOverall()
    ensures OverallProgress(SampleMilestones) == 25
  {
    var done, open := FirstWeek + [M3], [M4] + ThirdWeek + LaterWeeks;
    assert SampleMilestones == done + open;
    CountOfGroups(done, open);
  }

  /** Week 1 of the sample plan shows 100%. */
  lemma SamplePlanWeek1()
    ensures WeekProgress(SampleMilestones, 1) == 100
  {
    var none: seq<Milestone> := [];
    var after := SecondWeek + ThirdWeek + LaterWeeks;
    assert none + (FirstWeek + none) == FirstWeek;
    assert SampleMilestones == FirstWeek + after;
    OutsideWeek(SecondWeek, ThirdWeek + LaterWeeks, 1);
    WeekOfGroups(SampleMilestones, none, FirstWeek, none, after, 1);
    RoundedPercentRange(2, 2);
  }

  /** Two lists of milestones outside a week form one. */
  lemma OutsideWeek(a: seq<Milestone>, b: seq<Milestone>, week: int)
    requires forall i | 0 <= i < |a| :: a[i].week != week
    requires forall i | 0 <= i < |b| :: b[i].week != week
    ensures forall i | 0 <= i < |a + b| :: (a + b)[i].week != week
  {
  }

  /** Week 2 of the sample plan shows 50%. */
  lemma SamplePlanWeek2()
    ensures WeekProgress(SampleMilestones, 2) == 50
  {
    var after := ThirdWeek + LaterWeeks;
    assert SecondWeek == [M3] + [M4];
    assert SampleMilestones == FirstWeek + ([M3] + [M4]) + after;
    WeekOfGroups(SampleMilestones, FirstWeek, [M3], [M4], after, 2);
  }

  /** Week 3 of the sample plan shows 0%. */
  lemma SamplePlanWeek3()
    ensures WeekProgress(SampleMilestones, 3) == 0
  {
    var none: seq<Milestone> := [];
    var before := FirstWeek + SecondWeek;
    assert SampleMilestones == before + (none + ThirdWeek) + LaterWeeks;
    WeekOfGroups(SampleMilestones, before, none, ThirdWeek, LaterWeeks, 3);
    RoundedPercentRange(0, 2);
  }

  /** A list made of a completed group followed by an open group has as many completed milestones
      as the first group. */
  lemma CountOfGroups(done: seq<Milestone>, open: seq<Milestone>)
    requires forall i | 0 <= i < |done| :: done[i].completed
    requires forall i | 0 <= i < |open| :: !open[i].completed
    ensures CompletedCount(done + open) == |done|
  {
    FilterConcat(done, open, IsCompleted);
    FilterKeepsAll(done, IsCompleted);
    FilterDropsAll(open, IsCompleted);
  }

  /** The progress of a week whose milestones form one group, completed ones first, between
      milestones of other weeks. */
  lemma WeekOfGroups(ms: seq<Milestone>, before: seq<Milestone>, done: seq<Milestone>, open: seq<Milestone>,
                     after: seq<Milestone>, week: int)
    requires ms == before + (done + open) + after && done + open != []
    requires forall i | 0 <= i < |before| :: before[i].week != week
    requires forall i | 0 <= i < |done| :: done[i].week == week && done[i].completed
    requires forall i | 0 <= i < |open| :: open[i].week == week && !open[i].completed
    requires forall i | 0 <= i < |after| :: after[i].week != week
    ensures WeekProgress(ms, week) == RoundedPercent(|done|, |done| + |open|)
  {
    var w := done + open;
    var p := (m: Milestone) => m.week == week;
    FilterConcat(before + w, after, p);
    FilterConcat(before, w, p);
    FilterDropsAll(before, p);
    FilterKeepsAll(w, p);
    FilterDropsAll(after, p);
    assert InWeek(ms, week) == w;
    CountOfGroups(done, open);
  }
}
