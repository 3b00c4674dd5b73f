/** The assignments page of the dashboard: the store's assignments followed by the page's own
    fixed list, the entry selected for viewing, the three status groups and the filter views
    built from them, and the status badge colour. */
module AssignmentsPage {
  import opened Common
  import opened ClientStore

  /** The page's own fixed list, shown after the store's assignments. */
  const StaticAssignments: seq<Assignment> := [
    Assignment(1, "Linear Algebra Fundamentals Quiz", None, "AI Fundamentals Mastery", "Quiz",
      "2024-01-15", "pending", 100, "45 minutes", Some(0), 3, None),
    Assignment(2, "Python Functions Assignment", None, "Python Programming Bootcamp", "Assignment",
      "2024-01-20", "in-progress", 150, "No limit", Some(1), 5, None),
    Assignment(3, "Neural Network Implementation", None, "AI Fundamentals Mastery", "Project",
      "2024-01-25", "pending", 200, "No limit", Some(0), 3, None),
    Assignment(4, "Data Structures Final Exam", None, "Data Structures & Algorithms", "Exam",
      "2023-12-30", "completed", 250, "2 hours", Some(1), 1, Some(92))
  ]

  /** The list the page shows: the store's assignments, then the fixed ones, each in its order. */
  function Displayed(dynamic: seq<Assignment>): (r: seq<Assignment>)
    ensures |r| == |dynamic| + |StaticAssignments|
    ensures r[..|dynamic|] == dynamic && r[|dynamic|..] == StaticAssignments
  {
    dynamic + StaticAssignments
  }

  // ---- selection ----

  predicate HasId(id: int, a: Assignment) { a.id == id }

  /** `assignments.find(a => a.id === viewAssignmentId)`: nothing when no id is selected,
      otherwise the first entry with that id. */
  function Selected(list: seq<Assignment>, viewId: Option<int>): (r: Option<Assignment>)
    ensures viewId.None? ==> r.None?
    ensures viewId.Some? ==> (r.None? <==> forall i | 0 <= i < |list| :: list[i].id != viewId.value)
    ensures r.Some? ==> exists i | 0 <= i < |list| :: list[i] == r.value && r.value.id == viewId.value &&
                          forall j | 0 <= j < i :: list[j].id != viewId.value
  {
    match viewId
    case None => None
    case Some(id) =>
      match FirstIndex(list, a => HasId(id, a))
      case None => None
      case Some(i) => Some(list[i])
  }

  /** A store entry shadows a fixed entry with the same id: selecting that id shows the first store
      entry that has it. */
  lemma DynamicShadowsStatic(dynamic: seq<Assignment>, k: nat)
    requires k < |dynamic| && forall j | 0 <= j < k :: dynamic[j].id != dynamic[k].id
    ensures Selected(Displayed(dynamic), Some(dynamic[k].id)) == Some(dynamic[k])
  {
    var list := Displayed(dynamic);
    var id := dynamic[k].id;
    var r := Selected(list, Some(id));
    assert list[k] == dynamic[k];
    var i :| 0 <= i < |list| && list[i] == r.value && r.value.id == id &&
             forall j | 0 <= j < i :: list[j].id != id;
  }

  /** The store seeds itself with the same four demo assignments the page lists, so until other
      assignments are created each one is shown twice and selecting it shows the store's copy. */
  lemma SeededStoreShowsDemoTwice()
    ensures StaticAssignments == DemoAssignments
    ensures |Displayed(DemoAssignments)| == 8
    ensures forall k | 0 <= k < 4 :: Selected(Displayed(DemoAssignments), Some(k + 1)) == Some(DemoAssignments[k])
  {
    forall k | 0 <= k < 4
      ensures Selected(Displayed(DemoAssignments), Some(k + 1)) == Some(DemoAssignments[k])
    {
      DynamicShadowsStatic(DemoAssignments, k);
    }
  }

  // ---- status groups ----

  predicate IsPending(a: Assignment) { a.status == "pending" }
  predicate IsInProgress(a: Assignment) { a.status == "in-progress" }
  predicate IsCompleted(a: Assignment) { a.status == "completed" }

  /** A status that none of the three groups takes, such as "overdue". */
  predicate IsUngrouped(a: Assignment) { !IsPending(a) && !IsInProgress(a) && !IsCompleted(a) }

  function Pending(list: seq<Assignment>): (r: seq<Assignment>)
    ensures forall a | a in r :: a in list && a.status == "pending"
    ensures forall a | a in list && a.status == "pending" :: a in r
  {
    Filter(list, IsPending)
  }

  function InProgress(list: seq<Assignment>): (r: seq<Assignment>)
    ensures forall a | a in r :: a in list && a.status == "in-progress"
    ensures forall a | a in list && a.status == "in-progress" :: a in r
  {
    Filter(list, IsInProgress)
  }

  function Completed(list: seq<Assignment>): (r: seq<Assignment>)
    ensures forall a | a in r :: a in list && a.status == "completed"
    ensures forall a | a in list && a.status == "completed" :: a in r
  {
    Filter(list, IsCompleted)
  }

  /** No entry is in two groups, and an ungrouped entry such as an overdue one is in none. */
  lemma GroupsDisjoint(list: seq<Assignment>, a: Assignment)
    ensures !(a in Pending(list) && a in InProgress(list))
    ensures !(a in Pending(list) && a in Completed(list))
    ensures !(a in InProgress(list) && a in Completed(list))
    ensures IsUngrouped(a) ==> a !in Pending(list) && a !in InProgress(list) && a !in Completed(list)
  {
  }

  /** The three groups and the ungrouped entries together count every entry once. */
  lemma {:induction false} GroupCounts(list: seq<Assignment>)
    ensures |Pending(list)| + |InProgress(list)| + |Completed(list)| + |Filter(list, IsUngrouped)| == |list|
  {
    if list != [] {
      GroupCounts(list[1..]);
    }
  }

  /** Each group of the shown list holds the store's entries of that status first and then the
      fixed ones, each in its own order. */
  lemma GroupsOfDisplayed(dynamic: seq<Assignment>)
    ensures Pending(Displayed(dynamic)) == Pending(dynamic) + Pending(StaticAssignments)
    ensures InProgress(Displayed(dynamic)) == InProgress(dynamic) + InProgress(StaticAssignments)
    ensures Completed(Displayed(dynamic)) == Completed(dynamic) + Completed(StaticAssignments)
  {
    GroupsOfConcat(dynamic, StaticAssignments);
  }

  /** Each group of a concatenation is the group of the first part followed by that of the second. */
  lemma GroupsOfConcat(a: seq<Assignment>, b: seq<Assignment>)
    ensures Pending(a + b) == Pending(a) + Pending(b)
    ensures InProgress(a + b) == InProgress(a) + InProgress(b)
    ensures Completed(a + b) == Completed(a) + Completed(b)
  {
    FilterConcat(a, b, IsPending);
    FilterConcat(a, b, IsInProgress);
    FilterConcat(a, b, IsCompleted);
  }

  // ---- views ----

  datatype View = All | PendingView | InProgressView | CompletedView

  /** The cards the chosen filter shows: for "all" the three groups one after another (a group
      without entries shows no heading), otherwise the one group. */
  function Cards(view: View, list: seq<Assignment>): (r: seq<Assignment>)
    ensures view == All ==> r == Pending(list) + InProgress(list) + Completed(list)
    ensures view == PendingView ==> r == Pending(list)
    ensures view == InProgressView ==> r == InProgress(list)
    ensures view == CompletedView ==> r == Completed(list)
    ensures view != All ==> forall a | a in r :: a in list && !IsUngrouped(a)
  {
    match view
    case All => Pending(list) + InProgress(list) + Completed(list)
    case PendingView => Pending(list)
    case InProgressView => InProgress(list)
    case CompletedView => Completed(list)
  }

  /** An entry is shown by some view exactly when it is in the list with one of the three
      statuses; an overdue entry is shown by none. */
  lemma ShownIffGrouped(list: seq<Assignment>, a: Assignment)
    ensures a in Cards(All, list) <==> a in list && !IsUngrouped(a)
    ensures IsUngrouped(a) ==> forall v: View :: a !in Cards(v, list)
  {
  }

  // ---- badge colour ----

  const Yellow: string := "bg-yellow-100 text-yellow-800"
  const Blue: string := "bg-blue-100 text-blue-800"
  const Green: string := "bg-green-100 text-green-800"
  const Red: string := "bg-red-100 text-red-800"
  const Gray: string := "bg-gray-100 text-gray-800"

  /** `getStatusColor`, which compares the status exactly, letter case included. */
  function StatusColor(status: string): (c: string)
    ensures c == Gray <==> status !in {"pending", "in-progress", "completed", "overdue"}
  {
    match status
    case "pending" => Yellow
    case "in-progress" => Blue
    case "completed" => Green
    case "overdue" => Red
    case _ => Gray
  }

  /** The four known statuses get four different colours, and the comparison is case sensitive:
      "Pending" is gray. */
  lemma StatusColorsDistinct()
    ensures |{StatusColor("pending"), StatusColor("in-progress"), StatusColor("completed"),
              StatusColor("overdue"), StatusColor("other")}| == 5
    ensures StatusColor("Pending") == Gray
  {
  }
}
