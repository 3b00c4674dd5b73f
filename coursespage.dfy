/** The "My Courses" page of the dashboard: the courses loaded from the server with their
    progress, the reading progress the PDF reader keeps in `localStorage` laid over it, the
    courses of the client store, and the "create course" dialog. */
module CoursesPage {
  import opened Common
  import opened Text
  import opened Arith
  import ClientStore

  // ---- reading progress ----

  /** What `localStorage` holds under `course-progress-<id>`, as `JSON.parse` reads it: the empty
      string (falsy, so never parsed), text that does not parse, or a parsed value. Of a parsed
      value only the three fields the page looks at are kept, each present exactly when it is a
      number (a value that is not an object has none of them). */
  datatype StoredProgress =
    | EmptyText
    | Malformed
    | Parsed(percentage: Option<real>, currentPage: Option<real>, totalPages: Option<real>)

  /** The page ratio can be used: both counts are numbers and there is at least one page. */
  predicate HasPageRatio(e: StoredProgress) {
    e.Parsed? && e.currentPage.Some? && e.totalPages.Some? && e.totalPages.value > 0.0
  }

  /** `getReaderProgress` on what the key holds (`None` when there is no such key): a numeric
      `percentage` rounded; failing that the page ratio `currentPage / totalPages * 100` rounded;
      both clamped to [0, 100]. A missing key, an empty or malformed entry, and an entry with
      neither give no progress (`null`). */
  function ReaderProgress(entry: Option<StoredProgress>): (r: Option<int>)
    ensures r.Some? ==> 0 <= r.value <= 100
    ensures r.Some? <==> entry.Some? && entry.value.Parsed? &&
                          (entry.value.percentage.Some? || HasPageRatio(entry.value))
    ensures entry.Some? && entry.value.Parsed? && entry.value.percentage.Some? ==>
              r == Some(Clamp(0, 100, JsRound(entry.value.percentage.value)))
    ensures entry.Some? && entry.value.Parsed? && entry.value.percentage.None? && HasPageRatio(entry.value) ==>
              r == Some(Clamp(0, 100, JsRound(entry.value.currentPage.value / entry.value.totalPages.value * 100.0)))
  {
    match entry
    case None => None
    case Some(EmptyText) => None
    case Some(Malformed) => None
    case Some(Parsed(percentage, currentPage, totalPages)) =>
      if percentage.Some? then Some(Clamp(0, 100, JsRound(percentage.value)))
      else if currentPage.Some? && totalPages.Some? && totalPages.value > 0.0 then
        Some(Clamp(0, 100, JsRound(currentPage.value / totalPages.value * 100.0)))
      else None
  }

  /** Read page `current` of `total`, the progress is the rounded percentage the milestone
      trackers compute: `(200 * current + total) / (2 * total)`. */
  lemma ReaderProgressOfPages(current: nat, total: nat, percentage: Option<real>)
    requires 0 < total && current <= total && percentage.None?
    ensures ReaderProgress(Some(Parsed(percentage, Some(current as real), Some(total as real))))
            == Some(RoundedPercent(current, total))
  {
    RoundedPercentIsJsRound(current, total);
    RoundedPercentRange(current, total);
  }

  /** A whole percentage between 0 and 100 is reported as it is, whatever the page counts say. */
  lemma ReaderProgressOfPercentage(p: int, currentPage: Option<real>, totalPages: Option<real>)
    requires 0 <= p <= 100
    ensures ReaderProgress(Some(Parsed(Some(p as real), currentPage, totalPages))) == Some(p)
  {
    assert JsRound(p as real) == p;
  }

  /** A percentage above 100 or below 0 is cut to the nearest bound. */
  lemma ReaderProgressClamped(p: real, currentPage: Option<real>, totalPages: Option<real>)
    ensures p >= 100.0 ==> ReaderProgress(Some(Parsed(Some(p), currentPage, totalPages))) == Some(100)
    ensures p < 0.0 ==> ReaderProgress(Some(Parsed(Some(p), currentPage, totalPages))) == Some(0)
  {
    if p >= 100.0 {
      assert JsRound(p) >= 100 by {
        assert p + 0.5 >= 100.0;
      }
    }
  }

  /** The `localStorage` key of a course's reading progress. */
  function ProgressKey(id: string): (key: string)
    ensures |key| == 16 + |id| && key[16..] == id
  {
    "course-progress-" + id
  }

  function Lookup(storage: map<string, StoredProgress>, key: string): Option<StoredProgress> {
    if key in storage then Some(storage[key]) else None
  }

  /** The reading progress recorded for a course id. */
  function LocalProgress(storage: map<string, StoredProgress>, id: string): Option<int> {
    ReaderProgress(Lookup(storage, ProgressKey(id)))
  }

  // ---- difficulty ----

  datatype Level = Beginner | Intermediate | Advanced

  /** The label shown for a level. */
  function LevelName(l: Level): string {
    match l
    case Beginner => "Beginner"
    case Intermediate => "Intermediate"
    case Advanced => "Advanced"
  }

  /** `mapDifficulty`: "INTERMEDIATE" and "ADVANCED" in any letter case name their levels;
      everything else, the empty string included, is Beginner. */
  function MapDifficulty(d: string): (r: Level)
    ensures r == Intermediate <==> ToUpperCase(d) == "INTERMEDIATE"
    ensures r == Advanced <==> ToUpperCase(d) == "ADVANCED"
    ensures d == "" ==> r == Beginner
  {
    if d == "" then Beginner
    else
      var u := ToUpperCase(d);
      if u == "INTERMEDIATE" then Intermediate
      else if u == "ADVANCED" then Advanced
      else Beginner
  }

  /** The backend's upper-case names and the page's own labels both map back to their level. */
  lemma MapDifficultyOfNames(l: Level)
    ensures MapDifficulty(ToUpperCase(LevelName(l))) == l
    ensures MapDifficulty(LevelName(l)) == l
  {
    var n := LevelName(l);
    var upper := match l
      case Beginner => "BEGINNER"
      case Intermediate => "INTERMEDIATE"
      case Advanced => "ADVANCED";
    assert ToUpperCase(n) == upper;
    assert ToUpperCase(upper) == upper;
  }

  /** Lower-casing the backend's value first does not change the level. */
  lemma MapDifficultyIgnoresCase(d: string)
    ensures MapDifficulty(ToLowerCase(d)) == MapDifficulty(d)
  {
    UpperOfLower(d, "INTERMEDIATE");
    UpperOfLower(d, "ADVANCED");
  }

  /** For a word of ASCII capitals other than K (whose lower case is also that of the Kelvin
      sign), `s.toLowerCase().toUpperCase()` spells it exactly when `s.toUpperCase()` does. */
  lemma UpperOfLower(s: string, w: string)
    requires forall i | 0 <= i < |w| :: 'A' <= w[i] <= 'Z' && w[i] != 'K'
    ensures ToUpperCase(ToLowerCase(s)) == w <==> ToUpperCase(s) == w
  {
    var lower := ToLowerCase(s);
    if |s| == |w| {
      forall i | 0 <= i < |s| ensures UpperChar(lower[i]) == w[i] <==> UpperChar(s[i]) == w[i] {
      }
    }
  }

  // ---- the course cards ----

  /** One card of the course grid. The id is the text the card is keyed by. */
  datatype DisplayCourse = DisplayCourse(
    id: string, title: string, description: string, duration: string, level: string,
    image: string, progress: int)

  /** A course as the course listing endpoint returns it. */
  datatype BackendCourse = BackendCourse(
    id: string, title: string, description: Option<string>, duration: int, difficulty: string)

  /** A card for a backend course: no description becomes the empty one, the duration is shown
      in hours, the difficulty is normalised, and the progress starts at 0. */
  function BaseCard(c: BackendCourse): (d: DisplayCourse)
    ensures d.id == c.id && d.title == c.title && d.progress == 0
    ensures d.level == LevelName(MapDifficulty(c.difficulty))
    ensures d.duration == IntToString(c.duration) + " hours"
  {
    DisplayCourse(c.id, c.title, c.description.GetOr(""), IntToString(c.duration) + " hours",
                  LevelName(MapDifficulty(c.difficulty)), "\U{1F4D8}", 0)
  }

  /** The duration text of a loaded card reads back as the course's hours. */
  lemma BaseCardDuration(c: BackendCourse)
    ensures ParseInt(BaseCard(c).duration) == Some(c.duration)
  {
    ParseIntOfIntToString(c.duration, " hours");
  }

  /** The settled outcome of `getCourseProgress` for one course: rejected, or an answer whose
      progress is present when the answer carries a numeric `progress`. */
  datatype ProgressReply = Rejected | Settled(success: bool, progress: Option<real>)

  /** The rounded server progress of one card, when the server answered with a number. */
  function ServerProgress(reply: ProgressReply): Option<int> {
    if reply.Settled? && reply.success && reply.progress.Some? then Some(JsRound(reply.progress.value))
    else None
  }

  /** The server's progress laid over the cards; `reply` is what the progress endpoint answers
      for a course id. The server's value is rounded but not clamped. */
  function WithServerProgress(cards: seq<DisplayCourse>, reply: string -> ProgressReply): (r: seq<DisplayCourse>)
    ensures |r| == |cards|
    ensures forall i | 0 <= i < |cards| ::
      r[i] == cards[i].(progress := ServerProgress(reply(cards[i].id)).GetOr(cards[i].progress))
  {
    Map(cards, (c: DisplayCourse) => c.(progress := ServerProgress(reply(c.id)).GetOr(c.progress)))
  }

  /** The reading progress laid over the cards (the last step of `load`, and `refreshOverlay`):
      a card with reading progress shows it, every other card is unchanged. */
  function Overlay(cards: seq<DisplayCourse>, storage: map<string, StoredProgress>): (r: seq<DisplayCourse>)
    ensures |r| == |cards|
    ensures forall i | 0 <= i < |cards| ::
      r[i] == cards[i].(progress := LocalProgress(storage, cards[i].id).GetOr(cards[i].progress))
  {
    Map(cards, (c: DisplayCourse) => c.(progress := LocalProgress(storage, c.id).GetOr(c.progress)))
  }

  /** Refreshing the overlay again without new reading progress changes nothing. */
  lemma OverlayIdempotent(cards: seq<DisplayCourse>, storage: map<string, StoredProgress>)
    ensures Overlay(Overlay(cards, storage), storage) == Overlay(cards, storage)
  {
    var once := Overlay(cards, storage);
    var twice := Overlay(once, storage);
    forall i | 0 <= i < |cards| ensures twice[i] == once[i] {
      assert once[i].id == cards[i].id;
    }
  }

  /** After a load, a card shows its reading progress when there is one, otherwise the server's
      rounded progress when there is one, otherwise 0. */
  lemma LoadedProgress(courses: seq<BackendCourse>, reply: string -> ProgressReply,
                       storage: map<string, StoredProgress>, i: int)
    requires 0 <= i < |courses|
    ensures var cards := Overlay(WithServerProgress(Map(courses, BaseCard), reply), storage);
      && |cards| == |courses|
      && cards[i].progress ==
           match LocalProgress(storage, courses[i].id)
           case Some(p) => p
           case None => ServerProgress(reply(courses[i].id)).GetOr(0)
  {
    var base := Map(courses, BaseCard);
    assert base[i].id == courses[i].id && base[i].progress == 0;
  }

  /** A card for a course of the client store: its fields as stored, under the decimal text of
      its id, showing its reading progress when there is one and its stored progress otherwise. */
  function LocalCard(c: ClientStore.Course, storage: map<string, StoredProgress>): (d: DisplayCourse)
    ensures d.id == IntToString(c.id)
    ensures d.progress == LocalProgress(storage, IntToString(c.id)).GetOr(c.progress)
  {
    DisplayCourse(IntToString(c.id), c.title, c.description, c.duration, c.level, c.image,
                  LocalProgress(storage, IntToString(c.id)).GetOr(c.progress))
  }

  /** The grid: the loaded courses, then the store's courses, each in its own order. */
  function Grid(myCourses: seq<DisplayCourse>, local: seq<ClientStore.Course>,
                storage: map<string, StoredProgress>): (r: seq<DisplayCourse>)
    ensures |r| == |myCourses| + |local|
    ensures r[..|myCourses|] == myCourses
    ensures forall i | 0 <= i < |local| :: r[|myCourses| + i] == LocalCard(local[i], storage)
  {
    myCourses + Map(local, (c: ClientStore.Course) => LocalCard(c, storage))
  }

  /** The store's courses follow the same rule as the loaded ones: the grid is the loaded cards
      followed by the overlay of the store's courses as stored. */
  lemma GridIsOverlay(myCourses: seq<DisplayCourse>, local: seq<ClientStore.Course>,
                      storage: map<string, StoredProgress>)
    ensures Grid(myCourses, local, storage) ==
            myCourses + Overlay(Map(local, (c: ClientStore.Course) => LocalCard(c, map[])), storage)
  {
    var plain := Map(local, (c: ClientStore.Course) => LocalCard(c, map[]));
    var overlaid := Overlay(plain, storage);
    var shown := Map(local, (c: ClientStore.Course) => LocalCard(c, storage));
    forall i | 0 <= i < |local| ensures overlaid[i] == shown[i] {
      assert plain[i] == LocalCard(local[i], map[]);
    }
  }

  // ---- loading ----

  /** The answer of `getMyCourses(0, 20)`; `content` is absent when the page has none. */
  datatype CoursesReply = CoursesReply(
    success: bool, data: Option<Option<seq<BackendCourse>>>, error: Option<string>, message: Option<string>)

  /** JavaScript's `a || b` on optional text: `a` unless it is absent or empty. */
  function OrElse(a: Option<string>, b: string): string {
    if a.Some? && a.value != "" then a.value else b
  }

  /** The message of the error `load` throws on a failed answer. It is never empty, so the
      page's own fallback "An unexpected error occurred" is never shown for it. */
  function LoadError(res: CoursesReply): (m: string)
    ensures m != ""
    ensures res.error.Some? && res.error.value != "" ==> m == res.error.value
  {
    OrElse(res.error, OrElse(res.message, "Failed to load courses"))
  }

  // ---- the create dialog ----

  /** `createCourse`'s argument for the dialog's values: the category becomes the description,
      the hours are at least 1, the progress is 0. */
  function CreateInput(title: string, category: string, hours: int, level: Level, icon: string)
    : (input: ClientStore.CourseInput)
    ensures input.title == title && input.level == LevelName(level)
    ensures input.description == (if category == "" then "User created course" else "Category: " + category)
    ensures input.duration == DurationText(hours)
    ensures input.image == Some(icon) && input.progress == Some(0)
  {
    ClientStore.CourseInput(
      title, if category == "" then "User created course" else "Category: " + category,
      DurationText(hours), LevelName(level), Some(0), Some(icon))
  }

  /** `${Math.max(1, Number(hours) || 1)} hours`; the hours are whole numbers here, so
      `Number(hours) || 1` only turns 0 into 1. */
  function DurationText(hours: int): string {
    IntToString(Max(1, hours)) + " hours"
  }

  /** A created course lasts at least one hour: its duration reads back as the hours typed when
      they are positive, and as 1 otherwise. */
  lemma DurationAtLeastOneHour(hours: int)
    ensures ParseInt(DurationText(hours)) == Some(if hours >= 1 then hours else 1)
  {
    ParseIntOfIntToString(Max(1, hours), " hours");
  }

  /** `isValid`: a title that is not blank, a positive number of hours and an icon. */
  predicate IsValid(title: string, hours: int, icon: string) {
    Trim(title) != [] && hours > 0 && icon != ""
  }

  /** A valid dialog creates a course for exactly the hours typed, and typing a number gives
      that number of hours. The hours input reads its text with `parseInt(value, 10)`, and
      `IntOrZero` with no radix; the two differ only on text with a `0x` prefix, which the
      decimal text of a number never has. */
  lemma ValidDialogKeepsHours(title: string, category: string, n: int, level: Level, icon: string)
    requires IsValid(title, IntOrZero(IntToString(n)), icon)
    ensures IntOrZero(IntToString(n)) == n
    ensures ParseInt(CreateInput(title, category, n, level, icon).duration) == Some(n)
  {
    IntOrZeroOfIntToString(n);
    assert n > 0;
    DurationAtLeastOneHour(n);
  }

  const DefaultIcon: string := "\U{1F4D8}"

  /** The fields of the "create course" dialog; `pdfFile` is the chosen file, if any. */
  datatype Dialog = Dialog(
    title: string, category: string, difficulty: Level, durationHours: int, icon: string,
    pdfFile: Option<string>)

  /** The dialog as it opens and as it is left after a creation. */
  const InitialDialog: Dialog := Dialog("", "", Beginner, 10, DefaultIcon, None)

  /** The course the store creates for the dialog's values when its course counter is at `id`. */
  function CreatedCourse(d: Dialog, id: int): (c: ClientStore.Course)
    ensures c.id == id && c.title == d.title && c.progress == 0 && c.image == d.icon
    ensures c.level == LevelName(d.difficulty)
    ensures c.duration == DurationText(d.durationHours)
  {
    var input := CreateInput(d.title, d.category, d.durationHours, d.difficulty, d.icon);
    ClientStore.Course(id, input.title, input.description, 0, input.duration, input.level, d.icon)
  }

  /** The page component. `storage` is the reading progress in `localStorage` and `pdfUrls` the
      object URLs in `sessionStorage`, both keyed by text. */
  class Page {
    var myCourses: seq<DisplayCourse>
    var isLoading: bool
    var error: Option<string>
    var storage: map<string, StoredProgress>
    var pdfUrls: map<string, string>
    var showCreateModal: bool
    var isSubmitting: bool
    var dialog: Dialog

    constructor (storage: map<string, StoredProgress>, pdfUrls: map<string, string>)
      ensures this.storage == storage && this.pdfUrls == pdfUrls
      ensures myCourses == [] && isLoading && error.None? && !showCreateModal && !isSubmitting
      ensures dialog == InitialDialog
    {
      this.storage, this.pdfUrls := storage, pdfUrls;
      myCourses, isLoading, error := [], true, None;
      showCreateModal, isSubmitting := false, false;
      dialog := InitialDialog;
    }

    /** `load`: on a failed answer the cards stay and the error is shown; otherwise the cards are
        the loaded courses with the server's progress and then the reading progress laid over
        them. Either way loading ends. */
    method Load(res: CoursesReply, reply: string -> ProgressReply)
      modifies this
      ensures !isLoading
      ensures !res.success || res.data.None? ==>
                myCourses == old(myCourses) && error == Some(LoadError(res))
      ensures res.success && res.data.Some? ==>
                && myCourses == Overlay(WithServerProgress(Map(res.data.value.GetOr([]), BaseCard), reply), storage)
                && error.None?
      ensures storage == old(storage) && pdfUrls == old(pdfUrls) && dialog == old(dialog)
      ensures showCreateModal == old(showCreateModal) && isSubmitting == old(isSubmitting)
    {
      isLoading, error := true, None;
      var cards, failure := myCourses, None;
      if !res.success || res.data.None? {
        failure := Some(LoadError(res));
      } else {
        var base := Map(res.data.value.GetOr([]), BaseCard);
        var withProgress := WithServerProgress(base, reply);
        cards := Overlay(withProgress, storage);
      }
      myCourses, error, isLoading := cards, failure, false;
    }

    /** `refreshOverlay`, on focus or when the page becomes visible again. */
    method RefreshOverlay()
      modifies this
      ensures myCourses == Overlay(old(myCourses), storage)
      ensures storage == old(storage) && pdfUrls == old(pdfUrls) && error == old(error)
      ensures isLoading == old(isLoading) && showCreateModal == old(showCreateModal)
      ensures isSubmitting == old(isSubmitting) && dialog == old(dialog)
    {
      myCourses := Overlay(myCourses, storage);
    }

    /** `handleCreate`, once its timer fires: the store creates the course (and its starter quiz);
        a chosen PDF gets the object URL `objectUrl` under `course-pdf-url-<id>`; the dialog is
        closed and reset, and the `isSubmitting` flag raised while the timer ran is down again.
        `dueDate` is the starter quiz's due date. */
    method HandleCreate(store: ClientStore.Store, dueDate: string, objectUrl: string)
      returns (created: ClientStore.Course)
      requires store.Valid()
      modifies this, store
      ensures store.Valid()
      ensures created == CreatedCourse(old(dialog), old(store.nextCourseId))
      ensures store.courses == [created] + old(store.courses)
      ensures store.assignments ==
                [ClientStore.StarterAssignment(created, dueDate).(id := old(store.nextAssignmentId))] + old(store.assignments)
      ensures store.nextCourseId == old(store.nextCourseId) + 1
      ensures store.nextAssignmentId == old(store.nextAssignmentId) + 1
      ensures old(dialog).pdfFile.Some? ==>
                pdfUrls == old(pdfUrls)["course-pdf-url-" + IntToString(created.id) := objectUrl]
      ensures old(dialog).pdfFile.None? ==> pdfUrls == old(pdfUrls)
      ensures !isSubmitting && !showCreateModal && dialog == InitialDialog
      ensures myCourses == old(myCourses) && storage == old(storage)
      ensures error == old(error) && isLoading == old(isLoading)
    {
      var d := dialog;
      var input := CreateInput(d.title, d.category, d.durationHours, d.difficulty, d.icon);
      created := store.CreateCourse(input, dueDate);
      assert created == CreatedCourse(d, old(store.nextCourseId));
      var urls := if d.pdfFile.Some? then pdfUrls["course-pdf-url-" + IntToString(created.id) := objectUrl] else pdfUrls;
      pdfUrls, isSubmitting, showCreateModal, dialog := urls, false, false, InitialDialog;
    }
  }
}
