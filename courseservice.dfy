/** The course service: listing and counting the stored courses, optionally by category, and
    finding a course or its PDF by an id given as text, which must be a UUID. */
module CourseService {
  import opened Common
  import opened Text
  import opened Arith

  // ---- UUIDs ----

  predicate IsHexDigit(c: char) {
    '0' <= c <= '9' || 'a' <= c <= 'f' || 'A' <= c <= 'F'
  }

  predicate IsDashPosition(i: int) {
    i == 8 || i == 13 || i == 18 || i == 23
  }

  /** The standard form of a UUID: 36 characters, dashes after the 8th, 12th, 16th and 20th hex
      digit, hex digits of either case elsewhere. */
  predicate UuidShaped(s: string) {
    && |s| == 36
    && forall i | 0 <= i < 36 :: if IsDashPosition(i) then s[i] == '-' else IsHexDigit(s[i])
  }

  /** A UUID, written as `UUID.toString` writes it: the standard form in lower case. */
  type Uuid = s: string | UuidShaped(s) && ToLowerCase(s) == s
    witness "00000000-0000-0000-0000-000000000000"

  /** Lower-casing keeps a text in the standard form and takes nothing else into it. */
  lemma UuidShapedLower(s: string)
    ensures UuidShaped(ToLowerCase(s)) <==> UuidShaped(s)
  {
    var l := ToLowerCase(s);
    if |s| == 36 {
      forall i | 0 <= i < 36
        ensures (if IsDashPosition(i) then l[i] == '-' else IsHexDigit(l[i])) <==>
                (if IsDashPosition(i) then s[i] == '-' else IsHexDigit(s[i]))
      {
        assert l[i] == LowerChar(s[i]);
      }
    }
  }

  /** `UUID.fromString(s)` for the standard form: the UUID, which does not depend on the case
      of the hex digits; any other text makes the parse throw (`None`). */
  function ParseUuid(s: string): (r: Option<Uuid>)
    ensures r.Some? <==> UuidShaped(s)
    ensures r.Some? ==> r.value == ToLowerCase(s)
  {
    if UuidShaped(s) then
      UuidShapedLower(s);
      ToLowerCaseIdempotent(s);
      Some(ToLowerCase(s))
    else None
  }

  /** Reading a UUID's text gives the UUID back, and a text in another letter case gives the
      same UUID. */
  lemma ParseUuidRoundTrip(u: Uuid, s: string)
    ensures ParseUuid(u) == Some(u)
    ensures ParseUuid(ToLowerCase(s)) == ParseUuid(s)
  {
    UuidShapedLower(s);
    ToLowerCaseIdempotent(s);
  }

  // ---- courses ----

  /** A stored course; every field but the id and the title may be null. */
  datatype CourseEntity = CourseEntity(
    id: Uuid, title: string, description: Option<string>, instructor: Option<string>,
    category: Option<string>, difficulty: Option<string>, duration: Option<Int32>,
    enrolledStudents: Option<Int32>, rating: Option<real>, thumbnail: Option<string>,
    createdAt: Option<string>, updatedAt: Option<string>)

  /** A course as sent to clients. */
  datatype CourseDto = CourseDto(
    id: string, title: string, description: Option<string>, instructor: Option<string>,
    category: Option<string>, difficulty: Option<string>, duration: Int32, enrolledStudents: Int32,
    rating: real, thumbnail: Option<string>, createdAt: Option<string>, updatedAt: Option<string>)

  /** `toDto`: missing numbers become 0, timestamps stay missing when missing, and every other
      field is copied. */
  function ToDto(c: CourseEntity): (d: CourseDto)
    ensures d.id == c.id && d.title == c.title && d.description == c.description
    ensures d.instructor == c.instructor && d.category == c.category && d.difficulty == c.difficulty
    ensures d.thumbnail == c.thumbnail && d.createdAt == c.createdAt && d.updatedAt == c.updatedAt
    ensures d.duration == c.duration.GetOr(0) && d.enrolledStudents == c.enrolledStudents.GetOr(0)
    ensures d.rating == c.rating.GetOr(0.0)
  {
    CourseDto(c.id, c.title, c.description, c.instructor, c.category, c.difficulty,
              c.duration.GetOr(0), c.enrolledStudents.GetOr(0), c.rating.GetOr(0.0), c.thumbnail,
              c.createdAt, c.updatedAt)
  }

  /** `category.equalsIgnoreCase(c.getCategory())`: false for a course without a category. */
  predicate InCategory(category: string, c: CourseEntity) {
    c.category.Some? && EqualsIgnoreCase(category, c.category.value)
  }

  /** Whether a category argument narrows the listing: only a non-blank one does. */
  predicate Narrows(category: Option<string>) {
    category.Some? && !IsBlank(category.value)
  }

  /** The courses `list` and `count` consider, in the repository's order `order`. */
  function Matching(courses: map<Uuid, CourseEntity>, order: seq<Uuid>, category: Option<string>): (r: seq<CourseEntity>)
    requires forall k | k in order :: k in courses
    ensures !Narrows(category) ==> r == ValuesInOrder(courses, order)
    ensures Narrows(category) ==>
              && (forall c | c in r :: c in ValuesInOrder(courses, order) && InCategory(category.value, c))
              && (forall c | c in ValuesInOrder(courses, order) && InCategory(category.value, c) :: c in r)
  {
    if Narrows(category) then Filter(ValuesInOrder(courses, order), c => InCategory(category.value, c))
    else ValuesInOrder(courses, order)
  }

  /** `list(page, size, category)`, which does not use `page` and `size`: the courses of the
      category, ignoring case, or all courses when the category is missing or blank, as
      DTOs in order. */
  function List(courses: map<Uuid, CourseEntity>, order: seq<Uuid>, category: Option<string>): (r: seq<CourseDto>)
    requires forall k | k in order :: k in courses
    ensures |r| == |Matching(courses, order, category)|
    ensures forall i | 0 <= i < |r| :: r[i] == ToDto(Matching(courses, order, category)[i])
  {
    Map(Matching(courses, order, category), ToDto)
  }

  /** `count(category)`: the number of stored courses when the category is missing or blank,
      otherwise the number of courses of the category. */
  function Count(courses: map<Uuid, CourseEntity>, order: seq<Uuid>, category: Option<string>): nat
    requires forall k | k in order :: k in courses
  {
    if !Narrows(category) then |courses|
    else |Filter(ValuesInOrder(courses, order), c => InCategory(category.value, c))|
  }

  /** The count agrees with the length of the list whenever `order` lists every stored course
      once, as the repository's listing does. */
  lemma CountIsListLength(courses: map<Uuid, CourseEntity>, order: seq<Uuid>, category: Option<string>)
    requires EnumeratesKeys(courses, order)
    ensures Count(courses, order, category) == |List(courses, order, category)|
  {
    ValuesInOrderComplete(courses, order);
  }

  /** The category match ignores case: "science" narrows to the courses of "Science". */
  lemma CategoryIgnoresCase(category: string, c: CourseEntity)
    requires c.category == Some(category)
    ensures InCategory(ToLowerCase(category), c)
  {
    forall i | 0 <= i < |category|
      ensures LowerChar(category[i]) == category[i] || UpperChar(LowerChar(category[i])) == UpperChar(category[i])
              || LowerChar(UpperChar(LowerChar(category[i]))) == LowerChar(UpperChar(category[i]))
    {
    }
  }

  /** `get(id)`: the course with that UUID as a DTO; nothing when there is none, and nothing
      rather than an error when `id` is not a UUID. */
  function Get(courses: map<Uuid, CourseEntity>, id: string): (r: Option<CourseDto>)
    ensures ParseUuid(id).None? ==> r.None?
    ensures ParseUuid(id).Some? ==>
              (r.Some? <==> ParseUuid(id).value in courses) &&
              (r.Some? ==> r.value == ToDto(courses[ParseUuid(id).value]))
  {
    match ParseUuid(id)
    case None => None
    case Some(u) => if u in courses then Some(ToDto(courses[u])) else None
  }

  /** A stored course PDF, under the id of its course. */
  datatype CoursePdf = CoursePdf(courseId: Uuid, fileName: Option<string>, contentType: Option<string>, data: seq<bv8>)

  /** `getPdf(courseId)`: the course's PDF, or nothing, also when `courseId` is not a UUID. */
  function GetPdf(pdfs: map<Uuid, CoursePdf>, courseId: string): (r: Option<CoursePdf>)
    ensures r.Some? <==> ParseUuid(courseId).Some? && ParseUuid(courseId).value in pdfs
    ensures r.Some? ==> r.value == pdfs[ParseUuid(courseId).value]
  {
    match ParseUuid(courseId)
    case None => None
    case Some(u) => if u in pdfs then Some(pdfs[u]) else None
  }

  /** Looking a course up by its own id text finds it, and by the same id in upper case too. */
  lemma GetById(courses: map<Uuid, CourseEntity>, u: Uuid)
    requires u in courses
    ensures Get(courses, u) == Some(ToDto(courses[u]))
    ensures Get(courses, ToUpperCase(u)) == Some(ToDto(courses[u]))
  {
    ParseUuidRoundTrip(u, u);
    var up := ToUpperCase(u);
    assert ToLowerCase(up) == u by {
      forall i | 0 <= i < |u| ensures LowerChar(UpperChar(u[i])) == u[i] {
        assert LowerChar(u[i]) == u[i];
        assert !IsDashPosition(i) ==> IsHexDigit(u[i]);
      }
    }
    ParseUuidRoundTrip(u, up);
  }
}
