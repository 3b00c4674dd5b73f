/** The course endpoints under `/api/courses`: the paged listing, reading one course, the
    endpoints that do nothing yet (enrolling, lessons, completing a lesson), and streaming a
    course's PDF. The controller keeps no state of its own: it answers from the stored courses
    and PDFs. */
module CourseApi {
  import opened Common
  import opened Text
  import opened Arith
  import opened Paging
  import opened CourseService

  /** `list(page, size, category, enrolled)`, where `enrolled` has no effect and is not an
      argument here: the page of the service's list, with the service's count as the total, or
      an error (500) when the slice bounds make `subList` throw. */
  function ListPage(courses: map<Uuid, CourseEntity>, order: seq<Uuid>, page: Int32, size: Int32,
                    category: Option<string>): (r: Response<PageResponse<CourseDto>>)
    requires forall k | k in order :: k in courses
    requires |order| <= INT_MAX
  {
    ListIsBounded(courses, order, category);
    PagedResponse(List(courses, order, category), page, size, Count(courses, order, category))
  }

  /** The service's list is no longer than the repository's. */
  lemma ListIsBounded(courses: map<Uuid, CourseEntity>, order: seq<Uuid>, category: Option<string>)
    requires forall k | k in order :: k in courses
    ensures |List(courses, order, category)| <= |order|
  {
    assert |Matching(courses, order, category)| <= |ValuesInOrder(courses, order)|;
  }

  /** The listing is the paged answer over the service's list with the service's count. */
  lemma ListPageIsPaged(courses: map<Uuid, CourseEntity>, order: seq<Uuid>, page: Int32, size: Int32,
                        category: Option<string>)
    requires forall k | k in order :: k in courses
    requires |order| <= INT_MAX
    ensures |List(courses, order, category)| <= INT_MAX
    ensures ListPage(courses, order, page, size, category) ==
            PagedResponse(List(courses, order, category), page, size, Count(courses, order, category))
  {
    ListIsBounded(courses, order, category);
  }

  /** Without overflow the answer is the page of the service's list taken in order, at most
      `size` courses long and empty past the end, and its total is the service's count, which
      is the length of the whole list, not of the page.
      (`page * size` is not negative here, so the start `Math.min(page * size, n)` is the
      clamp of `page * size` to `[0, n]`.) */
  lemma ListPageInRange(courses: map<Uuid, CourseEntity>, order: seq<Uuid>, page: Int32, size: Int32,
                        category: Option<string>)
    requires EnumeratesKeys(courses, order) && |order| <= INT_MAX
    requires 0 <= page && 0 <= size && page * size + size <= INT_MAX
    ensures var all := List(courses, order, category);
            IsPage(ListPage(courses, order, page, size, category), all, page, size, |all|)
  {
    var all := List(courses, order, category);
    var total := Count(courses, order, category);
    ListPageIsPaged(courses, order, page, size, category);
    CountIsListLength(courses, order, category);
    PagedResponseInRange(all, page, size, total);
  }

  /** `get(courseId)`: the course, or 404 when there is none or the id is not a UUID. */
  function GetCourse(courses: map<Uuid, CourseEntity>, courseId: string): (r: Response<CourseDto>)
    ensures r.code == 200 <==> ParseUuid(courseId).Some? && ParseUuid(courseId).value in courses
    ensures r.code == 200 ==> r.body == Some(ToDto(courses[ParseUuid(courseId).value]))
    ensures r.code != 200 ==> r == Response(404, None)
  {
    match Get(courses, courseId)
    case None => Response(404, None)
    case Some(d) => Response(200, Some(d))
  }

  /** `enroll` and `completeLesson` answer 200 without a body whatever their arguments, and
      `lessons` answers an empty list; none of them reads or changes any stored data. */
  function Enroll(courseId: string): (r: Response<()>)
    ensures r.code == 200 && r.body.None?
  {
    Response(200, None)
  }

  function CompleteLesson(courseId: string, lessonId: string): (r: Response<()>)
    ensures r.code == 200 && r.body.None?
  {
    Response(200, None)
  }

  /** A lesson of a course. */
  datatype Lesson = Lesson(id: string, courseId: string, title: string)

  function Lessons(courseId: string): (r: Response<seq<Lesson>>)
    ensures r.code == 200 && r.body == Some([])
  {
    Response(200, Some([]))
  }

  /** The answer of a PDF download: its content type, its content disposition and its bytes. */
  datatype PdfDownload = PdfDownload(contentType: string, disposition: string, data: seq<bv8>)

  /** `downloadPdf(courseId)`: 404 when the course has no PDF or the id is not a UUID;
      otherwise the bytes, shown inline, typed "application/pdf" unless the PDF records a type,
      and named after the course id as given when the PDF records no file name. */
  function DownloadPdf(pdfs: map<Uuid, CoursePdf>, courseId: string): (r: Response<PdfDownload>)
    ensures r.code == 200 <==> GetPdf(pdfs, courseId).Some?
    ensures r.code != 200 ==> r == Response(404, None)
    ensures r.code == 200 ==>
              var p := GetPdf(pdfs, courseId).value;
              && r.body.Some? && r.body.value.data == p.data
              && r.body.value.contentType == p.contentType.GetOr("application/pdf")
              && r.body.value.disposition ==
                   "inline; filename=\"" + p.fileName.GetOr(courseId + ".pdf") + "\""
  {
    match GetPdf(pdfs, courseId)
    case None => Response(404, None)
    case Some(p) =>
      var name := if p.fileName.Some? then p.fileName.value else courseId + ".pdf";
      var kind := if p.contentType.Some? then p.contentType.value else "application/pdf";
      Response(200, Some(PdfDownload(kind, "inline; filename=\"" + name + "\"", p.data)))
  }
}
