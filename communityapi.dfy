/** The discussion endpoints under `/api/discussions`: a paged list optionally narrowed to one
    course, creating a discussion, replying to one, and liking one. The discussions live in an
    in-memory table keyed by id. */
module CommunityApi {
  import opened Common
  import opened Text
  import opened Arith
  import opened Paging
  import opened Users

  /** A reply; its content is `None` when the request had none, which Java stores as null. */
  datatype Reply = Reply(
    id: string, discussionId: string, authorId: string, authorName: string, content: Option<string>,
    likes: Int32, isLiked: bool, createdAt: string)

  /** A discussion; a title or content missing from the request is `None` (null in Java). */
  datatype Discussion = Discussion(
    id: string, courseId: Option<string>, authorId: string, authorName: string, title: Option<string>,
    content: Option<string>, replies: seq<Reply>, likes: Int32, isLiked: bool, createdAt: string)

  /** The author of a new discussion or reply: the id and username of the authenticated user
      when a user has that email, and "demo-user" named "Anonymous" otherwise, also when
      nobody is authenticated. */
  function Author(users: map<string, User>, auth: Option<string>): (r: (string, string))
    ensures auth.Some? && auth.value in users ==> r == (users[auth.value].id, users[auth.value].username)
    ensures auth.None? || auth.value !in users ==> r == ("demo-user", "Anonymous")
  {
    if auth.Some? && auth.value in users then (users[auth.value].id, users[auth.value].username)
    else ("demo-user", "Anonymous")
  }

  predicate InCourse(courseId: string, d: Discussion) {
    d.courseId == Some(courseId)
  }

  /** The course filter of the listing: a missing or blank course id keeps every discussion;
      any other keeps exactly those of that course, in their order. */
  function Filtered(all: seq<Discussion>, courseId: Option<string>): (r: seq<Discussion>)
    ensures courseId.None? || IsBlank(courseId.value) ==> r == all
    ensures courseId.Some? && !IsBlank(courseId.value) ==>
              && (forall d | d in r :: d in all && d.courseId == courseId)
              && (forall d | d in all && d.courseId == courseId :: d in r)
  {
    if courseId.Some? && !IsBlank(courseId.value) then Filter(all, d => InCourse(courseId.value, d))
    else all
  }

  /** The listing over the table's values in the iteration order `order`: page `page` of the
      filtered discussions with their total, or an error (500) when the slice bounds make
      `subList` throw. */
  function ListPage(table: map<string, Discussion>, order: seq<string>, courseId: Option<string>,
                    page: Int32, size: Int32): (r: Response<PageResponse<Discussion>>)
    requires forall k | k in order :: k in table
    requires |order| <= INT_MAX
  {
    var all := Filtered(ValuesInOrder(table, order), courseId);
    PagedResponse(all, page, size, |all|)
  }

  /** Without overflow the answer is the page of the filtered discussions taken in order, at
      most `size` long and empty past the end, and the total counts the whole filtered list.
      (`page * size` is not negative here, so the start `Math.min(page * size, n)` is the
      clamp of `page * size` to `[0, n]`.) */
  lemma ListPageInRange(table: map<string, Discussion>, order: seq<string>, courseId: Option<string>,
                        page: Int32, size: Int32)
    requires forall k | k in order :: k in table
    requires |order| <= INT_MAX
    requires 0 <= page && 0 <= size && page * size + size <= INT_MAX
    ensures var all := Filtered(ValuesInOrder(table, order), courseId);
            IsPage(ListPage(table, order, courseId, page, size), all, page, size, |all|)
  {
    var all := Filtered(ValuesInOrder(table, order), courseId);
    PagedResponseInRange(all, page, size, |all|);
  }

  /** Every discussion on a page belongs to the asked course, whatever page is asked for. */
  lemma ListPageOfCourse(table: map<string, Discussion>, order: seq<string>, courseId: Option<string>,
                         page: Int32, size: Int32)
    requires forall k | k in order :: k in table
    requires |order| <= INT_MAX
    requires courseId.Some? && !IsBlank(courseId.value)
    ensures var r := ListPage(table, order, courseId, page, size);
            r.code == 200 ==> forall d | d in r.body.value.content :: d.courseId == courseId
  {
    var all := Filtered(ValuesInOrder(table, order), courseId);
    match PageBounds(page, size, |all|)
    case None =>
    case Some((from, to)) =>
      assert PageOf(all, page, size) == Some(all[from..to]);
      assert forall d | d in all[from..to] :: d in all;
  }

  /** Without a course the total is the number of stored discussions. */
  lemma ListAllCountsTable(table: map<string, Discussion>, order: seq<string>, page: Int32, size: Int32)
    requires EnumeratesKeys(table, order) && |order| <= INT_MAX
    ensures ListPage(table, order, None, page, size).code == 200 ==>
              ListPage(table, order, None, page, size).body.value.totalElements == |table|
  {
    ValuesInOrderComplete(table, order);
  }

  /** The table after a like: a stored discussion gets one like more in Java `int` arithmetic
      and is marked liked; an unknown id changes nothing. */
  function Liked(table: map<string, Discussion>, id: string): (r: map<string, Discussion>)
    ensures id !in table ==> r == table
    ensures id in table ==> r == table[id := table[id].(likes := Wrap32(table[id].likes + 1), isLiked := true)]
  {
    if id in table then table[id := table[id].(likes := Wrap32(table[id].likes + 1), isLiked := true)]
    else table
  }

  /** Liking is not idempotent: a second like adds another one, unless the count is at the top
      of the `int` range, where it wraps to the most negative value. */
  lemma LikeTwice(table: map<string, Discussion>, id: string)
    requires id in table
    ensures table[id].likes + 2 <= INT_MAX ==> Liked(Liked(table, id), id)[id].likes == table[id].likes + 2
    ensures table[id].likes + 2 <= INT_MAX ==> Liked(Liked(table, id), id) != Liked(table, id)
    ensures table[id].likes == INT_MAX ==> Liked(table, id)[id].likes == INT_MIN
  {
    if table[id].likes + 2 <= INT_MAX {
      assert Liked(Liked(table, id), id)[id].likes != Liked(table, id)[id].likes;
    }
  }

  /** The table after a reply to a stored discussion: the reply is added after the others. */
  function Replied(table: map<string, Discussion>, id: string, reply: Reply): (r: map<string, Discussion>)
    requires id in table
    ensures id in r && r.Keys == table.Keys
    ensures |r[id].replies| == |table[id].replies| + 1
    ensures r[id].replies[..|table[id].replies|] == table[id].replies
    ensures r[id].replies[|table[id].replies|] == reply
    ensures r[id] == table[id].(replies := r[id].replies)
    ensures forall k | k in table && k != id :: r[k] == table[k]
  {
    table[id := table[id].(replies := table[id].replies + [reply])]
  }

  /** The controller, with the discussion table and the user repository. `auth` is the name of
      the authenticated principal, if any; `newId` and `now` are the fresh id and the time a
      created entry receives. */
  class CommunityController {
    var discussions: map<string, Discussion>
    const users: UserRepository

    constructor (discussions: map<string, Discussion>, users: UserRepository)
      ensures this.discussions == discussions && this.users == users
    {
      this.discussions := discussions;
      this.users := users;
    }

    /** `list`, with `order` the iteration order of the table. */
    method List(courseId: Option<string>, page: Int32, size: Int32, order: seq<string>)
      returns (r: Response<PageResponse<Discussion>>)
      requires forall k | k in order :: k in discussions
      requires |order| <= INT_MAX
      ensures r == ListPage(discussions, order, courseId, page, size)
    {
      var all := ValuesInOrder(discussions, order);
      if courseId.Some? && !IsBlank(courseId.value) {
        all := Filter(all, d => InCourse(courseId.value, d));
      }
      assert all == Filtered(ValuesInOrder(discussions, order), courseId);
      var total := |all|;
      var from := Min(Wrap32(page * size), |all|);
      var to := Min(Wrap32(from + size), |all|);
      assert PageBounds(page, size, |all|) == (if 0 <= from <= to then Some((from, to)) else None);
      if from < 0 || from > to {
        assert PageOf(all, page, size).None?;
        return Response(500, None);
      }
      assert PageOf(all, page, size) == Some(all[from..to]);
      r := Response(200, Some(PageResponse(all[from..to], total)));
    }

    /** `create`: stores a discussion under the fresh id, with the request's course, title and
        text as given (a missing one stays missing), the author of `Author`, no replies and no
        likes. */
    method Create(courseId: Option<string>, title: Option<string>, content: Option<string>,
                  auth: Option<string>,
                  newId: string, now: string)
      returns (r: Response<Discussion>)
      modifies this
      ensures var author := Author(users.byEmail, auth);
              var d := Discussion(newId, courseId, author.0, author.1, title, content, [], 0, false, now);
              && discussions == old(discussions)[newId := d]
              && r == Response(200, Some(d))
    {
      var author := Author(users.byEmail, auth);
      var d := Discussion(newId, courseId, author.0, author.1, title, content, [], 0, false, now);
      discussions := discussions[newId := d];
      r := Response(200, Some(d));
    }

    /** `reply`: 404 for an unknown discussion, changing nothing; otherwise a reply by the
        author of `Author`, with no likes and the request's content as given (a missing one
        stays missing), is appended to the discussion's replies and returned. */
    method AddReply(discussionId: string, content: Option<string>, auth: Option<string>, newId: string, now: string)
      returns (r: Response<Reply>)
      modifies this
      ensures discussionId !in old(discussions) ==> r == Response(404, None) && discussions == old(discussions)
      ensures discussionId in old(discussions) ==>
                var author := Author(users.byEmail, auth);
                var reply := Reply(newId, discussionId, author.0, author.1, content, 0, false, now);
                && discussions == Replied(old(discussions), discussionId, reply)
                && r == Response(200, Some(reply))
    {
      if discussionId !in discussions {
        return Response(404, None);
      }
      var d := discussions[discussionId];
      var author := Author(users.byEmail, auth);
      var reply := Reply(newId, discussionId, author.0, author.1, content, 0, false, now);
      discussions := discussions[discussionId := d.(replies := d.replies + [reply])];
      r := Response(200, Some(reply));
    }

    /** `like`: always 200; a stored discussion gets one like more and is marked liked. */
    method Like(discussionId: string) returns (r: Response<()>)
      modifies this
      ensures discussions == Liked(old(discussions), discussionId)
      ensures r == Response(200, None)
    {
      if discussionId in discussions {
        var d := discussions[discussionId];
        discussions := discussions[discussionId := d.(likes := Wrap32(d.likes + 1), isLiked := true)];
      }
      r := Response(200, None);
    }
  }
}
