/** The community page of the dashboard: the discussion list with its like toggle, and the "new
    discussion" dialog with its comma-separated tags. */
module CommunityPage {
  import opened Common
  import opened Text

  datatype Discussion = Discussion(
    id: int, title: string, author: string, avatar: string, course: string,
    replies: int, likes: int, likedByMe: bool, timeAgo: string, tags: seq<string>)

  /** The discussions the page starts with, none liked yet. */
  const SeedDiscussions: seq<Discussion> := [
    Discussion(1, "Best practices for learning machine learning?", "Sarah Chen",
      "\U{1F469}\U{200D}\U{1F4BB}", "Machine Learning Fundamentals", 12, 24, false, "2 hours ago",
      ["machine-learning", "tips", "beginner"]),
    Discussion(2, "Help with Python list comprehensions", "Mike Johnson",
      "\U{1F468}\U{200D}\U{1F4BC}", "Python Programming Bootcamp", 8, 15, false, "4 hours ago",
      ["python", "help", "syntax"]),
    Discussion(3, "Neural network architecture recommendations", "Dr. Emily Rodriguez",
      "\U{1F469}\U{200D}\U{1F52C}", "Neural Networks & Deep Learning", 18, 42, false, "6 hours ago",
      ["neural-networks", "architecture", "advanced"]),
    Discussion(4, "Study group for AI fundamentals - Join us!", "Alex Kim",
      "\U{1F468}\U{200D}\U{1F393}", "AI Fundamentals Mastery", 25, 38, false, "1 day ago",
      ["study-group", "collaboration", "ai"])
  ]

  // ---- likes ----

  /** Flipping the own like of one discussion: one like more when it becomes liked, one fewer
      when it is unliked. */
  function Liked(d: Discussion): Discussion {
    d.(likedByMe := !d.likedByMe, likes := d.likes + (if d.likedByMe then -1 else 1))
  }

  /** `toggleLike(id)`: the discussions with that id flip their own like and move their count by
      one in the same direction; every other discussion and every other field is unchanged. */
  function ToggleLike(list: seq<Discussion>, id: int): (r: seq<Discussion>)
    ensures |r| == |list|
    ensures forall i | 0 <= i < |list| && list[i].id != id :: r[i] == list[i]
    ensures forall i | 0 <= i < |list| && list[i].id == id ::
      && r[i].likedByMe == !list[i].likedByMe
      && r[i].likes == (if r[i].likedByMe then list[i].likes + 1 else list[i].likes - 1)
      && r[i] == list[i].(likedByMe := r[i].likedByMe, likes := r[i].likes)
  {
    Map(list, (d: Discussion) => if d.id == id then Liked(d) else d)
  }

  /** Toggling the same discussion twice restores the list. */
  lemma ToggleLikeTwice(list: seq<Discussion>, id: int)
    ensures ToggleLike(ToggleLike(list, id), id) == list
  {
    var t := ToggleLike(ToggleLike(list, id), id);
    forall i | 0 <= i < |list| ensures t[i] == list[i] {
      if list[i].id == id {
        assert ToggleLike(list, id)[i].id == id;
      }
    }
  }

  /** No count is negative, and a discussion liked by the user has at least that one like. */
  predicate LikesConsistent(list: seq<Discussion>) {
    forall i | 0 <= i < |list| :: list[i].likes >= 0 && (list[i].likedByMe ==> list[i].likes >= 1)
  }

  /** Toggling keeps the counts consistent, and the page starts consistent. */
  lemma ToggleLikeKeepsConsistent(list: seq<Discussion>, id: int)
    requires LikesConsistent(list)
    ensures LikesConsistent(ToggleLike(list, id))
    ensures LikesConsistent(SeedDiscussions)
  {
  }

  /** Prepending a discussion with no likes keeps the counts consistent. */
  lemma PrependKeepsConsistent(d: Discussion, list: seq<Discussion>)
    requires d.likes == 0 && !d.likedByMe
    ensures LikesConsistent(list) ==> LikesConsistent([d] + list)
  {
    if LikesConsistent(list) {
      forall i | 1 <= i < |list| + 1 ensures ([d] + list)[i] == list[i - 1] {
      }
    }
  }

  // ---- tags ----

  predicate NonEmpty(s: string) { s != [] }

  /** `newTags.split(",").map(t => t.trim()).filter(Boolean)`: the comma-separated pieces,
      trimmed, without the empty ones. Every tag is non-empty, trimmed and free of commas. */
  function ParseTags(text: string): (tags: seq<string>)
    ensures forall t | t in tags :: t != [] && Trim(t) == t && ',' !in t
  {
    var trimmed := Map(Split(text, ','), Trim);
    TrimmedPieces(Split(text, ','));
    Filter(trimmed, NonEmpty)
  }

  /** Trimming comma-free pieces gives trimmed comma-free pieces. */
  lemma TrimmedPieces(pieces: seq<string>)
    requires forall p | p in pieces :: ',' !in p
    ensures forall t | t in Map(pieces, Trim) :: Trim(t) == t && ',' !in t
  {
    var trimmed := Map(pieces, Trim);
    forall i | 0 <= i < |trimmed| ensures Trim(trimmed[i]) == trimmed[i] && ',' !in trimmed[i] {
      TrimIdempotent(pieces[i]);
      TrimSubstring(pieces[i], ',');
    }
  }

  /** Trimming takes characters away, so it cannot introduce one. */
  lemma TrimSubstring(s: string, c: char)
    requires c !in s
    ensures c !in Trim(s)
  {
    var t := TrimStart(s);
    assert forall k | 0 <= k < |t| :: t[k] == s[|s| - |t| + k];
    var r := TrimEnd(t);
    assert forall k | 0 <= k < |r| :: r[k] == t[k];
  }

  /** Writing tags separated by commas (with or without spaces around them) reads them back. */
  lemma {:induction false} ParseTagsOfJoin(tags: seq<string>)
    requires |tags| >= 1
    requires forall t | t in tags :: t != [] && Trim(t) == t && ',' !in t
    ensures ParseTags(Join(tags, ',')) == tags
  {
    SplitJoin(tags, ',');
    var trimmed := Map(tags, Trim);
    assert trimmed == tags;
    FilterKeepsAll(tags, NonEmpty);
  }

  /** Text of blanks and commas gives no tags. */
  lemma ParseTagsOfBlank(text: string)
    requires forall i | 0 <= i < |text| :: text[i] == ',' || IsJsWhitespace(text[i])
    ensures ParseTags(text) == []
  {
    var pieces := Split(text, ',');
    var trimmed := Map(pieces, Trim);
    forall i | 0 <= i < |trimmed| ensures !NonEmpty(trimmed[i]) {
      BlankPiece(text, pieces, i);
    }
    FilterDropsAll(trimmed, NonEmpty);
  }

  /** A piece of text made of blanks and commas is blank. */
  lemma {:induction false} BlankPiece(text: string, pieces: seq<string>, i: int)
    requires forall k | 0 <= k < |text| :: text[k] == ',' || IsJsWhitespace(text[k])
    requires pieces == Split(text, ',') && 0 <= i < |pieces|
    ensures forall k | 0 <= k < |pieces[i]| :: IsJsWhitespace(pieces[i][k])
  {
    if text != [] {
      var rest := Split(text[1..], ',');
      assert forall k | 0 <= k < |text[1..]| :: text[1..][k] == text[k + 1];
      if text[0] == ',' {
        if i > 0 {
          BlankPiece(text[1..], rest, i - 1);
        }
      } else if i == 0 {
        BlankPiece(text[1..], rest, 0);
        assert pieces[0] == [text[0]] + rest[0];
      } else {
        BlankPiece(text[1..], rest, i);
      }
    }
  }

  // ---- the page ----

  /** What a submission of the dialog creates: nothing when the trimmed title or the trimmed
      description is empty; otherwise a discussion by "You" in "General", with the trimmed title
      and the parsed tags, no replies and no likes. The description is not kept. */
  function Submission(now: int, title: string, description: string, tagsText: string): (r: Option<Discussion>)
    ensures r.None? <==> Trim(title) == [] || Trim(description) == []
    ensures r.Some? ==> r.value.id == now && r.value.title == Trim(title) && r.value.author == "You"
    ensures r.Some? ==> r.value.likes == 0 && !r.value.likedByMe && r.value.replies == 0
    ensures r.Some? ==> r.value.tags == ParseTags(tagsText)
  {
    if Trim(title) == [] || Trim(description) == [] then None
    else Some(Discussion(now, Trim(title), "You", "\U{1F464}", "General", 0, 0, false, "just now",
                         ParseTags(tagsText)))
  }

  /** The page component with its discussions and the fields of the new-discussion dialog. */
  class Page {
    var discussions: seq<Discussion>
    var showModal: bool
    var newTitle: string
    /** The description field; it is checked but not stored. */
    var newTopic: string
    var newTags: string

    constructor ()
      ensures discussions == SeedDiscussions && !showModal
      ensures newTitle == newTopic == newTags == ""
    {
      discussions := SeedDiscussions;
      showModal := false;
      newTitle, newTopic, newTags := "", "", "";
    }

    /** `toggleLike(id)`. */
    method ToggleLikeOf(id: int)
      modifies this
      ensures discussions == ToggleLike(old(discussions), id)
      ensures LikesConsistent(old(discussions)) ==> LikesConsistent(discussions)
      ensures showModal == old(showModal) && newTitle == old(newTitle)
      ensures newTopic == old(newTopic) && newTags == old(newTags)
    {
      if LikesConsistent(discussions) {
        ToggleLikeKeepsConsistent(discussions, id);
      }
      discussions := ToggleLike(discussions, id);
    }

    /** `handleCreateDiscussion`, with `now` the value of `Date.now()`: a rejected submission
        changes nothing; an accepted one prepends the new discussion and resets and closes the
        dialog. */
    method HandleCreateDiscussion(now: int)
      modifies this
      ensures match Submission(now, old(newTitle), old(newTopic), old(newTags))
        case None =>
          && discussions == old(discussions) && showModal == old(showModal)
          && newTitle == old(newTitle) && newTopic == old(newTopic) && newTags == old(newTags)
        case Some(d) =>
          && discussions == [d] + old(discussions)
          && !showModal && newTitle == "" && newTopic == "" && newTags == ""
      ensures LikesConsistent(old(discussions)) ==> LikesConsistent(discussions)
    {
      match Submission(now, newTitle, newTopic, newTags) {
        case None =>
        case Some(d) =>
          PrependKeepsConsistent(d, discussions);
          Accept(d);
      }
    }

    /** Prepends an accepted discussion, then empties and closes the dialog. */
    method Accept(d: Discussion)
      modifies this
      ensures discussions == [d] + old(discussions)
      ensures !showModal && newTitle == "" && newTopic == "" && newTags == ""
    {
      discussions := [d] + discussions;
      newTitle, newTopic, newTags := "", "", "";
      showModal := false;
    }
  }
}
