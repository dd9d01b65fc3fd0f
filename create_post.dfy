/** The create-task form (CreatePost.tsx): the emptiness check and payload,
    the form's two inputs, and the cache updater run after the POST succeeds. */
module CreatePost {

  import opened Wrappers

  /** The body of the POST: `{title, body, userId}`. */
  datatype NewPost = NewPost(title: string, body: string, userId: int)

  /** A record as this form's cache holds it: `{id, title, body, userId}`. */
  datatype CachedPost = CachedPost(id: int, title: string, body: string, userId: int)

  /** The check and payload of `handleCreatePost`: nothing is sent when either
      input is empty; otherwise the two inputs with user 1. */
  function Payload(title: string, body: string): (r: Option<NewPost>)
    ensures r.None? <==> title == "" || body == ""
    ensures r.Some? ==> r.value.title == title && r.value.body == body && r.value.userId == 1
  {
    if title == "" || body == "" then None else Some(NewPost(title, body, 1))
  }

  class CreatePostForm {
    var title: string
    var body: string

    constructor ()
      ensures title == "" && body == ""
    {
      title, body := "", "";
    }

    method ChangeTitle(value: string)
      modifies this`title
      ensures title == value
    {
      title := value;
    }

    method ChangeBody(value: string)
      modifies this`body
      ensures body == value
    {
      body := value;
    }

    /** `handleCreatePost`: on an empty input, sends nothing and keeps both
        inputs; otherwise sends the payload and clears both inputs (without
        waiting for the server). */
    method HandleCreatePost() returns (sent: Option<NewPost>)
      modifies this`title, this`body
      ensures sent == Payload(old(title), old(body))
      ensures sent.None? ==> title == old(title) && body == old(body)
      ensures sent.Some? ==> title == "" && body == ""
    {
      sent := Payload(title, body);
      if sent.Some? {
        title := "";
        body := "";
      }
    }
  }

  /** The `setQueryData` updater: with a cached list, the server's record is
      appended under the id `length + 1`; with no cached list, the record as
      the server sent it is the whole list. */
  function UpdateCache(oldPosts: Option<seq<CachedPost>>, data: CachedPost): (r: seq<CachedPost>)
    ensures oldPosts.None? ==> r == [data]
    ensures oldPosts.Some? ==> |r| == |oldPosts.value| + 1 && r[..|oldPosts.value|] == oldPosts.value
    ensures oldPosts.Some? ==> var added := r[|r| - 1];
      added.id == |oldPosts.value| + 1
      && added.title == data.title && added.body == data.body && added.userId == data.userId
  {
    match oldPosts
    case None => [data]
    case Some(cached) => cached + [data.(id := |cached| + 1)]
  }

  /** The ids of a list are 1, 2, ..., n in order. */
  ghost predicate NumberedInOrder(s: seq<CachedPost>)
  {
    forall i :: 0 <= i < |s| ==> s[i].id == i + 1
  }

  ghost predicate DistinctIds(s: seq<CachedPost>)
  {
    forall i, j :: 0 <= i < j < |s| ==> s[i].id != s[j].id
  }

  /** On a list numbered 1..n the updater keeps the numbering, so the new id
      is fresh. */
  lemma UpdateCacheKeepsNumbering(oldPosts: seq<CachedPost>, data: CachedPost)
    requires NumberedInOrder(oldPosts)
    ensures NumberedInOrder(UpdateCache(Some(oldPosts), data))
    ensures DistinctIds(UpdateCache(Some(oldPosts), data))
  {
    var r := UpdateCache(Some(oldPosts), data);
    assert forall i :: 0 <= i < |oldPosts| ==> r[i] == oldPosts[i];
  }

  /** On a list not numbered 1..n the synthesised id can repeat one already
      cached: one cached record with id 2 makes the next record id 2 too. */
  lemma UpdateCacheCanRepeatId(data: CachedPost)
    ensures var r := UpdateCache(Some([CachedPost(2, "a", "b", 1)]), data);
      |r| == 2 && r[0].id == r[1].id
  {
  }

  /** An absent cache and an empty cache differ: only the latter renumbers. */
  lemma AbsentAndEmptyCacheDiffer(data: CachedPost)
    requires data.id != 1
    ensures UpdateCache(None, data) != UpdateCache(Some([]), data)
  {
    assert UpdateCache(Some([]), data)[0].id == 1;
  }
}
