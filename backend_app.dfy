/**
 * The in-memory post store of the Masterblog backend: a list of posts
 * `{id, title, content}` with lookup by id, request validation, creation
 * (id = largest existing id + 1, or 1 for an empty list) and deletion of
 * the first post with a given id.
 *
 * The pure functions below state what each operation does to the list;
 * the class PostStore holds the list as a field and its methods change it
 * in place, each proved equal to the corresponding function.
 */
module BackendApp {

  datatype Option<T> = None | Some(value: T)

  /** A parsed JSON value, as found in a request body (numbers as integers). */
  datatype Json =
    | JNull
    | JBool(b: bool)
    | JNumber(n: int)
    | JString(s: string)
    | JArray(items: seq<Json>)
    | JObject(fields: map<string, Json>)

  /** One entry of the post list; title and content are whatever JSON the client sent. */
  datatype Post = Post(id: int, title: Json, content: Json)

  /** A parsed request body: a JSON object, keyed by strings. */
  type RequestData = map<string, Json>

  /** The error text of a rejected creation; it names 'author' although 'content' is what is checked. */
  const InvalidPostDataMessage: string := "Invalid post data, 'title' and 'author' are required"

  /** What creating a post answers: the new post with 201, or an error with 400. */
  datatype CreateReply = Created(post: Post) | InvalidPostData(message: string)
  {
    function Status(): nat {
      if Created? then 201 else 400
    }
  }

  /** What deleting a post answers: a confirmation with 200, or not-found with 404. */
  datatype DeleteReply = Deleted(id: int) | PostNotFound(id: int)
  {
    function Status(): nat {
      if Deleted? then 200 else 404
    }
  }

  /** No two posts of the list share an id. */
  ghost predicate UniqueIds(posts: seq<Post>) {
    forall i, j :: 0 <= i < j < |posts| ==> posts[i].id != posts[j].id
  }

  /** The two posts the store starts with. */
  function InitialPosts(): (posts: seq<Post>)
    ensures |posts| == 2 && posts[0].id == 1 && posts[1].id == 2
    ensures UniqueIds(posts)
    ensures forall p <- posts :: p.id >= 1
  {
    [ Post(1, JString("First post"), JString("This is the first post.")),
      Post(2, JString("Second post"), JString("This is the second post.")) ]
  }

  // ---------------------------------------------------------------------
  // Validation
  // ---------------------------------------------------------------------

  /** A request body is accepted exactly when it has both a "title" and a "content" key. */
  function ValidatePostData(data: RequestData): (ok: bool)
    ensures ok <==> {"title", "content"} <= data.Keys
  {
    if "title" !in data || "content" !in data then false else true
  }

  /** No key other than "title" and "content" affects validation, whether added or removed. */
  lemma ValidationIgnoresOtherKeys(data: RequestData, key: string, value: Json)
    requires key != "title" && key != "content"
    ensures ValidatePostData(data[key := value]) == ValidatePostData(data)
    ensures ValidatePostData(data - {key}) == ValidatePostData(data)
  {
  }

  // ---------------------------------------------------------------------
  // Lookup
  // ---------------------------------------------------------------------

  /** The position of the first post with the given id, if any. */
  function FirstWithId(posts: seq<Post>, id: int): (r: Option<nat>)
    ensures r.None? <==> forall p <- posts :: p.id != id
    ensures r.Some? ==> r.value < |posts| && posts[r.value].id == id
    ensures r.Some? ==> forall j :: 0 <= j < r.value ==> posts[j].id != id
  {
    if posts == [] then None
    else if posts[0].id == id then Some(0)
    else
      match FirstWithId(posts[1..], id)
      case None =>
        assert posts == [posts[0]] + posts[1..];
        None
      case Some(i) => Some(i + 1)
  }

  // ---------------------------------------------------------------------
  // Id assignment
  // ---------------------------------------------------------------------

  /** The largest id of a non-empty list of posts. */
  function MaxId(posts: seq<Post>): (m: int)
    requires posts != []
    ensures forall p <- posts :: p.id <= m
    ensures exists p <- posts :: p.id == m
  {
    if |posts| == 1 then posts[0].id
    else
      var rest := MaxId(posts[1..]);
      assert posts == [posts[0]] + posts[1..];
      if posts[0].id < rest then rest else posts[0].id
  }

  /** The id a new post receives: one past the largest id, or 1 when the list is empty. */
  function NextId(posts: seq<Post>): (id: int)
    ensures forall p <- posts :: p.id < id
    ensures posts == [] ==> id == 1
    ensures posts != [] ==> exists p <- posts :: p.id == id - 1
  {
    if posts != [] then MaxId(posts) + 1 else 1
  }

  // ---------------------------------------------------------------------
  // Removal of a list element
  // ---------------------------------------------------------------------

  /** The list without the first element equal to x (structural equality, as a list removal compares). */
  function RemoveFirst(s: seq<Post>, x: Post): (r: seq<Post>)
    requires x in s
    ensures |r| == |s| - 1
  {
    if s[0] == x then s[1..] else [s[0]] + RemoveFirst(s[1..], x)
  }

  /** Removing the first element equal to s[i], when no earlier element equals it, drops exactly position i. */
  lemma {:induction false} RemoveFirstAt(s: seq<Post>, i: nat)
    requires i < |s| && s[i] !in s[..i]
    ensures RemoveFirst(s, s[i]) == s[..i] + s[i + 1..]
  {
    if i > 0 {
      var t, x := s[1..], s[i];
      assert s[0] != x by { assert s[..i][0] == s[0]; }
      var prefix := t[..i - 1];
      forall k | 0 <= k < |prefix| ensures prefix[k] != x {
        assert prefix[k] == s[..i][k + 1];
      }
      assert t[i - 1] == x;
      RemoveFirstAt(t, i - 1);
      assert RemoveFirst(s, x) == [s[0]] + RemoveFirst(t, x);
      assert s[..i] == [s[0]] + prefix;
      assert s[i + 1..] == t[i..];
    }
  }

  /** Dropping one position keeps ids unique, and no remaining post has the dropped post's id. */
  lemma DropKeepsIdsUnique(posts: seq<Post>, i: nat)
    requires i < |posts|
    ensures UniqueIds(posts) ==> UniqueIds(posts[..i] + posts[i + 1..])
    ensures UniqueIds(posts) ==> forall p <- posts[..i] + posts[i + 1..] :: p.id != posts[i].id
  {
  }

  // ---------------------------------------------------------------------
  // Create and delete, as functions of the list
  // ---------------------------------------------------------------------

  /** The list after a creation request, and the reply. */
  function AddPostOutcome(posts: seq<Post>, data: RequestData): (r: (seq<Post>, CreateReply))
    ensures r.1.InvalidPostData? <==> !ValidatePostData(data)
    ensures r.1.InvalidPostData? ==> r.0 == posts && r.1.message == InvalidPostDataMessage
    ensures r.1.Created? ==>
      && |r.0| == |posts| + 1
      && r.0[..|posts|] == posts
      && r.0[|posts|] == r.1.post
      && r.1.post.title == data["title"]
      && r.1.post.content == data["content"]
      && (forall p <- posts :: p.id < r.1.post.id)
      && (posts == [] ==> r.1.post.id == 1)
      && (posts != [] ==> exists p <- posts :: p.id + 1 == r.1.post.id)
    ensures UniqueIds(posts) ==> UniqueIds(r.0)
  {
    if !ValidatePostData(data) then
      (posts, InvalidPostData(InvalidPostDataMessage))
    else
      var post := Post(NextId(posts), data["title"], data["content"]);
      var next := posts + [post];
      assert next[..|posts|] == posts;
      (next, Created(post))
  }

  /** The list after a deletion request, and the reply. */
  function DeletePostOutcome(posts: seq<Post>, id: int): (r: (seq<Post>, DeleteReply))
    ensures r.1.id == id
    ensures r.1.PostNotFound? <==> forall p <- posts :: p.id != id
    ensures r.1.PostNotFound? ==> r.0 == posts
    ensures r.1.Deleted? ==>
      && |r.0| == |posts| - 1
      && exists i :: 0 <= i < |posts| && posts[i].id == id
                     && (forall j :: 0 <= j < i ==> posts[j].id != id)
                     && r.0 == posts[..i] + posts[i + 1..]
    ensures UniqueIds(posts) ==> UniqueIds(r.0) && forall p <- r.0 :: p.id != id
  {
    match FirstWithId(posts, id)
    case None => (posts, PostNotFound(id))
    case Some(i) =>
      DropKeepsIdsUnique(posts, i);
      (posts[..i] + posts[i + 1..], Deleted(id))
  }

  // ---------------------------------------------------------------------
  // Sequences of requests
  // ---------------------------------------------------------------------

  /** A request that changes the list. */
  datatype Request = Create(data: RequestData) | Delete(id: int)

  /** The list after serving one request. */
  function Serve(posts: seq<Post>, request: Request): (next: seq<Post>)
    ensures UniqueIds(posts) ==> UniqueIds(next)
  {
    match request
    case Create(data) => AddPostOutcome(posts, data).0
    case Delete(id) => DeletePostOutcome(posts, id).0
  }

  /** The list after serving the requests one after another. */
  function Replay(posts: seq<Post>, requests: seq<Request>): seq<Post>
    decreases |requests|
  {
    if requests == [] then posts else Replay(Serve(posts, requests[0]), requests[1..])
  }

  /** Ids stay unique whatever creations and deletions are served. */
  lemma {:induction false} ReplayKeepsIdsUnique(posts: seq<Post>, requests: seq<Request>)
    requires UniqueIds(posts)
    ensures UniqueIds(Replay(posts, requests))
    decreases |requests|
  {
    if requests != [] {
      ReplayKeepsIdsUnique(Serve(posts, requests[0]), requests[1..]);
    }
  }

  /**
   * Ids are not monotonic over time: deleting the newest post and then
   * creating one hands out the deleted id again.
   */
  lemma DeletedNewestIdIsReissued(data: RequestData)
    requires ValidatePostData(data)
    ensures var afterDelete := DeletePostOutcome(InitialPosts(), 2).0;
            var reply := AddPostOutcome(afterDelete, data).1;
            reply.Created? && reply.post.id == 2
  {
    var afterDelete := DeletePostOutcome(InitialPosts(), 2).0;
    assert FirstWithId(InitialPosts(), 2) == Some(1);
    assert afterDelete == [InitialPosts()[0]];
  }

  // ---------------------------------------------------------------------
  // The store
  // ---------------------------------------------------------------------

  /** The process-wide post list, updated in place by the request handlers. */
  class PostStore {
    var posts: seq<Post>

    /** The store's invariant: ids are unique. */
    ghost predicate Valid()
      reads this
    {
      UniqueIds(posts)
    }

    constructor ()
      ensures Valid()
      ensures posts == InitialPosts()
    {
      posts := InitialPosts();
    }

    /** Scans the list and answers the first post with the given id, or None. */
    method FindPostById(postId: int) returns (post: Option<Post>)
      ensures post.None? <==> forall p <- posts :: p.id != postId
      ensures post.Some? ==> post.value in posts && post.value.id == postId
      ensures post == match FirstWithId(posts, postId)
                      case None => None
                      case Some(i) => Some(posts[i])
    {
      var i := 0;
      while i < |posts|
        invariant i <= |posts|
        invariant forall j :: 0 <= j < i ==> posts[j].id != postId
      {
        if posts[i].id == postId {
          return Some(posts[i]);
        }
        i := i + 1;
      }
      return None;
    }

    /** Validates the body; on success appends a post with a fresh id. */
    method AddPost(data: RequestData) returns (reply: CreateReply)
      modifies this
      ensures (posts, reply) == AddPostOutcome(old(posts), data)
      ensures reply.Status() == if ValidatePostData(data) then 201 else 400
      ensures reply.InvalidPostData? ==> posts == old(posts)
      ensures reply.Created? ==> posts == old(posts) + [reply.post]
      ensures old(Valid()) ==> Valid()
    {
      if !ValidatePostData(data) {
        return InvalidPostData(InvalidPostDataMessage);
      }
      var newPost := Post(NextId(posts), data["title"], data["content"]);
      posts := posts + [newPost];
      return Created(newPost);
    }

    /** Looks the id up and removes that post from the list, or answers not-found. */
    method DeletePost(id: int) returns (reply: DeleteReply)
      modifies this
      ensures (posts, reply) == DeletePostOutcome(old(posts), id)
      ensures reply.Status() == if exists p <- old(posts) :: p.id == id then 200 else 404
      ensures reply.PostNotFound? ==> posts == old(posts)
      ensures old(Valid()) ==> Valid() && forall p <- posts :: p.id != id
    {
      var post := FindPostById(id);
      if post.None? {
        return PostNotFound(id);
      }
      ghost var i := FirstWithId(posts, id).value;
      assert post.value !in posts[..i] by {
        forall q <- posts[..i] ensures q.id != id { }
      }
      RemoveFirstAt(posts, i);
      posts := RemoveFirst(posts, post.value);
      return Deleted(id);
    }
  }
}
