/**
 * The post router (`/api/v1/posts`): create, list newest first, get by id
 * and delete by the owner. `caller` is the user id the auth middleware
 * put on the request; the new post's id and creation time are supplied by
 * the caller of the handler.
 */
module PostsRoutes {
  import opened Wrappers
  import opened Documents
  import opened Store

  /** The request body field of POST /. */
  datatype PostRequest = PostRequest(text: Option<string>)

  function PostChecks(req: PostRequest): seq<Check> {
    [Check("text", "Text is required", req.text)]
  }

  /** The error list of POST /: empty exactly when `text` is given. */
  function ValidatePost(req: PostRequest): (errs: seq<FieldError>)
    ensures errs == [] <==> Present(req.text)
    ensures !Present(req.text) ==> errs == [FieldError("text", "Text is required", req.text)]
  {
    var cs := PostChecks(req);
    assert cs[0].value == req.text;
    MissingFields(cs)
  }

  // ---- `Post.find().sort({ date: -1 })` ----

  predicate SortedByDateDesc(ps: seq<Post>) {
    forall i, j :: 0 <= i < j < |ps| ==> ps[i].date >= ps[j].date
  }

  /** `p` put in front of the first post that is not newer than it. */
  function InsertByDate(p: Post, ps: seq<Post>): (r: seq<Post>)
    ensures |r| == |ps| + 1
  {
    if ps == [] then [p]
    else if p.date >= ps[0].date then [p] + ps
    else [ps[0]] + InsertByDate(p, ps[1..])
  }

  /** Inserting adds exactly `p` and loses nothing. */
  lemma {:induction false} InsertByDatePermutes(p: Post, ps: seq<Post>)
    ensures multiset(InsertByDate(p, ps)) == multiset(ps) + multiset{p}
  {
    if ps != [] && p.date < ps[0].date {
      InsertByDatePermutes(p, ps[1..]);
      assert ps == [ps[0]] + ps[1..];
    }
  }

  /** Inserting into a newest-first list keeps it newest first, and the
      head is then `p` or the old head. */
  lemma {:induction false} InsertByDateSorted(p: Post, ps: seq<Post>)
    requires SortedByDateDesc(ps)
    ensures SortedByDateDesc(InsertByDate(p, ps))
    ensures InsertByDate(p, ps)[0] == p || (ps != [] && InsertByDate(p, ps)[0] == ps[0])
  {
    if ps != [] && p.date < ps[0].date {
      var rest := InsertByDate(p, ps[1..]);
      InsertByDateSorted(p, ps[1..]);
      var r := [ps[0]] + rest;
      assert r == InsertByDate(p, ps);
      assert rest[0].date <= ps[0].date;
      assert forall k :: 0 <= k < |rest| ==> rest[k].date <= ps[0].date;
      forall i, j | 0 <= i < j < |r| ensures r[i].date >= r[j].date {
        assert r[j] == rest[j - 1];
        if i > 0 { assert r[i] == rest[i - 1]; }
      }
    }
  }

  /** The posts newest first: sorted by date, descending, and a permutation
      of the input, so every stored post appears exactly as often as it is
      stored. */
  function SortByDateDesc(ps: seq<Post>): (r: seq<Post>)
    ensures SortedByDateDesc(r)
    ensures multiset(r) == multiset(ps)
  {
    if ps == [] then []
    else
      assert ps == [ps[0]] + ps[1..];
      var sorted := SortByDateDesc(ps[1..]);
      InsertByDateSorted(ps[0], sorted);
      InsertByDatePermutes(ps[0], sorted);
      InsertByDate(ps[0], sorted)
  }

  // ---- handlers ----

  /** POST /: 400 without `text`; 500 when the caller's user record is
      gone; otherwise a post with the caller as author and a snapshot of
      the author's current name and avatar is appended and returned. */
  method Create(db: Database, caller: Id, req: PostRequest, newId: Id, now: int) returns (out: Outcome)
    requires db.Valid() && FindPost(db.posts, newId).None?
    modifies db
    ensures db.Valid() && db.users == old(db.users) && db.profiles == old(db.profiles)
    ensures !Present(req.text) ==>
      out == Reply(400, Errors(ValidatePost(req))) && db.posts == old(db.posts)
    ensures Present(req.text) && caller !in old(db.users) ==>
      out == ServerError && db.posts == old(db.posts)
    ensures Present(req.text) && caller in old(db.users) ==>
      var author := old(db.users)[caller];
      var p := Post(newId, caller, req.text.value, author.name, author.avatar, now);
      && db.posts == old(db.posts) + [p]
      && FindPost(db.posts, newId) == Some(p)
      && out == Reply(200, PostDoc(p))
  {
    var errs := ValidatePost(req);
    if errs != [] {
      return Reply(400, Errors(errs));
    }
    if caller !in db.users {
      return ServerError;
    }
    var author := db.users[caller];
    var p := Post(newId, caller, req.text.value, author.name, author.avatar, now);
    var before := db.posts;
    db.posts := before + [p];
    assert forall i :: 0 <= i < |before| ==> db.posts[i] == before[i];
    assert db.posts[|before|] == p;
    out := Reply(200, PostDoc(p));
  }

  /** GET /: every stored post, newest first. */
  method List(db: Database) returns (out: Outcome)
    ensures out.Reply? && out.status == 200 && out.body.PostList?
    ensures SortedByDateDesc(out.body.posts)
    ensures multiset(out.body.posts) == multiset(db.posts)
  {
    out := Reply(200, PostList(SortByDateDesc(db.posts)));
  }

  /** GET /:id: the post, or 404 when no stored post has that id (a
      malformed id included). */
  method Get(db: Database, id: Id) returns (out: Outcome)
    ensures FindPost(db.posts, id).None? ==> out == Reply(404, Message("Post not found"))
    ensures FindPost(db.posts, id).Some? ==>
      out.Reply? && out.status == 200 && out.body.PostDoc?
      && out.body.post in db.posts && out.body.post.id == id
  {
    var found := FindPost(db.posts, id);
    if found.None? {
      return Reply(404, Message("Post not found"));
    }
    out := Reply(200, PostDoc(found.value));
  }

  /** DELETE /:id: 404 when there is no such post and 401 when the caller
      is not its author, both changing nothing; otherwise exactly that
      post is removed and the answer is 201. */
  method Delete(db: Database, caller: Id, id: Id) returns (out: Outcome)
    requires db.Valid()
    modifies db
    ensures db.Valid() && db.users == old(db.users) && db.profiles == old(db.profiles)
    ensures FindPost(old(db.posts), id).None? ==>
      out == Reply(404, Message("Post not found")) && db.posts == old(db.posts)
    ensures FindPost(old(db.posts), id).Some? && FindPost(old(db.posts), id).value.user != caller ==>
      out == Reply(401, Message("User not authorized to delete this post")) && db.posts == old(db.posts)
    ensures FindPost(old(db.posts), id).Some? && FindPost(old(db.posts), id).value.user == caller ==>
      && db.posts == RemovePost(old(db.posts), id)
      && (forall p :: p in db.posts <==> p in old(db.posts) && p.id != id)
      && FindPost(db.posts, id).None?
      && out == Reply(201, Message("Post " + id + " deleted"))
  {
    var found := FindPost(db.posts, id);
    if found.None? {
      return Reply(404, Message("Post not found"));
    }
    if found.value.user != caller {
      return Reply(401, Message("User not authorized to delete this post"));
    }
    db.posts := RemovePost(db.posts, id);
    out := Reply(201, Message("Post " + id + " deleted"));
  }
}
