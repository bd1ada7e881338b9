/**
 * The database as the routes see it: the users collection keyed by id,
 * and the profiles and posts collections in their natural (insertion)
 * order. Each route handler is one sequential transition of this state.
 */
module Store {
  import opened Wrappers
  import opened JsArrays
  import opened Documents

  /** The owner of each profile, in collection order. */
  function Owners(ps: seq<Profile>): (r: seq<Id>)
    ensures |r| == |ps| && forall i :: 0 <= i < |ps| ==> r[i] == ps[i].user
  {
    seq(|ps|, i requires 0 <= i < |ps| => ps[i].user)
  }

  /** At most one profile per owner. */
  predicate OwnersUnique(ps: seq<Profile>) {
    forall i, j :: 0 <= i < j < |ps| ==> ps[i].user != ps[j].user
  }

  /** `Profile.findOne({ user: owner })`: the first profile of that owner. */
  function FindProfile(ps: seq<Profile>, owner: Id): (r: Option<Profile>)
    ensures r.None? <==> forall i :: 0 <= i < |ps| ==> ps[i].user != owner
    ensures r.Some? ==> r.value in ps && r.value.user == owner
  {
    var i := IndexOf(Owners(ps), owner);
    if i < 0 then None else Some(ps[i])
  }

  /** Every owner other than `owner` finds the same profile in `qs` as in
      `ps`. */
  ghost predicate OthersUnchanged(ps: seq<Profile>, qs: seq<Profile>, owner: Id) {
    forall o :: o != owner ==> FindProfile(qs, o) == FindProfile(ps, o)
  }

  /** Number of profiles of `owner`. */
  function CountOwner(ps: seq<Profile>, owner: Id): nat {
    if ps == [] then 0 else (if ps[0].user == owner then 1 else 0) + CountOwner(ps[1..], owner)
  }

  /** With unique owners, every owner has one profile or none. */
  lemma {:induction false} CountUnique(ps: seq<Profile>, owner: Id)
    requires OwnersUnique(ps)
    ensures CountOwner(ps, owner) == if owner in Owners(ps) then 1 else 0
  {
    if ps != [] {
      CountUnique(ps[1..], owner);
      assert Owners(ps) == [ps[0].user] + Owners(ps[1..]);
      if ps[0].user == owner {
        assert forall j :: 0 <= j < |ps| - 1 ==> ps[1..][j].user != owner by {
          forall j | 0 <= j < |ps| - 1 ensures ps[1..][j].user != owner {
            assert ps[j + 1].user != ps[0].user;
          }
        }
      }
    }
  }

  /** The profile store after `save` of a changed profile `p`: the stored
      profile of `p.user` is replaced by `p`, in place (`ReplaceOwnedInPlace`). */
  function ReplaceOwned(ps: seq<Profile>, p: Profile): (r: seq<Profile>)
    requires OwnersUnique(ps)
    ensures OwnersUnique(r) && |r| == |ps|
    ensures FindProfile(ps, p.user).Some? ==> FindProfile(r, p.user) == Some(p)
    ensures FindProfile(ps, p.user).None? ==> r == ps
    ensures OthersUnchanged(ps, r, p.user)
  {
    var i := IndexOf(Owners(ps), p.user);
    if i < 0 then ps
    else
      var r := ps[i := p];
      assert Owners(r) == Owners(ps);
      r
  }

  /** The replacement is in place: every position keeps its profile except
      the one of `p.user`, which now holds `p`. */
  lemma ReplaceOwnedInPlace(ps: seq<Profile>, p: Profile)
    requires OwnersUnique(ps)
    ensures forall j :: 0 <= j < |ps| ==>
      ReplaceOwned(ps, p)[j] == if ps[j].user == p.user then p else ps[j]
  {
    var i := IndexOf(Owners(ps), p.user);
    if i >= 0 {
      forall j | 0 <= j < |ps| && ps[j].user == p.user ensures j == i {
        assert ps[i].user == p.user;
      }
    }
  }

  /** Putting back the profile that was there undoes a replacement. */
  lemma ReplaceOwnedRestores(ps: seq<Profile>, p: Profile, q: Profile)
    requires OwnersUnique(ps) && FindProfile(ps, p.user) == Some(q) && q.user == p.user
    ensures ReplaceOwned(ReplaceOwned(ps, p), q) == ps
  {
    var i := IndexOf(Owners(ps), p.user);
    assert ReplaceOwned(ps, p) == ps[i := p];
    assert Owners(ps[i := p]) == Owners(ps);
    assert ps[i := p][i := q] == ps;
  }

  /** With unique owners, `findOne` finds the one profile of its owner. */
  lemma FindProfileOf(ps: seq<Profile>, p: Profile)
    requires OwnersUnique(ps) && p in ps
    ensures FindProfile(ps, p.user) == Some(p)
  {
    var j :| 0 <= j < |ps| && ps[j] == p;
    var i := IndexOf(Owners(ps), p.user);
    assert ps[i].user == p.user;
    assert i == j;
  }

  /** Two stores holding the same profiles of `owner` answer its lookup alike. */
  lemma FindProfileSame(ps: seq<Profile>, qs: seq<Profile>, owner: Id)
    requires OwnersUnique(ps) && OwnersUnique(qs)
    requires forall p: Profile :: p.user == owner ==> (p in ps <==> p in qs)
    ensures FindProfile(ps, owner) == FindProfile(qs, owner)
  {
    var a := FindProfile(ps, owner);
    var b := FindProfile(qs, owner);
    if a.Some? {
      FindProfileOf(qs, a.value);
    } else if b.Some? {
      FindProfileOf(ps, b.value);
    }
  }

  /** Dropping element `i` of a sequence shifts the later elements down. */
  lemma DropAt<T>(s: seq<T>, i: nat)
    requires i < |s|
    ensures |s[..i] + s[i + 1..]| == |s| - 1
    ensures forall j :: 0 <= j < i ==> (s[..i] + s[i + 1..])[j] == s[j]
    ensures forall j :: i < j < |s| ==> (s[..i] + s[i + 1..])[j - 1] == s[j]
  {
  }

  /** Dropping the profile at `i` keeps the owners unique. */
  lemma DropProfileAtUnique(ps: seq<Profile>, i: nat)
    requires OwnersUnique(ps) && i < |ps|
    ensures OwnersUnique(ps[..i] + ps[i + 1..])
  {
    var r := ps[..i] + ps[i + 1..];
    DropAt(ps, i);
    forall a, b | 0 <= a < b < |r| ensures r[a].user != r[b].user {
      var a' := if a < i then a else a + 1;
      var b' := if b < i then b else b + 1;
      assert r[a] == ps[a'] && r[b] == ps[b'] && a' < b';
    }
  }

  /** With unique owners, dropping the profile at `i` drops exactly
      the profiles of that owner. */
  lemma DropProfileAtMembers(ps: seq<Profile>, i: nat)
    requires OwnersUnique(ps) && i < |ps|
    ensures forall p :: p in ps[..i] + ps[i + 1..] <==> p in ps && p.user != ps[i].user
  {
    var r := ps[..i] + ps[i + 1..];
    DropAt(ps, i);
    forall p ensures p in r <==> p in ps && p.user != ps[i].user {
      if p in r {
        var j :| 0 <= j < |r| && r[j] == p;
        var j' := if j < i then j else j + 1;
        assert ps[j'] == p && j' != i;
      }
      if p in ps && p.user != ps[i].user {
        var j :| 0 <= j < |ps| && ps[j] == p;
        assert j != i;
        assert r[if j < i then j else j - 1] == p;
      }
    }
  }

  /** `Profile.findOneAndDelete({ user: owner })`: the profile of that owner
      is removed and the others stay, in their order (`RemoveOwnerKeepsOrder`). */
  function RemoveOwner(ps: seq<Profile>, owner: Id): (r: seq<Profile>)
    requires OwnersUnique(ps)
    ensures OwnersUnique(r)
    ensures forall p :: p in r <==> p in ps && p.user != owner
    ensures FindProfile(r, owner).None?
    ensures FindProfile(ps, owner).None? ==> r == ps
    ensures FindProfile(ps, owner).Some? ==> |r| == |ps| - 1
  {
    var i := IndexOf(Owners(ps), owner);
    if i < 0 then ps
    else
      DropProfileAtUnique(ps, i);
      DropProfileAtMembers(ps, i);
      ps[..i] + ps[i + 1..]
  }

  /** The removal cuts the owner's profile out of the sequence and keeps the
      others in their order. */
  lemma RemoveOwnerKeepsOrder(ps: seq<Profile>, owner: Id)
    requires OwnersUnique(ps) && FindProfile(ps, owner).Some?
    ensures exists i ::
              && 0 <= i < |ps| && ps[i].user == owner
              && RemoveOwner(ps, owner) == ps[..i] + ps[i + 1..]
  {
    var i := IndexOf(Owners(ps), owner);
    var r := RemoveOwner(ps, owner);
    assert r == ps[..i] + ps[i + 1..];
    assert ps[i].user == owner;
  }

  /** After the removal every other owner's lookup answers as before. */
  lemma RemoveOwnerKeepsOthers(ps: seq<Profile>, owner: Id)
    requires OwnersUnique(ps)
    ensures OthersUnchanged(ps, RemoveOwner(ps, owner), owner)
  {
    forall other | other != owner
      ensures FindProfile(RemoveOwner(ps, owner), other) == FindProfile(ps, other)
    {
      FindProfileSame(RemoveOwner(ps, owner), ps, other);
    }
  }

  /** The id of each post, in collection order. */
  function PostIds(ps: seq<Post>): (r: seq<Id>)
    ensures |r| == |ps| && forall i :: 0 <= i < |ps| ==> r[i] == ps[i].id
  {
    seq(|ps|, i requires 0 <= i < |ps| => ps[i].id)
  }

  predicate PostIdsUnique(ps: seq<Post>) {
    forall i, j :: 0 <= i < j < |ps| ==> ps[i].id != ps[j].id
  }

  /** `Post.findById(id)`; an id that is not a well-formed object id
      matches no stored post and so also gives `None`. */
  function FindPost(ps: seq<Post>, id: Id): (r: Option<Post>)
    ensures r.None? <==> forall i :: 0 <= i < |ps| ==> ps[i].id != id
    ensures r.Some? ==> r.value in ps && r.value.id == id
  {
    var i := IndexOf(PostIds(ps), id);
    if i < 0 then None else Some(ps[i])
  }

  /** Dropping the post at `i` keeps the ids unique. */
  lemma DropPostAtUnique(ps: seq<Post>, i: nat)
    requires PostIdsUnique(ps) && i < |ps|
    ensures PostIdsUnique(ps[..i] + ps[i + 1..])
  {
    var r := ps[..i] + ps[i + 1..];
    DropAt(ps, i);
    forall a, b | 0 <= a < b < |r| ensures r[a].id != r[b].id {
      var a' := if a < i then a else a + 1;
      var b' := if b < i then b else b + 1;
      assert r[a] == ps[a'] && r[b] == ps[b'] && a' < b';
    }
  }

  /** With unique ids, dropping the post at `i` drops exactly
      the post with that id. */
  lemma DropPostAtMembers(ps: seq<Post>, i: nat)
    requires PostIdsUnique(ps) && i < |ps|
    ensures forall p :: p in ps[..i] + ps[i + 1..] <==> p in ps && p.id != ps[i].id
  {
    var r := ps[..i] + ps[i + 1..];
    DropAt(ps, i);
    forall p ensures p in r <==> p in ps && p.id != ps[i].id {
      if p in r {
        var j :| 0 <= j < |r| && r[j] == p;
        var j' := if j < i then j else j + 1;
        assert ps[j'] == p && j' != i;
      }
      if p in ps && p.id != ps[i].id {
        var j :| 0 <= j < |ps| && ps[j] == p;
        assert j != i;
        assert r[if j < i then j else j - 1] == p;
      }
    }
  }

  /** `post.remove()`: the post with that id is removed, the others stay, in
      their order (`RemovePostKeepsOrder`). */
  function RemovePost(ps: seq<Post>, id: Id): (r: seq<Post>)
    requires PostIdsUnique(ps)
    ensures PostIdsUnique(r)
    ensures forall p :: p in r <==> p in ps && p.id != id
    ensures FindPost(r, id).None?
    ensures FindPost(ps, id).None? ==> r == ps
    ensures FindPost(ps, id).Some? ==> |r| == |ps| - 1
  {
    var i := IndexOf(PostIds(ps), id);
    if i < 0 then ps
    else
      DropPostAtUnique(ps, i);
      DropPostAtMembers(ps, i);
      ps[..i] + ps[i + 1..]
  }

  /** The removal cuts that post out of the sequence and keeps the others in
      their order. */
  lemma RemovePostKeepsOrder(ps: seq<Post>, id: Id)
    requires PostIdsUnique(ps) && FindPost(ps, id).Some?
    ensures exists i ::
              && 0 <= i < |ps| && ps[i].id == id
              && RemovePost(ps, id) == ps[..i] + ps[i + 1..]
  {
    var i := IndexOf(PostIds(ps), id);
    var r := RemovePost(ps, id);
    assert r == ps[..i] + ps[i + 1..];
    assert ps[i].id == id;
  }

  /** Every user record is filed under its own id. */
  predicate UsersKeyed(users: map<Id, User>) {
    forall k :: k in users ==> users[k].id == k
  }

  /** The database handle passed to every route handler. */
  class Database {
    var users: map<Id, User>
    var profiles: seq<Profile>
    var posts: seq<Post>

    ghost predicate Valid()
      reads this
    {
      UsersKeyed(users) && OwnersUnique(profiles) && PostIdsUnique(posts)
    }

    constructor (users: map<Id, User>)
      requires UsersKeyed(users)
      ensures Valid()
      ensures this.users == users && profiles == [] && posts == []
    {
      this.users := users;
      profiles := [];
      posts := [];
    }
  }
}
