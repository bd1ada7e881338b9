/**
 * The documents the server stores and answers with: users, profiles and
 * their experience and education entries, posts, the partial-update
 * document a profile upsert sends to the store, validation errors and HTTP
 * outcomes.
 */
module Documents {
  import opened Wrappers

  /** An object id (users, posts, list entries), in its string form. */
  type Id = string

  /** A user record as the routes read it, password excluded. */
  datatype User = User(id: Id, name: string, email: string, avatar: string)

  /** The `social` subdocument of a profile; a missing key is `None`. */
  datatype Social = Social(
    youtube: Option<string>, twitter: Option<string>, facebook: Option<string>,
    instagram: Option<string>, linkedin: Option<string>)

  /** An experience entry; the optional request fields are stored as given. */
  datatype Experience = Experience(
    id: Id, title: string, company: string, location: Option<string>,
    from: string, to: Option<string>, current: Option<bool>, description: Option<string>)

  /** An education entry. */
  datatype Education = Education(
    id: Id, school: string, degree: string, fieldofstudy: string,
    from: string, to: Option<string>, current: Option<bool>, description: Option<string>)

  /** A stored profile, keyed by its owner `user`; optional keys that were
      never set are `None`. */
  datatype Profile = Profile(
    user: Id, status: string, skills: seq<string>,
    company: Option<string>, website: Option<string>, location: Option<string>,
    bio: Option<string>, githubusername: Option<string>,
    social: Social, experience: seq<Experience>, education: seq<Education>)

  /** The partial-update document of a profile upsert: `None` means the key
      is not in the document. */
  datatype ProfileFields = ProfileFields(
    user: Id, status: string, skills: seq<string>,
    company: Option<string>, website: Option<string>, location: Option<string>,
    bio: Option<string>, githubusername: Option<string>, social: Social)

  /** A stored post: the author id with a snapshot of the author's name and
      avatar, and the creation time. */
  datatype Post = Post(id: Id, user: Id, text: string, name: string, avatar: string, date: int)

  /** One entry of a validation error list: the field, the message and the
      value that failed. */
  datatype FieldError = FieldError(param: string, msg: string, value: Option<string>)

  /** A "field must be present and non-empty" rule on one request field. */
  datatype Check = Check(param: string, msg: string, value: Option<string>)

  /** A request field counts as given when present and non-empty; for a
      string this is also JavaScript truthiness. */
  predicate Present(v: Option<string>) {
    v.Some? && v.value != ""
  }

  function ErrorOf(c: Check): FieldError {
    FieldError(c.param, c.msg, c.value)
  }

  /** The errors of the failed checks, in the order of the checks: empty
      exactly when every field is given, one error per failed check and none
      for a passed one. */
  function MissingFields(checks: seq<Check>): (r: seq<FieldError>)
    ensures |r| <= |checks|
    ensures r == [] <==> forall i :: 0 <= i < |checks| ==> Present(checks[i].value)
  {
    if checks == [] then []
    else
      var rest := MissingFields(checks[1..]);
      if Present(checks[0].value) then rest else [ErrorOf(checks[0])] + rest
  }

  /** Every failed check is reported, and every reported error is that of a
      failed check. */
  lemma {:induction false} MissingFieldsMembers(checks: seq<Check>)
    ensures forall i :: 0 <= i < |checks| && !Present(checks[i].value) ==>
      ErrorOf(checks[i]) in MissingFields(checks)
    ensures forall e :: e in MissingFields(checks) ==>
      exists c :: c in checks && !Present(c.value) && e == ErrorOf(c)
  {
    if checks != [] {
      MissingFieldsMembers(checks[1..]);
      assert forall i :: 1 <= i < |checks| ==> checks[i] == checks[1..][i - 1];
      assert forall c :: c in checks[1..] ==> c in checks;
    }
  }

  /** A single check contributes its own error when it fails and nothing
      when it passes. */
  lemma MissingFieldsOne(c: Check)
    ensures MissingFields([c]) == if Present(c.value) then [] else [ErrorOf(c)]
  {
  }

  /** One check in front of others: its own error, if any, comes first. */
  lemma MissingFieldsCons(c: Check, rest: seq<Check>)
    ensures MissingFields([c] + rest) ==
      (if Present(c.value) then [] else [ErrorOf(c)]) + MissingFields(rest)
  {
    var s := [c] + rest;
    assert s[0] == c && s[1..] == rest;
  }

  /** The checks are run in order and independently: the errors of two runs
      of checks, one after the other, are the errors of the first followed
      by those of the second. With `MissingFieldsOne` this fixes the list
      exactly: one error per failed check, in check order, no duplicates. */
  lemma {:induction false} MissingFieldsAppend(a: seq<Check>, b: seq<Check>)
    ensures MissingFields(a + b) == MissingFields(a) + MissingFields(b)
  {
    if a == [] {
      assert a + b == b;
    } else {
      var t := a[1..];
      assert a == [a[0]] + t;
      assert a + b == [a[0]] + (t + b);
      MissingFieldsCons(a[0], t + b);
      MissingFieldsAppend(t, b);
      MissingFieldsCons(a[0], t);
    }
  }

  /** What a handler sends back. */
  datatype Body =
    | Errors(errors: seq<FieldError>)
    | Message(msg: string)
    | ProfileDoc(profile: Profile)
    | FieldsDoc(fields: ProfileFields)
    | ProfileList(profiles: seq<Profile>)
    | PostDoc(post: Post)
    | PostList(posts: seq<Post>)
    | Text(text: string)

  /** A response with its status, or no response at all (a handler whose
      error path itself throws leaves the request hanging). */
  datatype Outcome = Reply(status: int, body: Body) | NoReply

  /** The answer of every catch block that does not itself fail. */
  const ServerError: Outcome := Reply(500, Text("Server Error"))
}
