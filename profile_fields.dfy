/**
 * The profile upsert shared by both profile routers: validating the request,
 * parsing the skills list, building the partial-update document, and
 * applying it to the profiles collection with `$set` and `upsert: true`.
 */
module ProfileFields {
  import opened Wrappers
  import opened JsStrings
  import opened JsArrays
  import opened Documents
  import opened Store

  /** The request body fields a profile upsert reads; `None` is undefined. */
  datatype ProfileRequest = ProfileRequest(
    company: Option<string>, website: Option<string>, location: Option<string>,
    bio: Option<string>, status: Option<string>, githubusername: Option<string>,
    skills: Option<string>, youtube: Option<string>, twitter: Option<string>,
    facebook: Option<string>, instagram: Option<string>, linkedin: Option<string>)

  /** The two validation rules of the route, in order. */
  function ProfileChecks(req: ProfileRequest): seq<Check> {
    [Check("status", "Status is required", req.status),
     Check("skills", "Skills is required", req.skills)]
  }

  /** The error list of the request: empty exactly when both `status` and
      `skills` are given, naming each one that is not. */
  function ValidateProfile(req: ProfileRequest): (errs: seq<FieldError>)
    ensures errs == [] <==> Present(req.status) && Present(req.skills)
    ensures !Present(req.status) ==> FieldError("status", "Status is required", req.status) in errs
    ensures !Present(req.skills) ==> FieldError("skills", "Skills is required", req.skills) in errs
    ensures |errs| <= 2
    ensures errs ==
      (if Present(req.status) then [] else [FieldError("status", "Status is required", req.status)])
      + (if Present(req.skills) then [] else [FieldError("skills", "Skills is required", req.skills)])
  {
    var cs := ProfileChecks(req);
    assert cs[0].value == req.status && cs[1].value == req.skills;
    assert ErrorOf(cs[0]) == FieldError("status", "Status is required", req.status);
    assert ErrorOf(cs[1]) == FieldError("skills", "Skills is required", req.skills);
    assert cs == [cs[0]] + cs[1..] && cs[1..] == [cs[1]];
    MissingFieldsCons(cs[0], cs[1..]);
    MissingFieldsOne(cs[1]);
    MissingFields(cs)
  }

  /** `skills.split(',').map(skill => skill.trim())`: one skill per comma
      separated piece, in order and empty pieces kept, each without a comma
      and with no white space at either end. */
  function ParseSkills(skills: string): (r: seq<string>)
    ensures |r| == Occurrences(skills, ',') + 1
    ensures forall i :: 0 <= i < |r| ==> ',' !in r[i] && IsTrimmed(r[i])
  {
    var pieces := Split(skills, ',');
    var r := TrimEach(pieces);
    forall i | 0 <= i < |r| ensures ',' !in r[i] {
      TrimKeepsOut(pieces[i], ',');
    }
    r
  }

  /** A list of comma-free, trimmed skills written out with commas parses
      back to the same list: order is kept and empty skills are kept. */
  lemma ParseSkillsOfJoin(skills: seq<string>)
    requires |skills| >= 1
    requires forall i :: 0 <= i < |skills| ==> ',' !in skills[i] && IsTrimmed(skills[i])
    ensures ParseSkills(Join(skills, ',')) == skills
  {
    SplitJoin(skills, ',');
    forall i | 0 <= i < |skills| ensures Trim(skills[i]) == skills[i] {
      TrimOfTrimmed(skills[i]);
    }
  }

  /** Comma-free pieces written out with commas parse to those pieces,
      each trimmed. */
  lemma ParseSkillsOfJoinTrims(pieces: seq<string>)
    requires |pieces| >= 1
    requires forall i :: 0 <= i < |pieces| ==> ',' !in pieces[i]
    ensures ParseSkills(Join(pieces, ',')) == TrimEach(pieces)
  {
    SplitJoin(pieces, ',');
  }

  /** A sample input: each piece is trimmed. */
  lemma ParseSkillsTrimsPieces()
    ensures ParseSkills("a, b ,c") == ["a", "b", "c"]
  {
    JoinSpacedSample();
    ParseSkillsOfJoinTrims(["a", " b ", "c"]);
    TrimEachSpacedSample();
  }

  lemma TrimEachSpacedSample()
    ensures TrimEach(["a", " b ", "c"]) == ["a", "b", "c"]
  {
    var r := TrimEach(["a", " b ", "c"]);
    assert r[1] == "b" by { TrimSpacedB(); }
    assert r[0] == "a" by { TrimOfTrimmed("a"); }
    assert r[2] == "c" by { TrimOfTrimmed("c"); }
  }

  lemma JoinSpacedSample()
    ensures Join(["a", " b ", "c"], ',') == "a, b ,c"
  {
    var pieces := ["a", " b ", "c"];
    assert Join(pieces[2..], ',') == "c";
    assert Join(pieces[1..], ',') == " b ,c";
  }

  lemma TrimSpacedB()
    ensures Trim(" b ") == "b"
  {
    assert " b "[1..] == "b " && " b "[..2] == " b";
    assert LeadingSpace(" b ") == 1;
    assert TrailingSpace(" b ") == 1;
    assert " b "[1..2] == "b";
  }

  /** A sample input: an empty piece between two commas is kept as an
      empty skill. */
  lemma ParseSkillsKeepsEmptyPieces()
    ensures ParseSkills("a,,b") == ["a", "", "b"]
  {
    var skills := ["a", "", "b"];
    assert Join(skills[2..], ',') == "b";
    assert Join(skills[1..], ',') == ",b";
    assert Join(skills, ',') == "a,,b";
    ParseSkillsOfJoin(skills);
  }

  /** A field is attached to the document exactly when the request value is
      truthy, and then with that value. */
  predicate AttachedIfTruthy(field: Option<string>, given: Option<string>) {
    (field.Some? <==> Present(given)) && (field.Some? ==> field == given)
  }

  function IfTruthy(v: Option<string>): Option<string> {
    if Present(v) then v else None
  }

  /** The `profileFields` document of a valid request: owner, status and
      parsed skills always, each optional scalar and each social link only
      when truthy, and a `social` object that is always there. */
  function BuildFields(caller: Id, req: ProfileRequest): (f: ProfileFields)
    requires Present(req.status) && Present(req.skills)
    ensures f.user == caller && f.status == req.status.value
    ensures f.skills == ParseSkills(req.skills.value)
    ensures AttachedIfTruthy(f.company, req.company) && AttachedIfTruthy(f.website, req.website)
    ensures AttachedIfTruthy(f.location, req.location) && AttachedIfTruthy(f.bio, req.bio)
    ensures AttachedIfTruthy(f.githubusername, req.githubusername)
    ensures AttachedIfTruthy(f.social.youtube, req.youtube) && AttachedIfTruthy(f.social.twitter, req.twitter)
    ensures AttachedIfTruthy(f.social.facebook, req.facebook)
    ensures AttachedIfTruthy(f.social.instagram, req.instagram)
    ensures AttachedIfTruthy(f.social.linkedin, req.linkedin)
  {
    ProfileFields(
      caller, req.status.value, ParseSkills(req.skills.value),
      IfTruthy(req.company), IfTruthy(req.website), IfTruthy(req.location),
      IfTruthy(req.bio), IfTruthy(req.githubusername),
      Social(IfTruthy(req.youtube), IfTruthy(req.twitter), IfTruthy(req.facebook),
             IfTruthy(req.instagram), IfTruthy(req.linkedin)))
  }

  /** An empty string given for an optional field leaves it out of the
      document, as if it had not been sent. */
  lemma EmptyStringIsAbsent(caller: Id, req: ProfileRequest)
    requires Present(req.status) && Present(req.skills)
    ensures BuildFields(caller, req.(company := Some(""), youtube := Some("")))
         == BuildFields(caller, req.(company := None, youtube := None))
  {
  }

  /** A profile with no keys set yet, the base of an insert. */
  function NewProfile(owner: Id): Profile {
    Profile(owner, "", [], None, None, None, None, None, Social(None, None, None, None, None), [], [])
  }

  function SetKey(given: Option<string>, current: Option<string>): Option<string> {
    if given.Some? then given else current
  }

  /** `$set: f` on the stored profile (or on a fresh document when there is
      none): every key in the document overwrites, every key not in it
      keeps its value, the `social` subobject is replaced as a whole, and
      the experience and education lists are untouched (empty on insert). */
  function ApplySet(existing: Option<Profile>, f: ProfileFields): (p: Profile)
    ensures p.user == f.user && p.status == f.status && p.skills == f.skills
    ensures p.social == f.social
    ensures var base := existing.GetOr(NewProfile(f.user));
      && p.company == (if f.company.Some? then f.company else base.company)
      && p.website == (if f.website.Some? then f.website else base.website)
      && p.location == (if f.location.Some? then f.location else base.location)
      && p.bio == (if f.bio.Some? then f.bio else base.bio)
      && p.githubusername == (if f.githubusername.Some? then f.githubusername else base.githubusername)
      && p.experience == base.experience && p.education == base.education
  {
    var base := existing.GetOr(NewProfile(f.user));
    base.(user := f.user, status := f.status, skills := f.skills,
         company := SetKey(f.company, base.company),
         website := SetKey(f.website, base.website),
         location := SetKey(f.location, base.location),
         bio := SetKey(f.bio, base.bio),
         githubusername := SetKey(f.githubusername, base.githubusername),
         social := f.social)
  }

  /** Applying the same document twice is the same as applying it once. */
  lemma ApplySetIdempotent(existing: Option<Profile>, f: ProfileFields)
    ensures ApplySet(Some(ApplySet(existing, f)), f) == ApplySet(existing, f)
  {
  }

  /** `Profile.findOneAndUpdate({ user }, { $set: f }, { upsert: true })`:
      the owner's profile is updated in place, or a new one is appended
      (`UpsertKeepsOrder`). */
  function UpsertProfiles(ps: seq<Profile>, f: ProfileFields): (r: seq<Profile>)
    requires OwnersUnique(ps)
    ensures OwnersUnique(r)
  {
    var i := IndexOf(Owners(ps), f.user);
    if i >= 0 then ReplaceOwned(ps, ApplySet(Some(ps[i]), f))
    else
      var r := ps + [ApplySet(None, f)];
      assert forall j :: 0 <= j < |ps| ==> r[j] == ps[j];
      r
  }

  /** After an upsert the owner has exactly one profile: the old one with
      the document applied, or a new one built from the document alone
      when there was none, in which case the store grows by one. */
  lemma UpsertSpec(ps: seq<Profile>, f: ProfileFields)
    requires OwnersUnique(ps)
    ensures CountOwner(UpsertProfiles(ps, f), f.user) == 1
    ensures FindProfile(UpsertProfiles(ps, f), f.user) == Some(ApplySet(FindProfile(ps, f.user), f))
    ensures |UpsertProfiles(ps, f)| == if FindProfile(ps, f.user).Some? then |ps| else |ps| + 1
  {
    var r := UpsertProfiles(ps, f);
    var i := IndexOf(Owners(ps), f.user);
    if i < 0 {
      var q := ApplySet(None, f);
      assert r == ps + [q];
      FindProfileOf(r, q);
    }
    assert FindProfile(r, f.user).Some?;
    assert Owners(r)[IndexOf(Owners(r), f.user)] == f.user;
    CountUnique(r, f.user);
  }

  /** Where the upsert puts things: a new profile goes at the end of the
      store; an update rewrites the owner's profile where it stands and
      leaves every other position alone. */
  lemma UpsertKeepsOrder(ps: seq<Profile>, f: ProfileFields)
    requires OwnersUnique(ps)
    ensures FindProfile(ps, f.user).None? ==> UpsertProfiles(ps, f) == ps + [ApplySet(None, f)]
    ensures FindProfile(ps, f.user).Some? ==> |UpsertProfiles(ps, f)| == |ps|
    ensures FindProfile(ps, f.user).Some? ==> forall j :: 0 <= j < |ps| ==>
              UpsertProfiles(ps, f)[j] == if ps[j].user == f.user then ApplySet(Some(ps[j]), f) else ps[j]
  {
    var i := IndexOf(Owners(ps), f.user);
    if i >= 0 {
      var q := ApplySet(Some(ps[i]), f);
      assert q.user == f.user;
      ReplaceOwnedInPlace(ps, q);
      forall j | 0 <= j < |ps| && ps[j].user == f.user ensures j == i {
        assert ps[i].user == f.user;
      }
    }
  }

  /** An upsert leaves every other owner's profile as it was. */
  lemma UpsertKeepsOthers(ps: seq<Profile>, f: ProfileFields)
    requires OwnersUnique(ps)
    ensures OthersUnchanged(ps, UpsertProfiles(ps, f), f.user)
  {
    var r := UpsertProfiles(ps, f);
    if IndexOf(Owners(ps), f.user) < 0 {
      var q := ApplySet(None, f);
      assert r == ps + [q];
      assert forall p :: p in r <==> p in ps || p == q;
      forall other | other != f.user ensures FindProfile(r, other) == FindProfile(ps, other) {
        FindProfileSame(r, ps, other);
      }
    }
  }
}
