/**
 * The mounted profile router (`/api/v1/profiles`). Each handler is a
 * method on the database handle; `caller` is the user id the auth
 * middleware put on the request, and ids of new list entries are fresh
 * values supplied by the caller of the handler.
 */
module ProfilesRoutes {
  import opened Wrappers
  import opened JsArrays
  import opened Documents
  import opened Store
  import opened ProfileFields

  // ---- experience and education lists ----

  /** The request body fields of PUT /experience. */
  datatype ExperienceRequest = ExperienceRequest(
    title: Option<string>, company: Option<string>, location: Option<string>,
    from: Option<string>, to: Option<string>, current: Option<bool>,
    description: Option<string>)

  /** The request body fields of PUT /education. */
  datatype EducationRequest = EducationRequest(
    school: Option<string>, degree: Option<string>, fieldofstudy: Option<string>,
    from: Option<string>, to: Option<string>, current: Option<bool>,
    description: Option<string>)

  function ExperienceChecks(req: ExperienceRequest): seq<Check> {
    [Check("title", "Title is required", req.title),
     Check("company", "Company is required", req.company),
     Check("from", "From date is required", req.from)]
  }

  function EducationChecks(req: EducationRequest): seq<Check> {
    [Check("school", "School is required", req.school),
     Check("degree", "Degree is required", req.degree),
     Check("from", "From date is required", req.from),
     Check("fieldofstudy", "Field of Study is required", req.fieldofstudy)]
  }

  /** The error list of PUT /experience: empty exactly when title, company
      and from date are all given. */
  function ValidateExperience(req: ExperienceRequest): (errs: seq<FieldError>)
    ensures errs == [] <==> Present(req.title) && Present(req.company) && Present(req.from)
    ensures errs == MissingFields(ExperienceChecks(req))
    ensures errs ==
      (if Present(req.title) then [] else [FieldError("title", "Title is required", req.title)])
      + ((if Present(req.company) then [] else [FieldError("company", "Company is required", req.company)])
      + (if Present(req.from) then [] else [FieldError("from", "From date is required", req.from)]))
  {
    var cs := ExperienceChecks(req);
    assert cs[0].value == req.title && cs[1].value == req.company && cs[2].value == req.from;
    assert cs == [cs[0]] + cs[1..] && cs[1..] == [cs[1]] + cs[2..] && cs[2..] == [cs[2]];
    MissingFieldsCons(cs[0], cs[1..]);
    MissingFieldsCons(cs[1], cs[2..]);
    MissingFieldsOne(cs[2]);
    MissingFields(cs)
  }

  /** The error list of PUT /education: empty exactly when school, degree,
      from date and field of study are all given. */
  function ValidateEducation(req: EducationRequest): (errs: seq<FieldError>)
    ensures errs == [] <==>
      Present(req.school) && Present(req.degree) && Present(req.from) && Present(req.fieldofstudy)
    ensures errs == MissingFields(EducationChecks(req))
    ensures errs ==
      (if Present(req.school) then [] else [FieldError("school", "School is required", req.school)])
      + ((if Present(req.degree) then [] else [FieldError("degree", "Degree is required", req.degree)])
      + ((if Present(req.from) then [] else [FieldError("from", "From date is required", req.from)])
      + (if Present(req.fieldofstudy) then []
         else [FieldError("fieldofstudy", "Field of Study is required", req.fieldofstudy)])))
  {
    var cs := EducationChecks(req);
    assert cs[0].value == req.school && cs[1].value == req.degree;
    assert cs[2].value == req.from && cs[3].value == req.fieldofstudy;
    var e0 := if Present(req.school) then [] else [ErrorOf(cs[0])];
    var e1 := if Present(req.degree) then [] else [ErrorOf(cs[1])];
    var e2 := if Present(req.from) then [] else [ErrorOf(cs[2])];
    var e3 := if Present(req.fieldofstudy) then [] else [ErrorOf(cs[3])];
    var t2 := [cs[2]] + [cs[3]];
    var t1 := [cs[1]] + t2;
    assert cs == [cs[0]] + t1;
    assert MissingFields([cs[3]]) == e3 by { MissingFieldsOne(cs[3]); }
    assert MissingFields(t2) == e2 + e3 by { MissingFieldsCons(cs[2], [cs[3]]); }
    assert MissingFields(t1) == e1 + (e2 + e3) by { MissingFieldsCons(cs[1], t2); }
    assert MissingFields(cs) == e0 + (e1 + (e2 + e3)) by { MissingFieldsCons(cs[0], t1); }
    MissingFields(cs)
  }

  /** The `newExperience` object of a valid request, with its fresh id:
      every request field is kept under its own name, so the request can be
      read back from the entry. */
  function NewExperience(id: Id, req: ExperienceRequest): (e: Experience)
    requires Present(req.title) && Present(req.company) && Present(req.from)
    ensures e.id == id
    ensures ExperienceRequest(Some(e.title), Some(e.company), e.location, Some(e.from),
                              e.to, e.current, e.description) == req
  {
    Experience(id, req.title.value, req.company.value, req.location,
               req.from.value, req.to, req.current, req.description)
  }

  /** The `newEducation` object of a valid request, with its fresh id:
      every request field is kept under its own name, so the request can be
      read back from the entry. */
  function NewEducation(id: Id, req: EducationRequest): (e: Education)
    requires Present(req.school) && Present(req.degree) && Present(req.from) && Present(req.fieldofstudy)
    ensures e.id == id
    ensures EducationRequest(Some(e.school), Some(e.degree), Some(e.fieldofstudy), Some(e.from),
                             e.to, e.current, e.description) == req
  {
    Education(id, req.school.value, req.degree.value, req.fieldofstudy.value,
              req.from.value, req.to, req.current, req.description)
  }

  function ExperienceIds(s: seq<Experience>): (r: seq<Id>)
    ensures |r| == |s| && forall i :: 0 <= i < |s| ==> r[i] == s[i].id
  {
    seq(|s|, i requires 0 <= i < |s| => s[i].id)
  }

  function EducationIds(s: seq<Education>): (r: seq<Id>)
    ensures |r| == |s| && forall i :: 0 <= i < |s| ==> r[i] == s[i].id
  {
    seq(|s|, i requires 0 <= i < |s| => s[i].id)
  }

  /** `profile.experience.unshift(e)`: the new entry first, the old list
      shifted by one, nothing else changed. */
  function WithExperience(p: Profile, e: Experience): (q: Profile)
    ensures |q.experience| == |p.experience| + 1
    ensures q.experience[0] == e && q.experience[1..] == p.experience
    ensures q == p.(experience := q.experience)
  {
    p.(experience := Unshift(p.experience, e))
  }

  /** `profile.education.unshift(e)`. */
  function WithEducation(p: Profile, e: Education): (q: Profile)
    ensures |q.education| == |p.education| + 1
    ensures q.education[0] == e && q.education[1..] == p.education
    ensures q == p.(education := q.education)
  {
    p.(education := Unshift(p.education, e))
  }

  /** `profile.experience.splice(ids.indexOf(id), 1)`: the first entry with
      that id is removed and the others keep their order; when no entry has
      it, `indexOf` gives -1 and the last entry is removed; an empty list
      stays empty. Nothing else in the profile changes. */
  function WithoutExperience(p: Profile, id: Id): (q: Profile)
    ensures var s := p.experience; var i := IndexOf(ExperienceIds(s), id);
      && (id in ExperienceIds(s) ==> q.experience == s[..i] + s[i + 1..])
      && (id !in ExperienceIds(s) && s != [] ==> q.experience == s[..|s| - 1])
      && (s == [] ==> q.experience == [])
    ensures q == p.(experience := q.experience)
  {
    var s := p.experience;
    RemoveByKey(s, ExperienceIds(s), id);
    p.(experience := Splice(s, IndexOf(ExperienceIds(s), id), 1))
  }

  /** `profile.education.splice(ids.indexOf(id), 1)`, with the same cases. */
  function WithoutEducation(p: Profile, id: Id): (q: Profile)
    ensures var s := p.education; var i := IndexOf(EducationIds(s), id);
      && (id in EducationIds(s) ==> q.education == s[..i] + s[i + 1..])
      && (id !in EducationIds(s) && s != [] ==> q.education == s[..|s| - 1])
      && (s == [] ==> q.education == [])
    ensures q == p.(education := q.education)
  {
    var s := p.education;
    RemoveByKey(s, EducationIds(s), id);
    p.(education := Splice(s, IndexOf(EducationIds(s), id), 1))
  }

  /** Removing the id of the entry just added restores the profile: the
      new entry is first, so `indexOf` finds it at 0 whatever the rest
      holds. */
  lemma AddThenRemoveExperience(p: Profile, e: Experience)
    ensures WithoutExperience(WithExperience(p, e), e.id) == p
  {
    var s := WithExperience(p, e).experience;
    assert ExperienceIds(s)[0] == e.id;
    assert IndexOf(ExperienceIds(s), e.id) == 0;
  }

  lemma AddThenRemoveEducation(p: Profile, e: Education)
    ensures WithoutEducation(WithEducation(p, e), e.id) == p
  {
    var s := WithEducation(p, e).education;
    assert EducationIds(s)[0] == e.id;
    assert IndexOf(EducationIds(s), e.id) == 0;
  }

  /** The same round trip on the whole store: adding an experience entry to
      the owner's profile and then removing it by its id gives back the
      store as it was. */
  lemma AddThenRemoveExperienceInStore(ps: seq<Profile>, owner: Id, e: Experience)
    requires OwnersUnique(ps) && FindProfile(ps, owner).Some?
    ensures var p := FindProfile(ps, owner).value;
      var added := ReplaceOwned(ps, WithExperience(p, e));
      ReplaceOwned(added, WithoutExperience(FindProfile(added, owner).value, e.id)) == ps
  {
    var p := FindProfile(ps, owner).value;
    AddThenRemoveExperience(p, e);
    ReplaceOwnedRestores(ps, WithExperience(p, e), p);
  }

  // ---- handlers ----

  /** GET /me: 404 when the caller has no profile, else the profile. */
  method GetMe(db: Database, caller: Id) returns (out: Outcome)
    ensures FindProfile(db.profiles, caller).None? ==> out == Reply(404, Message("No profile found"))
    ensures FindProfile(db.profiles, caller).Some? ==>
      out.Reply? && out.status == 200 && out.body.ProfileDoc?
      && out.body.profile in db.profiles && out.body.profile.user == caller
  {
    var found := FindProfile(db.profiles, caller);
    if found.None? {
      return Reply(404, Message("No profile found"));
    }
    out := Reply(200, ProfileDoc(found.value));
  }

  /** POST /: an invalid request answers 400 with the error list and
      leaves the store alone; a valid one upserts the built document and
      answers with the caller's stored profile. `UpsertSpec` and
      `UpsertKeepsOthers` show that it is then the caller's only profile
      and that no other owner's profile changed. */
  method Upsert(db: Database, caller: Id, req: ProfileRequest) returns (out: Outcome)
    requires db.Valid()
    modifies db
    ensures db.Valid() && db.users == old(db.users) && db.posts == old(db.posts)
    ensures ValidateProfile(req) != [] ==>
      out == Reply(400, Errors(ValidateProfile(req))) && db.profiles == old(db.profiles)
    ensures ValidateProfile(req) == [] ==>
      var f := BuildFields(caller, req);
      && db.profiles == UpsertProfiles(old(db.profiles), f)
      && FindProfile(db.profiles, caller) == Some(ApplySet(FindProfile(old(db.profiles), caller), f))
      && out == Reply(200, ProfileDoc(ApplySet(FindProfile(old(db.profiles), caller), f)))
  {
    var errs := ValidateProfile(req);
    if errs != [] {
      return Reply(400, Errors(errs));
    }
    var f := BuildFields(caller, req);
    var before := db.profiles;
    var after := UpsertProfiles(before, f);
    var found := ApplySet(FindProfile(before, caller), f);
    assert FindProfile(after, caller) == Some(found) by {
      UpsertSpec(before, f);
    }
    db.profiles := after;
    out := Reply(200, ProfileDoc(found));
  }

  /** GET /: every stored profile, in collection order. */
  method GetAll(db: Database) returns (out: Outcome)
    ensures out.Reply? && out.status == 200 && out.body.ProfileList?
    ensures out.body.profiles == db.profiles
  {
    out := Reply(200, ProfileList(db.profiles));
  }

  /** GET /user/:user_id: 404 when that user has no profile. When there is
      one the handler names an undefined variable, so the catch block
      answers 500. */
  method GetByUser(db: Database, userId: Id) returns (out: Outcome)
    ensures FindProfile(db.profiles, userId).None? ==> out == Reply(404, Message("Profile not found"))
    ensures FindProfile(db.profiles, userId).Some? ==> out == ServerError
  {
    var found := FindProfile(db.profiles, userId);
    if found.None? {
      return Reply(404, Message("Profile not found"));
    }
    out := ServerError;
  }

  /** DELETE /: removes the caller's profile and user record and answers
      201; the caller's posts stay. */
  method DeleteAccount(db: Database, caller: Id) returns (out: Outcome)
    requires db.Valid()
    modifies db
    ensures db.Valid()
    ensures db.profiles == RemoveOwner(old(db.profiles), caller)
    ensures FindProfile(db.profiles, caller).None?
    ensures OthersUnchanged(old(db.profiles), db.profiles, caller)
    ensures db.users == old(db.users) - {caller}
    ensures db.posts == old(db.posts)
    ensures out == Reply(201, Message("User Deleted"))
  {
    RemoveOwnerKeepsOthers(db.profiles, caller);
    db.profiles := RemoveOwner(db.profiles, caller);
    db.users := db.users - {caller};
    out := Reply(201, Message("User Deleted"));
  }

  /** PUT /experience: 400 on a missing title, company or from date. With
      no profile, `profile.experience` throws and the catch block then
      throws too, so no response is sent. Otherwise the entry (with the
      fresh id `newId`) is put first in the caller's experience list. */
  method AddExperience(db: Database, caller: Id, req: ExperienceRequest, newId: Id) returns (out: Outcome)
    requires db.Valid()
    modifies db
    ensures db.Valid() && db.users == old(db.users) && db.posts == old(db.posts)
    ensures ValidateExperience(req) != [] ==>
      out == Reply(400, Errors(ValidateExperience(req))) && db.profiles == old(db.profiles)
    ensures ValidateExperience(req) == [] && FindProfile(old(db.profiles), caller).None? ==>
      out == NoReply && db.profiles == old(db.profiles)
    ensures ValidateExperience(req) == [] && FindProfile(old(db.profiles), caller).Some? ==>
      var e := NewExperience(newId, req);
      var p := WithExperience(FindProfile(old(db.profiles), caller).value, e);
      && db.profiles == ReplaceOwned(old(db.profiles), p)
      && FindProfile(db.profiles, caller) == Some(p)
      && out == Reply(200, ProfileDoc(p))
  {
    var errs := ValidateExperience(req);
    if errs != [] {
      return Reply(400, Errors(errs));
    }
    var found := FindProfile(db.profiles, caller);
    if found.None? {
      return NoReply;
    }
    var e := NewExperience(newId, req);
    var p := WithExperience(found.value, e);
    db.profiles := ReplaceOwned(db.profiles, p);
    out := Reply(200, ProfileDoc(p));
  }

  /** DELETE /experience/:exp_id: 500 when the caller has no profile;
      otherwise the `indexOf` + `splice` removal, saved, and the profile
      returned. */
  method RemoveExperience(db: Database, caller: Id, expId: Id) returns (out: Outcome)
    requires db.Valid()
    modifies db
    ensures db.Valid() && db.users == old(db.users) && db.posts == old(db.posts)
    ensures FindProfile(old(db.profiles), caller).None? ==>
      out == ServerError && db.profiles == old(db.profiles)
    ensures FindProfile(old(db.profiles), caller).Some? ==>
      var p := WithoutExperience(FindProfile(old(db.profiles), caller).value, expId);
      && db.profiles == ReplaceOwned(old(db.profiles), p)
      && FindProfile(db.profiles, caller) == Some(p)
      && out == Reply(200, ProfileDoc(p))
  {
    var found := FindProfile(db.profiles, caller);
    if found.None? {
      return ServerError;
    }
    var p := WithoutExperience(found.value, expId);
    db.profiles := ReplaceOwned(db.profiles, p);
    out := Reply(200, ProfileDoc(p));
  }

  /** PUT /education: as PUT /experience, with school, degree, from date and
      field of study required. */
  method AddEducation(db: Database, caller: Id, req: EducationRequest, newId: Id) returns (out: Outcome)
    requires db.Valid()
    modifies db
    ensures db.Valid() && db.users == old(db.users) && db.posts == old(db.posts)
    ensures ValidateEducation(req) != [] ==>
      out == Reply(400, Errors(ValidateEducation(req))) && db.profiles == old(db.profiles)
    ensures ValidateEducation(req) == [] && FindProfile(old(db.profiles), caller).None? ==>
      out == NoReply && db.profiles == old(db.profiles)
    ensures ValidateEducation(req) == [] && FindProfile(old(db.profiles), caller).Some? ==>
      var e := NewEducation(newId, req);
      var p := WithEducation(FindProfile(old(db.profiles), caller).value, e);
      && db.profiles == ReplaceOwned(old(db.profiles), p)
      && FindProfile(db.profiles, caller) == Some(p)
      && out == Reply(200, ProfileDoc(p))
  {
    var errs := ValidateEducation(req);
    if errs != [] {
      return Reply(400, Errors(errs));
    }
    var found := FindProfile(db.profiles, caller);
    if found.None? {
      return NoReply;
    }
    var e := NewEducation(newId, req);
    var p := WithEducation(found.value, e);
    db.profiles := ReplaceOwned(db.profiles, p);
    out := Reply(200, ProfileDoc(p));
  }

  /** DELETE /education/:edu_id: as DELETE /experience/:exp_id. */
  method RemoveEducation(db: Database, caller: Id, eduId: Id) returns (out: Outcome)
    requires db.Valid()
    modifies db
    ensures db.Valid() && db.users == old(db.users) && db.posts == old(db.posts)
    ensures FindProfile(old(db.profiles), caller).None? ==>
      out == ServerError && db.profiles == old(db.profiles)
    ensures FindProfile(old(db.profiles), caller).Some? ==>
      var p := WithoutEducation(FindProfile(old(db.profiles), caller).value, eduId);
      && db.profiles == ReplaceOwned(old(db.profiles), p)
      && FindProfile(db.profiles, caller) == Some(p)
      && out == Reply(200, ProfileDoc(p))
  {
    var found := FindProfile(db.profiles, caller);
    if found.None? {
      return ServerError;
    }
    var p := WithoutEducation(found.value, eduId);
    db.profiles := ReplaceOwned(db.profiles, p);
    out := Reply(200, ProfileDoc(p));
  }
}
