/**
 * The older profile router (`routes/api/profile.js`), which the server no
 * longer mounts. It shares the builder and the upsert with the mounted
 * router, but answers the upsert with the built document instead of the
 * stored profile.
 */
module LegacyProfileRoutes {
  import opened Wrappers
  import opened Documents
  import opened Store
  import opened ProfileFields

  /** GET /me: 404 when the caller has no profile, else the profile. */
  method GetMe(db: Database, caller: Id) returns (out: Outcome)
    ensures FindProfile(db.profiles, caller).None? ==> out == Reply(404, Message("No profile found"))
    ensures FindProfile(db.profiles, caller).Some? ==>
      out.Reply? && out.status == 200 && out.body.ProfileDoc?
      && out.body.profile in db.profiles && out.body.profile.user == caller
  {
    var found := FindProfile(db.profiles, caller);
    if found.None? {
      return Reply(404, Message("No profile found"));
    }
    out := Reply(200, ProfileDoc(found.value));
  }

  /** POST /: the same validation and upsert as the mounted router; the
      answer is the `profileFields` document itself. */
  method Upsert(db: Database, caller: Id, req: ProfileRequest) returns (out: Outcome)
    requires db.Valid()
    modifies db
    ensures db.Valid() && db.users == old(db.users) && db.posts == old(db.posts)
    ensures ValidateProfile(req) != [] ==>
      out == Reply(400, Errors(ValidateProfile(req))) && db.profiles == old(db.profiles)
    ensures ValidateProfile(req) == [] ==>
      var f := BuildFields(caller, req);
      && db.profiles == UpsertProfiles(old(db.profiles), f)
      && CountOwner(db.profiles, caller) == 1
      && out == Reply(200, FieldsDoc(f))
  {
    var errs := ValidateProfile(req);
    if errs != [] {
      return Reply(400, Errors(errs));
    }
    var f := BuildFields(caller, req);
    var before := db.profiles;
    var after := UpsertProfiles(before, f);
    assert CountOwner(after, caller) == 1 by { UpsertSpec(before, f); }
    db.profiles := after;
    out := Reply(200, FieldsDoc(f));
  }

  /** The answer does not echo what was stored before: when the caller's
      profile has a company and the request gives none, the answer has no
      company while the stored profile keeps it. */
  lemma AnswerOmitsStoredFields(ps: seq<Profile>, caller: Id, req: ProfileRequest)
    requires OwnersUnique(ps) && Present(req.status) && Present(req.skills)
    requires FindProfile(ps, caller).Some? && FindProfile(ps, caller).value.company.Some?
    requires !Present(req.company)
    ensures BuildFields(caller, req).company.None?
    ensures FindProfile(UpsertProfiles(ps, BuildFields(caller, req)), caller).value.company
         == FindProfile(ps, caller).value.company
  {
    UpsertSpec(ps, BuildFields(caller, req));
  }
}
