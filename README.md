# DevConnector server core and auth reducer, in Dafny

A model of the rule-carrying part of DevConnector, a social-profile web
application: the server-side profile and post handlers and the client's
authentication reducer.

- **Store** (`store.dfy`): the MongoDB database as one handle, `Database`.
  It holds the users collection (a map from id to user record) and the
  profiles and posts collections, each a sequence in natural (insertion)
  order. `Valid()` says owners and post ids are unique and every user
  record is filed under its own id (`UsersKeyed`). Each handler is one
  sequential transition of this state. It takes the caller's user id, as
  the auth middleware resolved it, and a record of the request body whose
  fields are `Option<string>`, and `Option<bool>` for `current` (`None`
  stands for `undefined`).
- **JavaScript semantics** (`js_strings.dfy`, `js_arrays.dfy`): `split`
  on one character, keeping empty pieces, and `trim`, with the whitespace
  and line terminators of ECMA-262. Also `indexOf` with its -1 result,
  `unshift`, and `splice` with a negative start counted from the end
  (section 22.1.3.25 of ECMA-262, 6th edition).
- **Profile builder** (`profile_fields.dfy`): the part shared by both
  profile routers. It checks that `status` and `skills` are present,
  parses the skills, and builds the partial-update document. An optional
  field is attached only when its value is truthy. The document is then
  applied with `$set` and `upsert: true`, keyed by owner.
- **Mounted profile router** (`profiles_routes.dfy`), **legacy profile
  router** (`legacy_profile_routes.dfy`) and **post router**
  (`posts_routes.dfy`): one method per route. Each states status and body
  for every branch, the new store, and what stays unchanged.
- **Auth reducer** (`auth_reducer.dfy`): the reducer state is a JavaScript
  object, modelled as `map<string, Value>`, so object spreads are map
  unions. The `localStorage` token is kept as a separate field that the
  transition updates.

The model follows the code as written, including these behaviours:

- Deleting an account leaves the user's posts in place.
- Removing an experience or education id that is not in the list removes
  the last entry (`splice(-1, 1)`). It does not answer "not found".
- GET `/user/:user_id` answers 500 when the profile exists, because the
  handler names an undefined variable `profiles`.
- PUT `/experience` and PUT `/education` send no response when the caller
  has no profile. The catch block itself refers to an undefined `error`.

## Model

| member | source | states |
|---|---|---|
| JsStrings.IsWhiteSpace | routes/api/v1/profiles.js:72 | the characters `trim()` removes; on ASCII exactly space and tab through carriage return |
| JsStrings.Split | routes/api/v1/profiles.js:72 | `split(',')` gives one piece per separator plus one, and no piece contains the separator |
| JsStrings.JoinSplit | routes/api/v1/profiles.js:72 | joining the pieces of a split with the separator gives back the input string |
| JsStrings.SplitJoin | routes/api/v1/profiles.js:72 | splitting a join of separator-free pieces gives back the same pieces, in order, empty ones included |
| JsStrings.LeadingSpace | routes/api/v1/profiles.js:72 | the count of leading characters is within the string, all of them are white space, and the next character is not |
| JsStrings.TrailingSpace | routes/api/v1/profiles.js:72 | the count of trailing characters is within the string, all of them are white space, and the character before them is not |
| JsStrings.Trim | routes/api/v1/profiles.js:72 | `trim()` gives a string no longer than the input that neither starts nor ends with white space |
| JsStrings.TrimCutsOnlyWhiteSpace | routes/api/v1/profiles.js:72 | the trimmed string is a slice of the input, and everything cut before and after it is white space |
| JsStrings.TrimKeepsCharacters | routes/api/v1/profiles.js:72 | every character of a trimmed string occurs in the input |
| JsStrings.TrimKeepsOut | routes/api/v1/profiles.js:72 | a character the input lacks, such as the comma in a split piece, is not in the trimmed string |
| JsStrings.TrimOfTrimmed | routes/api/v1/profiles.js:72 | trimming a string with no white space at its ends leaves it unchanged |
| JsStrings.TrimIdempotent | routes/api/v1/profiles.js:72 | trimming twice is the same as trimming once |
| JsStrings.TrimEach | routes/api/v1/profiles.js:72 | `.map(skill => skill.trim())` keeps the length and trims each piece at its own position |
| JsArrays.IndexOf | routes/api/v1/profiles.js:228-230 | `indexOf` is -1 exactly when the value is absent; otherwise it is the first index that holds the value |
| JsArrays.Unshift | routes/api/v1/profiles.js:207 | `unshift` puts the new element at index 0 and shifts the old sequence up by one |
| JsArrays.Splice | routes/api/v1/profiles.js:232 | the result is shorter by exactly the number of removed elements |
| JsArrays.SpliceOneAt | routes/api/v1/profiles.js:232 | `splice(i, 1)` at a valid index removes exactly element i and keeps the order of the rest |
| JsArrays.SpliceNegativeStart | routes/api/v1/profiles.js:232 | `splice(start, 1)` with `-n <= start < 0` removes element `n + start` and keeps the order of the rest; a start further back than the length removes the first element |
| JsArrays.SpliceMinusOne | routes/api/v1/profiles.js:232 | `splice(-1, 1)` removes the last element, and an empty array stays empty |
| JsArrays.SpliceUndoesUnshift | routes/api/v1/profiles.js:207-232 | removing element 0 after `unshift` gives back the array |
| JsArrays.RemoveByKey | routes/api/v1/profiles.js:228-232 | `splice(keys.indexOf(k), 1)` removes the first element with key k; with no such key it removes the last element, or nothing from an empty array |
| Documents.MissingFields | routes/api/v1/profiles.js:39-51 | the error list is empty exactly when every checked field is present and non-empty, and has at most one error per check |
| Documents.MissingFieldsMembers | routes/api/v1/profiles.js:39-51 | every failed check's error is in the list, and every error in it belongs to a failed check |
| Documents.MissingFieldsOne | routes/api/v1/profiles.js:39-51 | a single check gives its own error when it fails and nothing when it passes |
| Documents.MissingFieldsCons | routes/api/v1/profiles.js:39-51 | the first check's error, if any, comes before the errors of the later checks |
| Documents.MissingFieldsAppend | routes/api/v1/profiles.js:39-51 | the errors of two runs of checks are those of the first followed by those of the second, so the list is one error per failed check, in check order, without duplicates |
| Store.FindProfile | routes/api/v1/profiles.js:15 | `findOne({user})` gives nothing exactly when no profile has that owner; otherwise it gives a stored profile of that owner |
| Store.CountUnique | routes/api/v1/profiles.js:91-95 | when owners are unique, each owner has exactly one profile when present and none otherwise |
| Store.ReplaceOwned | routes/api/v1/profiles.js:209 | `profile.save()` makes the owner's lookup give the saved profile when it had one and changes nothing when it had none; it keeps the length and unique owners and leaves every other owner's profile as it was |
| Store.ReplaceOwnedInPlace | routes/api/v1/profiles.js:209 | after the save, each position holds the same profile as before, except the owner's, which holds the new profile |
| Store.ReplaceOwnedRestores | routes/api/v1/profiles.js:209 | saving the owner's previous profile back undoes a save |
| Store.FindProfileOf | routes/api/v1/profiles.js:15 | when owners are unique, a lookup by a stored profile's owner finds that profile |
| Store.FindProfileSame | routes/api/v1/profiles.js:15 | two stores holding the same profiles for an owner answer that owner's lookup alike |
| Store.DropProfileAtUnique | routes/api/v1/profiles.js:146 | dropping one stored profile keeps owners unique |
| Store.DropProfileAtMembers | routes/api/v1/profiles.js:146 | with unique owners, dropping one stored profile removes exactly the profiles of that owner and keeps all others |
| Store.RemoveOwner | routes/api/v1/profiles.js:146 | `findOneAndDelete({user})` removes exactly the owner's profile, keeps the rest, shrinks the store by one and keeps owners unique; the order is kept by `RemoveOwnerKeepsOrder` |
| Store.RemoveOwnerKeepsOrder | routes/api/v1/profiles.js:146 | the deletion cuts the owner's profile out of the sequence at its position and keeps the others in their order |
| Store.RemoveOwnerKeepsOthers | routes/api/v1/profiles.js:146 | deleting one owner's profile leaves every other owner's lookup unchanged |
| Store.FindPost | routes/api/v1/posts.js:70-80 | `findById` gives nothing exactly when no stored post has that id, a malformed id included; otherwise it gives the post with that id |
| Store.DropPostAtUnique | routes/api/v1/posts.js:101 | dropping one stored post keeps ids unique |
| Store.DropPostAtMembers | routes/api/v1/posts.js:101 | with unique ids, dropping one stored post removes exactly the post with that id and keeps all others |
| Store.RemovePost | routes/api/v1/posts.js:101 | `post.remove()` removes exactly the post with that id, keeps every other post, and afterwards the id is not found; the order is kept by `RemovePostKeepsOrder` |
| Store.RemovePostKeepsOrder | routes/api/v1/posts.js:101 | the removal cuts that post out of the sequence at its position and keeps the others in their order |
| Store.Database.constructor | server.js:7 | the database starts with the given users and no profiles or posts, and is valid |
| ProfileFields.ValidateProfile | routes/api/v1/profiles.js:39-51 | the error list is empty exactly when both `status` and `skills` are present and non-empty; it is exactly the `status` error if that field is missing, followed by the `skills` error if that field is missing |
| ProfileFields.ParseSkills | routes/api/v1/profiles.js:72 | one skill per comma-separated piece, with no comma and no white space at either end |
| ProfileFields.ParseSkillsOfJoinTrims | routes/api/v1/profiles.js:72 | comma-free pieces written with commas parse to those pieces, each trimmed, in order |
| ProfileFields.ParseSkillsOfJoin | routes/api/v1/profiles.js:72 | trimmed, comma-free skills written with commas parse back to the same list, so order and empty skills are kept |
| ProfileFields.ParseSkillsTrimsPieces | routes/api/v1/profiles.js:72 | `"a, b ,c"` parses to `["a","b","c"]` |
| ProfileFields.ParseSkillsKeepsEmptyPieces | routes/api/v1/profiles.js:72 | `"a,,b"` parses to `["a","","b"]` |
| ProfileFields.BuildFields | routes/api/v1/profiles.js:69-88 | owner, status and parsed skills are always set; each optional scalar and each social link is attached exactly when truthy, with that value; `social` is always present |
| ProfileFields.EmptyStringIsAbsent | routes/api/v1/profiles.js:76-88 | an empty string for an optional field builds the same document as leaving the field out |
| ProfileFields.ApplySet | routes/api/v1/profiles.js:91-95 | `$set`: keys in the document overwrite and keys not in it keep their stored values; `social` is replaced whole; experience and education are untouched, and empty on insert |
| ProfileFields.ApplySetIdempotent | routes/api/v1/profiles.js:91-95 | applying the same document twice is the same as applying it once |
| ProfileFields.UpsertProfiles | routes/api/v1/profiles.js:91-95 | the upsert keeps owners unique |
| ProfileFields.UpsertSpec | routes/api/v1/profiles.js:91-95 | after the upsert the owner has exactly one profile, the old one with the document applied or a new one, and the store grows only when none existed |
| ProfileFields.UpsertKeepsOrder | routes/api/v1/profiles.js:91-95 | a new profile is appended at the end of the store; an update rewrites the owner's profile at its position and leaves every other position alone |
| ProfileFields.UpsertKeepsOthers | routes/api/v1/profiles.js:91-95 | the upsert leaves every other owner's profile unchanged |
| ProfilesRoutes.ValidateExperience | routes/api/v1/profiles.js:166-182 | the error list is empty exactly when title, company and from date are all given; it is exactly the error of each missing one, in the order title, company, from |
| ProfilesRoutes.ValidateEducation | routes/api/v1/profiles.js:252-271 | the error list is empty exactly when school, degree, from date and field of study are all given; it is exactly the error of each missing one, in the order school, degree, from, field of study |
| ProfilesRoutes.NewExperience | routes/api/v1/profiles.js:194-202 | the entry has the given id and keeps every request field under its own name, so the request can be read back from it |
| ProfilesRoutes.NewEducation | routes/api/v1/profiles.js:275-283 | the entry has the given id and keeps every request field under its own name, so the request can be read back from it |
| ProfilesRoutes.ExperienceIds | routes/api/v1/profiles.js:228-229 | `.map(item => item.id)` lists each entry's id at its own position |
| ProfilesRoutes.EducationIds | routes/api/v1/profiles.js:309-310 | `.map(item => item.id)` lists each entry's id at its own position |
| ProfilesRoutes.WithExperience | routes/api/v1/profiles.js:207 | the new entry is at index 0, the old list follows, the length grows by one, and nothing else in the profile changes |
| ProfilesRoutes.WithEducation | routes/api/v1/profiles.js:288 | the new entry is at index 0, the old list follows, the length grows by one, and nothing else in the profile changes |
| ProfilesRoutes.WithoutExperience | routes/api/v1/profiles.js:228-232 | a present id removes exactly its first entry and keeps the order; an absent id removes the last entry; an empty list stays empty; nothing else changes |
| ProfilesRoutes.WithoutEducation | routes/api/v1/profiles.js:309-313 | a present id removes exactly its first entry and keeps the order; an absent id removes the last entry; an empty list stays empty; nothing else changes |
| ProfilesRoutes.AddThenRemoveExperience | routes/api/v1/profiles.js:207-232 | adding an entry and then removing it by its id restores the profile |
| ProfilesRoutes.AddThenRemoveEducation | routes/api/v1/profiles.js:288-313 | adding an entry and then removing it by its id restores the profile |
| ProfilesRoutes.AddThenRemoveExperienceInStore | routes/api/v1/profiles.js:205-234 | adding an experience and then removing it by its id restores the whole profile store |
| ProfilesRoutes.GetMe | routes/api/v1/profiles.js:13-29 | 404 "No profile found" when the caller has no profile; otherwise 200 with the caller's stored profile |
| ProfilesRoutes.Upsert | routes/api/v1/profiles.js:34-103 | 400 with the error list and no store change when invalid; otherwise the store becomes the upsert of the built document (exactly one profile for the caller by `UpsertSpec`, others unchanged by `UpsertKeepsOthers`, positions by `UpsertKeepsOrder`), and the answer is the caller's stored profile |
| ProfilesRoutes.GetAll | routes/api/v1/profiles.js:108-116 | 200 with every stored profile, in collection order |
| ProfilesRoutes.GetByUser | routes/api/v1/profiles.js:121-137 | 404 "Profile not found" when that user has no profile; 500 "Server Error" when one exists |
| ProfilesRoutes.DeleteAccount | routes/api/v1/profiles.js:142-155 | the caller's profile and user record are removed, other profiles and all posts stay, and the answer is 201 "User Deleted" |
| ProfilesRoutes.AddExperience | routes/api/v1/profiles.js:161-217 | 400 on missing fields; no response without a profile; otherwise the new entry is first in the caller's saved profile, which is returned |
| ProfilesRoutes.RemoveExperience | routes/api/v1/profiles.js:223-241 | 500 without a profile; otherwise the `indexOf`/`splice` removal is saved and the profile returned |
| ProfilesRoutes.AddEducation | routes/api/v1/profiles.js:247-298 | 400 on missing fields; no response without a profile; otherwise the new entry is first in the caller's saved profile, which is returned |
| ProfilesRoutes.RemoveEducation | routes/api/v1/profiles.js:304-322 | 500 without a profile; otherwise the `indexOf`/`splice` removal is saved and the profile returned |
| LegacyProfileRoutes.GetMe | routes/api/profile.js:13-29 | 404 "No profile found" when the caller has no profile; otherwise 200 with the caller's stored profile |
| LegacyProfileRoutes.Upsert | routes/api/profile.js:34-103 | 400 with no store change when invalid; otherwise the same upsert, the caller has exactly one profile, and the answer is the built document |
| LegacyProfileRoutes.AnswerOmitsStoredFields | routes/api/profile.js:91-97 | a stored company absent from the request is kept in the store but missing from the answer |
| PostsRoutes.ValidatePost | routes/api/v1/posts.js:18-28 | the error list is empty exactly when `text` is given, and is the single "Text is required" error otherwise |
| PostsRoutes.InsertByDate | routes/api/v1/posts.js:57 | inserting a post makes the list one longer |
| PostsRoutes.InsertByDateSorted | routes/api/v1/posts.js:57 | inserting into a newest-first list keeps it newest first, with the new post or the old head in front |
| PostsRoutes.InsertByDatePermutes | routes/api/v1/posts.js:57 | inserting adds exactly that post and loses none |
| PostsRoutes.SortByDateDesc | routes/api/v1/posts.js:57 | `sort({date: -1})` gives the posts by date descending, as a permutation of the stored posts |
| PostsRoutes.Create | routes/api/v1/posts.js:13-50 | 400 without text; 500 when the caller's user record is gone; otherwise a post with the caller as author and the author's name and avatar at that moment is appended and returned |
| PostsRoutes.List | routes/api/v1/posts.js:55-63 | 200 with every stored post, each as often as stored, by date descending |
| PostsRoutes.Get | routes/api/v1/posts.js:68-84 | 404 "Post not found" when no post has the id; otherwise 200 with that post |
| PostsRoutes.Delete | routes/api/v1/posts.js:89-111 | 404 and no change for an absent post; 401 and no change for a non-owner; otherwise exactly that post is removed, the answer is 201, and a later lookup finds nothing |
| AuthReducer.ToStorageString | client/src/reducers/auth.js:24 | `localStorage.setItem` stores a string as it is, and stores empty text only for an empty string or an array |
| AuthReducer.Reduce | client/src/reducers/auth.js:18-59 | no action removes a key from the state; only the login and logout actions touch the stored token; any other action returns the state unchanged |
| AuthReducer.InitialState | client/src/reducers/auth.js:11-16 | token from storage or null, `isAuthenticated` false, `loading` true, `user` null |
| AuthReducer.LoginMergesPayload | client/src/reducers/auth.js:22-30 | every payload key is merged in, `isAuthenticated` is forced true and `loading` false, other keys keep their values, and storage holds `String(payload.token)` |
| AuthReducer.LogoutClears | client/src/reducers/auth.js:31-41 | token and user null, both flags false, the keys are the old ones plus those four, every other key keeps its value, and the stored token is removed |
| AuthReducer.UserLoadedSetsUser | client/src/reducers/auth.js:42-48 | `user` is the payload, `isAuthenticated` true and `loading` false; the keys are the old ones plus those three, every other key (the token among them) keeps its value, and the stored token is unchanged |
| AuthReducer.ClearProfileResets | client/src/reducers/auth.js:49-55 | `profile` null, `repos` empty and `loading` false; every other key and the stored token are unchanged |
| AuthReducer.OtherActionsIgnored | client/src/reducers/auth.js:56-57 | any other action returns the state unchanged |
| AuthReducer.InitialStateInSync | client/src/reducers/auth.js:11-16 | the initial state's token agrees with storage |
| AuthReducer.TokenStaysInSync | client/src/reducers/auth.js:18-59 | every action keeps state token and stored token in agreement, provided a login payload carries its token as a string |
| AuthReducer.LoginWithoutTokenDesyncs | client/src/reducers/auth.js:24-30 | a login payload without a token stores "undefined" while the state keeps its old token, so the two disagree |

## Left out

- The auth middleware (`middleware/auth.js`), with JWT verification, is a foreign library call. The handlers take the caller's id as an input instead.
- Login and registration (`routes/api/auth.js`) rest on bcrypt and JWT signing, which are foreign calls.
- Server wiring (`server.js`), the React components and the axios action are left out. They are UI and I/O with no rules to state.
- Mongoose `populate('user', ['name', 'avatar'])` is left out. A stored profile keeps its owner as an id, and the join is not modelled.
- Subdocument and post ids, and post creation times, are not generated by the model. Each handler takes them as inputs, and a new post's id must not be in use.
- Every handler is one sequential transition. Store atomicity, concurrency and failures of the database itself (other 500 paths) are not modelled.
- Profile and post schema defaults other than empty experience and education lists (`date`, `likes`, `comments`) are left out. The schema files are not part of this model.
- Likes and comments are left out, because no handler for them exists in the code.
- Request body fields are strings, except `current` on experience and education entries, which is a boolean. A value of another type where a string is expected (for example `skills` sent as an array, on which `split` throws before the try block) is not modelled.
- express-validator is reduced to "present and non-empty". It also looks at cookies, headers, params and query, and that is not modelled.
- The validation error entries carry `param`, `msg` and `value`, without `location`.
- Request ids are compared with stored ids as exact strings, taken to be in canonical lower-case hex. `Post.findById` (routes/api/v1/posts.js:70, :92) and `Profile.findOne({ user })` (routes/api/v1/profiles.js:123-125) first cast the request string to an ObjectId, so another spelling of a stored id, such as upper-case hex, finds the document there. That cast is not modelled. The model answers 404 for such a spelling, where GET and DELETE /posts/:id would answer 200 and 201 and GET /profiles/user/:user_id would answer 500.
- The order of posts that share a date is not specified, because the store's sort does not fix it. `PostsRoutes.List` promises only date order and a permutation.
- AuthReducer.Reduce: a REGISTER_SUCCESS or LOGIN_SUCCESS payload must be an object. A string or array payload would be spread as numbered keys, and that is not modelled.
- The reducer's default parameter (`state = initialState`) is modelled by passing `InitialState(stored)` explicitly. JavaScript key order in the state object is not modelled.
- JsStrings.IsWhiteSpace lists the Unicode "Zs" characters as of Unicode 6.3 onward, which no longer counts U+180E as a space. An engine built on an older Unicode version that still trims U+180E is not modelled.
