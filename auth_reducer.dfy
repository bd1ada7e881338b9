/**
 * The client's auth reducer. Its state is a JavaScript object, modelled as
 * a map from keys to values, so that object spreads are map unions (the
 * right operand wins). The browser's `localStorage` entry "token" is kept
 * beside the state as `storedToken`: the reducer writes it as a side
 * effect.
 */
module AuthReducer {
  import opened Wrappers

  /** A JavaScript value as the reducer handles it. */
  datatype Value =
    | Undefined
    | Null
    | Bool(b: bool)
    | Str(s: string)
    | Arr(items: seq<Value>)
    | Obj(fields: map<string, Value>)

  type JsObject = map<string, Value>

  datatype ActionType =
    | RegisterSuccess | RegisterFail | UserLoaded | AuthError
    | LoginSuccess | Logout | ClearProfile
    | Other(name: string)

  datatype Action = Action(kind: ActionType, payload: Value)

  /** The reducer's state and the stored token (`None` when removed). */
  datatype AuthState = AuthState(fields: JsObject, storedToken: Option<string>)

  /** `String(v)`, the conversion `localStorage.setItem` applies. */
  function ToStorageString(v: Value): (r: string)
    decreases v, 2
    ensures v.Str? ==> r == v.s
    ensures r == "" ==> v.Str? || v.Arr?
  {
    match v
    case Undefined => "undefined"
    case Null => "null"
    case Bool(b) => if b then "true" else "false"
    case Str(s) => s
    case Obj(_) => "[object Object]"
    case Arr(items) => JoinItems(v, items)
  }

  /** `Array.prototype.toString`: the items joined by commas, with
      `undefined` and `null` items written as empty. */
  function JoinItems(ghost parent: Value, items: seq<Value>): string
    requires forall x :: x in items ==> x < parent
    decreases parent, 1, |items|
  {
    if items == [] then ""
    else
      assert items[0] in items;
      var first := if items[0].Undefined? || items[0].Null? then "" else ToStorageString(items[0]);
      assert forall x :: x in items[1..] ==> x in items;
      if |items| == 1 then first else first + "," + JoinItems(parent, items[1..])
  }

  /** The keys an object spread copies: an object's own properties, and
      none for `undefined`, `null` and booleans. */
  function Spread(v: Value): JsObject {
    if v.Obj? then v.fields else map[]
  }

  /** `payload.token` on an object payload. */
  function TokenOf(payload: Value): Value
    requires payload.Obj?
  {
    if "token" in payload.fields then payload.fields["token"] else Undefined
  }

  /** `initialState`, built when the module loads from what
      `localStorage.getItem('token')` gives then. */
  function InitialState(stored: Option<string>): (s: AuthState)
    ensures s.fields.Keys == {"token", "isAuthenticated", "loading", "user"}
    ensures s.fields["isAuthenticated"] == Bool(false) && s.fields["loading"] == Bool(true)
    ensures s.fields["user"] == Null
    ensures s.fields["token"] == (if stored.Some? then Str(stored.value) else Null)
    ensures s.storedToken == stored
  {
    AuthState(
      map["token" := (if stored.Some? then Str(stored.value) else Null),
          "isAuthenticated" := Bool(false), "loading" := Bool(true), "user" := Null],
      stored)
  }

  predicate IsLogin(k: ActionType) { k == RegisterSuccess || k == LoginSuccess }

  predicate IsLogout(k: ActionType) { k == Logout || k == RegisterFail || k == AuthError }

  /** The reducer. A login payload must be an object: `payload.token` on
      `undefined` or `null` throws. */
  function Reduce(state: AuthState, action: Action): (r: AuthState)
    requires IsLogin(action.kind) ==> action.payload.Obj?
    ensures state.fields.Keys <= r.fields.Keys
    ensures !IsLogin(action.kind) && !IsLogout(action.kind) ==> r.storedToken == state.storedToken
    ensures action.kind.Other? ==> r == state
  {
    match action.kind
    case RegisterSuccess | LoginSuccess =>
      AuthState(
        state.fields + Spread(action.payload)
          + map["isAuthenticated" := Bool(true), "loading" := Bool(false)],
        Some(ToStorageString(TokenOf(action.payload))))
    case Logout | RegisterFail | AuthError =>
      AuthState(
        state.fields + map["token" := Null, "isAuthenticated" := Bool(false),
                           "loading" := Bool(false), "user" := Null],
        None)
    case UserLoaded =>
      AuthState(
        state.fields + map["isAuthenticated" := Bool(true), "loading" := Bool(false),
                           "user" := action.payload],
        state.storedToken)
    case ClearProfile =>
      AuthState(
        state.fields + map["profile" := Null, "repos" := Arr([]), "loading" := Bool(false)],
        state.storedToken)
    case Other(_) => state
  }

  /** REGISTER_SUCCESS / LOGIN_SUCCESS: every payload key is copied, the two
      flags are forced, every other key keeps its value, and the stored
      token becomes `String(payload.token)`. */
  lemma LoginMergesPayload(state: AuthState, action: Action)
    requires IsLogin(action.kind) && action.payload.Obj?
    ensures var r := Reduce(state, action); var pl := action.payload.fields;
      && r.fields.Keys == state.fields.Keys + pl.Keys + {"isAuthenticated", "loading"}
      && r.fields["isAuthenticated"] == Bool(true) && r.fields["loading"] == Bool(false)
      && (forall k :: k in pl && k != "isAuthenticated" && k != "loading" ==> r.fields[k] == pl[k])
      && (forall k :: k in state.fields && k !in pl && k != "isAuthenticated" && k != "loading"
            ==> r.fields[k] == state.fields[k])
      && r.storedToken == Some(ToStorageString(TokenOf(action.payload)))
  {
  }

  /** LOGOUT / REGISTER_FAIL / AUTH_ERROR: token and user cleared, both flags
      false, other keys kept, stored token removed. */
  lemma LogoutClears(state: AuthState, action: Action)
    requires IsLogout(action.kind)
    ensures var r := Reduce(state, action);
      && r.fields["token"] == Null && r.fields["user"] == Null
      && r.fields["isAuthenticated"] == Bool(false) && r.fields["loading"] == Bool(false)
      && r.fields.Keys == state.fields.Keys + {"token", "isAuthenticated", "loading", "user"}
      && (forall k :: k in state.fields && k !in {"token", "isAuthenticated", "loading", "user"}
            ==> r.fields[k] == state.fields[k])
      && r.storedToken.None?
  {
  }

  /** USER_LOADED: the user is the payload, authenticated and not loading;
      every other key, the token among them, and the stored token are left
      as they were. */
  lemma UserLoadedSetsUser(state: AuthState, action: Action)
    requires action.kind == UserLoaded
    ensures var r := Reduce(state, action);
      && r.fields["user"] == action.payload
      && r.fields["isAuthenticated"] == Bool(true) && r.fields["loading"] == Bool(false)
      && r.fields.Keys == state.fields.Keys + {"isAuthenticated", "loading", "user"}
      && (forall k :: k in state.fields && k !in {"isAuthenticated", "loading", "user"}
            ==> r.fields[k] == state.fields[k])
      && r.storedToken == state.storedToken
  {
  }

  /** CLEAR_PROFILE: profile null, repos empty, not loading; every other
      key and the stored token unchanged. */
  lemma ClearProfileResets(state: AuthState, action: Action)
    requires action.kind == ClearProfile
    ensures var r := Reduce(state, action);
      && r.fields["profile"] == Null && r.fields["repos"] == Arr([])
      && r.fields["loading"] == Bool(false)
      && r.fields.Keys == state.fields.Keys + {"profile", "repos", "loading"}
      && (forall k :: k in state.fields && k !in {"profile", "repos", "loading"}
            ==> r.fields[k] == state.fields[k])
      && r.storedToken == state.storedToken
  {
  }

  /** Any other action returns the state unchanged. */
  lemma OtherActionsIgnored(state: AuthState, name: string, payload: Value)
    ensures Reduce(state, Action(Other(name), payload)) == state
  {
  }

  /** The token in the state and the token in storage agree. */
  predicate TokenInSync(s: AuthState) {
    "token" in s.fields &&
    match s.storedToken
    case None => s.fields["token"] == Null
    case Some(t) => s.fields["token"] == Str(t)
  }

  /** The state loaded at start-up agrees with storage, and every action
      keeps the two in agreement as long as a login payload carries its
      token as a string. */
  lemma TokenStaysInSync(state: AuthState, action: Action)
    requires TokenInSync(state)
    requires IsLogin(action.kind) ==> action.payload.Obj? && TokenOf(action.payload).Str?
    ensures TokenInSync(Reduce(state, action))
  {
  }

  lemma InitialStateInSync(stored: Option<string>)
    ensures TokenInSync(InitialState(stored))
  {
  }

  /** A login whose payload has no token stores the text "undefined" while
      the state keeps its old token, so the two no longer agree. */
  lemma LoginWithoutTokenDesyncs(state: AuthState)
    requires TokenInSync(state) && state.fields["token"] != Str("undefined")
    ensures !TokenInSync(Reduce(state, Action(LoginSuccess, Obj(map[]))))
  {
    var r := Reduce(state, Action(LoginSuccess, Obj(map[])));
    assert r.storedToken == Some("undefined");
    assert r.fields["token"] == state.fields["token"];
  }
}
