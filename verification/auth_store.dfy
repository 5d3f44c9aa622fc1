/**
 * The process-wide session record (`useAuthStore`): identity and token fields,
 * five mutators and pure projections. Each mutator merges a partial record into
 * the current one, so every field it does not name is kept.
 */
module AuthStore {
  import opened Optional
  import JsText

  datatype Role = Owner | Customer

  datatype Session = Session(
    role: Option<Role>,
    userId: Option<string>,
    loginId: Option<string>,
    accessToken: Option<string>,
    refreshToken: Option<string>,
    profileImageUrl: Option<string>,
    isAuthenticated: bool)

  datatype AuthInfo = AuthInfo(
    role: Role, userId: string, loginId: string,
    accessToken: string, refreshToken: string, profileImageUrl: Option<string>)

  datatype TokenPair = TokenPair(accessToken: string, refreshToken: string)

  datatype UserInfo = UserInfo(role: Role, userId: string, loginId: string, profileImageUrl: Option<string>)

  /** Calls the session store makes into other stores. */
  datatype Effect = ResetMapState

  datatype Action =
    | SetAuth(auth: AuthInfo)
    | SetTokens(tokens: TokenPair)
    | SetUserInfo(info: UserInfo)
    | SetProfileImageUrl(url: string)
    | ClearAuth

  /** The record the store is created with. */
  const Initial: Session := Session(None, None, None, None, None, None, false)

  /** `profileImageUrl || null` */
  function OptionalUrl(url: Option<string>): (r: Option<string>)
    ensures r.Some? <==> JsText.TruthyText(url)
    ensures r.Some? ==> r == url
  {
    if JsText.TruthyText(url) then url else None
  }

  /** Login: every field is taken from the argument and the session becomes authenticated. */
  function SetAuthOn(s: Session, a: AuthInfo): (r: Session)
    ensures r.role == Some(a.role) && r.userId == Some(a.userId) && r.loginId == Some(a.loginId)
    ensures r.accessToken == Some(a.accessToken) && r.refreshToken == Some(a.refreshToken)
    ensures r.profileImageUrl == OptionalUrl(a.profileImageUrl)
    ensures r.isAuthenticated
  {
    s.(role := Some(a.role), userId := Some(a.userId), loginId := Some(a.loginId),
       accessToken := Some(a.accessToken), refreshToken := Some(a.refreshToken),
       profileImageUrl := OptionalUrl(a.profileImageUrl), isAuthenticated := true)
  }

  /** Token-only update: identity, picture and the authentication flag are untouched. */
  function SetTokensOn(s: Session, t: TokenPair): (r: Session)
    ensures r.accessToken == Some(t.accessToken) && r.refreshToken == Some(t.refreshToken)
    ensures r.role == s.role && r.userId == s.userId && r.loginId == s.loginId
    ensures r.profileImageUrl == s.profileImageUrl && r.isAuthenticated == s.isAuthenticated
  {
    s.(accessToken := Some(t.accessToken), refreshToken := Some(t.refreshToken))
  }

  /** Identity-only update: marks the session authenticated but leaves both tokens as they were. */
  function SetUserInfoOn(s: Session, u: UserInfo): (r: Session)
    ensures r.role == Some(u.role) && r.userId == Some(u.userId) && r.loginId == Some(u.loginId)
    ensures r.profileImageUrl == OptionalUrl(u.profileImageUrl) && r.isAuthenticated
    ensures r.accessToken == s.accessToken && r.refreshToken == s.refreshToken
  {
    s.(role := Some(u.role), userId := Some(u.userId), loginId := Some(u.loginId),
       profileImageUrl := OptionalUrl(u.profileImageUrl), isAuthenticated := true)
  }

  /** Single-field update; the url is stored as given, even when empty. */
  function SetProfileImageUrlOn(s: Session, url: string): (r: Session)
    ensures r.profileImageUrl == Some(url)
    ensures r.role == s.role && r.userId == s.userId && r.loginId == s.loginId
    ensures r.accessToken == s.accessToken && r.refreshToken == s.refreshToken
    ensures r.isAuthenticated == s.isAuthenticated
  {
    s.(profileImageUrl := Some(url))
  }

  /** Logout: back to the initial record, then one reset of the map store. */
  function ClearAuthOn(s: Session): (r: (Session, seq<Effect>))
    ensures r.0.role.None? && r.0.userId.None? && r.0.loginId.None?
    ensures r.0.accessToken.None? && r.0.refreshToken.None? && r.0.profileImageUrl.None?
    ensures !r.0.isAuthenticated
    ensures r.1 == [ResetMapState]
  {
    (Initial, [ResetMapState])
  }

  /** One mutator call: the next record and the calls it makes into other stores. */
  function Apply(s: Session, a: Action): (r: (Session, seq<Effect>))
    ensures r.1 != [] <==> a.ClearAuth?
    ensures a.ClearAuth? ==> r == (Initial, [ResetMapState])
    ensures !a.ClearAuth? && s.isAuthenticated ==> r.0.isAuthenticated
    ensures a.SetTokens? || a.SetProfileImageUrl? ==>
      r.0.role == s.role && r.0.userId == s.userId && r.0.loginId == s.loginId
  {
    match a
    case SetAuth(auth) => (SetAuthOn(s, auth), [])
    case SetTokens(t) => (SetTokensOn(s, t), [])
    case SetUserInfo(u) => (SetUserInfoOn(s, u), [])
    case SetProfileImageUrl(url) => (SetProfileImageUrlOn(s, url), [])
    case ClearAuth => ClearAuthOn(s)
  }

  /** A sequence of mutator calls, in order. */
  function Run(s: Session, actions: seq<Action>): (Session, seq<Effect>)
    decreases |actions|
  {
    if actions == [] then (s, [])
    else
      var (s1, e1) := Apply(s, actions[0]);
      var (s2, e2) := Run(s1, actions[1..]);
      (s2, e1 + e2)
  }

  function IsOwner(s: Session): bool { s.role == Some(Owner) }

  function IsCustomer(s: Session): bool { s.role == Some(Customer) }

  function GetAccessToken(s: Session): Option<string> { s.accessToken }

  function GetRefreshToken(s: Session): Option<string> { s.refreshToken }

  function GetLoginId(s: Session): Option<string> { s.loginId }

  /** The identity fields and the authentication flag are present or absent together. */
  predicate IdentityConsistent(s: Session) {
    && (s.isAuthenticated <==> s.role.Some?)
    && (s.isAuthenticated <==> s.userId.Some?)
    && (s.isAuthenticated <==> s.loginId.Some?)
  }

  /** The store starts logged out with every field empty. */
  lemma InitialIsEmpty()
    ensures Initial.role.None? && Initial.userId.None? && Initial.loginId.None?
    ensures Initial.accessToken.None? && Initial.refreshToken.None? && Initial.profileImageUrl.None?
    ensures !Initial.isAuthenticated && IdentityConsistent(Initial)
  {
  }

  /** Logout from any state is exactly the initial record. */
  lemma ClearAuthIsInitial(s: Session)
    ensures ClearAuthOn(s).0 == Initial
    ensures Apply(s, ClearAuth) == (Initial, [ResetMapState])
  {
  }

  /** Every mutator keeps identity and the authentication flag in step. */
  lemma ApplyKeepsIdentityConsistent(s: Session, a: Action)
    requires IdentityConsistent(s)
    ensures IdentityConsistent(Apply(s, a).0)
  {
  }

  function CountClears(actions: seq<Action>): nat {
    if actions == [] then 0 else (if actions[0].ClearAuth? then 1 else 0) + CountClears(actions[1..])
  }

  /** Along any run from the initial record, identity stays consistent, and the map
      store is reset exactly once per logout and at no other time. */
  lemma {:induction false} RunInvariants(s: Session, actions: seq<Action>)
    requires IdentityConsistent(s)
    ensures IdentityConsistent(Run(s, actions).0)
    ensures |Run(s, actions).1| == CountClears(actions)
    ensures forall k :: 0 <= k < |Run(s, actions).1| ==> Run(s, actions).1[k] == ResetMapState
    decreases |actions|
  {
    if actions != [] {
      ApplyKeepsIdentityConsistent(s, actions[0]);
      RunInvariants(Apply(s, actions[0]).0, actions[1..]);
    }
  }

  /** "Authenticated" does not imply "has tokens": an identity sync right after start-up
      yields an authenticated session without an access or refresh token. */
  lemma AuthenticatedWithoutTokens(u: UserInfo)
    ensures Run(Initial, [SetUserInfo(u)]).0.isAuthenticated
    ensures Run(Initial, [SetUserInfo(u)]).0.accessToken.None?
    ensures Run(Initial, [SetUserInfo(u)]).0.refreshToken.None?
  {
  }

  /** The role projections never both hold, and both fail exactly when there is no role. */
  lemma RoleProjections(s: Session)
    ensures !(IsOwner(s) && IsCustomer(s))
    ensures !IsOwner(s) && !IsCustomer(s) <==> s.role.None?
  {
    match s.role
    case None =>
    case Some(r) => assert r.Owner? || r.Customer?;
  }

  /** The getters read back what the last mutator wrote, and read nothing after logout. */
  lemma GettersObserveMutators(s: Session, a: AuthInfo, t: TokenPair, u: UserInfo)
    ensures GetAccessToken(SetAuthOn(s, a)) == Some(a.accessToken)
    ensures GetRefreshToken(SetAuthOn(s, a)) == Some(a.refreshToken)
    ensures GetLoginId(SetAuthOn(s, a)) == Some(a.loginId)
    ensures GetAccessToken(SetTokensOn(s, t)) == Some(t.accessToken)
    ensures GetRefreshToken(SetTokensOn(s, t)) == Some(t.refreshToken)
    ensures GetLoginId(SetTokensOn(s, t)) == GetLoginId(s)
    ensures GetAccessToken(SetUserInfoOn(s, u)) == GetAccessToken(s)
    ensures GetLoginId(SetUserInfoOn(s, u)) == Some(u.loginId)
    ensures GetAccessToken(ClearAuthOn(s).0).None? && GetRefreshToken(ClearAuthOn(s).0).None?
    ensures GetLoginId(ClearAuthOn(s).0).None?
  {
  }
}
