/**
 * The session state machine of the authentication controller: registration, login,
 * logout and refresh-token exchange, each a pure step from a state and a request to a
 * new state, a response and what the response does to the `jwt` cookie.
 *
 * The handlers follow the controller as written. Where it departs from the evident
 * design of token rotation, the contracts say so:
 *  - a successful refresh inserts the new record but keeps the presented one live;
 *  - a successful login keeps a presented cookie's record live when it belongs to the account;
 *  - the refresh-time identity check compares emails, and the new record is keyed by the
 *    id carried in the token's claims.
 */
module AuthController {
  import opened Wrappers
  import opened Accounts
  import opened Jwt
  import opened TokenStore

  datatype State = State(accounts: Directory, tokens: Store)

  datatype Response =
    | Ok(accessToken: Token, claims: Claims)   // the access token and the claims it carries
    | Registered(username: string)
    | NoContent
    | Unauthorized(message: string)
    | Forbidden
    | Conflict(message: string)

  /** The Set-Cookie headers a response carries for the `jwt` cookie, in order. */
  datatype CookieAction = Untouched | Clear | Set(token: Token) | ClearThenSet(token: Token)
  {
    predicate Clears() { Clear? || ClearThenSet? }
  }

  datatype Outcome = Outcome(state: State, response: Response, cookie: CookieAction)

  const DuplicateMessage := "Username or email is already used"
  const LoginFailedMessage := "Email or Password doesn't match with any account"
  /** The body Express sends with a bare 401 status. */
  const UnauthorizedStatusText := "Unauthorized"

  /** Unique usernames and emails, and every token record owned by an existing account. */
  ghost predicate Valid(st: State) {
    && UsernamesUnique(st.accounts)
    && EmailsUnique(st.accounts)
    && forall t :: OwnerKnown(st, t)
  }

  /** The token's record, if there is one, belongs to an account of the directory. */
  predicate OwnerKnown(st: State, t: Token) {
    t in st.tokens ==> st.tokens[t] in st.accounts
  }

  // The effect of each kind of change on the state invariant.

  lemma AddAccountKeepsValid(st: State, id: Id, a: Account)
    requires Valid(st)
    requires id !in st.accounts
    requires !UsernameTaken(st.accounts, a.username) && !EmailTaken(st.accounts, a.email)
    ensures Valid(State(Create(st.accounts, id, a), st.tokens))
  {
    CreateKeepsUnique(st.accounts, id, a);
    var st' := State(Create(st.accounts, id, a), st.tokens);
    forall t ensures OwnerKnown(st', t) {
      assert OwnerKnown(st, t);
    }
  }

  lemma InsertKeepsValid(st: State, t: Token, u: Id)
    requires Valid(st)
    requires t !in st.tokens && u in st.accounts
    ensures Valid(State(st.accounts, Insert(st.tokens, t, u)))
  {
    var st' := State(st.accounts, Insert(st.tokens, t, u));
    forall t' ensures OwnerKnown(st', t') {
      assert OwnerKnown(st, t');
    }
  }

  lemma DeleteByTokenKeepsValid(st: State, t: Token)
    requires Valid(st)
    ensures Valid(State(st.accounts, DeleteByToken(st.tokens, t)))
  {
    var st' := State(st.accounts, DeleteByToken(st.tokens, t));
    forall t' ensures OwnerKnown(st', t') {
      assert OwnerKnown(st, t');
    }
  }

  lemma DeleteAllForKeepsValid(st: State, u: Id)
    requires Valid(st)
    ensures Valid(State(st.accounts, DeleteAllFor(st.tokens, u)))
  {
    var st' := State(st.accounts, DeleteAllFor(st.tokens, u));
    forall t' ensures OwnerKnown(st', t') {
      assert OwnerKnown(st, t');
    }
  }

  // ---------------------------------------------------------------- registration

  /**
   * Creates an account unless the username or the email is taken. The database assigns
   * `freshId` and the role column's default `role`; `hashed` is the salted hash of the
   * submitted password.
   */
  function HandleRegistration(st: State, username: string, email: string, hashed: string,
                              freshId: Id, role: string): (out: Outcome)
    requires Valid(st)
    requires freshId !in st.accounts
    ensures Valid(out.state)
    ensures out.state.tokens == st.tokens && out.cookie == Untouched
    ensures UsernameTaken(st.accounts, username) || EmailTaken(st.accounts, email) <==>
            out.response.Conflict?
    ensures out.response.Conflict? ==>
              out.state == st && out.response.message == DuplicateMessage
    ensures !out.response.Conflict? ==>
              && out.response == Registered(username)
              && out.state.accounts.Keys == st.accounts.Keys + {freshId}
              && |out.state.accounts| == |st.accounts| + 1
              && out.state.accounts[freshId] == Account(username, email, hashed, role)
              && (forall id :: id in st.accounts ==> out.state.accounts[id] == st.accounts[id])
  {
    if UsernameTaken(st.accounts, username) || EmailTaken(st.accounts, email) then
      Outcome(st, Conflict(DuplicateMessage), Untouched)
    else
      var accounts := Create(st.accounts, freshId, Account(username, email, hashed, role));
      AddAccountKeepsValid(st, freshId, Account(username, email, hashed, role));
      Outcome(State(accounts, st.tokens), Registered(username), Untouched)
  }

  // ----------------------------------------------------------------------- login

  /** Some account has this email and the password matches its hash. */
  predicate CredentialsMatch(d: Directory, email: string, password: string,
                             matches: (string, string) -> bool) {
    exists id :: id in d && d[id].email == email && matches(password, d[id].passwordHash)
  }

  /** The login-time reuse signal: a cookie was presented that is not a live record of `id`. */
  predicate ReuseAtLogin(s: Store, id: Id, cookie: Option<Token>) {
    Truthy(cookie) && !IsLiveFor(s, id, cookie.value)
  }

  /**
   * Logs in with email and password. `accessToken` and `refreshToken` are the tokens the
   * controller signs for the account; the refresh token is new to the store.
   */
  function HandleLogin(st: State, email: string, password: string, cookie: Option<Token>,
                       matches: (string, string) -> bool,
                       accessToken: Token, refreshToken: Token): (out: Outcome)
    requires Valid(st)
    requires refreshToken !in st.tokens
    ensures Valid(out.state)
    ensures out.state.accounts == st.accounts
    // unknown email and wrong password are indistinguishable and change nothing
    ensures !CredentialsMatch(st.accounts, email, password, matches) <==> out.response.Unauthorized?
    ensures !CredentialsMatch(st.accounts, email, password, matches) ==>
              out == Outcome(st, Unauthorized(LoginFailedMessage), Untouched)
    ensures CredentialsMatch(st.accounts, email, password, matches) ==>
              && out.response.Ok?
              && (out.cookie.Set? || out.cookie.ClearThenSet?)
              && out.cookie.token == refreshToken && refreshToken in out.state.tokens
    ensures forall id :: id in st.accounts && st.accounts[id].email == email &&
                         matches(password, st.accounts[id].passwordHash) ==>
              && out.response == Ok(accessToken, ClaimsOf(id, st.accounts[id]))
              && out.cookie == (if Truthy(cookie) then ClearThenSet(refreshToken) else Set(refreshToken))
              && IsLiveFor(out.state.tokens, id, refreshToken)
              && out.state.tokens.Keys <= st.tokens.Keys + {refreshToken}
              && (forall v :: v != id ==> RecordsOf(out.state.tokens, v) == RecordsOf(st.tokens, v))
              && (ReuseAtLogin(st.tokens, id, cookie) ==>
                    RecordsOf(out.state.tokens, id) == {refreshToken})
              && (!ReuseAtLogin(st.tokens, id, cookie) ==>
                    RecordsOf(out.state.tokens, id) == RecordsOf(st.tokens, id) + {refreshToken})
  {
    match FindByEmail(st.accounts, email)
    case None => Outcome(st, Unauthorized(LoginFailedMessage), Untouched)
    case Some(id) =>
      var account := st.accounts[id];
      if !matches(password, account.passwordHash) then
        Outcome(st, Unauthorized(LoginFailedMessage), Untouched)
      else
        var tokens := LoginTokens(st.tokens, id, cookie, refreshToken);
        LoginTokensKeepValid(st, id, cookie, refreshToken);
        var action := if Truthy(cookie) then ClearThenSet(refreshToken) else Set(refreshToken);
        Outcome(State(st.accounts, tokens), Ok(accessToken, ClaimsOf(id, account)), action)
  }

  /** The token table after a successful login: on the reuse signal the account's records
      are revoked, then the new refresh token is recorded. */
  function LoginTokens(s: Store, id: Id, cookie: Option<Token>, refreshToken: Token): (s': Store)
    requires refreshToken !in s
    ensures IsLiveFor(s', id, refreshToken)
    ensures s'.Keys <= s.Keys + {refreshToken}
    ensures forall v :: v != id ==> RecordsOf(s', v) == RecordsOf(s, v)
    ensures ReuseAtLogin(s, id, cookie) ==> RecordsOf(s', id) == {refreshToken}
    ensures !ReuseAtLogin(s, id, cookie) ==> RecordsOf(s', id) == RecordsOf(s, id) + {refreshToken}
  {
    var kept := if ReuseAtLogin(s, id, cookie) then DeleteAllFor(s, id) else s;
    Insert(kept, refreshToken, id)
  }

  lemma LoginTokensKeepValid(st: State, id: Id, cookie: Option<Token>, refreshToken: Token)
    requires Valid(st)
    requires id in st.accounts && refreshToken !in st.tokens
    ensures Valid(State(st.accounts, LoginTokens(st.tokens, id, cookie, refreshToken)))
  {
    DeleteAllForKeepsValid(st, id);
    var kept := if ReuseAtLogin(st.tokens, id, cookie) then DeleteAllFor(st.tokens, id) else st.tokens;
    InsertKeepsValid(State(st.accounts, kept), refreshToken, id);
  }

  // ---------------------------------------------------------------------- logout

  /** Logs out the session of the presented cookie, found by token alone. */
  function HandleLogout(st: State, cookie: Option<Token>): (out: Outcome)
    requires Valid(st)
    ensures Valid(out.state)
    ensures out.response == NoContent
    ensures out.state.accounts == st.accounts
    ensures !Truthy(cookie) ==> out.state == st && out.cookie == Untouched
    ensures Truthy(cookie) ==> out.cookie == Clear
    ensures Truthy(cookie) && cookie.value !in st.tokens ==> out.state == st
    ensures Truthy(cookie) && cookie.value in st.tokens ==>
              && cookie.value !in out.state.tokens
              && out.state.tokens.Keys == st.tokens.Keys - {cookie.value}
              && (forall t :: t in out.state.tokens ==> out.state.tokens[t] == st.tokens[t])
  {
    if !Truthy(cookie) then
      Outcome(st, NoContent, Untouched)
    else if cookie.value !in st.tokens then
      Outcome(st, NoContent, Clear)
    else
      DeleteByTokenKeepsValid(st, cookie.value);
      Outcome(State(st.accounts, DeleteByToken(st.tokens, cookie.value)), NoContent, Clear)
  }

  // --------------------------------------------------------------------- refresh

  /**
   * The inputs on which the refresh handler completes. Revocation looks the victim up by
   * the token's email and dereferences it, and a new record is created with the token's
   * id under the foreign key to the user table: both throw when the account is missing.
   */
  predicate RefreshDefined(st: State, cookie: Option<Token>, verify: Token -> Verdict) {
    Truthy(cookie) && verify(cookie.value).Verified? ==>
      var t, c := cookie.value, verify(cookie.value).claims;
      && (t !in st.tokens ==> EmailTaken(st.accounts, c.email))
      && ((t in st.tokens && st.tokens[t] in st.accounts && st.accounts[st.tokens[t]].email == c.email)
          ==> c.id in st.accounts)
  }

  /** A refresh that issues new tokens: the token is live, verifies, and its email is its owner's. */
  predicate RefreshAccepted(st: State, cookie: Option<Token>, verify: Token -> Verdict) {
    && Truthy(cookie)
    && cookie.value in st.tokens
    && st.tokens[cookie.value] in st.accounts
    && verify(cookie.value).Verified?
    && st.accounts[st.tokens[cookie.value]].email == verify(cookie.value).claims.email
  }

  /**
   * Exchanges the refresh token in the cookie for a new access token and refresh token.
   * `accessToken` and `refreshToken` are what the controller signs from the verified
   * claims; the refresh token is new to the store.
   */
  function HandleRefreshToken(st: State, cookie: Option<Token>, verify: Token -> Verdict,
                              accessToken: Token, refreshToken: Token): (out: Outcome)
    requires Valid(st)
    requires RefreshDefined(st, cookie, verify)
    requires refreshToken !in st.tokens
    ensures Valid(out.state)
    ensures out.state.accounts == st.accounts
    ensures !Truthy(cookie) ==> out == Outcome(st, Unauthorized(UnauthorizedStatusText), Untouched)
    ensures Truthy(cookie) ==> out.cookie.Clears()
    ensures out.state.tokens.Keys <= st.tokens.Keys + {refreshToken}
    ensures out.response.Ok? <==> RefreshAccepted(st, cookie, verify)
    ensures Truthy(cookie) && !RefreshAccepted(st, cookie, verify) ==>
              out.response == Forbidden && out.cookie == Clear
    // a token absent from the store: garbage, or a replay that revokes its account
    ensures Truthy(cookie) && cookie.value !in st.tokens && verify(cookie.value).Rejected? ==>
              out.state == st
    ensures Truthy(cookie) && cookie.value !in st.tokens && verify(cookie.value).Verified? ==>
              forall v :: v in st.accounts ==>
                RecordsOf(out.state.tokens, v) ==
                  if st.accounts[v].email == verify(cookie.value).claims.email then {}
                  else RecordsOf(st.tokens, v)
    // a live token that no longer verifies is removed, and only it
    ensures Truthy(cookie) && cookie.value in st.tokens && verify(cookie.value).Rejected? ==>
              && cookie.value !in out.state.tokens
              && out.state.tokens.Keys == st.tokens.Keys - {cookie.value}
              && (forall t :: t in out.state.tokens ==> out.state.tokens[t] == st.tokens[t])
    // a live, verified token whose email is not its owner's changes nothing
    ensures Truthy(cookie) && cookie.value in st.tokens && verify(cookie.value).Verified? &&
            !RefreshAccepted(st, cookie, verify) ==>
              out.state == st
    // an accepted token yields one new record keyed by the claims' id; the old one stays live
    ensures RefreshAccepted(st, cookie, verify) ==>
              && out.response == Ok(accessToken, verify(cookie.value).claims)
              && out.cookie == ClearThenSet(refreshToken)
              && out.state.tokens.Keys == st.tokens.Keys + {refreshToken}
              && out.state.tokens[refreshToken] == verify(cookie.value).claims.id
              && (forall t :: t in st.tokens ==> out.state.tokens[t] == st.tokens[t])
              && cookie.value in out.state.tokens
  {
    if !Truthy(cookie) then
      Outcome(st, Unauthorized(UnauthorizedStatusText), Untouched)
    else
      var t := cookie.value;
      if t !in st.tokens then
        match verify(t)
        case Rejected => Outcome(st, Forbidden, Clear)
        case Verified(c) =>
          var victim := FindByEmail(st.accounts, c.email).value;
          DeleteAllForKeepsValid(st, victim);
          Outcome(State(st.accounts, DeleteAllFor(st.tokens, victim)), Forbidden, Clear)
      else
        assert OwnerKnown(st, t);
        var owner := st.accounts[st.tokens[t]];
        match verify(t)
        case Rejected =>
          DeleteByTokenKeepsValid(st, t);
          Outcome(State(st.accounts, DeleteByToken(st.tokens, t)), Forbidden, Clear)
        case Verified(c) =>
          if owner.email != c.email then
            Outcome(st, Forbidden, Clear)
          else
            InsertKeepsValid(st, refreshToken, c.id);
            Outcome(State(st.accounts, Insert(st.tokens, refreshToken, c.id)),
                    Ok(accessToken, c), ClearThenSet(refreshToken))
  }
}
