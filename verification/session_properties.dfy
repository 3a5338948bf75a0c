/**
 * Properties that relate several steps of the session state machine: registration then
 * login, logout then refresh, and the replay of a rotated refresh token, both as the
 * controller is written and with rotation as intended.
 */
module SessionProperties {
  import opened Wrappers
  import opened Accounts
  import opened Jwt
  import opened TokenStore
  import opened AuthController
  import opened CorrectedRotation

  /** What a successful registration leaves behind: the new account, and no session for it. */
  lemma RegisteredWithoutSessions(st: State, username: string, email: string, hashed: string,
                                  freshId: Id, role: string)
    requires Valid(st)
    requires freshId !in st.accounts
    requires !UsernameTaken(st.accounts, username) && !EmailTaken(st.accounts, email)
    ensures var s1 := HandleRegistration(st, username, email, hashed, freshId, role).state;
            && Valid(s1)
            && FindByEmail(s1.accounts, email) == Some(freshId)
            && s1.accounts[freshId] == Account(username, email, hashed, role)
            && RecordsOf(s1.tokens, freshId) == {}
            && s1.tokens == st.tokens
  {
    var s1 := HandleRegistration(st, username, email, hashed, freshId, role).state;
    assert s1.accounts[freshId] == Account(username, email, hashed, role);
    assert RecordsOf(s1.tokens, freshId) == {} by {
      forall t | t in s1.tokens ensures s1.tokens[t] != freshId {
        assert OwnerKnown(st, t);
      }
    }
  }

  /** A freshly registered account can log in with the password its hash was made from. */
  lemma RegisterThenLogin(st: State, username: string, email: string, password: string,
                          hashed: string, freshId: Id, role: string,
                          matches: (string, string) -> bool,
                          accessToken: Token, refreshToken: Token)
    requires Valid(st)
    requires freshId !in st.accounts
    requires !UsernameTaken(st.accounts, username) && !EmailTaken(st.accounts, email)
    requires matches(password, hashed)
    requires refreshToken !in st.tokens
    ensures var s1 := HandleRegistration(st, username, email, hashed, freshId, role).state;
            var out := HandleLogin(s1, email, password, None, matches, accessToken, refreshToken);
            && out.response == Ok(accessToken, Claims(freshId, username, email, role))
            && out.cookie == Set(refreshToken)
            && RecordsOf(out.state.tokens, freshId) == {refreshToken}
  {
    RegisteredWithoutSessions(st, username, email, hashed, freshId, role);
  }

  /** Logging out twice with the same cookie is the same as logging out once. */
  lemma LogoutIsIdempotent(st: State, cookie: Option<Token>)
    requires Valid(st)
    ensures var once := HandleLogout(st, cookie);
            HandleLogout(once.state, cookie) == once
  {
  }

  /** After logging out, the same cookie can no longer be refreshed; if it still verifies,
      presenting it revokes every session of the account its claims name. */
  lemma LogoutThenRefresh(st: State, cookie: Option<Token>, verify: Token -> Verdict,
                          accessToken: Token, refreshToken: Token)
    requires Valid(st)
    requires Truthy(cookie) && cookie.value in st.tokens
    requires verify(cookie.value).Verified? ==> EmailTaken(st.accounts, verify(cookie.value).claims.email)
    requires refreshToken !in st.tokens
    ensures var s1 := HandleLogout(st, cookie).state;
            var out := HandleRefreshToken(s1, cookie, verify, accessToken, refreshToken);
            && out.response == Forbidden
            && (verify(cookie.value).Verified? ==>
                  forall v :: v in st.accounts && st.accounts[v].email == verify(cookie.value).claims.email ==>
                    RecordsOf(out.state.tokens, v) == {})
  {
    var s1 := HandleLogout(st, cookie).state;
    assert cookie.value !in s1.tokens;
    assert RefreshDefined(s1, cookie, verify);
  }

  /** Under a verifier that only accepts claims naming an account by its id and email, the
      email comparison at refresh is exactly the check that the token's owner is the claims' id. */
  lemma EmailCheckIsOwnerCheck(st: State, t: Token, c: Claims)
    requires Valid(st)
    requires t in st.tokens
    requires c.id in st.accounts && st.accounts[c.id].email == c.email
    ensures st.tokens[t] in st.accounts
    ensures st.accounts[st.tokens[t]].email == c.email <==> st.tokens[t] == c.id
  {
    assert OwnerKnown(st, t);
  }

  // ------------------------------------------------------------ replay after rotation

  /** As written: the token a refresh was answered for stays live, so presenting it again
      succeeds again and issues yet another session. */
  lemma ReplayAfterRefreshSucceeds(st: State, t: Token, verify: Token -> Verdict,
                                   access1: Token, fresh1: Token, access2: Token, fresh2: Token)
    requires Valid(st)
    requires RefreshDefined(st, Some(t), verify)
    requires fresh1 !in st.tokens && fresh2 !in st.tokens && fresh1 != fresh2
    requires RefreshAccepted(st, Some(t), verify)
    ensures var s1 := HandleRefreshToken(st, Some(t), verify, access1, fresh1).state;
            && RefreshDefined(s1, Some(t), verify)
            && fresh2 !in s1.tokens
            && HandleRefreshToken(s1, Some(t), verify, access2, fresh2).response.Ok?
  {
    var s1 := HandleRefreshToken(st, Some(t), verify, access1, fresh1).state;
    assert st.tokens[t] in st.accounts;
    assert s1.tokens[t] == st.tokens[t];
  }

  /** As intended: once a token has been rotated, presenting it again is refused and
      revokes every session of the account it was issued to, including the new one. */
  lemma ReplayAfterRotationRevokes(st: State, t: Token, verify: Token -> Verdict,
                                   access1: Token, fresh1: Token, access2: Token, fresh2: Token)
    requires Valid(st)
    requires RefreshDefined(st, Some(t), verify)
    requires fresh1 !in st.tokens && fresh2 !in st.tokens && fresh1 != fresh2
    requires RefreshAccepted(st, Some(t), verify)
    ensures var s1 := HandleRefreshRotating(st, Some(t), verify, access1, fresh1).state;
            && RefreshDefined(s1, Some(t), verify)
            && fresh2 !in s1.tokens
            && var out := HandleRefreshRotating(s1, Some(t), verify, access2, fresh2);
               && out.response == Forbidden
               && out.cookie == Clear
               && RecordsOf(out.state.tokens, st.tokens[t]) == {}
  {
    var s1 := HandleRefreshRotating(st, Some(t), verify, access1, fresh1).state;
    var owner := st.tokens[t];
    var c := verify(t).claims;
    assert owner in s1.accounts && s1.accounts[owner].email == c.email;
    assert t !in s1.tokens;
    assert RefreshDefined(s1, Some(t), verify);
    var out := HandleRefreshRotating(s1, Some(t), verify, access2, fresh2);
    assert !RefreshAccepted(s1, Some(t), verify);
    assert out == HandleRefreshToken(s1, Some(t), verify, access2, fresh2);
  }

  /** The login, rotate, replay sequence with the controller's refresh handler: the
      replayed first token is accepted, and all three tokens stay live. */
  lemma LoginRefreshReplayAsWritten(st: State, id: Id, password: string, matches: (string, string) -> bool,
                                    verify: Token -> Verdict, a1: Token, r1: Token, a2: Token, r2: Token,
                                    a3: Token, r3: Token)
    requires Valid(st)
    requires id in st.accounts && matches(password, st.accounts[id].passwordHash)
    requires verify(r1) == Verified(ClaimsOf(id, st.accounts[id]))
    requires r1 != "" && r1 !in st.tokens && r2 !in st.tokens && r3 !in st.tokens
    requires r1 != r2 && r2 != r3 && r1 != r3
    ensures var s1 := HandleLogin(st, st.accounts[id].email, password, None, matches, a1, r1).state;
            var o2 := HandleRefreshToken(s1, Some(r1), verify, a2, r2);
            var o3 := HandleRefreshToken(o2.state, Some(r1), verify, a3, r3);
            && o2.response.Ok? && o3.response.Ok?
            && {r1, r2, r3} <= RecordsOf(o3.state.tokens, id)
  {
    var s1 := HandleLogin(st, st.accounts[id].email, password, None, matches, a1, r1).state;
    assert IsLiveFor(s1.tokens, id, r1);
    ReplayAfterRefreshSucceeds(s1, r1, verify, a2, r2, a3, r3);
  }

  /** The same sequence with rotation as intended: the replay is refused and the account
      is left with no live session, so it must log in again. */
  lemma LoginRotateReplayRevokes(st: State, id: Id, password: string, matches: (string, string) -> bool,
                                 verify: Token -> Verdict, a1: Token, r1: Token, a2: Token, r2: Token,
                                 a3: Token, r3: Token)
    requires Valid(st)
    requires id in st.accounts && matches(password, st.accounts[id].passwordHash)
    requires verify(r1) == Verified(ClaimsOf(id, st.accounts[id]))
    requires r1 != "" && r1 !in st.tokens && r2 !in st.tokens && r3 !in st.tokens
    requires r1 != r2 && r2 != r3 && r1 != r3
    ensures var s1 := HandleLogin(st, st.accounts[id].email, password, None, matches, a1, r1).state;
            var o2 := HandleRefreshRotating(s1, Some(r1), verify, a2, r2);
            var o3 := HandleRefreshRotating(o2.state, Some(r1), verify, a3, r3);
            && o2.response.Ok? && o3.response == Forbidden
            && RecordsOf(o3.state.tokens, id) == {}
  {
    var s1 := HandleLogin(st, st.accounts[id].email, password, None, matches, a1, r1).state;
    assert IsLiveFor(s1.tokens, id, r1);
    ReplayAfterRotationRevokes(s1, r1, verify, a2, r2, a3, r3);
  }

  // A concrete instance: one account, "alice", logging in once with no cookie.

  const Alice := Account("alice", "alice@example.com", "hash-of-secret", "USER")
  const AliceState := State(map[7 := Alice], map[])
  const AliceMatches: (string, string) -> bool := (p: string, h: string) => p == "secret" && h == "hash-of-secret"
  const AliceVerify: Token -> Verdict :=
    (t: Token) => if t == "R1" || t == "R2" then Verified(ClaimsOf(7, Alice)) else Rejected

  /** The replay of Alice's first refresh token, after it was exchanged for "R2", is
      answered with a new access token by the controller's handler. */
  lemma AliceReplayIsAccepted()
    ensures Valid(AliceState)
    ensures var s1 := HandleLogin(AliceState, "alice@example.com", "secret", None, AliceMatches, "A1", "R1").state;
            Valid(s1) && IsLiveFor(s1.tokens, 7, "R1") && "R2" !in s1.tokens && "R3" !in s1.tokens
            && RefreshDefined(s1, Some("R1"), AliceVerify)
    ensures var s1 := HandleLogin(AliceState, "alice@example.com", "secret", None, AliceMatches, "A1", "R1").state;
            var o2 := HandleRefreshToken(s1, Some("R1"), AliceVerify, "A2", "R2");
            var o3 := HandleRefreshToken(o2.state, Some("R1"), AliceVerify, "A3", "R3");
            o3.response == Ok("A3", ClaimsOf(7, Alice)) && o3.cookie == ClearThenSet("R3")
  {
    assert Valid(AliceState) by {
      forall t ensures OwnerKnown(AliceState, t) {}
    }
    LoginRefreshReplayAsWritten(AliceState, 7, "secret", AliceMatches, AliceVerify, "A1", "R1", "A2", "R2", "A3", "R3");
  }

  /** With rotation as intended the same replay is refused and Alice has no session left. */
  lemma AliceReplayIsRefusedWhenRotating()
    ensures Valid(AliceState)
    ensures var s1 := HandleLogin(AliceState, "alice@example.com", "secret", None, AliceMatches, "A1", "R1").state;
            Valid(s1) && IsLiveFor(s1.tokens, 7, "R1") && "R2" !in s1.tokens && "R3" !in s1.tokens
            && RefreshDefined(s1, Some("R1"), AliceVerify)
    ensures var s1 := HandleLogin(AliceState, "alice@example.com", "secret", None, AliceMatches, "A1", "R1").state;
            var o2 := HandleRefreshRotating(s1, Some("R1"), AliceVerify, "A2", "R2");
            var o3 := HandleRefreshRotating(o2.state, Some("R1"), AliceVerify, "A3", "R3");
            o3.response == Forbidden && RecordsOf(o3.state.tokens, 7) == {}
  {
    assert Valid(AliceState) by {
      forall t ensures OwnerKnown(AliceState, t) {}
    }
    LoginRotateReplayRevokes(AliceState, 7, "secret", AliceMatches, AliceVerify, "A1", "R1", "A2", "R2", "A3", "R3");
  }
}
