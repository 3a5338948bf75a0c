/**
 * Refresh-token rotation as the design intends it: a successful refresh consumes the
 * presented token. It is the controller's refresh handler with the presented record
 * deleted when new tokens are issued; every other outcome is the handler's own.
 */
module CorrectedRotation {
  import opened Wrappers
  import opened Jwt
  import opened TokenStore
  import opened AuthController

  function HandleRefreshRotating(st: State, cookie: Option<Token>, verify: Token -> Verdict,
                                 accessToken: Token, refreshToken: Token): (out: Outcome)
    requires Valid(st)
    requires RefreshDefined(st, cookie, verify)
    requires refreshToken !in st.tokens
    ensures Valid(out.state)
    ensures out.state.accounts == st.accounts
    ensures out.response.Ok? <==> RefreshAccepted(st, cookie, verify)
    ensures !out.response.Ok? ==> out == HandleRefreshToken(st, cookie, verify, accessToken, refreshToken)
    // an accepted token is replaced by the new one, owned by the claims' id
    ensures out.response.Ok? ==>
              && out.response == Ok(accessToken, verify(cookie.value).claims)
              && out.cookie == ClearThenSet(refreshToken)
              && cookie.value !in out.state.tokens
              && out.state.tokens.Keys == st.tokens.Keys - {cookie.value} + {refreshToken}
              && out.state.tokens[refreshToken] == verify(cookie.value).claims.id
              && (forall t :: t in out.state.tokens && t != refreshToken ==> out.state.tokens[t] == st.tokens[t])
  {
    var out := HandleRefreshToken(st, cookie, verify, accessToken, refreshToken);
    if out.response.Ok? then
      DeleteByTokenKeepsValid(out.state, cookie.value);
      Outcome(State(out.state.accounts, DeleteByToken(out.state.tokens, cookie.value)), out.response, out.cookie)
    else
      out
  }
}
