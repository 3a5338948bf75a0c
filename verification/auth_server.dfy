/**
 * The server's lifetime as a sequence of requests to the four authentication routes.
 * Each request carries what the collaborators would have produced for it (the password
 * hash, the database id, the signed tokens); the password comparison and the token
 * verifier are fixed for the whole run.
 */
module AuthServer {
  import opened Wrappers
  import opened Accounts
  import opened Jwt
  import opened AuthController

  datatype Request =
    | Register(username: string, email: string, hashed: string, freshId: Id, role: string)
    | Login(email: string, password: string, cookie: Option<Token>, accessToken: Token, refreshToken: Token)
    | Logout(cookie: Option<Token>)
    | Refresh(cookie: Option<Token>, accessToken: Token, refreshToken: Token)

  /** The requests the handlers are defined on in this state: fresh ids and refresh tokens,
      and a refresh that does not dereference a missing account. */
  predicate Admissible(st: State, req: Request, verify: Token -> Verdict) {
    match req
    case Register(_, _, _, id, _) => id !in st.accounts
    case Login(_, _, _, _, r) => r !in st.tokens
    case Logout(_) => true
    case Refresh(c, _, r) => RefreshDefined(st, c, verify) && r !in st.tokens
  }

  /** The refresh token a request may issue. */
  function Issued(req: Request): set<Token> {
    match req
    case Login(_, _, _, _, r) => {r}
    case Refresh(_, _, r) => {r}
    case _ => {}
  }

  function IssuedAll(reqs: seq<Request>): set<Token> {
    if reqs == [] then {} else Issued(reqs[0]) + IssuedAll(reqs[1..])
  }

  /** No account is removed or altered. */
  predicate AccountsKept(before: Directory, after: Directory) {
    before.Keys <= after.Keys && forall id :: id in before ==> after[id] == before[id]
  }

  /** Routes one request to its handler. */
  function Step(st: State, req: Request, matches: (string, string) -> bool,
                verify: Token -> Verdict): (out: Outcome)
    requires Valid(st)
    requires Admissible(st, req, verify)
    ensures Valid(out.state)
    ensures AccountsKept(st.accounts, out.state.accounts)
    ensures out.state.tokens.Keys <= st.tokens.Keys + Issued(req)
    // a cookie is only ever set to a token issued by this request and live afterwards
    ensures out.cookie.Set? || out.cookie.ClearThenSet? ==>
              out.cookie.token in Issued(req) && out.cookie.token in out.state.tokens
    ensures out.response.Ok? ==> out.cookie.Set? || out.cookie.ClearThenSet?
  {
    match req
    case Register(username, email, hashed, id, role) =>
      HandleRegistration(st, username, email, hashed, id, role)
    case Login(email, password, cookie, access, refresh) =>
      HandleLogin(st, email, password, cookie, matches, access, refresh)
    case Logout(cookie) =>
      HandleLogout(st, cookie)
    case Refresh(cookie, access, refresh) =>
      HandleRefreshToken(st, cookie, verify, access, refresh)
  }

  /** Where a run of requests stops: the state reached and how many requests were served. */
  datatype Served = Served(final: State, served: nat)

  /** Serves the requests in order, stopping at the first one that is not admissible. */
  function Run(st: State, reqs: seq<Request>, matches: (string, string) -> bool,
               verify: Token -> Verdict): (r: Served)
    requires Valid(st)
    ensures r.served <= |reqs|
    // the run stops only at a request the handlers are not defined on
    ensures r.served < |reqs| ==> !Admissible(r.final, reqs[r.served], verify)
    ensures Valid(r.final)
    ensures AccountsKept(st.accounts, r.final.accounts)
    // every live refresh token was live at the start or issued by one of the served requests
    ensures r.final.tokens.Keys <= st.tokens.Keys + IssuedAll(reqs[..r.served])
    decreases |reqs|
  {
    if reqs == [] then Served(st, 0)
    else if !Admissible(st, reqs[0], verify) then Served(st, 0)
    else
      var rest := Run(Step(st, reqs[0], matches, verify).state, reqs[1..], matches, verify);
      assert reqs[..rest.served + 1][1..] == reqs[1..][..rest.served];
      Served(rest.final, rest.served + 1)
  }
}
