/** The front end's authentication store
    (frontend/src/store/slices/authSlice.ts): the reducers and the actions
    the login, register and profile thunks dispatch. The browser's stored
    token is a value passed in and out. */
module AuthSlice {
  import opened Common
  import opened Thunks

  datatype User = User(id: int, username: string, email: string, fullName: Option<string>,
                       isActive: bool, subscriptionTier: string)

  datatype State = State(user: Option<User>, token: Option<string>, isAuthenticated: bool,
                         isLoading: bool, error: Option<string>)

  /** The initial state, given the token found in local storage (none when
      rendering on the server). */
  function Initial(storedToken: Option<string>): (s: State)
    ensures s.token == storedToken && !s.isAuthenticated
    ensures s.user.None? && !s.isLoading && s.error.None?
  {
    State(None, storedToken, false, false, None)
  }

  datatype Thunk = Login | Register | FetchProfile

  datatype Action =
    | Logout
    | ClearError
    | Pending(thunk: Thunk)
    | Rejected(thunk: Thunk, message: string)
    | LoginFulfilled(token: string, user: User)
    | RegisterFulfilled
    | ProfileFulfilled(user: User)

  /** The slice reducer. */
  function Reduce(s: State, a: Action): (r: State)
    ensures a.Logout? ==>
      r.user.None? && r.token.None? && !r.isAuthenticated && r.error.None? && r.isLoading == s.isLoading
    ensures a.ClearError? ==> r == s.(error := None)
    ensures a.Pending? ==> r == s.(isLoading := true, error := None)
    ensures a.Rejected? ==>
      && !r.isLoading && r.error == Some(a.message) && r.user == s.user && r.token == s.token
      && r.isAuthenticated == (if a.thunk == FetchProfile then false else s.isAuthenticated)
    ensures a.LoginFulfilled? ==>
      r == s.(isLoading := false, isAuthenticated := true, token := Some(a.token), user := Some(a.user))
    ensures a.RegisterFulfilled? ==> r == s.(isLoading := false)
    ensures a.ProfileFulfilled? ==> r == s.(isLoading := false, isAuthenticated := true, user := Some(a.user))
  {
    match a
    case Logout => s.(user := None, token := None, isAuthenticated := false, error := None)
    case ClearError => s.(error := None)
    case Pending(_) => s.(isLoading := true, error := None)
    case Rejected(t, m) =>
      var r := s.(isLoading := false, error := Some(m));
      if t == FetchProfile then r.(isAuthenticated := false) else r
    case LoginFulfilled(token, user) =>
      s.(isLoading := false, isAuthenticated := true, token := Some(token), user := Some(user))
    case RegisterFulfilled => s.(isLoading := false)
    case ProfileFulfilled(user) => s.(isLoading := false, isAuthenticated := true, user := Some(user))
  }

  function ReduceAll(s: State, actions: seq<Action>): State
    decreases |actions|
  {
    if |actions| == 0 then s else ReduceAll(Reduce(s, actions[0]), actions[1..])
  }

  /** Only login and a fetched profile authenticate; logout and a rejected
      profile fetch are the only ways to lose authentication. */
  lemma AuthenticationChanges(s: State, a: Action)
    ensures Reduce(s, a).isAuthenticated && !s.isAuthenticated ==> a.LoginFulfilled? || a.ProfileFulfilled?
    ensures !Reduce(s, a).isAuthenticated && s.isAuthenticated ==>
      a.Logout? || (a.Rejected? && a.thunk == FetchProfile)
  {
  }

  /** From a freshly loaded page no sequence of register and clear-error
      actions authenticates, whatever token was restored. */
  lemma {:induction false} RegisterNeverAuthenticates(s: State, actions: seq<Action>)
    requires !s.isAuthenticated
    requires forall i :: 0 <= i < |actions| ==>
      actions[i] == RegisterFulfilled || actions[i] == ClearError || actions[i] == Pending(Register)
      || actions[i].Rejected?
    ensures !ReduceAll(s, actions).isAuthenticated
    decreases |actions|
  {
    if |actions| > 0 {
      RegisterNeverAuthenticates(Reduce(s, actions[0]), actions[1..]);
    }
  }

  // ---------------------------------------------------------------------------
  // Thunks
  // ---------------------------------------------------------------------------

  function Fallback(t: Thunk): string {
    match t
    case Login => "Authentication failed"
    case Register => "Registration failed"
    case FetchProfile => "Failed to fetch user profile"
  }

  /** `login`: the token request, then the profile request with that token;
      a failure of either rejects. */
  function LoginActions(tokenResponse: Outcome<string>, profileResponse: Outcome<User>)
    : (r: seq<Action>)
    ensures |r| == 2 && r[0] == Pending(Login)
    ensures tokenResponse.Success? && profileResponse.Success? ==>
      r[1] == LoginFulfilled(tokenResponse.value, profileResponse.value)
    ensures tokenResponse.Failure? ==> r[1] == Rejected(Login, RejectMessage(tokenResponse.error, Fallback(Login)))
    ensures tokenResponse.Success? && profileResponse.Failure? ==>
      r[1] == Rejected(Login, RejectMessage(profileResponse.error, Fallback(Login)))
  {
    var last := match tokenResponse
      case Failure(f) => Rejected(Login, RejectMessage(f, Fallback(Login)))
      case Success(token) =>
        match profileResponse
        case Failure(f) => Rejected(Login, RejectMessage(f, Fallback(Login)))
        case Success(user) => LoginFulfilled(token, user);
    [Pending(Login), last]
  }

  /** `register`: one request; success does not log in. */
  function RegisterActions(response: Outcome<User>): (r: seq<Action>)
    ensures r == [Pending(Register),
                  if response.Success? then RegisterFulfilled
                  else Rejected(Register, RejectMessage(response.error, Fallback(Register)))]
  {
    match response
    case Success(_) => [Pending(Register), RegisterFulfilled]
    case Failure(f) => [Pending(Register), Rejected(Register, RejectMessage(f, Fallback(Register)))]
  }

  /** `fetchUserProfile`: rejected without a request when there is no token. */
  function ProfileActions(token: Option<string>, response: Outcome<User>): (r: seq<Action>)
    ensures |r| == 2 && r[0] == Pending(FetchProfile)
    ensures !HasToken(token) ==> r[1] == Rejected(FetchProfile, NoToken)
    ensures HasToken(token) && response.Success? ==> r[1] == ProfileFulfilled(response.value)
    ensures HasToken(token) && response.Failure? ==>
      r[1] == Rejected(FetchProfile, RejectMessage(response.error, Fallback(FetchProfile)))
  {
    if !HasToken(token) then [Pending(FetchProfile), Rejected(FetchProfile, NoToken)]
    else match response
      case Success(u) => [Pending(FetchProfile), ProfileFulfilled(u)]
      case Failure(f) => [Pending(FetchProfile), Rejected(FetchProfile, RejectMessage(f, Fallback(FetchProfile)))]
  }

  /** The stored token after `login`: written as soon as the token request
      succeeds, before the profile request. */
  function LoginStorage(stored: Option<string>, tokenResponse: Outcome<string>): (r: Option<string>)
    ensures tokenResponse.Success? ==> r == Some(tokenResponse.value)
    ensures tokenResponse.Failure? ==> r == stored
  {
    if tokenResponse.Success? then Some(tokenResponse.value) else stored
  }

  /** The stored token after `logout`. */
  function LogoutStorage(stored: Option<string>): (r: Option<string>)
    ensures r.None?
  {
    None
  }

  /** Two dispatched actions are reduced in dispatch order. */
  lemma RunTwo(s: State, a: Action, b: Action)
    ensures ReduceAll(s, [a, b]) == Reduce(Reduce(s, a), b)
  {
    assert [a, b][1..] == [b];
    assert ReduceAll(Reduce(s, a), [b]) == Reduce(Reduce(s, a), b) by {
      assert [b][1..] == [];
    }
  }

  /** A login run ends not loading; it is authenticated with the new token
      and user exactly when both requests succeed, and otherwise keeps the
      previous authentication, token and user. */
  lemma LoginRun(s: State, tokenResponse: Outcome<string>, profileResponse: Outcome<User>)
    ensures var r := ReduceAll(s, LoginActions(tokenResponse, profileResponse));
      && !r.isLoading
      && (tokenResponse.Success? && profileResponse.Success? ==>
            r.isAuthenticated && r.token == Some(tokenResponse.value)
            && r.user == Some(profileResponse.value) && r.error.None?)
      && (!(tokenResponse.Success? && profileResponse.Success?) ==>
            r.isAuthenticated == s.isAuthenticated && r.token == s.token && r.user == s.user
            && r.error.Some?)
  {
    var acts := LoginActions(tokenResponse, profileResponse);
    RunTwo(s, acts[0], acts[1]);
    assert acts == [acts[0], acts[1]];
  }

  /** A profile fetch from a restored token authenticates on success; any
      failure, including a missing token, de-authenticates. */
  lemma ProfileRun(s: State, response: Outcome<User>)
    ensures var r := ReduceAll(s, ProfileActions(s.token, response));
      && !r.isLoading
      && (r.isAuthenticated <==> HasToken(s.token) && response.Success?)
      && (!HasToken(s.token) ==> r.error == Some(NoToken))
  {
    var acts := ProfileActions(s.token, response);
    RunTwo(s, acts[0], acts[1]);
    assert acts == [acts[0], acts[1]];
  }

  /** When the token request succeeds and the profile request fails, the
      new token is stored in the browser but the state keeps the old one. */
  lemma LoginStorageDiverges(s: State, stored: Option<string>, token: string, f: RequestFailure)
    requires s.token != Some(token)
    ensures var r := ReduceAll(s, LoginActions(Success(token), Failure(f)));
      LoginStorage(stored, Success(token)) == Some(token) && r.token != Some(token)
  {
    LoginRun(s, Success(token), Failure(f));
  }
}
