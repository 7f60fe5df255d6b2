/**
 * The authentication context (`src/context/AuthContext.tsx`): the session
 * state, `login` with its remote-then-mock resolution, `logout`, and the
 * persistence of the session in local storage under the key `auth`.
 *
 * The remote call, the mock login, local storage and `JSON.parse` are
 * not modelled as code: what each delivers is an input datatype, which
 * leaves `login` a total transition function.
 */
module Auth {
  import opened Wrappers
  import opened Domain

  /** `AuthState` of `src/types/index.ts`. */
  datatype AuthState = AuthState(
    isAuthenticated: bool,
    user: Option<User>,
    company: Option<Company>,
    loading: bool,
    error: Option<string>)

  const InitialState := AuthState(false, None, None, false, None)

  const InvalidCredentialsError := "Invalid credentials"
  const DefaultLoginError := "Erreur lors de la connexion"
  const ServerError := "Erreur de serveur. Veuillez réessayer plus tard."

  /** The session invariant: authenticated iff exactly one actor is present,
      and no actor at all when signed out. */
  predicate Consistent(s: AuthState) {
    if s.isAuthenticated then s.user.Some? != s.company.Some?
    else s.user.None? && s.company.None?
  }

  datatype Kind = UserLogin | CompanyLogin

  /** What `authAPI.loginUser` / `loginCompany` delivers: it throws (network
      failure, non-2xx status, unreadable body), or it returns a response
      whose `user` and `company` fields may be missing. A body that is not an
      object (a string or a number) is `RemoteReturns(None, None)`; a `null`
      body makes the `data.token` read throw, so it is `RemoteThrows`. */
  datatype RemoteOutcome =
    | RemoteThrows
    | RemoteReturns(user: Option<User>, company: Option<Company>)

  /** What the fallback delivers: the dynamic import of the mock module
      fails, `mockLogin` throws, or it returns `{success, data, error}`.
      `data` is split by kind because `login` casts it to the requested
      kind without a check. */
  datatype MockOutcome =
    | MockImportFails
    | MockThrows
    | MockReturns(success: bool, user: Option<User>, company: Option<Company>, error: Option<string>)

  /** A settled login (the promise resolves with `ok`), or a rejected one,
      which leaves the pending state in place. */
  datatype LoginOutcome =
    | Settled(state: AuthState, ok: bool)
    | Rejected(state: AuthState)

  /** The state set on entry to `login`. */
  function Pending(prev: AuthState): AuthState {
    prev.(loading := true, error := None)
  }

  function SignedIn(kind: Kind, user: Option<User>, company: Option<Company>): AuthState {
    match kind
    case UserLogin => AuthState(true, user, None, false, None)
    case CompanyLogin => AuthState(true, None, company, false, None)
  }

  function SignedOut(message: string): AuthState {
    AuthState(false, None, None, false, Some(message))
  }

  /** `result.error || 'Erreur lors de la connexion'` */
  function MockError(error: Option<string>): string {
    match error
    case Some(e) => if e != "" then e else DefaultLoginError
    case None => DefaultLoginError
  }

  /** The `catch` branch of `login`: the mock fallback. */
  function Fallback(prev: AuthState, kind: Kind, mock: MockOutcome): LoginOutcome {
    match mock
    case MockImportFails => Rejected(Pending(prev))
    case MockThrows => Settled(SignedOut(ServerError), false)
    case MockReturns(success, user, company, error) =>
      var hasData := if kind == UserLogin then user.Some? else company.Some?;
      if success && hasData then Settled(SignedIn(kind, user, company), true)
      else Settled(SignedOut(MockError(error)), false)
  }

  /** `login(email, password, type)`: a clean remote answer decides; only a
      thrown remote call reaches the fallback. */
  function Login(prev: AuthState, kind: Kind, remote: RemoteOutcome, mock: MockOutcome): (r: LoginOutcome)
    ensures r.Settled? ==> (r.ok <==> r.state.isAuthenticated)
    ensures r.Settled? ==> !r.state.loading && Consistent(r.state)
    ensures r.Settled? && r.ok ==> r.state.error.None?
                                   && (kind == UserLogin ==> r.state.user.Some?)
                                   && (kind == CompanyLogin ==> r.state.company.Some?)
    ensures r.Settled? && !r.ok ==> r.state.error.Some?
    ensures r.Rejected? <==> remote.RemoteThrows? && mock.MockImportFails?
    ensures r.Rejected? ==> r.state.loading && r.state.error.None?
                            && r.state.isAuthenticated == prev.isAuthenticated
                            && r.state.user == prev.user && r.state.company == prev.company
  {
    match remote
    case RemoteReturns(user, company) =>
      if kind == UserLogin && user.Some? then Settled(SignedIn(UserLogin, user, None), true)
      else if kind == CompanyLogin && company.Some? then Settled(SignedIn(CompanyLogin, None, company), true)
      else Settled(SignedOut(InvalidCredentialsError), false)
    case RemoteThrows => Fallback(prev, kind, mock)
  }

  /** `logout`: back to the initial state, whatever the current one. */
  function Logout(s: AuthState): (r: AuthState)
    ensures !r.isAuthenticated && r.user.None? && r.company.None?
    ensures !r.loading && r.error.None?
  {
    InitialState
  }

  // ----- Persistence ----------------------------------------------------

  /** The object written under `auth`: the state without `isAuthenticated`. */
  datatype SavedAuth = SavedAuth(user: Option<User>, company: Option<Company>, loading: bool, error: Option<string>)

  /** The storage effect of the persist effect. */
  datatype StorageWrite = Store(record: SavedAuth) | RemoveKey

  /** What the initialiser finds under `auth`: nothing (or an empty string),
      text `JSON.parse` rejects, or a parsed record. */
  datatype StoredAuth = Missing | Unparseable | Parsed(record: SavedAuth)

  /** The persist effect run after every state change. */
  function Persist(s: AuthState): (w: StorageWrite)
    ensures w.Store? <==> s.isAuthenticated
    ensures w.Store? ==> w.record.user == s.user && w.record.company == s.company
                         && w.record.loading == s.loading && w.record.error == s.error
  {
    if s.isAuthenticated then Store(SavedAuth(s.user, s.company, s.loading, s.error))
    else RemoveKey
  }

  /** What a later read of `auth` finds after a write (JSON text round-trips). */
  function ReadBack(w: StorageWrite): StoredAuth {
    match w
    case Store(record) => Parsed(record)
    case RemoveKey => Missing
  }

  /** The lazy initialiser: a parsed record is spread and marked authenticated;
      anything else gives the initial state, without failing. */
  function Restore(stored: StoredAuth): (s: AuthState)
    ensures stored.Parsed? ==> s.isAuthenticated && s.user == stored.record.user
                               && s.company == stored.record.company
                               && s.loading == stored.record.loading && s.error == stored.record.error
    ensures !stored.Parsed? ==> !s.isAuthenticated && s.user.None? && s.company.None?
                                && !s.loading && s.error.None?
  {
    match stored
    case Parsed(r) => AuthState(true, r.user, r.company, r.loading, r.error)
    case _ => InitialState
  }

  // ----- Properties -----------------------------------------------------

  /** The initial state is signed out, idle, without error, and consistent. */
  lemma InitialStateSignedOut()
    ensures !InitialState.isAuthenticated && InitialState.user.None? && InitialState.company.None?
    ensures !InitialState.loading && InitialState.error.None?
    ensures Consistent(InitialState)
  {
  }

  /** Logging out twice is logging out once. */
  lemma LogoutIdempotent(s: AuthState)
    ensures Logout(Logout(s)) == Logout(s) == InitialState
  {
  }

  /** A remote answer carrying the requested actor signs in with that actor
      only; the fallback is not consulted. */
  lemma RemoteSuccess(prev: AuthState, kind: Kind, user: Option<User>, company: Option<Company>, mock: MockOutcome)
    requires kind == UserLogin ==> user.Some?
    requires kind == CompanyLogin ==> company.Some?
    ensures var r := Login(prev, kind, RemoteReturns(user, company), mock);
            && r == Settled(SignedIn(kind, user, company), true)
            && r.state.isAuthenticated
            && (kind == UserLogin ==> r.state.user == user && r.state.company.None?)
            && (kind == CompanyLogin ==> r.state.company == company && r.state.user.None?)
  {
  }

  /** A remote answer without the requested actor is a failure with
      "Invalid credentials", whatever the mock would have said. */
  lemma RemoteRejection(prev: AuthState, kind: Kind, user: Option<User>, company: Option<Company>, mock: MockOutcome)
    requires kind == UserLogin ==> user.None?
    requires kind == CompanyLogin ==> company.None?
    ensures Login(prev, kind, RemoteReturns(user, company), mock)
         == Settled(AuthState(false, None, None, false, Some("Invalid credentials")), false)
  {
  }

  /** The fallback runs only after a thrown remote call: with a clean remote
      answer the mock's outcome cannot change the result. */
  lemma FallbackOnlyOnThrow(prev: AuthState, kind: Kind, remote: RemoteOutcome, mock1: MockOutcome, mock2: MockOutcome)
    requires Login(prev, kind, remote, mock1) != Login(prev, kind, remote, mock2)
    ensures remote.RemoteThrows?
  {
  }

  /** Mock success signs in with the requested kind only. */
  lemma MockSuccess(prev: AuthState, kind: Kind, user: Option<User>, company: Option<Company>, error: Option<string>)
    requires kind == UserLogin ==> user.Some?
    requires kind == CompanyLogin ==> company.Some?
    ensures var r := Login(prev, kind, RemoteThrows, MockReturns(true, user, company, error));
            && r.Settled? && r.ok
            && (kind == UserLogin ==> r.state.user == user && r.state.company.None?)
            && (kind == CompanyLogin ==> r.state.company == company && r.state.user.None?)
  {
  }

  /** Mock failure (unsuccessful, or successful without data of the kind)
      reports the mock's non-empty error, else the default message. */
  lemma MockFailure(prev: AuthState, kind: Kind, success: bool, user: Option<User>, company: Option<Company>, error: Option<string>)
    requires !success || (kind == UserLogin && user.None?) || (kind == CompanyLogin && company.None?)
    ensures var r := Login(prev, kind, RemoteThrows, MockReturns(success, user, company, error));
            && r.Settled? && !r.ok && !r.state.isAuthenticated
            && r.state.error == Some(if error.Some? && error.value != "" then error.value
                                     else "Erreur lors de la connexion")
  {
  }

  /** A throwing mock gives the server-error message. */
  lemma MockThrowsServerError(prev: AuthState, kind: Kind)
    ensures Login(prev, kind, RemoteThrows, MockThrows)
         == Settled(SignedOut("Erreur de serveur. Veuillez réessayer plus tard."), false)
  {
  }

  /** A settled login does not depend on the state it started from. */
  lemma SettledIgnoresPriorState(p1: AuthState, p2: AuthState, kind: Kind, remote: RemoteOutcome, mock: MockOutcome)
    requires Login(p1, kind, remote, mock).Settled?
    ensures Login(p2, kind, remote, mock) == Login(p1, kind, remote, mock)
  {
  }

  /** Persisting an authenticated state and restoring it gives the state back;
      persisting any other state and restoring gives the initial state. */
  lemma PersistRestoreRoundTrip(s: AuthState)
    ensures s.isAuthenticated ==> Restore(ReadBack(Persist(s))) == s
    ensures !s.isAuthenticated ==> Restore(ReadBack(Persist(s))) == InitialState
  {
  }

  /** A restored session is written back unchanged, so start-up does not
      alter what is stored. */
  lemma RestorePersistFixpoint(record: SavedAuth)
    ensures Persist(Restore(Parsed(record))) == Store(record)
  {
  }

  /** The initialiser trusts the record: the restored state satisfies the
      session invariant exactly when the record holds one actor. */
  lemma RestoreConsistentIff(record: SavedAuth)
    ensures Consistent(Restore(Parsed(record))) <==> record.user.Some? != record.company.Some?
  {
  }

  /** Logins (settled or rejected), logouts and restarts keep the session
      invariant, so every state reachable from the initial one satisfies it. */
  lemma ConsistencyPreserved(s: AuthState, kind: Kind, remote: RemoteOutcome, mock: MockOutcome)
    requires Consistent(s)
    ensures Consistent(Login(s, kind, remote, mock).state)
    ensures Consistent(Logout(s))
    ensures Consistent(Restore(ReadBack(Persist(s))))
  {
  }
}
