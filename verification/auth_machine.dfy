/** The auth provider's state transitions (src/features/auth/context/AuthContext.tsx):
    the record `{user, loading, error, mounted}` and how startup restore,
    auth events, login, logout and teardown change it. Every asynchronous
    operation is one step applied when it completes; the outcome of each
    external call is part of the step. */
module AuthMachine {
  import opened Wrappers
  import opened Js
  import opened Identity

  /** The provider state plus the effect's local `mounted` flag. */
  datatype AuthState = AuthState(user: Option<User>, loading: bool, error: Option<string>, mounted: bool)

  /** State at mount: no user, loading, no error. */
  const Initial := AuthState(None, true, None, true)

  /** The auth provider's event names. */
  datatype EventKind = InitialSession | SignedIn | SignedOut | TokenRefreshed | UserUpdated | PasswordRecovery

  /** Budget of the startup restore and of every event except SIGNED_IN. */
  const DefaultTimeoutMs: nat := 5000
  /** Budget of SIGNED_IN, which expects INITIAL_SESSION to follow. */
  const SignedInTimeoutMs: nat := 2000

  function TimeoutFor(kind: EventKind): (ms: nat)
    ensures kind == SignedIn ==> ms == 2000
    ensures kind != SignedIn ==> ms == 5000
  {
    if kind == SignedIn then SignedInTimeoutMs else DefaultTimeoutMs
  }

  /** What `loadUser` observed: `getSession` returned an error, threw, found
      no session, or found one whose profile query behaved as `query`. */
  datatype RestoreOutcome =
    | SessionError
    | GetSessionThrew
    | NoSession
    | HasSession(session: SessionUser, query: QueryTiming)

  /** What `login` observed: sign-in failed, or it succeeded and the
      (un-raced) profile query threw or resolved with `data`. */
  datatype LoginOutcome =
    | SignInFailed(err: Thrown)
    | ProfileThrew(signedIn: SessionUser, queryErr: Thrown)
    | ProfileFetched(signedIn: SessionUser, data: Option<ProfileRow>)

  /** `supabase.auth.signOut()` either returned (its `{error}` result is not
      inspected) or threw. */
  datatype SignOutOutcome = SignOutReturned | SignOutThrew(err: Thrown)

  /** Whether a command resolved or rethrew to its caller. */
  datatype CommandResult = Completed | Rethrown(err: Thrown)

  /** One completed operation. */
  datatype Step =
    | RestoreCompleted(restore: RestoreOutcome)
    | EventCompleted(kind: EventKind, session: Option<SessionUser>, query: QueryTiming)
    | LoginCompleted(login: LoginOutcome)
    | LogoutCompleted(logout: SignOutOutcome)
    | Unmount

  /** `isAuthenticated: !!user`. */
  predicate IsAuthenticated(s: AuthState)
    ensures IsAuthenticated(s) <==> s.user.Some?
  {
    s.user.Some?
  }

  /** `loadUser`: every path that runs while mounted ends with `loading=false`;
      a session yields a user, anything else yields `null`. */
  function Restore(s: AuthState, o: RestoreOutcome): (r: AuthState)
    ensures !s.mounted ==> r == s
    ensures r.error == s.error && r.mounted == s.mounted
    ensures s.mounted ==> !r.loading
    ensures s.mounted && !o.HasSession? ==> r.user.None?
    ensures s.mounted && o.HasSession? ==>
              r.user == Some(Resolved(o.session, RowOf(Race(o.query, DefaultTimeoutMs))))
  {
    if !s.mounted then s
    else match o
      case SessionError => s.(user := None, loading := false)
      case GetSessionThrew => s.(user := None, loading := false)
      case NoSession => s.(user := None, loading := false)
      case HasSession(session, query) =>
        var lookup := Race(query, DefaultTimeoutMs);
        var u := if lookup == Failed then Degraded(session) else Resolved(session, RowOf(lookup));
        s.(user := Some(u), loading := false)
  }

  /** The `onAuthStateChange` handler, applied when its profile race settles. */
  function OnEvent(s: AuthState, kind: EventKind, session: Option<SessionUser>, query: QueryTiming): (r: AuthState)
    ensures !s.mounted ==> r == s
    ensures r.error == s.error && r.mounted == s.mounted
    ensures s.mounted && session.None? ==> r.user.None? && !r.loading
    ensures session.Some? && kind == SignedIn && Race(query, TimeoutFor(kind)) == Failed ==> r == s
    ensures s.mounted && session.Some? && !(kind == SignedIn && Race(query, TimeoutFor(kind)) == Failed) ==>
              !r.loading && r.user == Some(Resolved(session.value, RowOf(Race(query, TimeoutFor(kind)))))
  {
    if !s.mounted then s
    else if session.None? then s.(user := None, loading := false)
    else
      var lookup := Race(query, TimeoutFor(kind));
      if lookup != Failed then s.(user := Some(Resolved(session.value, RowOf(lookup))), loading := false)
      else if kind == SignedIn then s
      else s.(user := Some(Degraded(session.value)), loading := false)
  }

  /** `login`: clears the error, then either installs the signed-in user or
      records the message and rethrows, leaving `user` as it was. */
  function Login(s: AuthState, o: LoginOutcome): (r: (AuthState, CommandResult))
    ensures r.0.loading == s.loading && r.0.mounted == s.mounted
    ensures r.1.Rethrown? <==> !o.ProfileFetched?
    ensures !o.ProfileFetched? ==>
              r.0.user == s.user && r.0.error == Some(MessageOf(r.1.err, "Error al iniciar sesión"))
    ensures o.SignInFailed? ==> r.1.err == o.err
    ensures o.ProfileFetched? ==>
              r.0.error.None? && r.0.user == Some(Resolved(o.signedIn, o.data))
  {
    match o
    case SignInFailed(err) =>
      (s.(error := Some(MessageOf(err, "Error al iniciar sesión"))), Rethrown(err))
    case ProfileThrew(_, err) =>
      (s.(error := Some(MessageOf(err, "Error al iniciar sesión"))), Rethrown(err))
    case ProfileFetched(session, data) =>
      (s.(error := None, user := Some(Resolved(session, data))), Completed)
  }

  /** `logout`: the user is cleared once `signOut` returns; a throw records
      the message, rethrows and keeps the user. */
  function Logout(s: AuthState, o: SignOutOutcome): (r: (AuthState, CommandResult))
    ensures r.0.loading == s.loading && r.0.mounted == s.mounted
    ensures o.SignOutReturned? ==> r.0.user.None? && r.0.error.None? && r.1 == Completed
    ensures o.SignOutThrew? ==>
              r.0.user == s.user && r.1 == Rethrown(o.err)
              && r.0.error == Some(MessageOf(o.err, "Error al cerrar sesión"))
  {
    match o
    case SignOutReturned => (s.(error := None, user := None), Completed)
    case SignOutThrew(err) => (s.(error := Some(MessageOf(err, "Error al cerrar sesión"))), Rethrown(err))
  }

  /** The effect's cleanup: `mounted = false` and unsubscribe. */
  function Teardown(s: AuthState): (r: AuthState)
    ensures !r.mounted
    ensures r.user == s.user && r.loading == s.loading && r.error == s.error
  {
    s.(mounted := false)
  }

  function Apply(s: AuthState, step: Step): AuthState {
    match step
    case RestoreCompleted(o) => Restore(s, o)
    case EventCompleted(kind, session, query) => OnEvent(s, kind, session, query)
    case LoginCompleted(o) => Login(s, o).0
    case LogoutCompleted(o) => Logout(s, o).0
    case Unmount => Teardown(s)
  }

  function Run(s: AuthState, steps: seq<Step>): AuthState
    decreases |steps|
  {
    if |steps| == 0 then s else Run(Apply(s, steps[0]), steps[1..])
  }

  /** A completion of the startup restore or of an auth-event handler. */
  predicate IsCompletion(step: Step) {
    step.RestoreCompleted? || step.EventCompleted?
  }

  /** Teardown is idempotent, and after it no restore or event completion
      changes any part of the state. */
  lemma {:induction false} TeardownIsFinal(s: AuthState, steps: seq<Step>)
    requires forall k :: 0 <= k < |steps| ==> IsCompletion(steps[k]) || steps[k].Unmount?
    ensures Teardown(Teardown(s)) == Teardown(s)
    ensures Run(Teardown(s), steps) == Teardown(s)
    decreases |steps|
  {
    if |steps| > 0 {
      assert Apply(Teardown(s), steps[0]) == Teardown(s);
      TeardownIsFinal(s, steps[1..]);
    }
  }

  /** Once loading has ended, no step starts it again. */
  lemma {:induction false} LoadingNeverRestarts(s: AuthState, steps: seq<Step>)
    requires !s.loading
    ensures !Run(s, steps).loading
    decreases |steps|
  {
    if |steps| > 0 {
      LoadingNeverRestarts(Apply(s, steps[0]), steps[1..]);
    }
  }

  /** A mounted restore completion ends loading for good, whatever follows. */
  lemma RestoreEndsLoading(s: AuthState, o: RestoreOutcome, rest: seq<Step>)
    requires s.mounted
    ensures !Run(s, [RestoreCompleted(o)] + rest).loading
  {
    assert ([RestoreCompleted(o)] + rest)[1..] == rest;
    LoadingNeverRestarts(Restore(s, o), rest);
  }

  /** Every published user has a non-empty name. */
  predicate UserNamed(s: AuthState) {
    s.user.Some? ==> s.user.value.name.Some? && s.user.value.name.value != ""
  }

  lemma {:induction false} PublishedUsersAreNamed(s: AuthState, steps: seq<Step>)
    requires UserNamed(s)
    ensures UserNamed(Run(s, steps))
    decreases |steps|
  {
    if |steps| > 0 {
      PublishedUsersAreNamed(Apply(s, steps[0]), steps[1..]);
    }
  }

  /** A step that itself carries a profile row whose manager flag is `true`. */
  predicate GrantsManager(step: Step) {
    match step
    case RestoreCompleted(o) =>
      o.HasSession? && ManagerFlag(RowOf(Race(o.query, DefaultTimeoutMs)))
    case EventCompleted(kind, session, query) =>
      session.Some? && ManagerFlag(RowOf(Race(query, TimeoutFor(kind))))
    case LoginCompleted(o) => o.ProfileFetched? && ManagerFlag(o.data)
    case LogoutCompleted(_) => false
    case Unmount => false
  }

  /** Fail-closed across whole runs: a manager user is only ever published by
      a step that carried a flagged profile row (or was already there). */
  lemma {:induction false} ManagerNeedsFlaggedRow(s: AuthState, steps: seq<Step>)
    requires Run(s, steps).user.Some? && Run(s, steps).user.value.isManager
    ensures (s.user.Some? && s.user.value.isManager) || exists k :: 0 <= k < |steps| && GrantsManager(steps[k])
    decreases |steps|
  {
    if |steps| > 0 {
      var s' := Apply(s, steps[0]);
      ManagerNeedsFlaggedRow(s', steps[1..]);
      if s'.user.Some? && s'.user.value.isManager && s'.user != s.user {
        assert GrantsManager(steps[0]);
      } else if !(s'.user.Some? && s'.user.value.isManager) {
        var k :| 0 <= k < |steps[1..]| && GrantsManager(steps[1..][k]);
        assert GrantsManager(steps[k + 1]);
      }
    }
  }

  /** There is no generation counter: when two event completions run back to
      back, the later completion alone decides the state, whichever event
      arrived later. A slow resolution for an older event therefore
      overwrites the state published for a newer one. */
  lemma LastCompletionWins(s: AuthState, first: Step, second: Step)
    requires s.mounted
    requires first.EventCompleted? && second.EventCompleted?
    requires !(second.kind == SignedIn && second.session.Some?
               && Race(second.query, TimeoutFor(second.kind)) == Failed)
    ensures Run(s, [first, second]) == Apply(s, second)
  {
    var s1 := Apply(s, first);
    assert [first, second][1..] == [second];
    assert [second][1..] == [];
    assert Run(s, [first, second]) == Run(s1, [second]);
    assert Run(s1, [second]) == Run(Apply(s1, second), []);
    assert s1.mounted == s.mounted && s1.error == s.error;
  }

  /** A SIGNED_IN whose race fails writes nothing, leaving `loading` as it was
      for the follow-up event; a profile answering after 3000 ms is missed by
      SIGNED_IN but seen by INITIAL_SESSION. */
  lemma SignedInDefersToFollowUp(s: AuthState, session: SessionUser, row: ProfileRow)
    requires s.mounted
    ensures var q := Resolves(3000, Some(row));
            var afterSignedIn := OnEvent(s, SignedIn, Some(session), q);
            afterSignedIn == s
            && OnEvent(afterSignedIn, InitialSession, Some(session), q)
               == s.(user := Some(Resolved(session, Some(row))), loading := false)
  {
  }

  /** `isAuthenticated` after each command: only a login that fetched the
      profile signs a user in, a failed login leaves the flag as it was, and
      a logout signs the user out unless `signOut` threw. */
  lemma CommandsAuthenticate(s: AuthState, l: LoginOutcome, o: SignOutOutcome)
    ensures IsAuthenticated(Login(s, l).0) <==> l.ProfileFetched? || IsAuthenticated(s)
    ensures IsAuthenticated(Logout(s, o).0) <==> o.SignOutThrew? && IsAuthenticated(s)
  {
  }

  /** Repeating a successful login with the same outcome leaves the state as
      the first call left it. */
  lemma LoginRepeatable(s: AuthState, o: LoginOutcome)
    ensures Login(Login(s, o).0, o).0 == Login(s, o).0
  {
  }
}
