/** The simpler auth service (src/features/auth/services/auth.service.ts):
    the same user construction without a timeout and without a name
    fallback, and error propagation by throwing. */
module AuthService {
  import opened Wrappers
  import opened Js
  import opened Identity

  /** `signInWithPassword` returned an error, or data for a user. */
  datatype SignInResult = SignInError(err: Thrown) | SignInData(user: SessionUser)

  /** The profile query resolved with `data` (null when there is no row), or threw. */
  datatype ProfileQuery = Rows(data: Option<ProfileRow>) | QueryThrew(err: Thrown)

  /** `getUser` returned an error, no user, or a user. */
  datatype GetUserResult = GetUserError | NoUser | GotUser(user: SessionUser)

  /** A provider call that reports failure through a returned `error` field. */
  datatype ProviderReply<T> = ProviderReply(data: T, error: Option<Thrown>)

  /** The user object the service returns: the raw profile name (possibly
      undefined) and the profile's manager flag or `false`. */
  function ServiceUser(u: SessionUser, data: Option<ProfileRow>): (r: User)
    ensures r.id == u.id && r.email == u.email && r.createdAt == u.createdAt
    ensures data.None? ==> r.name.None?
    ensures data.Some? ==> r.name == data.value.name
    ensures r.isManager <==> data.Some? && data.value.isManager == Some(true)
  {
    User(u.id, u.email, if data.Some? then data.value.name else None, ManagerFlag(data), u.createdAt)
  }

  /** The service user agrees with the context's user on everything but the
      name, and on the name too whenever the profile name is non-empty; with
      no row the service leaves the name undefined where the context falls
      back to the email. */
  lemma ServiceAgreesWithContext(u: SessionUser, data: Option<ProfileRow>)
    ensures var a := ServiceUser(u, data); var b := Resolved(u, data);
            a.id == b.id && a.email == b.email && a.isManager == b.isManager && a.createdAt == b.createdAt
    ensures data.Some? && Truthy(data.value.name) ==> ServiceUser(u, data) == Resolved(u, data)
    ensures data.None? ==> ServiceUser(u, data).name.None? && Resolved(u, data).name.Some?
  {
  }

  /** `authService.login`. */
  function Login(signIn: SignInResult, profile: ProfileQuery): (r: Result<User, Thrown>)
    ensures signIn.SignInError? ==> r == Failure(signIn.err)
    ensures signIn.SignInData? && profile.QueryThrew? ==> r == Failure(profile.err)
    ensures signIn.SignInData? && profile.Rows? ==> r == Success(ServiceUser(signIn.user, profile.data))
  {
    match signIn
    case SignInError(err) => Failure(err)
    case SignInData(u) =>
      match profile
      case QueryThrew(err) => Failure(err)
      case Rows(data) => Success(ServiceUser(u, data))
  }

  /** The provider error is thrown before any profile lookup: the lookup's
      outcome cannot influence a failed login. */
  lemma LoginErrorPrecedesLookup(err: Thrown, p1: ProfileQuery, p2: ProfileQuery)
    ensures Login(SignInError(err), p1) == Login(SignInError(err), p2)
  {
  }

  /** `authService.getCurrentUser`: `null` on a provider error or no user. */
  function GetCurrentUser(g: GetUserResult, profile: ProfileQuery): (r: Result<Option<User>, Thrown>)
    ensures !g.GotUser? ==> r == Success(None)
    ensures g.GotUser? && profile.QueryThrew? ==> r == Failure(profile.err)
    ensures g.GotUser? && profile.Rows? ==>
              r.Success? && r.value.Some? && r.value.value == ServiceUser(g.user, profile.data)
  {
    match g
    case GetUserError => Success(None)
    case NoUser => Success(None)
    case GotUser(u) =>
      match profile
      case QueryThrew(err) => Failure(err)
      case Rows(data) => Success(Some(ServiceUser(u, data)))
  }

  /** `authService.logout`: throws exactly the error `signOut` returns. */
  function Logout(reply: ProviderReply<()>): (r: Result<(), Thrown>)
    ensures r.Failure? <==> reply.error.Some?
    ensures r.Failure? ==> r.error == reply.error.value
  {
    if reply.error.Some? then Failure(reply.error.value) else Success(())
  }

  /** `authService.getSession`: throws the returned error, else returns the session. */
  function GetSession(reply: ProviderReply<Option<SessionUser>>): (r: Result<Option<SessionUser>, Thrown>)
    ensures r.Failure? <==> reply.error.Some?
    ensures r.Failure? ==> r.error == reply.error.value
    ensures r.Success? ==> r.value == reply.data
  {
    if reply.error.Some? then Failure(reply.error.value) else Success(reply.data)
  }
}
