/** Derivation of the application `User` from an authentication session and
    the optional `employees` row looked up for it
    (src/features/auth/context/AuthContext.tsx). */
module Identity {
  import opened Wrappers
  import opened Js

  /** The part of the provider's session the derivation reads: `session.user`. */
  datatype SessionUser = SessionUser(id: string, email: Option<string>, createdAt: string)

  /** The `employees` row selected as `name, is_manager`; both columns nullable. */
  datatype ProfileRow = ProfileRow(name: Option<string>, isManager: Option<bool>)

  /** The application user (src/features/auth/types/auth.types.ts). `name` is
      optional because the service layer may leave it undefined. */
  datatype User = User(id: string, email: Option<string>, name: Option<string>,
                       isManager: bool, createdAt: string)

  /** The result of racing the profile query against a timer: the query
      resolved with a row, resolved without one, or the race rejected
      (timer fired first, or the query itself rejected). */
  datatype Lookup = Found(row: ProfileRow) | NoRow | Failed

  /** How the profile query behaves in time: it resolves after some delay
      with or without a row, rejects after some delay, or never settles. */
  datatype QueryTiming =
    | Resolves(afterMs: nat, data: Option<ProfileRow>)
    | Rejects(afterMs: nat)
    | NeverSettles

  /** `Promise.race([query, timeout])`: the query wins only if it settles
      strictly before the timer fires. */
  function Race(q: QueryTiming, timeoutMs: nat): (r: Lookup)
    ensures r.Found? ==> q.Resolves? && q.afterMs < timeoutMs && q.data == Some(r.row)
    ensures r.NoRow? ==> q.Resolves? && q.afterMs < timeoutMs && q.data.None?
    ensures q.NeverSettles? || q.afterMs >= timeoutMs ==> r == Failed
    ensures q.Rejects? ==> r == Failed
    ensures q.Resolves? && q.afterMs < timeoutMs && q.data.Some? ==> r == Found(q.data.value)
    ensures q.Resolves? && q.afterMs < timeoutMs && q.data.None? ==> r == NoRow
  {
    match q
    case Resolves(t, data) =>
      if t < timeoutMs then (if data.Some? then Found(data.value) else NoRow) else Failed
    case Rejects(_) => Failed
    case NeverSettles => Failed
  }

  /** A longer budget never loses a row that a shorter budget found. */
  lemma RaceMonotone(q: QueryTiming, shortMs: nat, longMs: nat)
    requires shortMs <= longMs
    ensures Race(q, shortMs).Found? ==> Race(q, longMs) == Race(q, shortMs)
    ensures Race(q, longMs) == Failed ==> Race(q, shortMs) == Failed
  {
  }

  /** The row the derivation sees: `employeeData` is `null` unless a row was found. */
  function RowOf(l: Lookup): Option<ProfileRow> {
    if l.Found? then Some(l.row) else None
  }

  /** `session.user.email?.split('@')[0]`. */
  function EmailLocalPart(email: Option<string>): Option<string> {
    if email.Some? then Some(Split(email.value, '@')[0]) else None
  }

  /** `email?.split('@')[0] || 'Usuario'`. */
  function FallbackName(email: Option<string>): string {
    Or(EmailLocalPart(email), "Usuario")
  }

  /** `employeeData?.name || email?.split('@')[0] || 'Usuario'`. */
  function DisplayName(row: Option<ProfileRow>, email: Option<string>): (name: string)
    ensures name != ""
    ensures row.Some? && Truthy(row.value.name) ==> name == row.value.name.value
    ensures !(row.Some? && Truthy(row.value.name)) ==> name == FallbackName(email)
  {
    if row.Some? && Truthy(row.value.name) then row.value.name.value else FallbackName(email)
  }

  /** `employeeData?.is_manager || false`. */
  function ManagerFlag(row: Option<ProfileRow>): bool {
    row.Some? && row.value.isManager == Some(true)
  }

  /** The user built when the profile query settled in time (the `try` arm). */
  function Resolved(s: SessionUser, row: Option<ProfileRow>): (u: User)
    ensures u.id == s.id && u.email == s.email && u.createdAt == s.createdAt
    ensures u.isManager <==> row.Some? && row.value.isManager == Some(true)
    ensures u.name.Some? && u.name.value != ""
  {
    User(s.id, s.email, Some(DisplayName(row, s.email)), ManagerFlag(row), s.createdAt)
  }

  /** The degraded user built in the `catch` arm: email-derived name, never a manager. */
  function Degraded(s: SessionUser): (u: User)
    ensures u.id == s.id && u.email == s.email && u.createdAt == s.createdAt
    ensures !u.isManager
    ensures u.name.Some? && u.name.value != ""
  {
    User(s.id, s.email, Some(FallbackName(s.email)), false, s.createdAt)
  }

  /** The degraded user is exactly the user built when the query found no row:
      a caller cannot tell a timeout or failure from an absent profile. */
  lemma DegradedIsNoRow(s: SessionUser)
    ensures Degraded(s) == Resolved(s, RowOf(NoRow))
    ensures Degraded(s) == Resolved(s, RowOf(Failed))
  {
  }

  /** The name chain: the profile name when it is non-empty; otherwise the
      text of the email before its first `@` (the whole email when there is
      no `@`) when that is non-empty; otherwise "Usuario". */
  lemma NameChain(row: Option<ProfileRow>, email: Option<string>)
    ensures row.Some? && row.value.name.Some? && row.value.name.value != "" ==>
              DisplayName(row, email) == row.value.name.value
    ensures !(row.Some? && row.value.name.Some? && row.value.name.value != "") ==>
              DisplayName(row, email) == FallbackName(email)
    ensures email.None? ==> FallbackName(email) == "Usuario"
    ensures email.Some? ==>
              var local := FallbackName(email);
              (local == "Usuario" && (email.value == "" || email.value[0] == '@'))
              || (local <= email.value && '@' !in local && local != ""
                  && (local == email.value || email.value[|local|] == '@'))
    ensures email.Some? && '@' !in email.value && email.value != "" ==>
              FallbackName(email) == email.value
  {
    if email.Some? {
      var e := email.value;
      FirstPartIsTextBeforeFirstSep(e, '@');
      var p := Split(e, '@')[0];
      if p == "" && e != "" {
        assert e[0] == '@';
      }
    }
  }

  /** The manager flag is fail-closed: it is set only by a row whose flag is
      `true`; no row, a timeout or a failure always yields `false`. */
  lemma ManagerFlagFailClosed(s: SessionUser, l: Lookup)
    ensures Resolved(s, RowOf(l)).isManager ==> l.Found? && l.row.isManager == Some(true)
    ensures !Degraded(s).isManager
  {
  }
}
