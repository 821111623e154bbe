/** `userService.createUser` (src/features/users/services/user.service.ts):
    sign the user up, restore the administrator's session, then look for the
    employee row a database trigger creates, retrying with a growing delay and
    inserting the row by hand after the last failed attempt.

    Every call into the auth provider and the database is an input: whether a
    session existed, how `signUp` answered, what each of the five fetches
    returned and how the manual insert answered. */
module CreateUser {
  import opened Wrappers
  import opened Js

  const MaxAttempts := 5
  const BackoffStepMs := 1000
  const NoUserCreated := "No se pudo crear el usuario"
  const ManualInsertPrefix := "Error al crear empleado: "
  const UnknownError := "Error desconocido"

  datatype CreateUserData = CreateUserData(email: string, password: string, name: string,
                                           nationalId: Option<string>, isManager: Option<bool>)

  datatype Employee = Employee(id: string, name: string, nationalId: Option<string>, isManager: bool)

  /** The fields sent both as sign-up metadata and in the manual insert. */
  datatype EmployeeFields = EmployeeFields(name: string, nationalId: Option<string>, isManager: bool)

  /** `national_id || null` and `is_manager || false`. */
  function FieldsOf(u: CreateUserData): (f: EmployeeFields)
    ensures f.name == u.name
    ensures f.nationalId.None? <==> (u.nationalId.None? || u.nationalId.value == "")
    ensures f.nationalId.Some? ==> f.nationalId == u.nationalId
    ensures f.isManager <==> u.isManager == Some(true)
  {
    EmployeeFields(u.name, OrNull(u.nationalId.GetOr("")), u.isManager.GetOr(false))
  }

  datatype SignUpOutcome = SignUpError(err: Thrown) | SignUpNoUser | SignedUp(userId: string)

  /** One `employees` lookup: whether an error came back, and the row if any. */
  datatype Fetch = Fetch(failed: bool, data: Option<Employee>)

  /** `!error && data`. */
  predicate Found(f: Fetch) {
    !f.failed && f.data.Some?
  }

  datatype InsertOutcome = Inserted(row: Employee) | InsertError(message: Option<string>)

  /** What one call did: the metadata it signed up with, whether it restored a
      session, the delays it waited before each fetch, the row it inserted by
      hand (with the new user's id), and what it returned or threw. */
  datatype Run = Run(metadata: EmployeeFields, restoredSession: bool, delays: seq<nat>,
                     manualInsert: Option<(string, EmployeeFields)>, result: Result<Employee, Thrown>)

  /** Linear backoff: attempt k (from 1) waits k seconds. */
  function Backoff(n: nat): (d: seq<nat>)
    ensures |d| == n
    ensures forall k :: 0 <= k < n ==> d[k] == BackoffStepMs * (k + 1)
  {
    if n == 0 then [] else Backoff(n - 1) + [BackoffStepMs * n]
  }

  /** The first attempt that finds the row, if any. */
  function FirstFound(fs: seq<Fetch>): (i: Option<nat>)
    ensures i.Some? ==> i.value < |fs| && Found(fs[i.value])
                        && forall k :: 0 <= k < i.value ==> !Found(fs[k])
    ensures i.None? ==> forall k :: 0 <= k < |fs| ==> !Found(fs[k])
  {
    if |fs| == 0 then None
    else if Found(fs[0]) then Some(0)
    else match FirstFound(fs[1..])
      case None => None
      case Some(j) => Some(j + 1)
  }

  /** The declarative account of a call: a sign-up failure stops everything;
      otherwise the first successful fetch wins, and only when all five fail
      is the row inserted by hand. */
  function Expected(u: CreateUserData, hadSession: bool, signUp: SignUpOutcome,
                    fetches: seq<Fetch>, insert: InsertOutcome): (r: Run)
    requires |fetches| == MaxAttempts
    ensures r.metadata == FieldsOf(u)
    ensures r.restoredSession <==> hadSession && signUp.SignedUp?
    ensures |r.delays| <= MaxAttempts
    ensures r.manualInsert.Some? <==> signUp.SignedUp? && FirstFound(fetches).None?
    ensures r.manualInsert.Some? ==> r.manualInsert.value == (signUp.userId, FieldsOf(u))
    ensures signUp.SignUpError? ==> r.result == Failure(signUp.err) && r.delays == []
    ensures signUp.SignUpNoUser? ==> r.result == Failure(ErrorInstance(NoUserCreated)) && r.delays == []
    ensures signUp.SignedUp? && FirstFound(fetches).Some? ==>
              var i := FirstFound(fetches).value;
              r.delays == Backoff(i + 1) && r.result == Success(fetches[i].data.value)
    ensures signUp.SignedUp? && FirstFound(fetches).None? ==>
              r.delays == Backoff(MaxAttempts)
              && (insert.Inserted? ==> r.result == Success(insert.row))
              && (insert.InsertError? ==>
                    r.result == Failure(ErrorInstance(ManualInsertPrefix + Or(insert.message, UnknownError))))
  {
    var meta := FieldsOf(u);
    match signUp
    case SignUpError(err) => Run(meta, false, [], None, Failure(err))
    case SignUpNoUser => Run(meta, false, [], None, Failure(ErrorInstance(NoUserCreated)))
    case SignedUp(id) =>
      match FirstFound(fetches)
      case Some(i) => Run(meta, hadSession, Backoff(i + 1), None, Success(fetches[i].data.value))
      case None =>
        var result := match insert
          case Inserted(row) => Success(row)
          case InsertError(m) => Failure(ErrorInstance(ManualInsertPrefix + Or(m, UnknownError)));
        Run(meta, hadSession, Backoff(MaxAttempts), Some((id, meta)), result)
  }

  /** The retry loop as the service runs it, one attempt per iteration; it
      agrees with `Expected` on every input. */
  method CreateUserCall(u: CreateUserData, hadSession: bool, signUp: SignUpOutcome,
                        fetches: seq<Fetch>, insert: InsertOutcome) returns (r: Run)
    requires |fetches| == MaxAttempts
    ensures r == Expected(u, hadSession, signUp, fetches, insert)
  {
    var meta := FieldsOf(u);
    if signUp.SignUpError? {
      return Run(meta, false, [], None, Failure(signUp.err));
    }
    if signUp.SignUpNoUser? {
      return Run(meta, false, [], None, Failure(ErrorInstance(NoUserCreated)));
    }
    var employee: Option<Employee> := None;
    var attempts := 0;
    var delays: seq<nat> := [];
    var manual: Option<(string, EmployeeFields)> := None;
    while employee.None? && attempts < MaxAttempts
      invariant 0 <= attempts <= MaxAttempts
      invariant delays == Backoff(attempts)
      invariant employee.None? ==> attempts < MaxAttempts && manual.None? && forall k :: 0 <= k < attempts ==> !Found(fetches[k])
      invariant employee.Some? && manual.None? ==>
                  attempts > 0 && FirstFound(fetches) == Some(attempts - 1)
                  && employee.value == fetches[attempts - 1].data.value
      invariant manual.Some? ==>
                  attempts == MaxAttempts && FirstFound(fetches).None?
                  && manual.value == (signUp.userId, meta)
                  && insert.Inserted? && employee == Some(insert.row)
    {
      attempts := attempts + 1;
      delays := delays + [BackoffStepMs * attempts];
      var f := fetches[attempts - 1];
      if Found(f) {
        employee := f.data;
        break;
      }
      if attempts == MaxAttempts {
        match insert
        case InsertError(m) =>
          return Run(meta, hadSession, delays, Some((signUp.userId, meta)),
                     Failure(ErrorInstance(ManualInsertPrefix + Or(m, UnknownError))));
        case Inserted(row) =>
          manual := Some((signUp.userId, meta));
          employee := Some(row);
      }
    }
    // The loop ends with a row: every path that leaves it without one returns.
    r := Run(meta, hadSession, delays, manual, Success(employee.value));
  }

  /** The trigger is waited for at most five times, for 1+2+3+4+5 = 15 seconds
      in all, and a row found on any attempt is never inserted again. */
  lemma {:induction false} WaitIsBounded(u: CreateUserData, hadSession: bool, signUp: SignUpOutcome,
                                         fetches: seq<Fetch>, insert: InsertOutcome)
    requires |fetches| == MaxAttempts
    ensures var r := Expected(u, hadSession, signUp, fetches, insert);
            Total(r.delays) <= 15000
            && (r.manualInsert.Some? ==> forall k :: 0 <= k < MaxAttempts ==> !Found(fetches[k]))
  {
    var r := Expected(u, hadSession, signUp, fetches, insert);
    BackoffTotal(|r.delays|);
    assert r.delays == Backoff(|r.delays|);
  }

  function Total(d: seq<nat>): nat {
    if |d| == 0 then 0 else Total(d[..|d| - 1]) + d[|d| - 1]
  }

  lemma {:induction false} BackoffTotal(n: nat)
    requires n <= MaxAttempts
    ensures Total(Backoff(n)) == BackoffStepMs * n * (n + 1) / 2
    ensures Total(Backoff(n)) <= 15000
  {
    if n > 0 {
      BackoffTotal(n - 1);
      assert Backoff(n)[..n - 1] == Backoff(n - 1);
    }
  }
}
