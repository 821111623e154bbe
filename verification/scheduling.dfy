/** Scheduling a review (src/features/reviews/pages/ScheduleReviewPage.tsx):
    the role-to-employee assignment object, the employee picker filter, the
    all-roles-assigned check and the rows built on submit. */
module Scheduling {
  import opened Wrappers
  import opened Js
  import Identity

  /** An employee row joined with its profession. */
  datatype Employee = Employee(id: string, name: string, isManager: bool, professionName: Option<string>)

  datatype Role = Role(id: string, name: string, description: Option<string>)

  datatype Project = Project(id: string, name: string)

  /** What the page remembers about the employee chosen for a role. */
  datatype Selected = Selected(id: string, name: string, profession: string)

  /** One own property of the `selectedEmployees` object. */
  datatype Entry = Entry(roleId: string, employee: Selected)

  /** The role ids that are keys of the object. */
  function KeySet(a: seq<Entry>): set<string>
    decreases |a|
  {
    if |a| == 0 then {} else {a[0].roleId} + KeySet(a[1..])
  }

  /** No key occurs twice. */
  predicate UniqueKeys(a: seq<Entry>)
    decreases |a|
  {
    |a| == 0 || (a[0].roleId !in KeySet(a[1..]) && UniqueKeys(a[1..]))
  }

  /** `selectedEmployees`: a JavaScript object keyed by role id, kept as its
      properties in insertion order (the order `Object.entries` reports). */
  type Assignments = a: seq<Entry> | UniqueKeys(a) witness []

  /** `selectedEmployees[roleId]`. */
  function Lookup(a: seq<Entry>, roleId: string): (r: Option<Selected>)
    ensures r.None? <==> roleId !in KeySet(a)
    ensures r.Some? ==> exists i :: 0 <= i < |a| && a[i] == Entry(roleId, r.value)
    decreases |a|
  {
    if |a| == 0 then None
    else if a[0].roleId == roleId then Some(a[0].employee)
    else
      var r := Lookup(a[1..], roleId);
      assert r.Some? ==> exists i :: 0 <= i < |a[1..]| && a[1..][i] == Entry(roleId, r.value);
      r
  }

  /** `{ ...a, [roleId]: v }`: the key set gains `roleId`, keys stay unique,
      and a new key goes last (`PutLookup` gives the values). */
  function Put(a: seq<Entry>, roleId: string, v: Selected): (r: seq<Entry>)
    ensures UniqueKeys(a) ==> UniqueKeys(r)
    ensures KeySet(r) == KeySet(a) + {roleId}
    ensures roleId !in KeySet(a) ==> r == a + [Entry(roleId, v)]
    decreases |a|
  {
    if |a| == 0 then [Entry(roleId, v)]
    else if a[0].roleId == roleId then
      Cons(Entry(roleId, v), a[1..]);
      [Entry(roleId, v)] + a[1..]
    else
      var rest := Put(a[1..], roleId, v);
      Cons(a[0], rest);
      assert [a[0]] + (a[1..] + [Entry(roleId, v)]) == a + [Entry(roleId, v)] by {
        assert a == [a[0]] + a[1..];
      }
      [a[0]] + rest
  }

  /** How the key set and key uniqueness see an entry put in front. */
  lemma Cons(e: Entry, rest: seq<Entry>)
    ensures KeySet([e] + rest) == {e.roleId} + KeySet(rest)
    ensures UniqueKeys([e] + rest) == (e.roleId !in KeySet(rest) && UniqueKeys(rest))
  {
    assert ([e] + rest)[1..] == rest;
  }

  /** After the spread-and-assign, `roleId` maps to `v` and every other key keeps its value. */
  lemma {:induction false} PutLookup(a: seq<Entry>, roleId: string, v: Selected)
    ensures Lookup(Put(a, roleId, v), roleId) == Some(v)
    ensures forall k :: k != roleId ==> Lookup(Put(a, roleId, v), k) == Lookup(a, k)
    decreases |a|
  {
    if |a| > 0 && a[0].roleId != roleId {
      var rest := Put(a[1..], roleId, v);
      PutLookup(a[1..], roleId, v);
      assert ([a[0]] + rest)[1..] == rest;
    } else if |a| > 0 {
      assert ([Entry(roleId, v)] + a[1..])[1..] == a[1..];
    }
  }

  /** Re-selecting for a role that already has an entry keeps every key in its place. */
  lemma {:induction false} PutKeepsPositions(a: seq<Entry>, roleId: string, v: Selected)
    requires roleId in KeySet(a)
    ensures |Put(a, roleId, v)| == |a|
    ensures forall i :: 0 <= i < |a| ==> Put(a, roleId, v)[i].roleId == a[i].roleId
    decreases |a|
  {
    if a[0].roleId != roleId {
      PutKeepsPositions(a[1..], roleId, v);
    }
  }

  /** `handleSelectEmployee`: records the employee for the role, with
      "Sin profesión" when the profession is missing; other roles keep their entries. */
  function SelectEmployee(a: Assignments, roleId: string, e: Employee): (r: Assignments)
    ensures Lookup(r, roleId) == Some(Selected(e.id, e.name, Or(e.professionName, "Sin profesión")))
    ensures forall k :: k != roleId ==> Lookup(r, k) == Lookup(a, k)
  {
    PutLookup(a, roleId, Selected(e.id, e.name, Or(e.professionName, "Sin profesión")));
    Put(a, roleId, Selected(e.id, e.name, Or(e.professionName, "Sin profesión")))
  }

  /** `delete a[roleId]`. */
  function Delete(a: seq<Entry>, roleId: string): (r: seq<Entry>)
    ensures KeySet(r) == KeySet(a) - {roleId}
    ensures UniqueKeys(a) ==> UniqueKeys(r)
    ensures Lookup(r, roleId).None?
    ensures forall k :: k != roleId ==> Lookup(r, k) == Lookup(a, k)
    decreases |a|
  {
    if |a| == 0 then []
    else
      var rest := Delete(a[1..], roleId);
      if a[0].roleId == roleId then rest
      else
        assert ([a[0]] + rest)[1..] == rest;
        [a[0]] + rest
  }

  /** `handleRemoveEmployee`: exactly the role's key disappears. */
  function RemoveEmployee(a: Assignments, roleId: string): (r: Assignments)
    ensures Lookup(r, roleId).None?
    ensures forall k :: k != roleId ==> Lookup(r, k) == Lookup(a, k)
  {
    Delete(a, roleId)
  }

  /** Removing a role right after selecting it for a new role restores the object. */
  lemma {:induction false} SelectThenRemove(a: Assignments, roleId: string, e: Employee)
    requires Lookup(a, roleId).None?
    ensures RemoveEmployee(SelectEmployee(a, roleId, e), roleId) == a
  {
    var v := Selected(e.id, e.name, Or(e.professionName, "Sin profesión"));
    DeleteMissing(a, roleId);
    DeleteLast(a, roleId, v);
  }

  lemma {:induction false} DeleteMissing(a: seq<Entry>, roleId: string)
    requires Lookup(a, roleId).None?
    ensures Delete(a, roleId) == a
    decreases |a|
  {
    if |a| > 0 {
      DeleteMissing(a[1..], roleId);
      assert [a[0]] + a[1..] == a;
    }
  }

  lemma {:induction false} DeleteLast(a: seq<Entry>, roleId: string, v: Selected)
    ensures Delete(a + [Entry(roleId, v)], roleId) == Delete(a, roleId)
    decreases |a|
  {
    if |a| > 0 {
      assert (a + [Entry(roleId, v)])[1..] == a[1..] + [Entry(roleId, v)];
      DeleteLast(a[1..], roleId, v);
    }
  }

  /** `Object.values(a).map(emp => emp.id)`. */
  function SelectedIds(a: seq<Entry>): (ids: seq<string>)
    ensures |ids| == |a|
    ensures forall i :: 0 <= i < |a| ==> ids[i] == a[i].employee.id
    decreases |a|
  {
    if |a| == 0 then [] else [a[0].employee.id] + SelectedIds(a[1..])
  }

  /** The picker's list: employees that are not managers and not already
      chosen for some role, in loaded order. */
  function Available(employees: seq<Employee>, a: Assignments): (r: seq<Employee>)
    ensures |r| <= |employees|
    ensures forall e :: e in r ==> e in employees && !e.isManager && e.id !in SelectedIds(a)
    ensures forall e :: e in employees && !e.isManager && e.id !in SelectedIds(a) ==> e in r
    decreases |employees|
  {
    if |employees| == 0 then []
    else
      var rest := Available(employees[1..], a);
      assert forall e :: e in employees ==> e == employees[0] || e in employees[1..];
      var e := employees[0];
      if !e.isManager && e.id !in SelectedIds(a) then [e] + rest else rest
  }

  /** The picker keeps loaded order: the list for a concatenation is the
      concatenation of the lists. */
  lemma {:induction false} AvailableKeepsOrder(x: seq<Employee>, y: seq<Employee>, a: Assignments)
    ensures Available(x + y, a) == Available(x, a) + Available(y, a)
    decreases |x|
  {
    if |x| > 0 {
      assert (x + y)[0] == x[0];
      assert (x + y)[1..] == x[1..] + y;
      AvailableKeepsOrder(x[1..], y, a);
    } else {
      assert x + y == y;
    }
  }

  /** A single employee is offered exactly when it is not a manager and not already chosen. */
  lemma AvailableSingle(e: Employee, a: Assignments)
    ensures Available([e], a) == (if !e.isManager && e.id !in SelectedIds(a) then [e] else [])
  {
    assert [e][1..] == [];
  }

  /** An employee chosen for one role is no longer offered for any role. */
  lemma ChosenEmployeeNotOffered(employees: seq<Employee>, a: Assignments, roleId: string, e: Employee)
    ensures forall x :: x in Available(employees, SelectEmployee(a, roleId, e)) ==> x.id != e.id
  {
    var r := SelectEmployee(a, roleId, e);
    var k :| 0 <= k < |r| && r[k] == Entry(roleId, Selected(e.id, e.name, Or(e.professionName, "Sin profesión")));
    assert SelectedIds(r)[k] == e.id;
  }

  /** `roles.filter(role => !selectedEmployees[role.id])`. */
  function Unassigned(roles: seq<Role>, a: Assignments): (r: seq<Role>)
    ensures |r| <= |roles|
    ensures forall role :: role in r ==> role in roles && Lookup(a, role.id).None?
    ensures forall role :: role in roles && Lookup(a, role.id).None? ==> role in r
    decreases |roles|
  {
    if |roles| == 0 then []
    else
      var rest := Unassigned(roles[1..], a);
      assert forall role :: role in roles ==> role == roles[0] || role in roles[1..];
      if Lookup(a, roles[0].id).None? then [roles[0]] + rest else rest
  }

  /** The check keeps role order: the unassigned roles of a concatenation are
      the concatenation of the unassigned roles. */
  lemma {:induction false} UnassignedKeepsOrder(r1: seq<Role>, r2: seq<Role>, a: Assignments)
    ensures Unassigned(r1 + r2, a) == Unassigned(r1, a) + Unassigned(r2, a)
    decreases |r1|
  {
    if |r1| > 0 {
      assert (r1 + r2)[0] == r1[0];
      assert (r1 + r2)[1..] == r1[1..] + r2;
      UnassignedKeepsOrder(r1[1..], r2, a);
    } else {
      assert r1 + r2 == r2;
    }
  }

  /** A single role is reported exactly when it has no employee. */
  lemma UnassignedSingle(role: Role, a: Assignments)
    ensures Unassigned([role], a) == (if Lookup(a, role.id).None? then [role] else [])
  {
    assert [role][1..] == [];
  }

  function Names(roles: seq<Role>): (names: seq<string>)
    ensures |names| == |roles|
    ensures forall i :: 0 <= i < |roles| ==> names[i] == roles[i].name
    decreases |roles|
  {
    if |roles| == 0 then [] else [roles[0].name] + Names(roles[1..])
  }

  const MissingRolesPrefix := "Debes asignar participantes a todos los roles. Faltan: "

  /** The submit-time check: no error exactly when every loaded role has an
      employee; otherwise the unassigned role names, in role order, joined by ", ". */
  function Validate(roles: seq<Role>, a: Assignments): (r: Option<string>)
    ensures r.None? <==> forall role :: role in roles ==> Lookup(a, role.id).Some?
    ensures r.Some? ==> r.value == MissingRolesPrefix + Join(Names(Unassigned(roles, a)), ", ")
  {
    var missing := Unassigned(roles, a);
    if |missing| > 0 then Some(MissingRolesPrefix + Join(Names(missing), ", ")) else None
  }

  /** The form state. */
  datatype Form = Form(title: string, idProject: string, projectName: string, description: string,
                       part: string, date: string, idStatus: Option<int>)

  /** A new form: empty fields, today's date (`toISOString().split('T')[0]`), no status. */
  function NewForm(nowIso: string): (f: Form)
    ensures f.idStatus.None? && f.idProject == "" && f.projectName == ""
    ensures f.title == "" && f.description == "" && f.part == ""
    ensures f.date <= nowIso && 'T' !in f.date
    ensures |f.date| == |nowIso| || nowIso[|f.date|] == 'T'
  {
    FirstPartIsTextBeforeFirstSep(nowIso, 'T');
    Form("", "", "", "", "", Split(nowIso, 'T')[0], None)
  }

  /** `handleSelectProject`: id and name are set together, nothing else changes. */
  function SelectProject(f: Form, p: Project): (r: Form)
    ensures r.idProject == p.id && r.projectName == p.name
    ensures r.(idProject := f.idProject, projectName := f.projectName) == f
  {
    f.(idProject := p.id, projectName := p.name)
  }

  /** The clear button: id and name are reset together. */
  function ClearProject(f: Form): (r: Form)
    ensures r.idProject == "" && r.projectName == ""
    ensures r.(idProject := f.idProject, projectName := f.projectName) == f
  {
    f.(idProject := "", projectName := "")
  }

  /** The review insert payload: the form without `project_name`, plus the manager id. */
  datatype ReviewPayload = ReviewPayload(idProject: string, title: string, description: string,
                                         part: string, date: string, idStatus: Option<int>,
                                         idManager: Option<string>)

  function Payload(f: Form, user: Option<Identity.User>): (p: ReviewPayload)
    ensures p.idProject == f.idProject && p.title == f.title && p.description == f.description
    ensures p.part == f.part && p.date == f.date && p.idStatus == f.idStatus
    ensures p.idManager.Some? <==> user.Some? && user.value.id != ""
    ensures p.idManager.Some? ==> p.idManager.value == user.value.id
  {
    ReviewPayload(f.idProject, f.title, f.description, f.part, f.date, f.idStatus,
                  if user.Some? then OrNull(user.value.id) else None)
  }

  datatype ParticipantRow = ParticipantRow(idReview: string, idEmployee: string, role: string)

  /** One participant row per assignment entry, in entry order. */
  function Rows(a: seq<Entry>, reviewId: string): (rows: seq<ParticipantRow>)
    ensures |rows| == |a|
    ensures forall i :: 0 <= i < |a| ==> rows[i] == ParticipantRow(reviewId, a[i].employee.id, a[i].roleId)
  {
    seq(|a|, i requires 0 <= i < |a| => ParticipantRow(reviewId, a[i].employee.id, a[i].roleId))
  }

  /** `reviewService.createReview` returned the new review's id or threw. */
  datatype CreateOutcome = Created(reviewId: string) | CreateThrew(err: Thrown)

  /** The participants insert reported an error or not. */
  datatype InsertOutcome = InsertOk | InsertError

  /** What a submit did: the review it created, the rows it sent, the error it
      shows and whether it navigated to the dashboard. */
  datatype SubmitEffects = SubmitEffects(created: Option<ReviewPayload>, sentRows: Option<seq<ParticipantRow>>,
                                         error: Option<string>, navigated: bool)

  const SubmitFallback := "Error al programar la revisión"
  const InsertFailed := "Error al asignar participantes a la revisión"

  /** `handleSubmit`. */
  function Submit(f: Form, roles: seq<Role>, a: Assignments, user: Option<Identity.User>,
                  create: CreateOutcome, insert: InsertOutcome): (r: SubmitEffects)
    ensures Validate(roles, a).Some? ==>
              r == SubmitEffects(None, None, Validate(roles, a), false)
    ensures Validate(roles, a).None? ==> r.created == Some(Payload(f, user))
    ensures r.sentRows.Some? <==> Validate(roles, a).None? && create.Created? && |a| > 0
    ensures r.sentRows.Some? ==> r.sentRows.value == Rows(a, create.reviewId)
    ensures r.navigated <==> r.error.None?
    ensures r.navigated <==> Validate(roles, a).None? && create.Created? && (|a| == 0 || insert.InsertOk?)
    ensures Validate(roles, a).None? && create.CreateThrew? ==>
              r.error == Some(MessageOf(create.err, SubmitFallback))
    ensures Validate(roles, a).None? && create.Created? && |a| > 0 && insert.InsertError? ==>
              r.error == Some(InsertFailed)
  {
    var invalid := Validate(roles, a);
    if invalid.Some? then SubmitEffects(None, None, invalid, false)
    else
      var payload := Payload(f, user);
      match create
      case CreateThrew(err) => SubmitEffects(Some(payload), None, Some(MessageOf(err, SubmitFallback)), false)
      case Created(reviewId) =>
        var rows := Rows(a, reviewId);
        if |rows| == 0 then SubmitEffects(Some(payload), None, None, true)
        else if insert.InsertError? then SubmitEffects(Some(payload), Some(rows), Some(InsertFailed), false)
        else SubmitEffects(Some(payload), Some(rows), None, true)
  }

  /** A submit that navigates has sent one row for every loaded role, each
      naming the employee chosen for that role. */
  lemma NavigatedSubmitCoversEveryRole(f: Form, roles: seq<Role>, a: Assignments, user: Option<Identity.User>,
                                       create: CreateOutcome, insert: InsertOutcome, role: Role)
    requires Submit(f, roles, a, user, create, insert).navigated
    requires role in roles
    ensures var r := Submit(f, roles, a, user, create, insert);
            r.sentRows.Some? &&
            exists i :: 0 <= i < |r.sentRows.value| && r.sentRows.value[i] ==
              ParticipantRow(create.reviewId, Lookup(a, role.id).value.id, role.id)
  {
    var i :| 0 <= i < |a| && a[i] == Entry(role.id, Lookup(a, role.id).value);
    assert Rows(a, create.reviewId)[i] == ParticipantRow(create.reviewId, Lookup(a, role.id).value.id, role.id);
  }
}
