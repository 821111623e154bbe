/** The client-side join behind an employee's review history
    (src/features/employees/pages/EmployeesPage.tsx, `loadEmployeeReviews`):
    participants are combined with reviews, roles, projects and statuses
    fetched by id lists, with fixed defaults for anything missing. */
module EmployeeReviews {
  import opened Wrappers
  import opened Js

  datatype ParticipantRow = ParticipantRow(id: string, role: string, idReview: string)

  datatype ReviewRow = ReviewRow(id: string, title: Option<string>, description: Option<string>,
                                 date: Option<string>, part: Option<string>,
                                 idProject: Option<string>, idStatus: Option<int>)

  datatype RoleRow = RoleRow(id: string, name: Option<string>)

  datatype ProjectRow = ProjectRow(id: string, name: Option<string>)

  datatype StatusRow = StatusRow(id: int, name: Option<string>)

  /** `review_statuses: { name } | null`. */
  datatype StatusRef = StatusRef(name: Option<string>)

  datatype JoinedReview = JoinedReview(id: string, title: string, description: string, date: string,
                                       part: string, projectName: string, status: Option<StatusRef>)

  /** One entry of the employee's review history. */
  datatype EmployeeReview = EmployeeReview(id: string, role: string, review: JoinedReview, roleName: string)

  /** `array.find(pred)`: the first element satisfying `pred`, if any. */
  function Find<T>(s: seq<T>, pred: T -> bool): (r: Option<T>)
    ensures r.None? <==> forall i :: 0 <= i < |s| ==> !pred(s[i])
    ensures r.Some? ==> exists i :: 0 <= i < |s| && s[i] == r.value && pred(r.value)
                                    && forall j :: 0 <= j < i ==> !pred(s[j])
    decreases |s|
  {
    if |s| == 0 then None
    else if pred(s[0]) then Some(s[0])
    else
      var r := Find(s[1..], pred);
      assert r.Some? ==> exists i :: 0 <= i < |s| && s[i] == r.value && pred(r.value)
                                     && forall j :: 0 <= j < i ==> !pred(s[j]) by {
        if r.Some? {
          var i :| 0 <= i < |s[1..]| && s[1..][i] == r.value && pred(r.value)
                   && forall j :: 0 <= j < i ==> !pred(s[1..][j]);
          forall j | 0 <= j < i + 1 ensures !pred(s[j]) {
            if j > 0 { assert s[j] == s[1..][j - 1]; }
          }
          assert s[i + 1] == r.value;
        }
      }
      r
  }

  /** `find` returns the element at the first index that satisfies `pred`. */
  lemma FindIsFirst<T>(s: seq<T>, pred: T -> bool, k: nat)
    requires k < |s| && pred(s[k])
    requires forall j :: 0 <= j < k ==> !pred(s[j])
    ensures Find(s, pred) == Some(s[k])
  {
    var i :| 0 <= i < |s| && s[i] == Find(s, pred).value && pred(s[i])
             && forall j :: 0 <= j < i ==> !pred(s[j]);
    assert i == k;
  }

  /** `data?.find(pred)` on a result that may be `null`. */
  function FindIn<T>(s: Option<seq<T>>, pred: T -> bool): Option<T> {
    if s.Some? then Find(s.value, pred) else None
  }

  /** Combines one participant with its review, role, project and status. */
  function JoinOne(p: ParticipantRow, reviews: seq<ReviewRow>, roles: seq<RoleRow>,
                   projects: Option<seq<ProjectRow>>, statuses: Option<seq<StatusRow>>): (r: EmployeeReview)
    ensures r.id == p.id && r.role == p.role
  {
    var review := Find(reviews, (r: ReviewRow) => r.id == p.idReview);
    var role := Find(roles, (r: RoleRow) => r.id == p.role);
    var project := FindIn(projects, (x: ProjectRow) => review.Some? && review.value.idProject == Some(x.id));
    var status := FindIn(statuses, (x: StatusRow) => review.Some? && review.value.idStatus == Some(x.id));
    EmployeeReview(
      p.id, p.role,
      JoinedReview(
        if review.Some? then Or(Some(review.value.id), "") else "",
        if review.Some? then Or(review.value.title, "") else "",
        if review.Some? then Or(review.value.description, "") else "",
        if review.Some? then Or(review.value.date, "") else "",
        if review.Some? then Or(review.value.part, "") else "",
        Or(if project.Some? then project.value.name else None, "Sin proyecto"),
        if status.Some? then Some(StatusRef(status.value.name)) else None),
      Or(if role.Some? then role.value.name else None, "Sin rol"))
  }

  /** `data.map(participant => ...)`. */
  function Transform(ps: seq<ParticipantRow>, reviews: seq<ReviewRow>, roles: seq<RoleRow>,
                     projects: Option<seq<ProjectRow>>, statuses: Option<seq<StatusRow>>): (r: seq<EmployeeReview>)
    ensures |r| == |ps|
    ensures forall i :: 0 <= i < |ps| ==> r[i] == JoinOne(ps[i], reviews, roles, projects, statuses)
    decreases |ps|
  {
    if |ps| == 0 then []
    else [JoinOne(ps[0], reviews, roles, projects, statuses)] + Transform(ps[1..], reviews, roles, projects, statuses)
  }

  /** What one history entry shows. The review, role, project and status are
      the first fetched rows that match (see `Find`). A missing review gives
      empty texts; a missing project, or one without a name, "Sin proyecto"; a
      missing role, or one without a name, "Sin rol"; the status is null
      exactly when no fetched status row matches the review's status id.
      Found values are shown as they are, with `|| ''` applied to the texts. */
  lemma JoinDefaults(p: ParticipantRow, reviews: seq<ReviewRow>, roles: seq<RoleRow>,
                     projects: Option<seq<ProjectRow>>, statuses: Option<seq<StatusRow>>)
    ensures var e := JoinOne(p, reviews, roles, projects, statuses);
            var review := Find(reviews, (r: ReviewRow) => r.id == p.idReview);
            && (review.None? ==>
                  e.review.id == "" && e.review.title == "" && e.review.description == ""
                  && e.review.date == "" && e.review.part == "")
            && (review.Some? ==>
                  e.review.id == review.value.id
                  && e.review.title == Or(review.value.title, "")
                  && e.review.description == Or(review.value.description, "")
                  && e.review.date == Or(review.value.date, "")
                  && e.review.part == Or(review.value.part, ""))
    ensures var e := JoinOne(p, reviews, roles, projects, statuses);
            var review := Find(reviews, (r: ReviewRow) => r.id == p.idReview);
            var project := FindIn(projects, (x: ProjectRow) => review.Some? && review.value.idProject == Some(x.id));
            && ((review.None? || projects.None?) ==> e.review.projectName == "Sin proyecto")
            && (review.Some? && projects.Some?
                && (forall k :: 0 <= k < |projects.value| ==> review.value.idProject != Some(projects.value[k].id))
                ==> e.review.projectName == "Sin proyecto")
            && (project.Some? ==> e.review.projectName == Or(project.value.name, "Sin proyecto"))
    ensures var e := JoinOne(p, reviews, roles, projects, statuses);
            var role := Find(roles, (r: RoleRow) => r.id == p.role);
            && ((forall k :: 0 <= k < |roles| ==> roles[k].id != p.role) ==> e.roleName == "Sin rol")
            && (role.Some? ==> e.roleName == Or(role.value.name, "Sin rol"))
    ensures var e := JoinOne(p, reviews, roles, projects, statuses);
            var review := Find(reviews, (r: ReviewRow) => r.id == p.idReview);
            && (review.None? ==> e.review.status.None?)
            && (e.review.status.None? <==>
                  statuses.None? || forall k :: 0 <= k < |statuses.value| ==>
                    !(review.Some? && review.value.idStatus == Some(statuses.value[k].id)))
  {
  }

  /** `.in('id', ids)`: the rows of a table whose id is listed. */
  function WithIds<K(==), T>(table: seq<T>, id: T -> K, ids: seq<K>): (r: seq<T>)
    ensures forall x :: x in r ==> x in table && id(x) in ids
    ensures forall x :: x in table && id(x) in ids ==> x in r
    decreases |table|
  {
    if |table| == 0 then []
    else
      var rest := WithIds(table[1..], id, ids);
      assert forall x :: x in table ==> x == table[0] || x in table[1..];
      if id(table[0]) in ids then [table[0]] + rest else rest
  }

  /** `reviewsData.map(r => r.id_project).filter(Boolean)`: null and empty ids are dropped. */
  function ProjectIds(reviews: seq<ReviewRow>): (ids: seq<string>)
    ensures forall x :: x in ids ==> x != ""
    ensures forall x :: x in ids <==> x != "" && exists r :: r in reviews && r.idProject == Some(x)
    decreases |reviews|
  {
    if |reviews| == 0 then []
    else
      var rest := ProjectIds(reviews[1..]);
      assert forall r :: r in reviews ==> r == reviews[0] || r in reviews[1..];
      if Truthy(reviews[0].idProject) then [reviews[0].idProject.value] + rest else rest
  }

  /** `reviewsData.map(r => r.id_status).filter(Boolean)`: null and 0 are dropped. */
  function StatusIds(reviews: seq<ReviewRow>): (ids: seq<int>)
    ensures forall x :: x in ids <==> x != 0 && exists r :: r in reviews && r.idStatus == Some(x)
    decreases |reviews|
  {
    if |reviews| == 0 then []
    else
      var rest := StatusIds(reviews[1..]);
      assert forall r :: r in reviews ==> r == reviews[0] || r in reviews[1..];
      var s := reviews[0].idStatus;
      if s.Some? && s.value != 0 then [s.value] + rest else rest
  }

  /** A database table as the page sees it: its rows, and whether a query on it fails. */
  datatype Table<T> = Table(rows: seq<T>, fails: bool)

  /** The result of `loadEmployeeReviews`: the new list (`None` when an error
      was caught and the list left as it was) and how many queries were issued. */
  datatype LoadResult = LoadResult(reviews: Option<seq<EmployeeReview>>, queries: nat)

  function ParticipantReviewIds(ps: seq<ParticipantRow>): (ids: seq<string>)
    ensures |ids| == |ps|
    ensures forall i :: 0 <= i < |ps| ==> ids[i] == ps[i].idReview
    decreases |ps|
  {
    if |ps| == 0 then [] else [ps[0].idReview] + ParticipantReviewIds(ps[1..])
  }

  function ParticipantRoleIds(ps: seq<ParticipantRow>): (ids: seq<string>)
    ensures |ids| == |ps|
    ensures forall i :: 0 <= i < |ps| ==> ids[i] == ps[i].role
    decreases |ps|
  {
    if |ps| == 0 then [] else [ps[0].role] + ParticipantRoleIds(ps[1..])
  }

  /** `loadEmployeeReviews`, given this employee's participant rows (or the
      error of that query) and the four tables it reads by id. */
  function Load(participants: Result<seq<ParticipantRow>, Thrown>, reviewsT: Table<ReviewRow>,
                rolesT: Table<RoleRow>, projectsT: Table<ProjectRow>, statusesT: Table<StatusRow>): (r: LoadResult)
    ensures participants.Failure? ==> r == LoadResult(None, 1)
    ensures participants.Success? && |participants.value| == 0 ==> r == LoadResult(Some([]), 1)
    ensures participants.Success? && |participants.value| > 0 ==>
              (r.reviews.None? <==> reviewsT.fails || rolesT.fails)
    ensures r.reviews.Some? && participants.Success? ==> |r.reviews.value| == |participants.value|
    ensures participants.Success? && |participants.value| > 0 ==>
              r.queries == (if reviewsT.fails then 2 else if rolesT.fails then 3 else 5)
    ensures r.reviews.Some? && participants.Success? ==>
              forall i :: 0 <= i < |participants.value| ==>
                r.reviews.value[i].id == participants.value[i].id
                && r.reviews.value[i].role == participants.value[i].role
    ensures r.reviews.Some? && participants.Success? ==>
              forall i :: 0 <= i < |participants.value| ==>
                r.reviews.value[i].review.id ==
                  (if HasRow(reviewsT.rows, participants.value[i].idReview)
                   then participants.value[i].idReview else "")
  {
    match participants
    case Failure(_) => LoadResult(None, 1)
    case Success(ps) =>
      if |ps| == 0 then LoadResult(Some([]), 1)
      else if reviewsT.fails then LoadResult(None, 2)
      else if rolesT.fails then LoadResult(None, 3)
      else LoadResult(Some(Joined(ps, reviewsT.rows, rolesT.rows, projectsT, statusesT)), 5)
  }

  /** The reviews table has a row with this id. */
  predicate HasRow(table: seq<ReviewRow>, id: string) {
    exists row :: row in table && row.id == id
  }

  /** The reviews query: the table's rows whose id is listed. */
  function ReviewsWithIds(table: seq<ReviewRow>, ids: seq<string>): (r: seq<ReviewRow>)
    ensures forall x :: x in r <==> x in table && x.id in ids
  {
    WithIds(table, (x: ReviewRow) => x.id, ids)
  }

  /** The four id-list queries after the participants query, then the join:
      reviews and roles by the participants' ids, projects and statuses by
      the fetched reviews' ids (a failed projects or statuses query reads as `null`). */
  function Joined(ps: seq<ParticipantRow>, reviewRows: seq<ReviewRow>, roleRows: seq<RoleRow>,
                  projectsT: Table<ProjectRow>, statusesT: Table<StatusRow>): (r: seq<EmployeeReview>)
    ensures |r| == |ps|
    ensures forall i :: 0 <= i < |ps| ==> r[i].id == ps[i].id && r[i].role == ps[i].role
    ensures forall i :: 0 <= i < |ps| ==>
              r[i].review.id ==
                (if HasRow(reviewRows, ps[i].idReview) then ps[i].idReview else "")
  {
    var reviews := ReviewsWithIds(reviewRows, ParticipantReviewIds(ps));
    var roles := WithIds(roleRows, (x: RoleRow) => x.id, ParticipantRoleIds(ps));
    var projects := if projectsT.fails then None
                    else Some(WithIds(projectsT.rows, (x: ProjectRow) => x.id, ProjectIds(reviews)));
    var statuses := if statusesT.fails then None
                    else Some(WithIds(statusesT.rows, (x: StatusRow) => x.id, StatusIds(reviews)));
    JoinedReviewIds(ps, reviewRows, reviews, roles, projects, statuses);
    Transform(ps, reviews, roles, projects, statuses)
  }

  /** Each entry's review id is its participant's review id when the reviews
      table has a row with that id, and "" otherwise; `reviews` holds the
      table's rows whose id some participant references. */
  lemma JoinedReviewIds(ps: seq<ParticipantRow>, table: seq<ReviewRow>, reviews: seq<ReviewRow>, roles: seq<RoleRow>,
                        projects: Option<seq<ProjectRow>>, statuses: Option<seq<StatusRow>>)
    requires forall x :: x in reviews <==> x in table && x.id in ParticipantReviewIds(ps)
    ensures var joined := Transform(ps, reviews, roles, projects, statuses);
            forall i :: 0 <= i < |ps| ==>
              joined[i].review.id ==
                (if HasRow(table, ps[i].idReview) then ps[i].idReview else "")
  {
    forall i | 0 <= i < |ps|
      ensures JoinOne(ps[i], reviews, roles, projects, statuses).review.id ==
                (if HasRow(table, ps[i].idReview) then ps[i].idReview else "")
    {
      assert ParticipantReviewIds(ps)[i] == ps[i].idReview;
      JoinedReviewId(ps[i], table, ParticipantReviewIds(ps), reviews, roles, projects, statuses);
    }
  }

  /** One participant's joined review id, when its review id is among the fetched ids. */
  lemma JoinedReviewId(p: ParticipantRow, table: seq<ReviewRow>, ids: seq<string>, reviews: seq<ReviewRow>,
                       roles: seq<RoleRow>, projects: Option<seq<ProjectRow>>, statuses: Option<seq<StatusRow>>)
    requires forall x :: x in reviews <==> x in table && x.id in ids
    requires p.idReview in ids
    ensures JoinOne(p, reviews, roles, projects, statuses).review.id ==
              (if HasRow(table, p.idReview) then p.idReview else "")
  {
    var found := Find(reviews, (r: ReviewRow) => r.id == p.idReview);
    if HasRow(table, p.idReview) {
      var row :| row in table && row.id == p.idReview;
      assert row in reviews;
      var k :| 0 <= k < |reviews| && reviews[k] == row;
      assert found.Some?;
    } else {
      assert found.None?;
    }
  }

  /** The defaults as the page shows them: a participant whose review the
      reviews table lacks shows empty texts, "Sin proyecto" and no status; one
      whose role the roles table lacks shows "Sin rol"; and when the projects
      query fails every entry shows "Sin proyecto". */
  lemma LoadDefaults(ps: seq<ParticipantRow>, reviewsT: Table<ReviewRow>, rolesT: Table<RoleRow>,
                     projectsT: Table<ProjectRow>, statusesT: Table<StatusRow>, i: nat)
    requires i < |ps|
    ensures var res := Load(Success(ps), reviewsT, rolesT, projectsT, statusesT);
            res.reviews.Some? ==>
              var e := res.reviews.value[i];
              && (!HasRow(reviewsT.rows, ps[i].idReview) ==>
                    e.review.title == "" && e.review.description == "" && e.review.date == ""
                    && e.review.part == "" && e.review.projectName == "Sin proyecto" && e.review.status.None?)
              && (!HasRole(rolesT.rows, ps[i].role) ==> e.roleName == "Sin rol")
              && (projectsT.fails ==> e.review.projectName == "Sin proyecto")
  {
    if |ps| > 0 && !reviewsT.fails && !rolesT.fails {
      JoinedDefaults(ps, reviewsT.rows, rolesT.rows, projectsT, statusesT, i);
    }
  }

  /** The roles table has a row with this id. */
  predicate HasRole(table: seq<RoleRow>, id: string) {
    exists row :: row in table && row.id == id
  }

  /** `LoadDefaults` for the join over the id-list queries. */
  lemma JoinedDefaults(ps: seq<ParticipantRow>, reviewRows: seq<ReviewRow>, roleRows: seq<RoleRow>,
                       projectsT: Table<ProjectRow>, statusesT: Table<StatusRow>, i: nat)
    requires i < |ps|
    ensures var e := Joined(ps, reviewRows, roleRows, projectsT, statusesT)[i];
            && (!HasRow(reviewRows, ps[i].idReview) ==>
                  e.review.title == "" && e.review.description == "" && e.review.date == ""
                  && e.review.part == "" && e.review.projectName == "Sin proyecto" && e.review.status.None?)
            && (!HasRole(roleRows, ps[i].role) ==> e.roleName == "Sin rol")
            && (projectsT.fails ==> e.review.projectName == "Sin proyecto")
  {
    var reviews := ReviewsWithIds(reviewRows, ParticipantReviewIds(ps));
    var roles := WithIds(roleRows, (x: RoleRow) => x.id, ParticipantRoleIds(ps));
    var projects := if projectsT.fails then None
                    else Some(WithIds(projectsT.rows, (x: ProjectRow) => x.id, ProjectIds(reviews)));
    var statuses := if statusesT.fails then None
                    else Some(WithIds(statusesT.rows, (x: StatusRow) => x.id, StatusIds(reviews)));
    assert Joined(ps, reviewRows, roleRows, projectsT, statusesT)[i] == JoinOne(ps[i], reviews, roles, projects, statuses);
    MissingRowsDefault(ps[i], reviewRows, reviews, roleRows, roles, projects, statuses);
  }

  /** The join step behind `LoadDefaults`: the fetched rows are rows of their
      tables, so a row the table lacks is never found. */
  lemma MissingRowsDefault(p: ParticipantRow, reviewRows: seq<ReviewRow>, reviews: seq<ReviewRow>,
                           roleRows: seq<RoleRow>, roles: seq<RoleRow>,
                           projects: Option<seq<ProjectRow>>, statuses: Option<seq<StatusRow>>)
    requires forall x :: x in reviews ==> x in reviewRows
    requires forall x :: x in roles ==> x in roleRows
    ensures var e := JoinOne(p, reviews, roles, projects, statuses);
            && (!HasRow(reviewRows, p.idReview) ==>
                  e.review.title == "" && e.review.description == "" && e.review.date == ""
                  && e.review.part == "" && e.review.projectName == "Sin proyecto" && e.review.status.None?)
            && (!HasRole(roleRows, p.role) ==> e.roleName == "Sin rol")
            && (projects.None? ==> e.review.projectName == "Sin proyecto")
  {
    JoinDefaults(p, reviews, roles, projects, statuses);
    if !HasRow(reviewRows, p.idReview) {
      assert forall k :: 0 <= k < |reviews| ==> reviews[k] in reviewRows;
    }
    if !HasRole(roleRows, p.role) {
      assert forall k :: 0 <= k < |roles| ==> roles[k] in roleRows;
    }
  }

  /** Because `filter(Boolean)` drops 0, a review whose status id is 0 is
      always shown without a status, even when the statuses table has row 0. */
  lemma ZeroStatusNeverJoined(ps: seq<ParticipantRow>, reviewsT: Table<ReviewRow>, rolesT: Table<RoleRow>,
                              projectsT: Table<ProjectRow>, statusesT: Table<StatusRow>, i: nat)
    requires i < |ps|
    requires forall r :: r in reviewsT.rows && r.id == ps[i].idReview ==> r.idStatus == Some(0)
    ensures var res := Load(Success(ps), reviewsT, rolesT, projectsT, statusesT);
            res.reviews.Some? ==> res.reviews.value[i].review.status.None?
  {
    if |ps| > 0 && !reviewsT.fails && !rolesT.fails && !statusesT.fails {
      var reviews := ReviewsWithIds(reviewsT.rows, ParticipantReviewIds(ps));
      var roles := WithIds(rolesT.rows, (x: RoleRow) => x.id, ParticipantRoleIds(ps));
      var projects := if projectsT.fails then None
                      else Some(WithIds(projectsT.rows, (x: ProjectRow) => x.id, ProjectIds(reviews)));
      ZeroStatusNotMatched(ps[i], reviews, roles, projects, statusesT.rows);
    }
  }

  /** The join step behind `ZeroStatusNeverJoined`: status 0 is never among
      the fetched status ids, so no fetched status row matches it. */
  lemma ZeroStatusNotMatched(p: ParticipantRow, reviews: seq<ReviewRow>, roles: seq<RoleRow>,
                             projects: Option<seq<ProjectRow>>, statusRows: seq<StatusRow>)
    requires forall r :: r in reviews && r.id == p.idReview ==> r.idStatus == Some(0)
    ensures var statuses := WithIds(statusRows, (x: StatusRow) => x.id, StatusIds(reviews));
            JoinOne(p, reviews, roles, projects, Some(statuses)).review.status.None?
  {
    var review := Find(reviews, (r: ReviewRow) => r.id == p.idReview);
    var statuses := WithIds(statusRows, (x: StatusRow) => x.id, StatusIds(reviews));
    assert forall x :: x in statuses ==> x.id != 0;
    assert forall k :: 0 <= k < |statuses| ==> !(review.Some? && review.value.idStatus == Some(statuses[k].id));
  }

  /** How the history table shows a status: its name, or "En Espera". */
  function StatusLabel(status: Option<StatusRef>): (shown: string)
    ensures status.None? ==> shown == "En Espera"
    ensures status.Some? && Truthy(status.value.name) ==> shown == status.value.name.value
    ensures status.Some? && !Truthy(status.value.name) ==> shown == "En Espera"
  {
    if status.Some? then Or(status.value.name, "En Espera") else "En Espera"
  }

  /** The modal: the employee being shown and their review history. */
  datatype Modal = Modal(selected: Option<string>, reviews: seq<EmployeeReview>)

  /** `handleCloseModal`: clears both the selection and the list. */
  function CloseModal(m: Modal): (r: Modal)
    ensures r.selected.None? && r.reviews == []
  {
    Modal(None, [])
  }
}
