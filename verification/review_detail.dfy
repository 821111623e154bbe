/** The review detail page (src/features/reviews/pages/ReviewDetailPage.tsx):
    which screen is shown, the status badge and description, the fallback
    labels, and which participants are displayed. */
module ReviewDetail {
  import opened Wrappers
  import opened Js
  import opened ReviewStatus

  /** A participant's employee, with the joined profession name if any. */
  datatype Employee = Employee(id: string, name: string, professionName: Option<string>)

  datatype Role = Role(id: string, name: string, description: Option<string>)

  /** A participant row; the joined employee and role may be null. */
  datatype Participant = Participant(id: string, employee: Option<Employee>, role: Option<Role>)

  /** The review row with its joined project and manager names. */
  datatype Review = Review(id: string, title: string, description: string, part: string,
                           idStatus: Option<int>, projectName: Option<string>, managerName: Option<string>)

  /** One displayed participant card. */
  datatype Card = Card(participantId: string, employeeName: string, professionLabel: string,
                       roleName: string, roleDescription: Option<string>)

  /** The rendered detail: status badge, labels and participant cards. */
  datatype DetailView = DetailView(title: string, badgeName: string, badgeClass: string,
                                   statusDescription: string, projectLabel: string,
                                   managerLabel: string, cards: seq<Card>)

  datatype Screen = Spinner | ErrorScreen(message: string) | Detail(view: DetailView)

  /** What `loadReviewDetails` observed: the review query failed, the
      participants query failed after the review loaded, or both loaded. */
  datatype LoadOutcome =
    | ReviewFailed
    | ParticipantsFailed(review: Review)
    | Loaded(review: Review, participants: seq<Participant>)

  /** The page state: `loading`, `review`, `participants`, `error`. */
  datatype PageState = PageState(loading: bool, review: Option<Review>, participants: seq<Participant>,
                                 error: Option<string>)

  /** The state on mount: loading, nothing loaded, no error. */
  const InitialPage := PageState(true, None, [], None)

  const LoadError := "No se pudieron cargar los detalles de la revisión"

  /** `loadReviewDetails` run from the state `prev`: loading ends either way;
      a failure records the error; the review is stored before the
      participants query runs; nothing ever clears an earlier error, and a
      failure keeps whatever review and participants were there before. */
  function LoadDetails(prev: PageState, o: LoadOutcome): (r: PageState)
    ensures !r.loading
    ensures !o.Loaded? ==> r.error == Some(LoadError)
    ensures o.Loaded? ==> r.error == prev.error
    ensures o.ReviewFailed? ==> r.review == prev.review
    ensures !o.ReviewFailed? ==> r.review == Some(o.review)
    ensures o.Loaded? ==> r.participants == o.participants
    ensures !o.Loaded? ==> r.participants == prev.participants
  {
    match o
    case ReviewFailed => prev.(loading := false, error := Some(LoadError))
    case ParticipantsFailed(review) => prev.(loading := false, review := Some(review), error := Some(LoadError))
    case Loaded(review, participants) => prev.(loading := false, review := Some(review), participants := participants)
  }

  /** The page after mounting with route parameter `id`: without an id (or
      with an empty one) the effect never loads, so the page stays on its
      initial loading state. */
  function Mount(id: Option<string>, o: LoadOutcome): (r: PageState)
    ensures !Truthy(id) ==> r == InitialPage && r.loading
    ensures Truthy(id) ==> !r.loading && (r.error.Some? <==> !o.Loaded?)
  {
    if Truthy(id) then LoadDetails(InitialPage, o) else InitialPage
  }

  /** A reload that succeeds after an earlier failure still carries the old
      error, so the page keeps showing the error screen. */
  lemma ErrorSticksAcrossReload(t: StatusTable, review: Review, ps: seq<Participant>, o: LoadOutcome)
    requires !o.Loaded?
    ensures var failed := LoadDetails(InitialPage, o);
            ScreenOf(t, LoadDetails(failed, Loaded(review, ps))) == ErrorScreen(LoadError)
  {
  }

  /** A participant is displayed only when both its employee and its role are present. */
  predicate Displayed(p: Participant) {
    p.employee.Some? && p.role.Some?
  }

  function CardOf(p: Participant): Card
    requires Displayed(p)
  {
    var e := p.employee.value;
    var role := p.role.value;
    Card(p.id, e.name, Or(e.professionName, "Sin profesión"), role.name,
         if Truthy(role.description) then role.description else None)
  }

  /** The participant list as rendered: one card per displayed participant, in order. */
  function Cards(ps: seq<Participant>): (r: seq<Card>)
    ensures |r| <= |ps|
    ensures forall c :: c in r ==> exists p :: p in ps && Displayed(p) && c == CardOf(p)
    ensures forall p :: p in ps && Displayed(p) ==> CardOf(p) in r
    ensures |r| == |ps| <==> forall p :: p in ps ==> Displayed(p)
    decreases |ps|
  {
    if |ps| == 0 then []
    else
      var rest := Cards(ps[1..]);
      assert forall p :: p in ps[1..] ==> p in ps;
      assert forall p :: p in ps ==> p == ps[0] || p in ps[1..];
      if Displayed(ps[0]) then [CardOf(ps[0])] + rest else rest
  }

  /** The detail view of a loaded review. */
  function View(t: StatusTable, review: Review, ps: seq<Participant>): (v: DetailView)
    ensures v.badgeName == GetStatusInfo(t, review.idStatus).name
    ensures v.statusDescription == GetStatusInfo(t, review.idStatus).description
    ensures v.badgeClass == GetStatusColor(GetStatusInfo(t, review.idStatus).color)
    ensures v.projectLabel == (if Truthy(review.projectName) then review.projectName.value else "N/A")
    ensures v.managerLabel == (if Truthy(review.managerName) then review.managerName.value else "N/A")
    ensures v.cards == Cards(ps)
  {
    var status := GetStatusInfo(t, review.idStatus);
    DetailView(review.title, status.name, GetStatusColor(status.color), status.description,
               Or(review.projectName, "N/A"), Or(review.managerName, "N/A"), Cards(ps))
  }

  /** The badge label and the status description come from the same table
      entry: the mapped entry, or the default for null and unmapped codes. */
  lemma BadgeAndDescriptionAgree(t: StatusTable, review: Review, ps: seq<Participant>)
    ensures var v := View(t, review, ps);
            if review.idStatus.Some? && review.idStatus.value in t.entries
            then v.badgeName == t.entries[review.idStatus.value].name
                 && v.statusDescription == t.entries[review.idStatus.value].description
            else v.badgeName == t.default.name && v.statusDescription == t.default.description
  {
  }

  /** Which screen the page shows: the spinner while loading, the error (or
      "not found") when there is an error or no review, else the detail. */
  function ScreenOf(t: StatusTable, s: PageState): (r: Screen)
    ensures s.loading <==> r.Spinner?
    ensures !s.loading && s.error.Some? && s.error.value != "" ==> r == ErrorScreen(s.error.value)
    ensures !s.loading && !Truthy(s.error) && s.review.None? ==> r == ErrorScreen("Revisión no encontrada")
    ensures r.Detail? ==> s.review.Some? && !Truthy(s.error) && r.view == View(t, s.review.value, s.participants)
    ensures !s.loading && !Truthy(s.error) && s.review.Some? ==> r == Detail(View(t, s.review.value, s.participants))
  {
    if s.loading then Spinner
    else if Truthy(s.error) || s.review.None? then ErrorScreen(Or(s.error, "Revisión no encontrada"))
    else Detail(View(t, s.review.value, s.participants))
  }

  /** A participants failure hides the already loaded review behind the error screen. */
  lemma ParticipantsFailureShowsError(t: StatusTable, prev: PageState, review: Review)
    ensures ScreenOf(t, LoadDetails(prev, ParticipantsFailed(review))) == ErrorScreen(LoadError)
  {
  }
}
