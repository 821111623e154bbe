/** The current employee's review list (src/features/reviews/pages/MyReviewsPage.tsx):
    the pending/completed filter, the calendar-date `isToday` test and what
    each card shows. "Today" is a parameter. */
module MyReviews {
  import opened Wrappers
  import opened Js
  import opened ReviewStatus
  import Identity

  datatype Filter = All | Pending | Completed

  datatype Review = Review(id: string, title: string, description: string, part: string,
                           date: string, idStatus: Option<int>, projectName: Option<string>)

  /** One row of `participants` joined with its review and role. */
  datatype Participation = Participation(id: string, review: Review, roleName: string)

  /** A calendar day; `month` is 1-based. */
  datatype Date = Date(year: int, month: int, day: int)

  /** The query's status filter: pending is a null status, completed a non-null one. */
  predicate Keeps(f: Filter, idStatus: Option<int>) {
    match f
    case All => true
    case Pending => idStatus.None?
    case Completed => idStatus.Some?
  }

  /** The participations the filtered query returns, in query order. */
  function Filtered(f: Filter, ps: seq<Participation>): (r: seq<Participation>)
    ensures |r| <= |ps|
    ensures forall p :: p in r ==> p in ps && Keeps(f, p.review.idStatus)
    ensures forall p :: p in ps && Keeps(f, p.review.idStatus) ==> p in r
    decreases |ps|
  {
    if |ps| == 0 then []
    else
      var rest := Filtered(f, ps[1..]);
      assert forall p :: p in ps ==> p == ps[0] || p in ps[1..];
      if Keeps(f, ps[0].review.idStatus) then [ps[0]] + rest else rest
  }

  /** The filter keeps query order: filtering a concatenation is the
      concatenation of the filtered parts. */
  lemma {:induction false} FilteredKeepsOrder(f: Filter, a: seq<Participation>, b: seq<Participation>)
    ensures Filtered(f, a + b) == Filtered(f, a) + Filtered(f, b)
    decreases |a|
  {
    if |a| > 0 {
      var head := if Keeps(f, a[0].review.idStatus) then [a[0]] else [];
      assert Filtered(f, a + b) == head + Filtered(f, a[1..] + b) by {
        assert a + b == [a[0]] + (a[1..] + b);
        FilteredCons(f, a[0], a[1..] + b);
      }
      assert Filtered(f, a) == head + Filtered(f, a[1..]) by {
        assert a == [a[0]] + a[1..];
        FilteredCons(f, a[0], a[1..]);
      }
      FilteredKeepsOrder(f, a[1..], b);
      ConcatAssoc(head, Filtered(f, a[1..]), Filtered(f, b));
    } else {
      assert a + b == b;
    }
  }

  lemma ConcatAssoc(x: seq<Participation>, y: seq<Participation>, z: seq<Participation>)
    ensures x + (y + z) == (x + y) + z
  {
  }

  /** Filtering a list with a head looks at the head, then filters the tail. */
  lemma FilteredCons(f: Filter, p: Participation, s: seq<Participation>)
    ensures Filtered(f, [p] + s) == (if Keeps(f, p.review.idStatus) then [p] else []) + Filtered(f, s)
  {
    assert ([p] + s)[1..] == s;
  }

  /** A single participation is kept exactly when its status passes the filter. */
  lemma FilteredSingle(f: Filter, p: Participation)
    ensures Filtered(f, [p]) == (if Keeps(f, p.review.idStatus) then [p] else [])
  {
    assert [p][1..] == [];
  }

  /** `all` keeps everything, and pending and completed split the list between them. */
  lemma {:induction false} FiltersPartition(ps: seq<Participation>)
    ensures Filtered(All, ps) == ps
    ensures |Filtered(Pending, ps)| + |Filtered(Completed, ps)| == |ps|
    decreases |ps|
  {
    if |ps| > 0 {
      FiltersPartition(ps[1..]);
    }
  }

  /** The loaded-list state of the page. */
  datatype PageState = PageState(loading: bool, participations: seq<Participation>)

  const InitialPage := PageState(true, [])

  /** The effect on `[user, filter]`: without a user id nothing is loaded;
      a failed query keeps the previous list; otherwise the filtered rows of
      this employee replace it. `rows` is the employee's unfiltered rows. */
  function OnUserOrFilter(prev: PageState, user: Option<Identity.User>, f: Filter,
                          rows: Result<seq<Participation>, Thrown>): (r: PageState)
    ensures !(user.Some? && user.value.id != "") ==> r == prev
    ensures user.Some? && user.value.id != "" ==> !r.loading
    ensures user.Some? && user.value.id != "" && rows.Failure? ==> r.participations == prev.participations
    ensures user.Some? && user.value.id != "" && rows.Success? ==>
              forall p :: p in r.participations <==> p in rows.value && Keeps(f, p.review.idStatus)
  {
    if !(user.Some? && user.value.id != "") then prev
    else if rows.Failure? then prev.(loading := false)
    else PageState(false, Filtered(f, rows.value))
  }

  /** Without a signed-in user the page never leaves its loading state. */
  lemma NoUserStaysLoading(user: Option<Identity.User>, f: Filter, rows: Result<seq<Participation>, Thrown>)
    requires user.None?
    ensures OnUserOrFilter(InitialPage, user, f, rows).loading
  {
  }

  /** The word after "No tienes revisiones" when the list is empty. */
  function EmptySuffix(f: Filter): (r: string)
    ensures f == Pending ==> r == "pendientes"
    ensures f == Completed ==> r == "completadas"
    ensures f == All ==> r == ""
  {
    if f == Pending then "pendientes" else if f == Completed then "completadas" else ""
  }

  /** `isToday`: the first three `-`-separated numbers of the date text are
      today's year, month and day. */
  predicate IsToday(dateString: string, today: Date)
    ensures IsToday(dateString, today) ==> '-' in dateString
  {
    var parts := Split(dateString, '-');
    assert '-' !in dateString ==> |parts| == 1 by {
      if '-' !in dateString { SplitWithoutSep(dateString, '-'); }
    }
    && |parts| >= 3
    && ToNumber(parts[0]) == Some(today.year)
    && ToNumber(parts[1]) == Some(today.month)
    && ToNumber(parts[2]) == Some(today.day)
  }

  /** A date text is "today" for at most one date. */
  lemma IsTodayDeterminesDate(dateString: string, d1: Date, d2: Date)
    ensures IsToday(dateString, d1) && IsToday(dateString, d2) ==> d1 == d2
  {
  }

  /** Two-digit zero padding of a month or day. */
  function Pad2(n: nat): string {
    if n < 10 then "0" + Decimal(n) else Decimal(n)
  }

  /** The `YYYY-MM-DD` text a date column holds. */
  function IsoDate(year: nat, month: nat, day: nat): string {
    Decimal(year) + "-" + Pad2(month) + "-" + Pad2(day)
  }

  lemma DigitsAreNotTrimmed(s: string)
    requires AllDigits(s)
    ensures Trim(s) == s
  {
    assert TrimStart(s) == s;
    assert TrimEnd(s) == s;
  }

  lemma NoDashInNumbers(n: nat)
    ensures '-' !in Decimal(n) && '-' !in Pad2(n)
  {
    DecimalRoundTrip(n);
    assert forall c :: c in Pad2(n) ==> IsDigit(c);
  }

  lemma {:induction false} NumberOfDecimal(n: nat)
    ensures ToNumber(Decimal(n)) == Some(n)
    ensures ToNumber(Pad2(n)) == Some(n)
    ensures '-' !in Decimal(n) && '-' !in Pad2(n)
  {
    NoDashInNumbers(n);
    DecimalRoundTrip(n);
    DigitsAreNotTrimmed(Decimal(n));
    LeadingZero(Decimal(n));
    DigitsAreNotTrimmed(Pad2(n));
    assert forall c :: c in Pad2(n) ==> IsDigit(c);
  }

  lemma IsoDateParts(year: nat, month: nat, day: nat)
    ensures Split(IsoDate(year, month, day), '-') == [Decimal(year), Pad2(month), Pad2(day)]
  {
    NoDashInNumbers(year);
    NoDashInNumbers(month);
    NoDashInNumbers(day);
    var tail := Pad2(month) + "-" + Pad2(day);
    assert IsoDate(year, month, day) == Decimal(year) + "-" + tail;
    SplitAtFirstSep(Decimal(year), '-', tail);
    SplitAtFirstSep(Pad2(month), '-', Pad2(day));
    SplitWithoutSep(Pad2(day), '-');
  }

  /** A stored `YYYY-MM-DD` date is today exactly when it names today's year,
      month and day. */
  lemma IsTodayOfIsoDate(year: nat, month: nat, day: nat, today: Date)
    ensures IsToday(IsoDate(year, month, day), today) <==> today == Date(year, month, day)
  {
    IsoDateParts(year, month, day);
    NumberOfDecimal(year);
    NumberOfDecimal(month);
    NumberOfDecimal(day);
  }

  /** What one card shows. */
  datatype CardView = CardView(title: string, statusName: string, statusClass: string,
                               todayBadge: bool, attendButton: bool, roleName: string,
                               projectLabel: string, part: string)

  function Card(t: StatusTable, p: Participation, today: Date): (c: CardView)
    ensures c.todayBadge == IsToday(p.review.date, today)
    ensures c.attendButton == IsToday(p.review.date, today)
    ensures c.statusName == GetStatusInfo(t, p.review.idStatus).name
    ensures c.projectLabel == if Truthy(p.review.projectName) then p.review.projectName.value else "N/A"
  {
    var status := GetStatusInfo(t, p.review.idStatus);
    var isTodayReview := IsToday(p.review.date, today);
    CardView(p.review.title, status.name, GetStatusColor(status.color), isTodayReview, isTodayReview,
             p.roleName, Or(p.review.projectName, "N/A"), p.review.part)
  }
}
