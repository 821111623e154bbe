/** The review-status lookup shared, verbatim, by ReviewsPage, ReviewDetailPage
    and MyReviewsPage (`getStatusInfo`, `getStatusColor`). The status table
    and its default live in a file outside this model, so both are parameters. */
module ReviewStatus {
  import opened Wrappers

  /** One entry of the status table. */
  datatype StatusInfo = StatusInfo(name: string, color: string, description: string)

  /** The status table (`REVIEW_STATUSES`) and the entry used when a code has none (`DEFAULT_STATUS`). */
  datatype StatusTable = StatusTable(entries: map<int, StatusInfo>, default: StatusInfo)

  /** `getStatusInfo`: a null code and a code missing from the table both give
      the default; a mapped code gives its entry. */
  function GetStatusInfo(t: StatusTable, statusId: Option<int>): (r: StatusInfo)
    ensures statusId.None? ==> r == t.default
    ensures statusId.Some? && statusId.value in t.entries ==> r == t.entries[statusId.value]
    ensures statusId.Some? && statusId.value !in t.entries ==> r == t.default
  {
    if statusId.None? then t.default
    else if statusId.value in t.entries then t.entries[statusId.value]
    else t.default
  }

  /** The lookup is total and its answer always comes from the table or is the
      default; an unmapped code is indistinguishable from a null one. */
  lemma StatusLookupCollapses(t: StatusTable, code: int)
    ensures GetStatusInfo(t, Some(code)) in t.entries.Values || GetStatusInfo(t, Some(code)) == t.default
    ensures code !in t.entries ==> GetStatusInfo(t, Some(code)) == GetStatusInfo(t, None)
    ensures code in t.entries && t.entries[code] != t.default ==>
              GetStatusInfo(t, Some(code)) != GetStatusInfo(t, None)
  {
  }

  const GreenClass := "bg-green-500/10 text-green-400 border-green-500/30"
  const RedClass := "bg-red-500/10 text-red-400 border-red-500/30"
  const AmberClass := "bg-amber-500/10 text-amber-400 border-amber-500/30"
  const GrayClass := "bg-gray-500/10 text-gray-400 border-gray-500/30"

  /** The colour names the class map knows. */
  predicate KnownColor(color: string) {
    color == "green" || color == "red" || color == "amber" || color == "gray"
  }

  /** `getStatusColor`: `colors[color] || colors.gray`. */
  function GetStatusColor(color: string): (r: string)
    ensures r == GreenClass || r == RedClass || r == AmberClass || r == GrayClass
    ensures !KnownColor(color) ==> r == GrayClass
    ensures color == "green" ==> r == GreenClass
    ensures color == "red" ==> r == RedClass
    ensures color == "amber" ==> r == AmberClass
    ensures color == "gray" ==> r == GrayClass
  {
    if color == "green" then GreenClass
    else if color == "red" then RedClass
    else if color == "amber" then AmberClass
    else GrayClass
  }

  /** Each known colour has its own class, and every other colour renders as gray. */
  lemma ColorClassesDistinct(c1: string, c2: string)
    ensures KnownColor(c1) && KnownColor(c2) ==> (GetStatusColor(c1) == GetStatusColor(c2) <==> c1 == c2)
    ensures !KnownColor(c1) ==> GetStatusColor(c1) == GetStatusColor("gray")
  {
  }
}
