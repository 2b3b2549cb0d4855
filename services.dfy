/**
 * `GET /api/services` (src/app/api/services/route.ts): one view per row of the `A2:G`
 * snapshot, classified by the time of its last ping only, optionally narrowed to one client.
 */
module Services {
  import opened Http
  import opened Text
  import opened Sheet
  import opened StatusLogic

  /** The clock and the two parsers the handler relies on (`new Date`, `parseFloat`). */
  datatype Clock = Clock(
    now: int,                              // milliseconds since the epoch
    parseTime: string -> int,              // `new Date(s).getTime()` of a non-empty cell
    parseNumber: string -> Option<real>)   // `parseFloat`, `None` for NaN

  datatype ServiceView = ServiceView(
    id: Option<string>,
    name: Option<string>,
    clientName: Option<string>,
    status: ServiceStatus,
    lastPing: string,
    notes: string)

  const DefaultScheduleHours: real := 24.0

  /** `parseFloat(row[6]) || 24`: a zero or unparseable schedule falls back to 24 hours. */
  function Schedule(row: Row, parseNumber: string -> Option<real>): (h: real)
    ensures h != 0.0
    ensures (6 < |row| && parseNumber(row[6]).Some? && parseNumber(row[6]).value != 0.0) ==> h == parseNumber(row[6]).value
    ensures !(6 < |row| && parseNumber(row[6]).Some? && parseNumber(row[6]).value != 0.0) ==> h == DefaultScheduleHours
  {
    match Cell(row, 6)
    case None => DefaultScheduleHours
    case Some(text) =>
      match parseNumber(text)
      case Some(x) => if x != 0.0 then x else DefaultScheduleHours
      case None => DefaultScheduleHours
  }

  /** The last ping of column E: `None` when the cell is empty or missing. */
  function LastPing(row: Row, parseTime: string -> int): Option<int> {
    if Truthy(Cell(row, 4)) then Some(parseTime(row[4])) else None
  }

  /** The `data.map` callback. The reported status (column D) is not passed to the classifier. */
  function ToView(row: Row, clock: Clock): ServiceView {
    var ping := LastPing(row, clock.parseTime);
    ServiceView(
      Cell(row, 0), Cell(row, 1), Cell(row, 2),
      CalculateStatus(ping, Schedule(row, clock.parseNumber), None, clock.now),
      FormatTimeAgo(ping, clock.now),
      Or(Cell(row, 5), ""))
  }

  /**
   * A view reads columns A, B, C, E, F and G only: two rows that agree there give the same view
   * whatever their reported status (D) or active flag (I) say.
   */
  lemma ViewReadsOnlyItsColumns(row: Row, row': Row, clock: Clock)
    requires Cell(row, 0) == Cell(row', 0) && Cell(row, 1) == Cell(row', 1) && Cell(row, 2) == Cell(row', 2)
    requires Cell(row, 4) == Cell(row', 4) && Cell(row, 5) == Cell(row', 5) && Cell(row, 6) == Cell(row', 6)
    ensures ToView(row, clock) == ToView(row', clock)
  {
  }

  /** A view's notes are column F, or "" when it is empty or missing. */
  lemma ViewNotes(row: Row, clock: Clock)
    ensures 5 < |row| ==> ToView(row, clock).notes == row[5]
    ensures 5 >= |row| ==> ToView(row, clock).notes == ""
  {
  }

  /** A row never pinged is offline and shown as "Never". */
  lemma NeverPingedRow(row: Row, clock: Clock)
    requires !Truthy(Cell(row, 4))
    ensures ToView(row, clock).status == Offline && ToView(row, clock).lastPing == "Never"
  {
  }

  function Views(rows: seq<Row>, clock: Clock): (vs: seq<ServiceView>)
    ensures |vs| == |rows|
    ensures forall i :: 0 <= i < |rows| ==> vs[i] == ToView(rows[i], clock)
  {
    seq(|rows|, i requires 0 <= i < |rows| => ToView(rows[i], clock))
  }

  /** `s.clientName.toLowerCase() === wanted` for a lower-cased `wanted`. */
  predicate OfClient(v: ServiceView, wanted: string) {
    v.clientName.Some? && Lower(v.clientName.value) == wanted
  }

  /** `xs` is `ys` with some elements left out, the rest in their order. */
  ghost predicate Subsequence<T>(xs: seq<T>, ys: seq<T>)
    decreases |ys|
  {
    || xs == []
    || (ys != [] && ((xs[0] == ys[0] && Subsequence(xs[1..], ys[1..])) || Subsequence(xs, ys[1..])))
  }

  /** The `services.filter` call: the views of one client, in listing order. */
  function OfClientOnly(views: seq<ServiceView>, wanted: string): (r: seq<ServiceView>)
    ensures forall v :: v in r ==> OfClient(v, wanted)
    ensures forall i :: 0 <= i < |views| && OfClient(views[i], wanted) ==> views[i] in r
    ensures Subsequence(r, views)
    ensures forall v :: multiset(r)[v] == if OfClient(v, wanted) then multiset(views)[v] else 0
  {
    if views == [] then []
    else
      var rest := OfClientOnly(views[1..], wanted);
      assert forall i :: 1 <= i < |views| ==> views[i] == views[1..][i - 1];
      assert views == [views[0]] + views[1..];
      assert multiset(views) == multiset{views[0]} + multiset(views[1..]);
      if OfClient(views[0], wanted) then
        assert ([views[0]] + rest)[1..] == rest;
        assert multiset([views[0]] + rest) == multiset{views[0]} + multiset(rest);
        [views[0]] + rest
      else rest
  }

  /** `toLowerCase` throws on a row without a client cell, which fails a filtered listing. */
  predicate AllHaveClient(views: seq<ServiceView>) {
    forall i :: 0 <= i < |views| ==> views[i].clientName.Some?
  }

  const FetchError: string := "Failed to fetch services"

  /**
   * The handler. `configured` says whether `GOOGLE_SHEET_ID` is set, `filter` is the
   * `client` query parameter, `hasToken` whether a session token is present, and `read` the
   * result of reading `A2:G` of the first tab.
   */
  function List(configured: bool, filter: Option<string>, hasToken: bool, read: Fetch, clock: Clock)
    : (r: Reply<seq<ServiceView>>)
    ensures !configured ==> r == Err(500, "Not configured")
    ensures configured && !Truthy(filter) && !hasToken ==> r == Err(401, "Unauthorized")
    ensures configured && (Truthy(filter) || hasToken) && read.FetchFailed? ==> r == Err(500, FetchError)
    ensures r.Ok? ==> configured && read.Fetched? && (Truthy(filter) || hasToken)
    ensures configured && !Truthy(filter) && hasToken && read.Fetched? ==> r.Ok?
    ensures configured && Truthy(filter) && read.Fetched? && !AllHaveClient(Views(read.rows, clock)) ==>
      r == Err(500, FetchError)
    ensures r.Ok? && !Truthy(filter) ==>
      && |r.value| == |read.rows|
      && forall i :: 0 <= i < |read.rows| ==> r.value[i] == ToView(read.rows[i], clock)
    ensures r.Ok? && Truthy(filter) ==>
      && (forall v :: v in r.value ==> OfClient(v, Lower(filter.value)))
      && (forall i :: 0 <= i < |read.rows| && OfClient(ToView(read.rows[i], clock), Lower(filter.value))
            ==> ToView(read.rows[i], clock) in r.value)
      && Subsequence(r.value, Views(read.rows, clock))
      && (forall v :: multiset(r.value)[v]
            == if OfClient(v, Lower(filter.value)) then multiset(Views(read.rows, clock))[v] else 0)
    ensures configured && Truthy(filter) && read.Fetched? ==>
      (r.Ok? <==> AllHaveClient(Views(read.rows, clock)))
  {
    if !configured then Err(500, "Not configured")
    else if !Truthy(filter) && !hasToken then Err(401, "Unauthorized")
    else match read
      case FetchFailed(_) => Err(500, FetchError)
      case Fetched(rows) =>
        var services := Views(rows, clock);
        if !Truthy(filter) then Ok(services)
        else if !AllHaveClient(services) then Err(500, FetchError)
        else Ok(OfClientOnly(services, Lower(filter.value)))
  }

  /** A client-filtered listing is public: it does not depend on the session token. */
  lemma FilteredListingIsPublic(configured: bool, filter: Option<string>, read: Fetch, clock: Clock)
    requires Truthy(filter)
    ensures List(configured, filter, true, read, clock) == List(configured, filter, false, read, clock)
  {
  }

  /** The filter compares lower-cased names, so its own letter case does not matter. */
  lemma FilterCaseInsensitive(configured: bool, filter: string, hasToken: bool, read: Fetch, clock: Clock)
    requires filter != ""
    ensures List(configured, Some(filter), hasToken, read, clock) == List(configured, Some(Lower(filter)), hasToken, read, clock)
  {
    LowerIdempotent(filter);
  }
}
