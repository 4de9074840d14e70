/** The dashboard statistics of MIS/src/contexts/DashboardContext.jsx: the
    four counts derived from the `/users`, `/branches`, `/areas` and
    `/daily-reports` replies, and the all-zero fallback when anything on the
    way throws. The token store and the four HTTP exchanges are inputs. */
module DashboardStats {
  import opened Wrappers
  import opened Json
  import opened Seqs
  import FlaskApp

  datatype Stats = Stats(activeUsers: nat, branches: nat, areas: nat, approved: nat, isLoading: bool)

  /** The state before the first fetch. */
  const Initial: Stats := Stats(0, 0, 0, 0, true)

  /** What the catch block stores. */
  const Failed: Stats := Stats(0, 0, 0, 0, false)

  /** The first update of a refresh: `isLoading` goes up, the counts stay. */
  function BeginRefresh(s: Stats): (r: Stats)
    ensures r.isLoading
    ensures r.activeUsers == s.activeUsers && r.branches == s.branches
    ensures r.areas == s.areas && r.approved == s.approved
  {
    s.(isLoading := true)
  }

  /** The mount state shows every count as 0 and the loading state, and the
      first update of the mount refresh leaves it as it is. */
  lemma InitialLoading()
    ensures Initial.isLoading && BeginRefresh(Initial) == Initial
    ensures Initial.activeUsers == 0 && Initial.branches == 0 && Initial.areas == 0 && Initial.approved == 0
  {
  }

  /** One HTTP reply: `res.ok`, and the parsed body, `None` when `res.json()`
      rejects. */
  datatype Response = Response(ok: bool, body: Option<Json>)

  /** The outcome of the four parallel requests: a rejected `fetch`, or the four replies. */
  datatype Fetch = NetworkError | Fetched(users: Response, branches: Response, areas: Response, reports: Response)

  /** `user => user.isActive` on a non-null element. */
  predicate ActiveFlag(e: Json) {
    JsTruthy(Prop(e, "isActive"))
  }

  /** `branch => branch?.isActive`, also used for areas. */
  predicate OptionalActive(e: Json) {
    e != Null && JsTruthy(Prop(e, "isActive"))
  }

  /** `report => report?.status?.statusName === 'Approved'`. */
  predicate IsApproved(e: Json) {
    e != Null
    && var status := Prop(e, "status");
    && status.Some? && status.value != Null
    && Prop(status.value, "statusName") == Some(Str("Approved"))
  }

  /** `users.filter(user => user.isActive).length`; `None` when it throws:
      the value is not an array, or an element is `null`. */
  function CountUsers(v: Json): (r: Option<nat>)
    ensures r.Some? <==> v.Arr? && Null !in v.items
    ensures r.Some? ==> r.value == |Matches(v.items, ActiveFlag)|
  {
    if v.Arr? && Null !in v.items then
      FilterLengthCountsMatches(v.items, ActiveFlag);
      Some(|Filter(v.items, ActiveFlag)|)
    else None
  }

  /** `v?.filter(test)?.length || 0`; `None` when it throws: the value is
      neither `null` nor an array. */
  function CountOptional(v: Json, test: Json -> bool): (r: Option<nat>)
    ensures r.None? <==> !(v.Null? || v.Arr?)
    ensures v.Null? ==> r == Some(0)
    ensures v.Arr? ==> r == Some(|Matches(v.items, test)|)
  {
    if v.Null? then Some(0)
    else if v.Arr? then
      FilterLengthCountsMatches(v.items, test);
      Some(|Filter(v.items, test)|)
    else None
  }

  /** When a refresh gets through without throwing. */
  ghost predicate Succeeds(token: Option<string>, fetch: Fetch) {
    && token.Some? && token.value != ""
    && fetch.Fetched?
    && Delivered(fetch.users) && Delivered(fetch.branches) && Delivered(fetch.areas) && Delivered(fetch.reports)
    && fetch.users.body.value.Arr? && Null !in fetch.users.body.value.items
    && NullOrList(fetch.branches.body.value) && NullOrList(fetch.areas.body.value) && NullOrList(fetch.reports.body.value)
  }

  /** A reply that is ok and parses. */
  predicate Delivered(r: Response) {
    r.ok && r.body.Some?
  }

  predicate NullOrList(v: Json) {
    v.Null? || v.Arr?
  }

  /** The number of elements of a list reply passing `test`, 0 for `null`. */
  ghost function Count(v: Json, test: Json -> bool): nat {
    if v.Arr? then |Matches(v.items, test)| else 0
  }

  /** `fetchDashboardStats` after its first update. `token` is what
      `localStorage.getItem('token')` returns. */
  function Refresh(token: Option<string>, fetch: Fetch): (r: Stats)
    ensures !r.isLoading
    ensures !Succeeds(token, fetch) ==> r == Failed
    ensures Succeeds(token, fetch) ==>
              r == Stats(Count(fetch.users.body.value, ActiveFlag), Count(fetch.branches.body.value, OptionalActive),
                         Count(fetch.areas.body.value, OptionalActive), Count(fetch.reports.body.value, IsApproved), false)
  {
    if token.None? || token.value == "" then Failed
    else match fetch
      case NetworkError => Failed
      case Fetched(users, branches, areas, reports) =>
        if !(users.ok && branches.ok && areas.ok && reports.ok) then Failed
        else if users.body.None? || branches.body.None? || areas.body.None? || reports.body.None? then Failed
        else
          var u := CountUsers(users.body.value);
          var b := CountOptional(branches.body.value, OptionalActive);
          var a := CountOptional(areas.body.value, OptionalActive);
          var p := CountOptional(reports.body.value, IsApproved);
          if u.None? || b.None? || a.None? || p.None? then Failed
          else Stats(u.value, b.value, a.value, p.value, false)
  }

  /** Every count is at most the length of the list it comes from. */
  lemma CountsBounded(token: Option<string>, fetch: Fetch)
    requires Succeeds(token, fetch)
    ensures var r := Refresh(token, fetch);
            && r.activeUsers <= |fetch.users.body.value.items|
            && (fetch.branches.body.value.Arr? ==> r.branches <= |fetch.branches.body.value.items|)
            && (fetch.areas.body.value.Arr? ==> r.areas <= |fetch.areas.body.value.items|)
            && (fetch.reports.body.value.Arr? ==> r.approved <= |fetch.reports.body.value.items|)
  {
    MatchesBounded(fetch.users.body.value.items, ActiveFlag);
    if fetch.branches.body.value.Arr? {
      MatchesBounded(fetch.branches.body.value.items, OptionalActive);
    }
    if fetch.areas.body.value.Arr? {
      MatchesBounded(fetch.areas.body.value.items, OptionalActive);
    }
    if fetch.reports.body.value.Arr? {
      MatchesBounded(fetch.reports.body.value.items, IsApproved);
    }
  }

  lemma MatchesBounded(xs: seq<Json>, test: Json -> bool)
    ensures |Matches(xs, test)| <= |xs|
  {
    FilterLengthCountsMatches(xs, test);
  }

  /** The `/daily-reports` route answers with an object, so `reports?.filter`
      throws and every count drops to 0, whatever the other replies hold. */
  lemma DailyReportsZeroEverything(token: Option<string>, users: Response, branches: Response, areas: Response, today: string)
    ensures Refresh(token, Fetched(users, branches, areas, Response(true, Some(FlaskApp.DailyReports(today))))) == Failed
  {
  }

  /** Even unwrapped, the mocked report would not count: its `status` is a
      plain string, not an object carrying `statusName`. */
  lemma MockReportNeverApproved(today: string)
    ensures var data := Lookup(FlaskApp.DailyReports(today).members, "data");
            && data.Some? && data.value.Arr?
            && Count(data.value, IsApproved) == 0
  {
    var m0 := FlaskApp.DailyReports(today).members;
    assert Lookup(m0, "data") == Lookup(m0[1..], "data");
    var data := Lookup(m0, "data").value;
    var report := data.items[0];
    assert Prop(report, "status") == Some(Str("Completed")) by {
      var m := report.members;
      assert Lookup(m, "status") == Lookup(m[1..], "status") == Lookup(m[2..], "status")
          == Lookup(m[3..], "status") == Lookup(m[4..], "status");
    }
    assert Matches(data.items, IsApproved) == {};
  }

  /** The `/areas` and `/branches` replies list active rows only, so the
      dashboard counts every entry they hold, which is the number of active
      rows in each table. */
  lemma ActiveListingsCountedInFull(areas: seq<FlaskApp.AreaRow>, branches: seq<FlaskApp.BranchRow>)
    ensures CountOptional(FlaskApp.ActiveAreas(areas), OptionalActive) == Some(|FlaskApp.ActiveAreas(areas).items|)
    ensures CountOptional(FlaskApp.ActiveBranches(branches), OptionalActive) == Some(|FlaskApp.ActiveBranches(branches).items|)
    ensures CountOptional(FlaskApp.ActiveAreas(areas), OptionalActive) == Some(|Matches(areas, FlaskApp.AreaActive)|)
    ensures CountOptional(FlaskApp.ActiveBranches(branches), OptionalActive)
            == Some(|Matches(branches, FlaskApp.BranchActive)|)
  {
    ActiveAreasCounted(areas);
    ActiveBranchesCounted(branches);
  }

  lemma ActiveAreasCounted(areas: seq<FlaskApp.AreaRow>)
    ensures CountOptional(FlaskApp.ActiveAreas(areas), OptionalActive) == Some(|FlaskApp.ActiveAreas(areas).items|)
  {
    var a := FlaskApp.ActiveAreas(areas).items;
    FilterKeepsAll(a, OptionalActive);
    FilterLengthCountsMatches(a, OptionalActive);
  }

  lemma ActiveBranchesCounted(branches: seq<FlaskApp.BranchRow>)
    ensures CountOptional(FlaskApp.ActiveBranches(branches), OptionalActive) == Some(|FlaskApp.ActiveBranches(branches).items|)
  {
    var b := FlaskApp.ActiveBranches(branches).items;
    FilterKeepsAll(b, OptionalActive);
    FilterLengthCountsMatches(b, OptionalActive);
  }

  /** Fed the `/users` reply, the active-user count is the number of users
      whose `isActive` column is true. */
  lemma ActiveUsersCounted(users: seq<FlaskApp.UserRow>)
    ensures CountUsers(FlaskApp.AllUsers(users)) == Some(|set i | 0 <= i < |users| && users[i].isActive == Some(true)|)
  {
    var items := FlaskApp.AllUsers(users).items;
    assert Null !in items by {
      forall i | 0 <= i < |items| ensures items[i] != Null {
        assert items[i] == FlaskApp.ToDict(users[i]);
      }
    }
    forall i | 0 <= i < |items| ensures ActiveFlag(items[i]) <==> users[i].isActive == Some(true) {
      FlaskApp.ToDictActiveRead(users[i]);
    }
    assert Matches(items, ActiveFlag) == set i | 0 <= i < |users| && users[i].isActive == Some(true);
  }
}
