/** The Demand list: the overdue test, the "created ... ago" label, the
    locations offered as a filter, the four filters and the newest-first
    ordering. */
module DemandList {
  import opened Types
  import opened ArrayOps
  import opened Text
  import opened SIList

  /** `isOverdue`: an open Demand whose deadline day is before today.
      `dayOf` is the host's local day of a date string, `None` for an
      invalid date, which compares false and so is never overdue. */
  predicate IsOverdue(deadline: string, status: Status, today: int, dayOf: Parser)
  {
    status != COMPLETED && dayOf(deadline).Some? && dayOf(deadline).value < today
  }

  /** A completed Demand is never overdue, and an open one is overdue from
      the day after its deadline on. */
  lemma OverdueFromNextDay(deadline: string, status: Status, today: int, dayOf: Parser)
    requires dayOf(deadline).Some?
    ensures status == COMPLETED ==> !IsOverdue(deadline, status, today, dayOf)
    ensures status != COMPLETED ==>
              (IsOverdue(deadline, status, today, dayOf) <==> today >= dayOf(deadline).value + 1)
    ensures IsOverdue(deadline, status, today, dayOf) ==> IsOverdue(deadline, status, today + 1, dayOf)
  {
  }

  /** `formatDate` of the list, which has no empty-string case: splitting
      `""` gives one empty part, shown as `undefined/undefined/`. */
  function FormatDate(dateString: string): (r: string)
    ensures dateString == "" ==> r == "undefined/undefined/"
    ensures dateString != "" ==> r == SIList.FormatDate(dateString)
  {
    var parts := Split(dateString, '-');
    Part(parts, 2) + "/" + Part(parts, 1) + "/" + Part(parts, 0)
  }

  /** The "created ... ago" label of `getTimeAgo`. */
  datatype Age =
    | NoLabel            // no creation date
    | JustNow            // under a minute
    | MinutesAgo(m: int)
    | HoursAgo(h: int)
    | DaysAgo(d: int)
    | NaNDays            // an unparseable date: every test fails and the days are `NaN`

  /** `getTimeAgo(dateStr)` at instant `nowMs`; every step rounds down. */
  function TimeAgo(dateStr: Option<string>, nowMs: int, instantOf: Parser): (a: Age)
    ensures a == NoLabel <==> !Truthy(dateStr)
    ensures a == NaNDays <==> Truthy(dateStr) && instantOf(dateStr.value).None?
    ensures Truthy(dateStr) && instantOf(dateStr.value).Some? ==>
              var seconds := (nowMs - instantOf(dateStr.value).value) / 1000;
              (a == JustNow <==> seconds < 60) &&
              (a.MinutesAgo? ==> 1 <= a.m < 60 && a.m * 60 <= seconds < (a.m + 1) * 60) &&
              (a.HoursAgo? ==> 1 <= a.h < 24 && a.h * 3600 <= seconds < (a.h + 1) * 3600) &&
              (a.DaysAgo? ==> a.d >= 1 && a.d * 86400 <= seconds < (a.d + 1) * 86400)
  {
    if !Truthy(dateStr) then NoLabel
    else
      match instantOf(dateStr.value)
      case None => NaNDays
      case Some(t) =>
        var diffInSeconds := (nowMs - t) / 1000;
        if diffInSeconds < 60 then JustNow
        else
          var diffInMinutes := diffInSeconds / 60;
          if diffInMinutes < 60 then MinutesAgo(diffInMinutes)
          else
            var diffInHours := diffInMinutes / 60;
            if diffInHours < 24 then HoursAgo(diffInHours)
            else DaysAgo(diffInHours / 24)
  }

  /** Sample readings: under a minute is "just now", ninety minutes is one
      hour, three and a half days is three days, and a date in the future
      is "just now" too. */
  lemma TimeAgoSamples(dateStr: string, nowMs: int, instantOf: Parser)
    requires dateStr != "" && instantOf(dateStr).Some?
    ensures var t := instantOf(dateStr).value;
            (nowMs - t == 59999 ==> TimeAgo(Some(dateStr), nowMs, instantOf) == JustNow) &&
            (nowMs - t == 90 * 60000 ==> TimeAgo(Some(dateStr), nowMs, instantOf) == HoursAgo(1)) &&
            (nowMs - t == 84 * 3600000 ==> TimeAgo(Some(dateStr), nowMs, instantOf) == DaysAgo(3)) &&
            (nowMs < t ==> TimeAgo(Some(dateStr), nowMs, instantOf) == JustNow)
  {
  }

  function LocationOf(d: Demand): string { d.location }

  /** `uniqueLocations`: each location used by some Demand, once, in order of
      first use. */
  function UniqueLocations(demands: seq<Demand>): (r: seq<string>)
    ensures NoDuplicates(r)
    ensures forall i :: 0 <= i < |r| ==> exists k :: 0 <= k < |demands| && demands[k].location == r[i]
    ensures forall k :: 0 <= k < |demands| ==> demands[k].location in r
  {
    var locs := Map(demands, LocationOf);
    var r := Distinct(locs);
    DistinctNoDuplicates(locs);
    forall i | 0 <= i < |r| ensures exists k :: 0 <= k < |demands| && demands[k].location == r[i] {
      DistinctMembers(locs, r[i]);
      var k :| 0 <= k < |locs| && locs[k] == r[i];
    }
    forall k | 0 <= k < |demands| ensures demands[k].location in r {
      DistinctMembers(locs, locs[k]);
    }
    r
  }

  /** Adding a Demand at an already listed location does not change the
      locations offered. */
  lemma UniqueLocationsSnoc(demands: seq<Demand>, d: Demand)
    ensures UniqueLocations(demands + [d]) ==
              if d.location in UniqueLocations(demands) then UniqueLocations(demands)
              else UniqueLocations(demands) + [d.location]
  {
    var locs := Map(demands, LocationOf);
    MapSnoc(demands, d, LocationOf);
    DistinctSnoc(locs, d.location);
    DistinctMembers(locs, d.location);
  }

  /** The list's filter bar. `status` is a status text, `PENDING` or
      `OVERDUE`; `difficulty` is a difficulty text; empty means no filter. */
  datatype DemandFilters = DemandFilters(search: string, status: string, difficulty: string, location: string)

  /** The filters the list opens with: the dashboard's choice, if any. */
  function InitialFilters(initialStatusFilter: Option<string>): (f: DemandFilters)
    ensures f.search == "" && f.difficulty == "" && f.location == ""
    ensures f.status == if initialStatusFilter.Some? then initialStatusFilter.value else ""
  {
    DemandFilters("", OrElse(initialStatusFilter, ""), "", "")
  }

  predicate MatchesSearch(term: string, d: Demand)
  {
    Includes(ToLower(d.serviceOrder), term) || Includes(ToLower(d.description), term)
  }

  predicate MatchesStatus(status: string, d: Demand, today: int, dayOf: Parser)
  {
    if status == "PENDING" then d.status != COMPLETED
    else if status == "OVERDUE" then IsOverdue(d.deadline, d.status, today, dayOf)
    else StatusText(d.status) == status
  }

  /** The two pseudo-statuses are not the text of any real status, so they
      never hide one. */
  lemma PseudoStatusesAreDistinct(s: Status, d: Demand, today: int, dayOf: Parser)
    ensures StatusText(s) != "PENDING" && StatusText(s) != "OVERDUE"
    ensures MatchesStatus(StatusText(s), d, today, dayOf) <==> d.status == s
  {
  }

  /** Every overdue Demand is pending. */
  lemma OverdueIsPending(d: Demand, today: int, dayOf: Parser)
    ensures MatchesStatus("OVERDUE", d, today, dayOf) ==> MatchesStatus("PENDING", d, today, dayOf)
  {
  }

  predicate P1(f: DemandFilters, d: Demand)
  {
    f.search == "" || MatchesSearch(ToLower(f.search), d)
  }

  predicate P2(f: DemandFilters, d: Demand, today: int, dayOf: Parser)
  {
    P1(f, d) && (f.status == "" || MatchesStatus(f.status, d, today, dayOf))
  }

  predicate P3(f: DemandFilters, d: Demand, today: int, dayOf: Parser)
  {
    P2(f, d, today, dayOf) && (f.difficulty == "" || DifficultyText(d.difficulty) == f.difficulty)
  }

  /** One Demand passes the filter bar. */
  predicate MatchesFilters(f: DemandFilters, d: Demand, today: int, dayOf: Parser)
  {
    P3(f, d, today, dayOf) && (f.location == "" || d.location == f.location)
  }

  /** The four filters in turn, each only when set. */
  function FilterDemands(demands: seq<Demand>, f: DemandFilters, today: int, dayOf: Parser): seq<Demand>
  {
    var a := if f.search == "" then demands
             else Filter(demands, (d: Demand) => MatchesSearch(ToLower(f.search), d));
    var b := if f.status == "" then a
             else Filter(a, (d: Demand) => MatchesStatus(f.status, d, today, dayOf));
    var c := if f.difficulty == "" then b
             else Filter(b, (d: Demand) => DifficultyText(d.difficulty) == f.difficulty);
    if f.location == "" then c else Filter(c, (d: Demand) => d.location == f.location)
  }

  /** The four filters keep exactly the Demands that pass all of them, in
      input order. */
  lemma FilterDemandsKeepsMatches(demands: seq<Demand>, f: DemandFilters, today: int, dayOf: Parser)
    ensures FilterDemands(demands, f, today, dayOf) ==
              Filter(demands, (d: Demand) => MatchesFilters(f, d, today, dayOf))
  {
    var p1 := (d: Demand) => P1(f, d);
    var p2 := (d: Demand) => P2(f, d, today, dayOf);
    var p3 := (d: Demand) => P3(f, d, today, dayOf);
    OptionalFilter(demands, (d: Demand) => true, f.search != "",
                   (d: Demand) => MatchesSearch(ToLower(f.search), d), p1);
    FilterAll(demands, (d: Demand) => true);
    OptionalFilter(demands, p1, f.status != "", (d: Demand) => MatchesStatus(f.status, d, today, dayOf), p2);
    OptionalFilter(demands, p2, f.difficulty != "", (d: Demand) => DifficultyText(d.difficulty) == f.difficulty, p3);
    OptionalFilter(demands, p3, f.location != "", (d: Demand) => d.location == f.location,
                   (d: Demand) => MatchesFilters(f, d, today, dayOf));
  }

  /** `createdAt || openingDate`: the instant the list sorts by. */
  function CreationDate(d: Demand): string
  {
    if d.createdAt != "" then d.createdAt else d.openingDate
  }

  predicate CreationDatesParse(demands: seq<Demand>, instantOf: Parser)
  {
    forall i :: 0 <= i < |demands| ==> instantOf(CreationDate(demands[i])).Some?
  }

  /** Newest first: ascending in the negated instant. */
  function RecencyKey(instantOf: Parser): Demand -> Key
  {
    (d: Demand) => Key(-instantOf(CreationDate(d)).GetOr(0), 0)
  }

  /** The list's sort when every creation date parses. */
  function SortDemands(demands: seq<Demand>, instantOf: Parser): (r: seq<Demand>)
    requires CreationDatesParse(demands, instantOf)
    ensures multiset(r) == multiset(demands)
    ensures CreationDatesParse(r, instantOf)
    ensures forall i, j :: 0 <= i < j < |r| ==>
              instantOf(CreationDate(r[i])).value >= instantOf(CreationDate(r[j])).value
  {
    var key := RecencyKey(instantOf);
    var r := SortBy(demands, key);
    forall i | 0 <= i < |r| ensures instantOf(CreationDate(r[i])).Some? {
      assert r[i] in multiset(demands);
    }
    forall i, j | 0 <= i < j < |r|
      ensures instantOf(CreationDate(r[i])).value >= instantOf(CreationDate(r[j])).value
    {
      assert KeyLe(key(r[i]), key(r[j]));
    }
    r
  }

  /** Demands created at the same instant keep their input order. */
  lemma SortDemandsStable(demands: seq<Demand>, instantOf: Parser, t: int)
    requires CreationDatesParse(demands, instantOf)
    ensures Filter(SortDemands(demands, instantOf), (d: Demand) => RecencyKey(instantOf)(d) == Key(-t, 0))
         == Filter(demands, (d: Demand) => RecencyKey(instantOf)(d) == Key(-t, 0))
  {
    SortByStable(demands, RecencyKey(instantOf), Key(-t, 0), (d: Demand) => RecencyKey(instantOf)(d) == Key(-t, 0));
  }

  /** The list as shown: filtered, then newest first. */
  function VisibleDemands(demands: seq<Demand>, f: DemandFilters, today: int, dayOf: Parser,
                          instantOf: Parser): (r: seq<Demand>)
    requires CreationDatesParse(FilterDemands(demands, f, today, dayOf), instantOf)
    ensures multiset(r) == multiset(Filter(demands, (d: Demand) => MatchesFilters(f, d, today, dayOf)))
    ensures forall i :: 0 <= i < |r| ==> MatchesFilters(f, r[i], today, dayOf)
    ensures CreationDatesParse(r, instantOf)
    ensures forall i, j :: 0 <= i < j < |r| ==>
              instantOf(CreationDate(r[i])).value >= instantOf(CreationDate(r[j])).value
  {
    var kept := FilterDemands(demands, f, today, dayOf);
    FilterDemandsKeepsMatches(demands, f, today, dayOf);
    var r := SortDemands(kept, instantOf);
    forall i | 0 <= i < |r| ensures MatchesFilters(f, r[i], today, dayOf) {
      assert r[i] in multiset(kept);
    }
    r
  }
}
