/** The SI dashboard: the status cards, the status chart and the chart of
    the ten locations with the most SIs. */
module SIDashboard {
  import opened Types
  import opened ArrayOps
  import opened Charts

  function StatusOf(s: SI): SIStatus { s.status }

  function LocationOf(s: SI): string { s.location }

  /** Valid or extended: the "active" card. */
  predicate IsActive(s: SI)
  {
    s.status == VIGENTE || s.status == EXTENDED
  }

  datatype SIStats = SIStats(total: nat, active: nat, expiring: nat, expired: nat, closed: nat)

  /** The cards. Every SI is counted on exactly one of the four status
      cards. */
  function Stats(sis: seq<SI>): (st: SIStats)
    ensures st.total == |sis|
    ensures st.active + st.expiring + st.expired + st.closed == st.total
    ensures st.active == CountBy(sis, StatusOf)(VIGENTE) + CountBy(sis, StatusOf)(EXTENDED)
    ensures st.expiring == CountBy(sis, StatusOf)(EXPIRING)
    ensures st.expired == CountBy(sis, StatusOf)(EXPIRED)
    ensures st.closed == CountBy(sis, StatusOf)(CLOSED)
  {
    var st := SIStats(|sis|, Count(sis, IsActive), Count(sis, Is(StatusOf, EXPIRING)),
                      Count(sis, Is(StatusOf, EXPIRED)), Count(sis, Is(StatusOf, CLOSED)));
    StatsAddUp(sis);
    st
  }

  lemma StatsAddUp(sis: seq<SI>)
    ensures Count(sis, IsActive) == Count(sis, Is(StatusOf, VIGENTE)) + Count(sis, Is(StatusOf, EXTENDED))
    ensures Count(sis, IsActive) + Count(sis, Is(StatusOf, EXPIRING)) + Count(sis, Is(StatusOf, EXPIRED))
            + Count(sis, Is(StatusOf, CLOSED)) == |sis|
  {
    var v, e := Is(StatusOf, VIGENTE), Is(StatusOf, EXTENDED);
    assert forall x: SI :: v(x) == (x.status == VIGENTE) && e(x) == (x.status == EXTENDED);
    CountDisjointUnion(sis, v, e, IsActive);
    var keys := AllSIStatuses();
    SumOverCounts(keys, sis, StatusOf);
    forall s ensures StatusOf(s) in keys {
      AllSIStatusesComplete(s.status);
    }
    CountAll(sis, InKeys(keys, StatusOf));
    var c := CountBy(sis, StatusOf);
    assert SumOver(keys, c) == c(VIGENTE) + c(EXPIRING) + c(EXPIRED) + c(EXTENDED) + c(CLOSED) by {
      assert keys[1..] == [EXPIRING, EXPIRED, EXTENDED, CLOSED];
      assert keys[1..][1..] == [EXPIRED, EXTENDED, CLOSED];
      assert keys[1..][1..][1..] == [EXTENDED, CLOSED];
      assert keys[1..][1..][1..][1..] == [CLOSED];
    }
  }

  /** The status chart: one slice per status with SIs, in the enumeration's
      order. */
  function StatusData(sis: seq<SI>): (r: seq<Slice<SIStatus>>)
    ensures |r| <= 5
    ensures forall i :: 0 <= i < |r| ==> r[i].value == Count(sis, Is(StatusOf, r[i].name)) > 0
    // the categories in use, in the enumeration's order
    ensures Map(r, SliceName) == Filter(AllSIStatuses(), Positive(CountBy(sis, StatusOf)))
  {
    PositiveSlicesOrder(AllSIStatuses(), CountBy(sis, StatusOf));
    PositiveSlices(AllSIStatuses(), CountBy(sis, StatusOf))
  }

  /** Every status in use has its slice on the status chart. */
  lemma StatusDataComplete(sis: seq<SI>, m: nat)
    requires m < |sis|
    ensures Slice(sis[m].status, Count(sis, Is(StatusOf, sis[m].status))) in StatusData(sis)
  {
    AllSIStatusesComplete(sis[m].status);
    CountPositive(sis, Is(StatusOf, sis[m].status), m);
    PositiveSliceListed(AllSIStatuses(), CountBy(sis, StatusOf), sis[m].status);
  }

  /** The status chart accounts for every SI. */
  lemma StatusDataTotal(sis: seq<SI>)
    ensures Total(StatusData(sis)) == |sis|
  {
    forall s ensures StatusOf(s) in AllSIStatuses() {
      AllSIStatusesComplete(s.status);
    }
    SeriesCoversAll(AllSIStatuses(), sis, StatusOf);
  }

  /** The tally `locationData` builds: for each SI in turn,
      `locMap[loc] = (locMap[loc] || 0) + 1`. */
  function Tally(xs: seq<SI>): map<string, nat>
    decreases |xs|
  {
    if xs == [] then map[]
    else
      var m := Tally(xs[..|xs| - 1]);
      var loc := xs[|xs| - 1].location;
      m[loc := (if loc in m then m[loc] else 0) + 1]
  }

  /** The tally holds exactly the locations in use, each with its number
      of SIs. */
  lemma {:induction false} TallyCounts(xs: seq<SI>, k: string)
    ensures k in Tally(xs) <==> Count(xs, Is(LocationOf, k)) > 0
    ensures k in Tally(xs) ==> Tally(xs)[k] == Count(xs, Is(LocationOf, k))
    decreases |xs|
  {
    if xs != [] {
      var init, s := xs[..|xs| - 1], xs[|xs| - 1];
      TallyCounts(init, k);
      assert xs == init + [s];
      CountSnoc(init, s, Is(LocationOf, k));
    }
  }

  /** One more SI raises its location's count by one, starting from zero. */
  lemma TallySnoc(xs: seq<SI>, s: SI)
    ensures var m := Tally(xs);
            Tally(xs + [s]) == m[s.location := (if s.location in m then m[s.location] else 0) + 1]
  {
    assert (xs + [s])[..|xs|] == xs;
  }

  /** The tally has a key for each location in use and for no other. */
  lemma {:induction false} TallyDomain(xs: seq<SI>, k: string)
    ensures k in Tally(xs) <==> k in Map(xs, LocationOf)
    decreases |xs|
  {
    if xs != [] {
      var init, s := xs[..|xs| - 1], xs[|xs| - 1];
      TallyDomain(init, k);
      assert xs == init + [s];
      MapSnoc(init, s, LocationOf);
      TallySnoc(init, s);
    }
  }

  /** `Object.keys(locMap)` lists the locations in order of first
      insertion, which is the order of first use: the keys of the tally are
      exactly its locations, each once. */
  lemma TallyKeysListed(xs: seq<SI>)
    ensures NoDuplicates(Distinct(Map(xs, LocationOf)))
    ensures forall k :: k in Distinct(Map(xs, LocationOf)) <==> k in Tally(xs)
  {
    DistinctNoDuplicates(Map(xs, LocationOf));
    forall k ensures k in Distinct(Map(xs, LocationOf)) <==> k in Tally(xs) {
      DistinctMembers(Map(xs, LocationOf), k);
      TallyDomain(xs, k);
    }
  }

  /** One pass of the loop over the first `i` SIs: a location seen for the
      first time becomes a new key at the end, and its count goes up by one. */
  lemma TallyStep(sis: seq<SI>, i: nat)
    requires i < |sis|
    ensures var loc, m := sis[i].location, Tally(sis[..i]);
            Tally(sis[..i + 1]) == m[loc := (if loc in m then m[loc] else 0) + 1] &&
            Distinct(Map(sis[..i + 1], LocationOf)) ==
              if loc in m then Distinct(Map(sis[..i], LocationOf)) else Distinct(Map(sis[..i], LocationOf)) + [loc]
  {
    assert sis[..i + 1] == sis[..i] + [sis[i]];
    TallyKeysSnoc(sis[..i], sis[i]);
    TallySnoc(sis[..i], sis[i]);
    TallyDomain(sis[..i], sis[i].location);
  }

  lemma TallyKeysSnoc(xs: seq<SI>, s: SI)
    ensures Distinct(Map(xs + [s], LocationOf)) ==
              if s.location in Map(xs, LocationOf) then Distinct(Map(xs, LocationOf))
              else Distinct(Map(xs, LocationOf)) + [s.location]
  {
    MapSnoc(xs, s, LocationOf);
    DistinctSnoc(Map(xs, LocationOf), s.location);
  }

  /** The loop of `locationData`, with the keys of `locMap` kept beside it
      in the order `Object.keys` lists them. */
  method LocationCounts(sis: seq<SI>) returns (keys: seq<string>, locMap: map<string, nat>)
    ensures keys == Distinct(Map(sis, LocationOf))
    ensures locMap == Tally(sis)
  {
    keys := [];
    locMap := map[];
    var i := 0;
    while i < |sis|
      invariant 0 <= i <= |sis|
      invariant keys == Distinct(Map(sis[..i], LocationOf))
      invariant locMap == Tally(sis[..i])
    {
      var loc := sis[i].location;
      TallyStep(sis, i);
      if loc !in locMap {
        keys := keys + [loc];
      }
      var current := if loc in locMap then locMap[loc] else 0;
      locMap := locMap[loc := current + 1];
      i := i + 1;
    }
    assert sis[..i] == sis;
  }

  /** The location chart orders by count, largest first. */
  function ByCountDescending(e: Slice<string>): Key
  {
    Key(-(e.value as int), 0)
  }

  function NameOf(e: Slice<string>): string { e.name }

  /** `k => ({name: k, value: locMap[k]})`. */
  function EntryOf(locMap: map<string, nat>): string -> Slice<string>
  {
    (k: string) => Slice(k, if k in locMap then locMap[k] else 0)
  }

  /** How many locations the chart shows at most. */
  const TOP_LOCATIONS: nat := 10

  /** `Object.keys(locMap).map(...).sort((a, b) => b.value - a.value).slice(0, 10)`. */
  function TopLocations(keys: seq<string>, locMap: map<string, nat>): (r: seq<Slice<string>>)
    requires NoDuplicates(keys)
    requires forall k :: k in keys ==> k in locMap
    ensures |r| == if |keys| < TOP_LOCATIONS then |keys| else TOP_LOCATIONS
    ensures forall i :: 0 <= i < |r| ==> r[i].name in keys && r[i].value == locMap[r[i].name]
    ensures forall i, j :: 0 <= i < j < |r| ==> r[i].name != r[j].name
    ensures forall i, j :: 0 <= i < j < |r| ==> r[i].value >= r[j].value
  {
    var entries := Map(keys, EntryOf(locMap));
    var sorted := SortBy(entries, ByCountDescending);
    var r := Take(sorted, TOP_LOCATIONS);
    ShownEntries(keys, locMap, entries, sorted, r);
    ShownNamesDistinct(keys, locMap, entries, sorted, r);
    ShownDescending(sorted, r);
    r
  }

  /** A key left off the chart has a count no larger than any shown. */
  lemma TopLocationsLeftOff(keys: seq<string>, locMap: map<string, nat>, m: nat)
    requires NoDuplicates(keys)
    requires forall k :: k in keys ==> k in locMap
    requires m < |keys|
    ensures var r := TopLocations(keys, locMap);
            keys[m] in Map(r, NameOf) ||
            (|r| == TOP_LOCATIONS && forall i :: 0 <= i < |r| ==> r[i].value >= locMap[keys[m]])
  {
    var entries := Map(keys, EntryOf(locMap));
    var sorted := SortBy(entries, ByCountDescending);
    LeftOff(keys, locMap, entries, sorted, Take(sorted, TOP_LOCATIONS), m);
  }

  /** The entries built from the keys, one per key in key order. */
  ghost predicate EntriesOf(keys: seq<string>, locMap: map<string, nat>, entries: seq<Slice<string>>)
  {
    |entries| == |keys| &&
    forall k :: 0 <= k < |keys| ==> keys[k] in locMap && entries[k].name == keys[k] && entries[k].value == locMap[keys[k]]
  }

  /** A shown entry is one of the keys with its count. */
  lemma ShownEntries(keys: seq<string>, locMap: map<string, nat>, entries: seq<Slice<string>>,
                     sorted: seq<Slice<string>>, r: seq<Slice<string>>)
    requires forall k :: k in keys ==> k in locMap
    requires EntriesOf(keys, locMap, entries) && multiset(sorted) == multiset(entries)
    requires |r| <= |sorted| && r == sorted[..|r|]
    ensures forall i :: 0 <= i < |r| ==> r[i].name in keys && r[i].value == locMap[r[i].name]
  {
    forall i | 0 <= i < |r| ensures r[i].name in keys && r[i].value == locMap[r[i].name] {
      assert r[i] == sorted[i];
      assert sorted[i] in multiset(entries);
      var j :| 0 <= j < |entries| && entries[j] == sorted[i];
    }
  }

  /** Distinct keys give shown entries with distinct names. */
  lemma ShownNamesDistinct(keys: seq<string>, locMap: map<string, nat>, entries: seq<Slice<string>>,
                           sorted: seq<Slice<string>>, r: seq<Slice<string>>)
    requires NoDuplicates(keys) && forall k :: k in keys ==> k in locMap
    requires EntriesOf(keys, locMap, entries) && multiset(sorted) == multiset(entries)
    requires |r| <= |sorted| && r == sorted[..|r|]
    ensures forall i, j :: 0 <= i < j < |r| ==> r[i].name != r[j].name
  {
    assert NoDuplicates(entries) by {
      forall i, j | 0 <= i < j < |entries| ensures entries[i] != entries[j] {
        assert entries[i].name == keys[i] && entries[j].name == keys[j];
      }
    }
    NoDuplicatesPermutation(entries, sorted);
    forall i, j | 0 <= i < j < |r| ensures r[i].name != r[j].name {
      assert r[i] == sorted[i] && r[j] == sorted[j];
      assert sorted[i] in multiset(entries) && sorted[j] in multiset(entries);
      var a :| 0 <= a < |entries| && entries[a] == sorted[i];
      var b :| 0 <= b < |entries| && entries[b] == sorted[j];
      if a < b {
        assert keys[a] != keys[b];
      } else if b < a {
        assert keys[b] != keys[a];
      }
    }
  }

  /** The shown entries are in descending order of count. */
  lemma ShownDescending(sorted: seq<Slice<string>>, r: seq<Slice<string>>)
    requires SortedBy(sorted, ByCountDescending)
    requires |r| <= |sorted| && r == sorted[..|r|]
    ensures forall i, j :: 0 <= i < j < |r| ==> r[i].value >= r[j].value
  {
    forall i, j | 0 <= i < j < |r| ensures r[i].value >= r[j].value {
      assert r[i] == sorted[i] && r[j] == sorted[j];
      assert KeyLe(ByCountDescending(sorted[i]), ByCountDescending(sorted[j]));
    }
  }

  /** A key cut off by the slice has a count no larger than any shown. */
  lemma LeftOff(keys: seq<string>, locMap: map<string, nat>, entries: seq<Slice<string>>,
                sorted: seq<Slice<string>>, r: seq<Slice<string>>, m: nat)
    requires forall k :: k in keys ==> k in locMap
    requires EntriesOf(keys, locMap, entries) && multiset(sorted) == multiset(entries)
    requires SortedBy(sorted, ByCountDescending)
    requires |r| == (if |sorted| < TOP_LOCATIONS then |sorted| else TOP_LOCATIONS) && r == sorted[..|r|]
    requires m < |keys|
    ensures keys[m] in Map(r, NameOf) ||
            (|r| == TOP_LOCATIONS && forall i :: 0 <= i < |r| ==> r[i].value >= locMap[keys[m]])
  {
    assert entries[m] in multiset(entries);
    assert entries[m] in multiset(sorted);
    var p :| 0 <= p < |sorted| && sorted[p] == entries[m];
    if p >= |r| {
      forall i | 0 <= i < |r| ensures r[i].value >= locMap[keys[m]] {
        assert r[i] == sorted[i];
        assert KeyLe(ByCountDescending(sorted[i]), ByCountDescending(sorted[p]));
      }
    } else {
      assert r[p] == sorted[p];
      assert Map(r, NameOf)[p] == keys[m];
    }
  }

  /** `locationData`: the tally's keys, in insertion order, charted. */
  function LocationChart(sis: seq<SI>): seq<Slice<string>>
  {
    TallyKeysListed(sis);
    TopLocations(Distinct(Map(sis, LocationOf)), Tally(sis))
  }

  /** `locationData` as the component computes it: the tally loop, then the
      chart of its keys. */
  method LocationData(sis: seq<SI>) returns (r: seq<Slice<string>>)
    ensures r == LocationChart(sis)
  {
    var keys, locMap := LocationCounts(sis);
    TallyKeysListed(sis);
    r := TopLocations(keys, locMap);
  }

  /** The location chart shows at most ten locations, each once, with its
      number of SIs, largest first. */
  lemma LocationChartShown(sis: seq<SI>)
    ensures var r := LocationChart(sis);
            |r| <= TOP_LOCATIONS &&
            (forall i :: 0 <= i < |r| ==> r[i].value == Count(sis, Is(LocationOf, r[i].name)) > 0) &&
            (forall i, j :: 0 <= i < j < |r| ==> r[i].name != r[j].name) &&
            (forall i, j :: 0 <= i < j < |r| ==> r[i].value >= r[j].value)
  {
    TallyKeysListed(sis);
    ChartCounts(sis, Distinct(Map(sis, LocationOf)), Tally(sis), LocationChart(sis));
  }

  /** No location left off the chart has more SIs than one shown. */
  lemma LocationChartLeftOff(sis: seq<SI>)
    ensures var r := LocationChart(sis);
            forall m :: 0 <= m < |sis| ==>
              sis[m].location in Map(r, NameOf) ||
              (|r| == TOP_LOCATIONS &&
               forall i :: 0 <= i < |r| ==> r[i].value >= Count(sis, Is(LocationOf, sis[m].location)))
  {
    var keys := Distinct(Map(sis, LocationOf));
    var r := LocationChart(sis);
    TallyKeysListed(sis);
    forall m | 0 <= m < |sis|
      ensures sis[m].location in Map(r, NameOf) ||
              (|r| == TOP_LOCATIONS &&
               forall i :: 0 <= i < |r| ==> r[i].value >= Count(sis, Is(LocationOf, sis[m].location)))
    {
      var loc := sis[m].location;
      assert Map(sis, LocationOf)[m] == loc;
      DistinctMembers(Map(sis, LocationOf), loc);
      var q :| 0 <= q < |keys| && keys[q] == loc;
      TopLocationsLeftOff(keys, Tally(sis), q);
      TallyCounts(sis, loc);
    }
  }

  /** Each shown location's value is its number of SIs, which is positive. */
  lemma ChartCounts(sis: seq<SI>, keys: seq<string>, locMap: map<string, nat>, r: seq<Slice<string>>)
    requires locMap == Tally(sis)
    requires forall k :: k in keys <==> k in locMap
    requires forall i :: 0 <= i < |r| ==> r[i].name in keys && r[i].value == locMap[r[i].name]
    ensures forall i :: 0 <= i < |r| ==> r[i].value == Count(sis, Is(LocationOf, r[i].name)) > 0
  {
    forall i | 0 <= i < |r| ensures r[i].value == Count(sis, Is(LocationOf, r[i].name)) > 0 {
      TallyCounts(sis, r[i].name);
    }
  }

  /** Before the cut to the top ten, the per-location counts add up to the
      number of SIs: every SI is counted under exactly one location. */
  lemma LocationCountsTotal(sis: seq<SI>)
    ensures SumOver(Distinct(Map(sis, LocationOf)), CountBy(sis, LocationOf)) == |sis|
  {
    var locs := Map(sis, LocationOf);
    var keys := Distinct(locs);
    DistinctNoDuplicates(locs);
    SumOverCounts(keys, sis, LocationOf);
    forall i | 0 <= i < |sis| ensures InKeys(keys, LocationOf)(sis[i]) {
      assert locs[i] == sis[i].location;
      DistinctMembers(locs, sis[i].location);
    }
    FilterAll(sis, InKeys(keys, LocationOf));
  }
}
