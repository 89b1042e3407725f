/** The SI list: date formatting, the linked work order's number, the three
    filters and the urgency ordering. */
module SIList {
  import opened Types
  import opened ArrayOps
  import opened Text
  import opened StatusEngine

  /** The label shown for an SI whose Demand cannot be found. */
  const NOT_LINKED: string := "Não Vinculada"

  /** Destructuring `[a, b, c] = parts`: a missing part is `undefined`. */
  function Part(parts: seq<string>, i: nat): string
  {
    if i < |parts| then parts[i] else "undefined"
  }

  /** `formatDate`: `YYYY-MM-DD` shown as `DD/MM/YYYY`; empty shows `-`. */
  function FormatDate(dateString: string): (r: string)
    ensures dateString == "" ==> r == "-"
  {
    if dateString == "" then "-"
    else
      var parts := Split(dateString, '-');
      Part(parts, 2) + "/" + Part(parts, 1) + "/" + Part(parts, 0)
  }

  /** A well-formed date comes out with its day, month and year reversed
      around slashes. */
  lemma FormatDateIso(year: string, month: string, day: string)
    requires '-' !in year && '-' !in month && '-' !in day
    ensures FormatDate(year + "-" + month + "-" + day) == day + "/" + month + "/" + year
  {
    var parts := [year, month, day];
    SplitJoin(parts, '-');
    assert Join(parts, '-') == year + "-" + month + "-" + day by {
      assert parts[1..] == [month, day];
      assert Join(parts[1..], '-') == month + "-" + Join([day], '-');
    }
  }

  /** A date without dashes is not a date: it shows as its own text in the
      year slot, with `undefined` for the day and month. */
  lemma FormatDateNoDashes(s: string)
    requires s != "" && '-' !in s
    ensures FormatDate(s) == "undefined/undefined/" + s
  {
    SplitNone(s, '-');
  }

  /** `getDemandOrder`: the service order of the first Demand with the id. */
  function DemandOrder(demands: seq<Demand>, demandId: string): (r: string)
    ensures (forall i :: 0 <= i < |demands| ==> demands[i].id != demandId) ==> r == NOT_LINKED
    ensures forall i :: 0 <= i < |demands| && demands[i].id == demandId &&
                        (forall j :: 0 <= j < i ==> demands[j].id != demandId) ==>
              r == demands[i].serviceOrder
  {
    var p := (d: Demand) => d.id == demandId;
    match Find(demands, p)
    case Some(d) =>
      forall i | 0 <= i < |demands| && p(demands[i]) && (forall j :: 0 <= j < i ==> !p(demands[j]))
        ensures d == demands[i]
      {
        FindFirst(demands, p, i);
      }
      d.serviceOrder
    case None => NOT_LINKED
  }

  /** The list's filter bar; an empty field means "no filter". */
  datatype SIFilters = SIFilters(search: string, status: string, location: string)

  predicate MatchesSearch(demands: seq<Demand>, term: string, s: SI)
  {
    Includes(ToLower(s.number), term) ||
    Includes(ToLower(s.description), term) ||
    Includes(ToLower(DemandOrder(demands, s.demandId)), term)
  }

  function SearchFilter(sis: seq<SI>, demands: seq<Demand>, search: string): seq<SI>
  {
    if search == "" then sis
    else Filter(sis, (s: SI) => MatchesSearch(demands, ToLower(search), s))
  }

  function StatusFilter(sis: seq<SI>, status: string): seq<SI>
  {
    if status == "" then sis else Filter(sis, (s: SI) => SIStatusText(s.status) == status)
  }

  function LocationFilter(sis: seq<SI>, location: string): seq<SI>
  {
    if location == "" then sis else Filter(sis, (s: SI) => s.location == location)
  }

  /** One SI passes the filter bar. */
  predicate MatchesFilters(demands: seq<Demand>, f: SIFilters, s: SI)
  {
    (f.search == "" || MatchesSearch(demands, ToLower(f.search), s)) &&
    (f.status == "" || SIStatusText(s.status) == f.status) &&
    (f.location == "" || s.location == f.location)
  }

  /** The list's three filters in turn: search, then status, then location. */
  function FilterSIs(sis: seq<SI>, demands: seq<Demand>, f: SIFilters): (r: seq<SI>)
  {
    LocationFilter(StatusFilter(SearchFilter(sis, demands, f.search), f.status), f.location)
  }

  predicate SearchPasses(demands: seq<Demand>, f: SIFilters, s: SI)
  {
    f.search == "" || MatchesSearch(demands, ToLower(f.search), s)
  }

  predicate SearchAndStatusPass(demands: seq<Demand>, f: SIFilters, s: SI)
  {
    SearchPasses(demands, f, s) && (f.status == "" || SIStatusText(s.status) == f.status)
  }

  /** The three filters in a row keep exactly the SIs that pass all of them,
      in the order of the input. */
  lemma FilterSIsKeepsMatches(sis: seq<SI>, demands: seq<Demand>, f: SIFilters)
    ensures FilterSIs(sis, demands, f) == Filter(sis, (s: SI) => MatchesFilters(demands, f, s))
  {
    var ps := (s: SI) => SearchPasses(demands, f, s);
    var pst := (s: SI) => SearchAndStatusPass(demands, f, s);
    var a := SearchFilter(sis, demands, f.search);
    OptionalFilter(sis, (s: SI) => true, f.search != "",
                   (s: SI) => MatchesSearch(demands, ToLower(f.search), s), ps);
    FilterAll(sis, (s: SI) => true);
    assert a == Filter(sis, ps);
    var b := StatusFilter(a, f.status);
    OptionalFilter(sis, ps, f.status != "", (s: SI) => SIStatusText(s.status) == f.status, pst);
    assert b == Filter(sis, pst);
    OptionalFilter(sis, pst, f.location != "", (s: SI) => s.location == f.location,
                   (s: SI) => MatchesFilters(demands, f, s));
  }

  /** An SI whose Demand is not on the list is found by searching for
      "vinculada". */
  lemma UnlinkedFoundBySearch(demands: seq<Demand>, s: SI)
    requires forall i :: 0 <= i < |demands| ==> demands[i].id != s.demandId
    ensures MatchesSearch(demands, ToLower("vinculada"), s)
  {
    var prefix, word := "Não ", "Vinculada";
    assert DemandOrder(demands, s.demandId) == NOT_LINKED == prefix + word;
    IncludesLoweredSuffix(prefix, word);
    assert ToLower(word) == ToLower("vinculada") by {
      forall k | 0 <= k < |word| ensures ToLower(word)[k] == ToLower("vinculada")[k] {
      }
    }
  }

  /** The urgency rank: expired first, then expiring, then valid or
      extended, then closed. */
  function Priority(s: SIStatus): (p: nat)
    ensures p <= 3
    ensures p == 0 <==> s == EXPIRED
    ensures p == 1 <==> s == EXPIRING
    ensures p == 2 <==> s == VIGENTE || s == EXTENDED
    ensures p == 3 <==> s == CLOSED
  {
    match s
    case EXPIRED => 0
    case EXPIRING => 1
    case VIGENTE => 2
    case EXTENDED => 2
    case CLOSED => 3
  }

  /** The comparator's key: rank, then the instant of the governing date. */
  function UrgencyKey(instantOf: Parser): SI -> Key
  {
    (s: SI) => Key(Priority(s.status), instantOf(EffectiveExpiration(s)).GetOr(0))
  }

  /** Every SI's governing date parses, so that the comparator is
      consistent. */
  predicate DatesParse(sis: seq<SI>, instantOf: Parser)
  {
    forall i :: 0 <= i < |sis| ==> instantOf(EffectiveExpiration(sis[i])).Some?
  }

  /** The list's sort when every date parses. */
  function SortSIs(sis: seq<SI>, instantOf: Parser): (r: seq<SI>)
    requires DatesParse(sis, instantOf)
    ensures multiset(r) == multiset(sis)
    ensures DatesParse(r, instantOf)
    ensures forall i, j :: 0 <= i < j < |r| ==>
              Priority(r[i].status) <= Priority(r[j].status) &&
              (Priority(r[i].status) == Priority(r[j].status) ==>
                 instantOf(EffectiveExpiration(r[i])).value <= instantOf(EffectiveExpiration(r[j])).value)
  {
    var key := UrgencyKey(instantOf);
    var r := SortBy(sis, key);
    forall i | 0 <= i < |r| ensures instantOf(EffectiveExpiration(r[i])).Some? {
      assert r[i] in multiset(sis);
    }
    forall i, j | 0 <= i < j < |r|
      ensures Priority(r[i].status) <= Priority(r[j].status) &&
              (Priority(r[i].status) == Priority(r[j].status) ==>
                 instantOf(EffectiveExpiration(r[i])).value <= instantOf(EffectiveExpiration(r[j])).value)
    {
      assert KeyLe(key(r[i]), key(r[j]));
    }
    r
  }

  /** The list as shown: filtered, then sorted. */
  function VisibleSIs(sis: seq<SI>, demands: seq<Demand>, f: SIFilters, instantOf: Parser): (r: seq<SI>)
    requires DatesParse(FilterSIs(sis, demands, f), instantOf)
    ensures multiset(r) == multiset(Filter(sis, (s: SI) => MatchesFilters(demands, f, s)))
    ensures forall i :: 0 <= i < |r| ==> MatchesFilters(demands, f, r[i])
    ensures DatesParse(r, instantOf)
    ensures forall i, j :: 0 <= i < j < |r| ==>
              Priority(r[i].status) <= Priority(r[j].status) &&
              (Priority(r[i].status) == Priority(r[j].status) ==>
                 instantOf(EffectiveExpiration(r[i])).value <= instantOf(EffectiveExpiration(r[j])).value)
  {
    var kept := FilterSIs(sis, demands, f);
    FilterSIsKeepsMatches(sis, demands, f);
    var r := SortSIs(kept, instantOf);
    forall i | 0 <= i < |r| ensures MatchesFilters(demands, f, r[i]) {
      assert r[i] in multiset(kept);
    }
    r
  }

  /** Every expired SI on the list comes before every SI that is not. */
  lemma ExpiredFirst(sis: seq<SI>, demands: seq<Demand>, f: SIFilters, instantOf: Parser, i: nat, j: nat)
    requires DatesParse(FilterSIs(sis, demands, f), instantOf)
    requires var r := VisibleSIs(sis, demands, f, instantOf);
             i < |r| && j < |r| && r[i].status == EXPIRED && r[j].status != EXPIRED
    ensures i < j
  {
  }

  /** SIs that share a rank and a date keep their order from the input. */
  lemma SortSIsStable(sis: seq<SI>, instantOf: Parser, k: Key)
    requires DatesParse(sis, instantOf)
    ensures Filter(SortSIs(sis, instantOf), (s: SI) => UrgencyKey(instantOf)(s) == k)
         == Filter(sis, (s: SI) => UrgencyKey(instantOf)(s) == k)
  {
    SortByStable(sis, UrgencyKey(instantOf), k, (s: SI) => UrgencyKey(instantOf)(s) == k);
  }
}
