/** The Demand dashboard: the four KPI cards, the difficulty and status
    charts, and the navigation from a card to the list it summarises. */
module Dashboard {
  import opened Types
  import opened ArrayOps
  import opened Charts
  import opened DemandList

  function StatusOf(d: Demand): Status
  {
    d.status
  }

  function DifficultyOf(d: Demand): Difficulty
  {
    d.difficulty
  }

  predicate Completed(d: Demand)
  {
    d.status == COMPLETED
  }

  predicate Pending(d: Demand)
  {
    d.status != COMPLETED
  }

  /** The card's overdue test: the deadline's instant is before now and not
      on today's local date, and the Demand is not completed. A deadline the
      host cannot parse is an invalid date, and every comparison with it is
      false. */
  predicate Overdue(d: Demand, nowMs: int, instantOf: Parser)
  {
    var t := instantOf(d.deadline);
    t.Some? && t.value < nowMs && LocalDay(t.value) != LocalDay(nowMs) && d.status != COMPLETED
  }

  function OverdueAt(nowMs: int, instantOf: Parser): Demand -> bool
  {
    (d: Demand) => Overdue(d, nowMs, instantOf)
  }

  /** The four numbers on the KPI cards. */
  datatype DashboardStats = DashboardStats(total: nat, completed: nat, pending: nat, overdue: nat)

  /** `stats`: every Demand is either completed or pending, and the overdue
      ones are among the pending. */
  function Stats(demands: seq<Demand>, nowMs: int, instantOf: Parser): (r: DashboardStats)
    ensures r.total == |demands|
    ensures r.completed + r.pending == r.total
    ensures r.overdue <= r.pending
  {
    CountDisjointUnion(demands, Completed, Pending, (d: Demand) => true);
    CountAll(demands, (d: Demand) => true);
    CountMonotone(demands, OverdueAt(nowMs, instantOf), Pending);
    DashboardStats(|demands|, Count(demands, Completed), Count(demands, Pending),
                   Count(demands, OverdueAt(nowMs, instantOf)))
  }

  /** The calendar day of a date text, read through the same instants the
      card compares. */
  function DayOfInstant(instantOf: Parser): Parser
  {
    (s: string) => if instantOf(s).Some? then Some(LocalDay(instantOf(s).value)) else None
  }

  /** "Before now and not today" is "on an earlier day": the card's test
      and the list's overdue test agree when the list's today is the local
      day of now. */
  lemma OverdueIsEarlierDay(d: Demand, nowMs: int, instantOf: Parser)
    ensures Overdue(d, nowMs, instantOf) <==>
              IsOverdue(d.deadline, d.status, LocalDay(nowMs), DayOfInstant(instantOf))
  {
    var t := instantOf(d.deadline);
    if t.Some? {
      if t.value < nowMs {
        LocalDayMonotone(t.value, nowMs);
      } else {
        LocalDayMonotone(nowMs, t.value);
      }
    }
  }

  /** The list opened from a card with a status choice shows the Demands
      of that choice, as many as the status matches. */
  lemma {:induction false} ListedByStatus(demands: seq<Demand>, status: string, today: int, dayOf: Parser)
    requires status != ""
    ensures |FilterDemands(demands, InitialFilters(Some(status)), today, dayOf)| ==
              Count(demands, (d: Demand) => MatchesStatus(status, d, today, dayOf))
  {
    var f := InitialFilters(Some(status));
    FilterDemandsKeepsMatches(demands, f, today, dayOf);
    var p := (d: Demand) => MatchesFilters(f, d, today, dayOf);
    var q := (d: Demand) => MatchesStatus(status, d, today, dayOf);
    CountMonotone(demands, p, q);
    CountMonotone(demands, q, p);
  }

  /** The Total card opens the unfiltered list, which shows its number of
      Demands. */
  lemma TotalCardMatchesList(demands: seq<Demand>, nowMs: int, instantOf: Parser, today: int, dayOf: Parser)
    ensures Stats(demands, nowMs, instantOf).total == |FilterDemands(demands, InitialFilters(Some("")), today, dayOf)|
  {
    var f := InitialFilters(Some(""));
    FilterDemandsKeepsMatches(demands, f, today, dayOf);
    FilterAll(demands, (d: Demand) => MatchesFilters(f, d, today, dayOf));
  }

  /** The open-Demands card opens the list on `PENDING`, which shows that
      many Demands. */
  lemma PendingCardMatchesList(demands: seq<Demand>, nowMs: int, instantOf: Parser, today: int, dayOf: Parser)
    ensures Stats(demands, nowMs, instantOf).pending ==
              |FilterDemands(demands, InitialFilters(Some("PENDING")), today, dayOf)|
  {
    ListedByStatus(demands, "PENDING", today, dayOf);
    var q := (d: Demand) => MatchesStatus("PENDING", d, today, dayOf);
    CountMonotone(demands, q, Pending);
    CountMonotone(demands, Pending, q);
  }

  /** The completed card opens the list on the completed status's text,
      which shows that many Demands. */
  lemma CompletedCardMatchesList(demands: seq<Demand>, nowMs: int, instantOf: Parser, today: int, dayOf: Parser)
    ensures Stats(demands, nowMs, instantOf).completed ==
              |FilterDemands(demands, InitialFilters(Some(StatusText(COMPLETED))), today, dayOf)|
  {
    var text := StatusText(COMPLETED);
    ListedByStatus(demands, text, today, dayOf);
    var q := (d: Demand) => MatchesStatus(text, d, today, dayOf);
    forall d: Demand ensures q(d) == Completed(d) {
      PseudoStatusesAreDistinct(COMPLETED, d, today, dayOf);
      AllStatusesComplete(d.status);
    }
    CountMonotone(demands, q, Completed);
    CountMonotone(demands, Completed, q);
  }

  /** The overdue card opens the list on `OVERDUE`, which shows that many
      Demands when the list's today is the local day of the card's now and
      it reads deadlines through the same instants. */
  lemma OverdueCardMatchesList(demands: seq<Demand>, nowMs: int, instantOf: Parser)
    ensures Stats(demands, nowMs, instantOf).overdue ==
              |FilterDemands(demands, InitialFilters(Some("OVERDUE")), LocalDay(nowMs), DayOfInstant(instantOf))|
  {
    var today, dayOf := LocalDay(nowMs), DayOfInstant(instantOf);
    ListedByStatus(demands, "OVERDUE", today, dayOf);
    var q := (d: Demand) => MatchesStatus("OVERDUE", d, today, dayOf);
    var p := OverdueAt(nowMs, instantOf);
    forall d: Demand ensures q(d) == p(d) {
      OverdueIsEarlierDay(d, nowMs, instantOf);
    }
    CountMonotone(demands, q, p);
    CountMonotone(demands, p, q);
  }

  /** The difficulty chart: one slice per difficulty in use, in the
      enumeration's order. */
  function DifficultyData(demands: seq<Demand>): (r: seq<Slice<Difficulty>>)
    ensures |r| <= 3
    ensures forall i :: 0 <= i < |r| ==> r[i].value == Count(demands, Is(DifficultyOf, r[i].name)) > 0
    // the categories in use, in the enumeration's order
    ensures Map(r, SliceName) == Filter(AllDifficulties(), Positive(CountBy(demands, DifficultyOf)))
  {
    PositiveSlicesOrder(AllDifficulties(), CountBy(demands, DifficultyOf));
    PositiveSlices(AllDifficulties(), CountBy(demands, DifficultyOf))
  }

  /** Every difficulty in use has its slice on the difficulty chart. */
  lemma DifficultyDataComplete(demands: seq<Demand>, m: nat)
    requires m < |demands|
    ensures Slice(demands[m].difficulty, Count(demands, Is(DifficultyOf, demands[m].difficulty)))
              in DifficultyData(demands)
  {
    AllDifficultiesComplete(demands[m].difficulty);
    CountPositive(demands, Is(DifficultyOf, demands[m].difficulty), m);
    PositiveSliceListed(AllDifficulties(), CountBy(demands, DifficultyOf), demands[m].difficulty);
  }

  /** The difficulty chart accounts for every Demand. */
  lemma DifficultyDataTotal(demands: seq<Demand>)
    ensures Total(DifficultyData(demands)) == |demands|
  {
    forall d ensures DifficultyOf(d) in AllDifficulties() {
      AllDifficultiesComplete(d.difficulty);
    }
    SeriesCoversAll(AllDifficulties(), demands, DifficultyOf);
  }

  /** The status chart: one slice per status in use, in the enumeration's
      order. */
  function StatusData(demands: seq<Demand>): (r: seq<Slice<Status>>)
    ensures |r| <= 4
    ensures forall i :: 0 <= i < |r| ==> r[i].value == Count(demands, Is(StatusOf, r[i].name)) > 0
    // the categories in use, in the enumeration's order
    ensures Map(r, SliceName) == Filter(AllStatuses(), Positive(CountBy(demands, StatusOf)))
  {
    PositiveSlicesOrder(AllStatuses(), CountBy(demands, StatusOf));
    PositiveSlices(AllStatuses(), CountBy(demands, StatusOf))
  }

  /** Every status in use has its slice on the status chart. */
  lemma StatusDataComplete(demands: seq<Demand>, m: nat)
    requires m < |demands|
    ensures Slice(demands[m].status, Count(demands, Is(StatusOf, demands[m].status))) in StatusData(demands)
  {
    AllStatusesComplete(demands[m].status);
    CountPositive(demands, Is(StatusOf, demands[m].status), m);
    PositiveSliceListed(AllStatuses(), CountBy(demands, StatusOf), demands[m].status);
  }

  /** The status chart accounts for every Demand. */
  lemma StatusDataTotal(demands: seq<Demand>)
    ensures Total(StatusData(demands)) == |demands|
  {
    forall d ensures StatusOf(d) in AllStatuses() {
      AllStatusesComplete(d.status);
    }
    SeriesCoversAll(AllStatuses(), demands, StatusOf);
  }

  /** The completed slice of the status chart, when present, is the
      completed card's number. */
  lemma CompletedSliceIsCard(demands: seq<Demand>, nowMs: int, instantOf: Parser, i: nat)
    requires i < |StatusData(demands)| && StatusData(demands)[i].name == COMPLETED
    ensures StatusData(demands)[i].value == Stats(demands, nowMs, instantOf).completed
  {
    assert StatusData(demands)[i].value == Count(demands, Is(StatusOf, COMPLETED));
    CompletedCount(demands);
  }

  lemma CompletedCount(demands: seq<Demand>)
    ensures Count(demands, Is(StatusOf, COMPLETED)) == Count(demands, Completed)
  {
    var c := Is(StatusOf, COMPLETED);
    assert forall x: Demand :: c(x) == Completed(x);
    CountMonotone(demands, c, Completed);
    CountMonotone(demands, Completed, c);
  }
}
