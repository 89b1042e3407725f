/** The SI status engine: an SI's status derived from its expiration dates,
    its manual closure and the current day. */
module StatusEngine {
  import opened Types

  /** Days of notice within which a permit is reported as about to expire. */
  const EXPIRING_WINDOW: int := 3

  /** The date that governs expiry: the extension date when one is set,
      otherwise the original expiration date. */
  function EffectiveExpiration(si: SI): (d: string)
    ensures Truthy(si.newExpirationDate) ==> d == si.newExpirationDate.value
    ensures !Truthy(si.newExpirationDate) ==> d == si.expirationDate
  {
    OrElse(si.newExpirationDate, si.expirationDate)
  }

  /** The status a parsed expiration day gives. A day that did not parse
      (`NaN` in the host) fails every comparison and falls through to the
      last two outcomes. */
  function Classify(expiry: Option<int>, today: int, extended: bool): (s: SIStatus)
    ensures s != CLOSED
    ensures s == EXPIRED <==> expiry.Some? && expiry.value - today < 0
    ensures s == EXPIRING <==> expiry.Some? && 0 <= expiry.value - today <= EXPIRING_WINDOW
    ensures s == EXTENDED <==> extended && (expiry.None? || expiry.value - today > EXPIRING_WINDOW)
    ensures s == VIGENTE <==> !extended && (expiry.None? || expiry.value - today > EXPIRING_WINDOW)
  {
    match expiry
    case Some(day) =>
      var diffDays := day - today;
      if diffDays < 0 then EXPIRED
      else if diffDays <= EXPIRING_WINDOW then EXPIRING
      else if extended then EXTENDED
      else VIGENTE
    case None =>
      if extended then EXTENDED else VIGENTE
  }

  /** `updateSIStatus`: recompute the status of `si` on day `today`, where
      `dayOf` is the host's reading of a date string as a day number. */
  function UpdateSIStatus(si: SI, today: int, dayOf: Parser): (r: SI)
    // closure is terminal and overrides every date
    ensures si.status == CLOSED ==> r == si
    // no usable date string: nothing changes
    ensures EffectiveExpiration(si) == "" ==> r == si
    // only the status is ever replaced
    ensures r == si.(status := r.status)
    // recomputation never closes an SI
    ensures si.status != CLOSED ==> r.status != CLOSED
    // otherwise the status is the classification of the governing date
    ensures si.status != CLOSED && EffectiveExpiration(si) != "" ==>
              r.status == Classify(dayOf(EffectiveExpiration(si)), today, Truthy(si.newExpirationDate))
  {
    if si.status == CLOSED then si
    else
      var dateString := EffectiveExpiration(si);
      if dateString == "" then si
      else si.(status := Classify(dayOf(dateString), today, Truthy(si.newExpirationDate)))
  }

  /** Recomputing twice on the same day is recomputing once. */
  lemma UpdateSIStatusIdempotent(si: SI, today: int, dayOf: Parser)
    ensures UpdateSIStatus(UpdateSIStatus(si, today, dayOf), today, dayOf) == UpdateSIStatus(si, today, dayOf)
  {
    var r := UpdateSIStatus(si, today, dayOf);
    assert EffectiveExpiration(r) == EffectiveExpiration(si);
  }

  /** When a date string is present, the result does not depend on the
      status it replaces, unless that status is CLOSED. */
  lemma UpdateSIStatusIgnoresOldStatus(si: SI, s: SIStatus, today: int, dayOf: Parser)
    requires si.status != CLOSED && s != CLOSED && EffectiveExpiration(si) != ""
    ensures UpdateSIStatus(si.(status := s), today, dayOf) == UpdateSIStatus(si, today, dayOf)
  {
    assert EffectiveExpiration(si.(status := s)) == EffectiveExpiration(si);
  }

  /** With an extension date set, the original expiration date plays no
      part: replacing it changes nothing but that field. */
  lemma ExtensionGoverns(si: SI, original: string, today: int, dayOf: Parser)
    requires Truthy(si.newExpirationDate)
    ensures UpdateSIStatus(si.(expirationDate := original), today, dayOf)
         == UpdateSIStatus(si, today, dayOf).(expirationDate := original)
  {
    assert EffectiveExpiration(si.(expirationDate := original)) == EffectiveExpiration(si);
  }

  /** A date string that does not parse does not leave the status as it was:
      an open SI becomes EXTENDED or VIGENTE, whatever it was before. */
  lemma UnparseableDateFallsThrough(si: SI, today: int, dayOf: Parser)
    requires si.status != CLOSED && EffectiveExpiration(si) != ""
    requires dayOf(EffectiveExpiration(si)).None?
    ensures UpdateSIStatus(si, today, dayOf).status == (if Truthy(si.newExpirationDate) then EXTENDED else VIGENTE)
  {
  }

  /** The boundary cases: expiring today is EXPIRING, yesterday is EXPIRED,
      four days ahead is VIGENTE without an extension and EXTENDED with one. */
  lemma Boundaries(si: SI, today: int, dayOf: Parser)
    requires si.status != CLOSED && EffectiveExpiration(si) != ""
    ensures dayOf(EffectiveExpiration(si)) == Some(today) ==> UpdateSIStatus(si, today, dayOf).status == EXPIRING
    ensures dayOf(EffectiveExpiration(si)) == Some(today - 1) ==> UpdateSIStatus(si, today, dayOf).status == EXPIRED
    ensures dayOf(EffectiveExpiration(si)) == Some(today + 3) ==> UpdateSIStatus(si, today, dayOf).status == EXPIRING
    ensures dayOf(EffectiveExpiration(si)) == Some(today + 4) ==>
              UpdateSIStatus(si, today, dayOf).status == (if Truthy(si.newExpirationDate) then EXTENDED else VIGENTE)
  {
  }

  /** The two extension scenarios: a stale original with a future extension
      is EXTENDED; a lapsed extension is EXPIRED even with a later original. */
  lemma ExtensionScenarios(si: SI, today: int, dayOf: Parser)
    requires si.status != CLOSED && Truthy(si.newExpirationDate)
    requires dayOf(si.expirationDate) == Some(today - 10)
    ensures dayOf(si.newExpirationDate.value) == Some(today + 10) ==> UpdateSIStatus(si, today, dayOf).status == EXTENDED
    ensures dayOf(si.newExpirationDate.value) == Some(today - 1) ==> UpdateSIStatus(si, today, dayOf).status == EXPIRED
  {
  }
}
