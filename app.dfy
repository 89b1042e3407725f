/** The application shell: the Demand and SI collections, the signed-in role
    and the handlers that change them. Browser dialogs become parameters:
    a `window.confirm` answer is a `bool`, a `window.prompt` answer an
    `Option<string>` (`None` when cancelled). */
module App {
  import opened Types
  import opened ArrayOps
  import opened StatusEngine

  /** The phrase the clear-all prompt demands. */
  const CLEAR_PHRASE: string := "APAGAR TUDO"

  /** The version string written into every backup file. */
  const BACKUP_VERSION: string := "1.2.0"

  function DemandKey(d: Demand): string { d.id }

  function SIKey(s: SI): string { s.id }

  predicate IsAdmin(role: Option<UserRole>)
  {
    role == Some(ADMIN)
  }

  /** The save handlers' update of a collection: every element with the
      same id is replaced where it stands; a new id goes to the front. */
  function Upsert<T>(xs: seq<T>, x: T, key: T -> string): (r: seq<T>)
    ensures (exists i :: 0 <= i < |xs| && key(xs[i]) == key(x)) ==>
              |r| == |xs| &&
              forall i :: 0 <= i < |xs| ==> r[i] == if key(xs[i]) == key(x) then x else xs[i]
    ensures (forall i :: 0 <= i < |xs| ==> key(xs[i]) != key(x)) ==> r == [x] + xs
  {
    if Find(xs, (y: T) => key(y) == key(x)).Some? then
      Map(xs, (y: T) => if key(y) == key(x) then x else y)
    else
      [x] + xs
  }

  /** After an upsert the element is stored and nothing with another id
      has changed. */
  lemma UpsertStores<T>(xs: seq<T>, x: T, key: T -> string, p: T -> bool)
    requires forall y :: p(y) == (key(y) != key(x))
    ensures x in Upsert(xs, x, key)
    ensures Filter(Upsert(xs, x, key), p) == Filter(xs, p)
  {
    var r := Upsert(xs, x, key);
    if i :| 0 <= i < |xs| && key(xs[i]) == key(x) {
      assert r[i] == x;
      FilterMapFixed(xs, (y: T) => if key(y) == key(x) then x else y, p);
    } else {
      assert r == [x] + xs;
      assert r[0] == x;
      assert Filter(r, p) == Filter(xs, p) by {
        assert r[1..] == xs;
      }
    }
  }

  /** Saving the same element twice is saving it once. */
  lemma UpsertIdempotent<T>(xs: seq<T>, x: T, key: T -> string)
    ensures Upsert(Upsert(xs, x, key), x, key) == Upsert(xs, x, key)
  {
    var r := Upsert(xs, x, key);
    var i: nat;
    if k :| 0 <= k < |xs| && key(xs[k]) == key(x) {
      i := k;
    } else {
      i := 0;
    }
    assert 0 <= i < |r| && key(r[i]) == key(x);
    var r2 := Upsert(r, x, key);
    forall j | 0 <= j < |r| ensures r2[j] == r[j] {
    }
  }

  /** Mapping with a function that leaves the kept elements alone and keeps
      the dropped ones dropped does not change what a filter keeps. */
  lemma {:induction false} FilterMapFixed<T>(xs: seq<T>, f: T -> T, p: T -> bool)
    requires forall y :: p(y) ==> f(y) == y
    requires forall y :: !p(y) ==> !p(f(y))
    ensures Filter(Map(xs, f), p) == Filter(xs, p)
  {
    if xs != [] {
      FilterMapFixed(xs[1..], f, p);
      assert Map(xs, f) == [f(xs[0])] + Map(xs[1..], f);
      assert (if p(f(xs[0])) then [f(xs[0])] else []) == (if p(xs[0]) then [xs[0]] else []);
    }
  }

  /** Delete-by-id: `prev.filter(d => d.id !== id)`. */
  function RemoveById<T>(xs: seq<T>, id: string, key: T -> string): (r: seq<T>)
    ensures forall i :: 0 <= i < |r| ==> key(r[i]) != id && r[i] in xs
    ensures forall i :: 0 <= i < |xs| && key(xs[i]) != id ==> xs[i] in r
  {
    var r := Filter(xs, (y: T) => key(y) != id);
    forall i | 0 <= i < |r| ensures r[i] in xs {
      FilterMembers(xs, (y: T) => key(y) != id, r[i]);
    }
    r
  }

  /** Deletion keeps the order of what remains and is its own fixed point. */
  lemma RemoveByIdOrder<T>(a: seq<T>, b: seq<T>, id: string, key: T -> string)
    ensures RemoveById(a + b, id, key) == RemoveById(a, id, key) + RemoveById(b, id, key)
    ensures RemoveById(RemoveById(a, id, key), id, key) == RemoveById(a, id, key)
  {
    FilterAppend(a, b, (y: T) => key(y) != id);
    var r := RemoveById(a, id, key);
    FilterAll(r, (y: T) => key(y) != id);
  }

  /** Deleting what was just saved gives back the collection without that
      id. */
  lemma RemoveAfterUpsert<T>(xs: seq<T>, x: T, key: T -> string)
    ensures RemoveById(Upsert(xs, x, key), key(x), key) == RemoveById(xs, key(x), key)
  {
    UpsertStores(xs, x, key, (y: T) => key(y) != key(x));
  }

  /** The completion's update: each demand with the id becomes COMPLETED. */
  function MarkCompleted(demands: seq<Demand>, id: string): (r: seq<Demand>)
    ensures |r| == |demands|
    ensures forall i :: 0 <= i < |demands| ==>
              r[i] == demands[i].(status := r[i].status) &&
              r[i].status == if demands[i].id == id then COMPLETED else demands[i].status
  {
    Map(demands, (d: Demand) => if d.id == id then d.(status := COMPLETED) else d)
  }

  /** The SI that governs a demand's completion: the first in the list that
      points at the demand and is not closed. */
  function LinkedSI(sis: seq<SI>, demandId: string): (r: Option<SI>)
  {
    Find(sis, (s: SI) => s.demandId == demandId && s.status != CLOSED)
  }

  /** What the completion guard decides before the final confirmation. */
  datatype Gate =
    | Blocked(si: SI)      // the governing SI is expired: no way through
    | NoActiveSI           // nothing governs: the user must override
    | Permitted(si: SI)    // the governing SI is valid

  function CompletionGate(sis: seq<SI>, demandId: string): (g: Gate)
    ensures g.NoActiveSI? <==>
              forall i :: 0 <= i < |sis| ==> !(sis[i].demandId == demandId && sis[i].status != CLOSED)
    ensures !g.NoActiveSI? ==>
              exists i :: 0 <= i < |sis| && sis[i] == g.si &&
                sis[i].demandId == demandId && sis[i].status != CLOSED &&
                (forall j :: 0 <= j < i ==> !(sis[j].demandId == demandId && sis[j].status != CLOSED))
    ensures g.Blocked? ==> g.si.status == EXPIRED
    ensures g.Permitted? ==> g.si.status in {VIGENTE, EXPIRING, EXTENDED}
  {
    match LinkedSI(sis, demandId)
    case None => NoActiveSI
    case Some(si) => if si.status == EXPIRED then Blocked(si) else Permitted(si)
  }

  /** The demands after `handleCompleteDemand(id)`, given the answers to the
      override question and to the final confirmation. */
  function CompleteDemandEffect(demands: seq<Demand>, sis: seq<SI>, role: Option<UserRole>,
                                id: string, proceedWithoutSI: bool, confirmCompletion: bool): (r: seq<Demand>)
    // the only possible effects
    ensures r == demands || r == MarkCompleted(demands, id)
    ensures !IsAdmin(role) ==> r == demands
    ensures CompletionGate(sis, id).Blocked? ==> r == demands
    ensures CompletionGate(sis, id).NoActiveSI? && !proceedWithoutSI ==> r == demands
    ensures !confirmCompletion ==> r == demands
    ensures (IsAdmin(role) && confirmCompletion &&
             (CompletionGate(sis, id).Permitted? || (CompletionGate(sis, id).NoActiveSI? && proceedWithoutSI)))
              ==> r == MarkCompleted(demands, id)
  {
    if !IsAdmin(role) then demands
    else
      match CompletionGate(sis, id)
      case Blocked(_) => demands
      case NoActiveSI =>
        if proceedWithoutSI && confirmCompletion then MarkCompleted(demands, id) else demands
      case Permitted(_) =>
        if confirmCompletion then MarkCompleted(demands, id) else demands
  }

  /** A demand whose governing SI is expired cannot be completed, whatever
      the answers; every other demand is left exactly as it was. */
  lemma ExpiredSIBlocksCompletion(demands: seq<Demand>, sis: seq<SI>, role: Option<UserRole>, id: string,
                                  i: nat, proceed: bool, confirm: bool)
    requires i < |sis| && sis[i].demandId == id && sis[i].status == EXPIRED
    requires forall j :: 0 <= j < i ==> !(sis[j].demandId == id && sis[j].status != CLOSED)
    ensures CompleteDemandEffect(demands, sis, role, id, proceed, confirm) == demands
  {
    FindFirst(sis, (s: SI) => s.demandId == id && s.status != CLOSED, i);
  }

  /** Completion touches only the demands with that id, and only their
      status. */
  lemma CompletionOnlyTouchesTarget(demands: seq<Demand>, sis: seq<SI>, role: Option<UserRole>, id: string,
                                    proceed: bool, confirm: bool)
    ensures var r := CompleteDemandEffect(demands, sis, role, id, proceed, confirm);
            |r| == |demands| &&
            forall i :: 0 <= i < |demands| ==>
              (demands[i].id != id ==> r[i] == demands[i]) &&
              r[i] == demands[i].(status := r[i].status) &&
              (r[i] != demands[i] ==> r[i].status == COMPLETED)
  {
  }

  /** Completing again changes nothing more. */
  lemma MarkCompletedIdempotent(demands: seq<Demand>, id: string)
    ensures MarkCompleted(MarkCompleted(demands, id), id) == MarkCompleted(demands, id)
  {
    var r := MarkCompleted(demands, id);
    var r2 := MarkCompleted(r, id);
    assert |r2| == |r|;
    forall i | 0 <= i < |r| ensures r2[i] == r[i] {
    }
  }

  /** The recomputation applied to every SI read from storage or a backup. */
  function RecomputeAll(sis: seq<SI>, today: int, dayOf: Parser): (r: seq<SI>)
    ensures |r| == |sis|
    ensures forall i :: 0 <= i < |sis| ==> r[i] == sis[i].(status := r[i].status)
    ensures forall i :: 0 <= i < |sis| && sis[i].status == CLOSED ==> r[i] == sis[i]
    ensures forall i :: 0 <= i < |sis| && sis[i].status != CLOSED ==> r[i].status != CLOSED
  {
    Map(sis, (s: SI) => UpdateSIStatus(s, today, dayOf))
  }

  lemma RecomputeAllIdempotent(sis: seq<SI>, today: int, dayOf: Parser)
    ensures RecomputeAll(RecomputeAll(sis, today, dayOf), today, dayOf) == RecomputeAll(sis, today, dayOf)
  {
    var r := RecomputeAll(sis, today, dayOf);
    var r2 := RecomputeAll(r, today, dayOf);
    forall i | 0 <= i < |sis| ensures r2[i] == r[i] {
      UpdateSIStatusIdempotent(sis[i], today, dayOf);
    }
  }

  /** A parsed backup file: `demands` and `sis` are `None` when the key is
      missing. */
  datatype Backup = Backup(demands: Option<seq<Demand>>, sis: Option<seq<SI>>,
                           exportDate: string, version: string)

  datatype ImportOutcome = Imported | Declined | Invalid

  /** Import accepts a file only when both collections are present, and
      then only if the user confirms the replacement. */
  function ImportDecision(doc: Backup, confirmed: bool): (o: ImportOutcome)
    ensures o == Imported <==> doc.demands.Some? && doc.sis.Some? && confirmed
    ensures o == Invalid <==> doc.demands.None? || doc.sis.None?
  {
    if doc.demands.Some? && doc.sis.Some? then
      if confirmed then Imported else Declined
    else Invalid
  }

  /** The document the export writes. */
  function ExportDocument(demands: seq<Demand>, sis: seq<SI>, exportDate: string): (doc: Backup)
    ensures ImportDecision(doc, true) == Imported
    ensures doc.version == BACKUP_VERSION
  {
    Backup(Some(demands), Some(sis), exportDate, BACKUP_VERSION)
  }

  /** The web application's state. */
  class AppState {
    var userRole: Option<UserRole>
    var demands: seq<Demand>
    var sis: seq<SI>
    var view: ViewState
    var editingDemand: Option<Demand>
    var editingSI: Option<SI>
    var initialDemandFilter: string

    constructor ()
      ensures userRole == None && demands == [] && sis == []
      ensures view == DASHBOARD && editingDemand == None && editingSI == None
      ensures initialDemandFilter == ""
    {
      userRole := None;
      demands := [];
      sis := [];
      view := DASHBOARD;
      editingDemand := None;
      editingSI := None;
      initialDemandFilter := "";
    }

    /** The start-up load: the stored session's role when one was saved,
        the stored demands as they are, the stored SIs recomputed. */
    method LoadSaved(restoredRole: Option<UserRole>, savedDemands: Option<seq<Demand>>,
                     savedSIs: Option<seq<SI>>, today: int, dayOf: Parser)
      modifies this
      ensures userRole == if restoredRole.Some? then restoredRole else old(userRole)
      ensures demands == if savedDemands.Some? then savedDemands.value else old(demands)
      ensures sis == if savedSIs.Some? then RecomputeAll(savedSIs.value, today, dayOf) else old(sis)
      ensures view == old(view) && editingDemand == old(editingDemand) && editingSI == old(editingSI)
      ensures initialDemandFilter == old(initialDemandFilter)
    {
      if restoredRole.Some? {
        userRole := restoredRole;
      }
      if savedDemands.Some? {
        demands := savedDemands.value;
      }
      if savedSIs.Some? {
        sis := RecomputeAll(savedSIs.value, today, dayOf);
      }
    }

    method LoginSuccess(role: UserRole)
      modifies this`userRole
      ensures userRole == Some(role)
    {
      userRole := Some(role);
    }

    method Logout()
      modifies this`userRole, this`view
      ensures userRole == None && view == DASHBOARD
    {
      userRole := None;
      view := DASHBOARD;
    }

    /** `handleSaveDemand`: upsert by id, then back to the list. */
    method SaveDemand(demand: Demand)
      modifies this
      ensures !IsAdmin(old(userRole)) ==>
                demands == old(demands) && view == old(view) && editingDemand == old(editingDemand)
      ensures IsAdmin(old(userRole)) ==>
                demands == Upsert(old(demands), demand, DemandKey) && view == LIST && editingDemand == None
      ensures userRole == old(userRole) && sis == old(sis) && editingSI == old(editingSI)
      ensures initialDemandFilter == old(initialDemandFilter)
    {
      if !IsAdmin(userRole) {
        return;
      }
      demands := Upsert(demands, demand, DemandKey);
      editingDemand := None;
      view := LIST;
    }

    /** `handleDeleteDemand`: after confirmation, drop every demand with the
        id. SIs that pointed at it keep their now dangling link. */
    method DeleteDemand(id: string, confirmed: bool)
      modifies this`demands
      ensures demands == if IsAdmin(userRole) && confirmed then RemoveById(old(demands), id, DemandKey)
                         else old(demands)
    {
      if !IsAdmin(userRole) {
        return;
      }
      if confirmed {
        demands := RemoveById(demands, id, DemandKey);
      }
    }

    /** `handleCompleteDemand`: the guarded completion. */
    method CompleteDemand(id: string, proceedWithoutSI: bool, confirmCompletion: bool)
      modifies this`demands
      ensures demands == CompleteDemandEffect(old(demands), sis, userRole, id, proceedWithoutSI, confirmCompletion)
    {
      if !IsAdmin(userRole) {
        return;
      }
      var linkedSI := LinkedSI(sis, id);
      if linkedSI.Some? {
        if linkedSI.value.status == EXPIRED {
          return;
        }
      } else {
        if !proceedWithoutSI {
          return;
        }
      }
      if confirmCompletion {
        demands := MarkCompleted(demands, id);
      }
    }

    method EditDemand(demand: Demand)
      modifies this`editingDemand, this`view
      ensures IsAdmin(userRole) ==> editingDemand == Some(demand) && view == FORM
      ensures !IsAdmin(userRole) ==> editingDemand == old(editingDemand) && view == old(view)
    {
      if !IsAdmin(userRole) {
        return;
      }
      editingDemand := Some(demand);
      view := FORM;
    }

    /** `handleSaveSI`: recompute the status on the save day, then upsert. */
    method SaveSI(si: SI, today: int, dayOf: Parser)
      modifies this
      ensures !IsAdmin(old(userRole)) ==> sis == old(sis) && view == old(view) && editingSI == old(editingSI)
      ensures IsAdmin(old(userRole)) ==>
                sis == Upsert(old(sis), UpdateSIStatus(si, today, dayOf), SIKey) && view == SI_LIST && editingSI == None
      ensures userRole == old(userRole) && demands == old(demands) && editingDemand == old(editingDemand)
      ensures initialDemandFilter == old(initialDemandFilter)
    {
      if !IsAdmin(userRole) {
        return;
      }
      var processedSI := UpdateSIStatus(si, today, dayOf);
      sis := Upsert(sis, processedSI, SIKey);
      editingSI := None;
      view := SI_LIST;
    }

    method DeleteSI(id: string, confirmed: bool)
      modifies this`sis
      ensures sis == if IsAdmin(userRole) && confirmed then RemoveById(old(sis), id, SIKey) else old(sis)
    {
      if !IsAdmin(userRole) {
        return;
      }
      if confirmed {
        sis := RemoveById(sis, id, SIKey);
      }
    }

    method EditSI(si: SI)
      modifies this`editingSI, this`view
      ensures IsAdmin(userRole) ==> editingSI == Some(si) && view == SI_FORM
      ensures !IsAdmin(userRole) ==> editingSI == old(editingSI) && view == old(view)
    {
      if !IsAdmin(userRole) {
        return;
      }
      editingSI := Some(si);
      view := SI_FORM;
    }

    /** `handleViewChange`: a VIEWER cannot open either form; opening a form
        from the menu starts a new record; opening the list clears the
        dashboard's filter. */
    method ViewChange(v: ViewState)
      modifies this`view, this`editingDemand, this`editingSI, this`initialDemandFilter
      ensures userRole == Some(VIEWER) && v in {FORM, SI_FORM} ==>
                view == old(view) && editingDemand == old(editingDemand) &&
                editingSI == old(editingSI) && initialDemandFilter == old(initialDemandFilter)
      ensures !(userRole == Some(VIEWER) && v in {FORM, SI_FORM}) ==>
                view == v &&
                editingDemand == (if v == FORM then None else old(editingDemand)) &&
                editingSI == (if v == SI_FORM then None else old(editingSI)) &&
                initialDemandFilter == (if v == LIST then "" else old(initialDemandFilter))
    {
      if userRole == Some(VIEWER) && (v == FORM || v == SI_FORM) {
        return;
      }
      if v == FORM {
        editingDemand := None;
      }
      if v == SI_FORM {
        editingSI := None;
      }
      if v == LIST {
        initialDemandFilter := "";
      }
      view := v;
    }

    /** The dashboard cards open the list with a status filter. */
    method DashboardNavigate(filter: string)
      modifies this`initialDemandFilter, this`view
      ensures initialDemandFilter == filter && view == LIST
    {
      initialDemandFilter := filter;
      view := LIST;
    }

    /** `handleFileImport` after the file has been read and parsed. There is
        no role check here. */
    method ImportFile(doc: Backup, confirmed: bool, today: int, dayOf: Parser) returns (outcome: ImportOutcome)
      modifies this`demands, this`sis
      ensures outcome == ImportDecision(doc, confirmed)
      ensures outcome == Imported ==>
                demands == doc.demands.value && sis == RecomputeAll(doc.sis.value, today, dayOf)
      ensures outcome != Imported ==> demands == old(demands) && sis == old(sis)
    {
      if doc.demands.Some? && doc.sis.Some? {
        if confirmed {
          demands := doc.demands.value;
          sis := RecomputeAll(doc.sis.value, today, dayOf);
          outcome := Imported;
        } else {
          outcome := Declined;
        }
      } else {
        outcome := Invalid;
      }
    }

    /** `handleClearDatabase`: only an ADMIN who confirms and then types the
        exact phrase empties both collections. */
    method ClearDatabase(firstConfirm: bool, typed: Option<string>)
      modifies this`demands, this`sis
      ensures IsAdmin(userRole) && firstConfirm && typed == Some(CLEAR_PHRASE) ==> demands == [] && sis == []
      ensures !(IsAdmin(userRole) && firstConfirm && typed == Some(CLEAR_PHRASE)) ==>
                demands == old(demands) && sis == old(sis)
    {
      if !IsAdmin(userRole) {
        return;
      }
      if firstConfirm {
        if typed == Some(CLEAR_PHRASE) {
          demands := [];
          sis := [];
        }
      }
    }
  }

  /** Exporting and importing on the same day restores the demands exactly
      and the SIs up to recomputation; SIs that were already current come
      back unchanged. */
  method ExportImportRoundTrip(app: AppState, exportDate: string, today: int, dayOf: Parser)
    modifies app`demands, app`sis
    requires app.sis == RecomputeAll(app.sis, today, dayOf)
    ensures app.demands == old(app.demands) && app.sis == old(app.sis)
  {
    var doc := ExportDocument(app.demands, app.sis, exportDate);
    var outcome := app.ImportFile(doc, true, today, dayOf);
    assert outcome == Imported;
  }
}
