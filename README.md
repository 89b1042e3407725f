# DEMAND+ maintenance tracker — a Dafny model of its decision logic

DEMAND+ is a browser application for a power-plant maintenance team. It
tracks two kinds of record:

- **Demands**: work orders, each with a deadline, difficulty, location,
  service-order number and status.
- **SIs** (*Solicitações de Intervenção*): intervention permits. An SI
  grants access to a location until an expiration date. It can be
  extended to a new date, closed, or linked to a Demand.

This project models the logic underneath the screens:

- the record types and enumerations (`types.dfy`);
- the SI status recomputation (`status_engine.dfy`);
- the application state and its handlers (`app.dfy`): saving and
  deleting as upserts and filters by id, the completion guard, import,
  clear-all and navigation;
- the two forms (`si_form.dfy`, `demand_form.dfy`);
- the two lists (`si_list.dfy`, `demand_list.dfy`);
- the two dashboards (`dashboard.dfy`, `si_dashboard.dfy`).

Two modules are shared helpers: `array_ops.dfy` holds the JavaScript array
operations the code is built from, and `text.dfy` the string operations.

The module layout follows the source:

- **Pure code** becomes functions and lemmas.
- **The application state** is a class. Its fields are the collections,
  the role and the view, updated by methods that state their whole new
  state.
- **The forms** are classes holding a draft.
- **The SI dashboard's location histogram** increments a dictionary in a
  loop, so it is a method with loop invariants, proved equal to a
  specification function whose properties are proved separately.

Dates stay the strings the records carry. Reading a date through the
browser's `Date` is a parameter:

- `dayOf` gives the calendar day number of a date string, as
  `updateSIStatus` derives it;
- `instantOf` gives the millisecond instant `new Date(s).getTime()`
  returns.

Both return `None` where JavaScript produces `NaN`. Fresh ids, the current
time and the answers to confirmation dialogs are parameters too.

## Model

| member | source | states |
|---|---|---|
| Types.AllDifficulties | types.ts:1-5 | there are three difficulties, distinct and with distinct texts |
| Types.AllDifficultiesComplete | types.ts:1-5 | every difficulty is among the three |
| Types.AllStatuses | types.ts:7-12 | there are four Demand statuses, distinct, with distinct texts, COMPLETED among them |
| Types.AllStatusesComplete | types.ts:7-12 | every Demand status is among the four |
| Types.AllSIStatuses | types.ts:46-52 | there are five SI statuses, distinct and with distinct texts |
| Types.AllSIStatusesComplete | types.ts:46-52 | every SI status is among the five |
| Types.UserRoleIsAdminOrViewer | types.ts:14 | a role's text is 'ADMIN' or 'VIEWER', and 'ADMIN' exactly for the administrator |
| Types.LocationsDistinct | types.ts:54-60 | the location list has 23 entries, pairwise distinct |
| StatusEngine.EffectiveExpiration | App.tsx:40 | the governing date is the extension date when it is non-empty, otherwise the original expiration date |
| StatusEngine.Classify | App.tsx:53-61 | a negative day difference is EXPIRED; 0 to 3 is EXPIRING; more than 3, or an unparsable date, is EXTENDED with an extension and otherwise VIGENTE; never CLOSED |
| StatusEngine.UpdateSIStatus | App.tsx:37-64 | a CLOSED SI comes back unchanged; so does an SI with no governing date; only the status is ever replaced; an open SI is never closed; otherwise the status classifies the governing date |
| StatusEngine.UpdateSIStatusIdempotent | App.tsx:37-64 | recomputing twice on the same day equals recomputing once |
| StatusEngine.UpdateSIStatusIgnoresOldStatus | App.tsx:53-63 | with a governing date, the result of an open SI does not depend on the status it replaces |
| StatusEngine.ExtensionGoverns | App.tsx:40 | with an extension date, changing the original expiration date changes nothing but that field |
| StatusEngine.UnparseableDateFallsThrough | App.tsx:43-61 | a governing date that does not parse still makes the SI EXTENDED, when it has an extension, or VIGENTE |
| StatusEngine.Boundaries | App.tsx:55-61 | expiring today or in 3 days is EXPIRING; yesterday is EXPIRED; in 4 days is EXTENDED or VIGENTE |
| StatusEngine.ExtensionScenarios | App.tsx:40-61 | a lapsed original with a future extension is EXTENDED; a lapsed extension is EXPIRED |
| App.Upsert | App.tsx:195-201 | an existing id is replaced at its position and the length is kept; a new id is put in front |
| App.UpsertStores | App.tsx:195-201 | after an upsert the element is stored, and the elements with other ids are the same ones, in the same order |
| App.UpsertIdempotent | App.tsx:195-201 | saving the same element twice equals saving it once |
| App.RemoveById | App.tsx:216 | what remains is drawn from the input and has no element with the id; every element with another id remains |
| App.RemoveByIdOrder | App.tsx:216 | deletion keeps the order of the rest and is its own fixed point |
| App.RemoveAfterUpsert | App.tsx:195-216 | deleting what was just saved gives back the collection without that id |
| App.MarkCompleted | App.tsx:238-240 | the length is kept; each demand with the id becomes COMPLETED, every other one is unchanged, and no other field changes |
| App.CompletionGate | App.tsx:224-235 | the governing SI is the first one linked to the demand and not closed; completion is blocked exactly when that SI is EXPIRED, and needs an override when there is none |
| App.CompleteDemandEffect | App.tsx:221-243 | nothing changes for a non-administrator, for a blocked demand, for a declined override or without the final confirmation; otherwise only that demand is completed |
| App.ExpiredSIBlocksCompletion | App.tsx:226-230 | a demand whose first linked open SI is EXPIRED stays as it is, whatever the answers |
| App.CompletionOnlyTouchesTarget | App.tsx:237-240 | completion keeps the length, leaves every other demand alone, and changes at most a status, to COMPLETED |
| App.MarkCompletedIdempotent | App.tsx:238-240 | completing twice equals completing once |
| App.RecomputeAll | App.tsx:89 | each SI is recomputed, place for place; closed SIs are untouched, and open ones stay open |
| App.RecomputeAllIdempotent | App.tsx:89 | recomputing a recomputed collection changes nothing |
| App.ImportDecision | App.tsx:139-148 | a file is imported iff both collections are present and the user confirms; it is invalid iff a collection is missing |
| App.ExportDocument | App.tsx:111-117 | the exported document is always accepted by import and carries version 1.2.0 |
| App.AppState.constructor | App.tsx:19-31 | the application starts logged out, with both collections empty, on the dashboard, with no record being edited and no filter |
| App.AppState.LoadSaved | App.tsx:67-95 | a stored role and stored demands are restored as they are; stored SIs are recomputed; nothing else changes |
| App.AppState.LoginSuccess | App.tsx:175-180 | the role becomes the one logged in |
| App.AppState.Logout | App.tsx:182-188 | the role is cleared and the view returns to the dashboard |
| App.AppState.SaveDemand | App.tsx:191-210 | an administrator's save upserts the demand, closes the form and shows the list; anyone else changes nothing; the SIs are untouched |
| App.AppState.DeleteDemand | App.tsx:212-219 | an administrator's confirmed delete removes the demands with that id; otherwise nothing changes |
| App.AppState.CompleteDemand | App.tsx:221-243 | the demands become the completion guard's effect for the role, the SIs and the two answers |
| App.AppState.EditDemand | App.tsx:245-249 | an administrator opens the demand in the form; anyone else changes nothing |
| App.AppState.SaveSI | App.tsx:257-276 | an administrator's save upserts the recomputed SI, closes the form and shows the SI list; anyone else changes nothing; the demands are untouched |
| App.AppState.DeleteSI | App.tsx:278-283 | an administrator's confirmed delete removes the SIs with that id; otherwise nothing changes |
| App.AppState.EditSI | App.tsx:285-289 | an administrator opens the SI in the form; anyone else changes nothing |
| App.AppState.ViewChange | App.tsx:297-306 | a VIEWER cannot open either form; otherwise the view changes, opening a form starts a new record, and opening the list clears the dashboard's filter |
| App.AppState.DashboardNavigate | App.tsx:308-310 | a dashboard card opens the list with its filter |
| App.AppState.ImportFile | App.tsx:131-155 | an accepted file replaces the demands as they are and the SIs recomputed; otherwise nothing changes; no role is checked |
| App.AppState.ClearDatabase | App.tsx:157-172 | both collections are emptied iff an administrator confirms and then types exactly 'APAGAR TUDO'; otherwise nothing changes |
| App.ExportImportRoundTrip | App.tsx:111-155 | exporting and re-importing on the same day leaves both collections as they were, when the SIs were current |
| SIForm.BlankDraft | components/SIForm.tsx:13-26 | a new form is issued today, VIGENTE, and each of its other ten fields is empty, the two extension fields included |
| SIForm.DraftOf | components/SIForm.tsx:30-32 | an edited SI is loaded field for field: each of the twelve draft fields is the SI's |
| SIForm.SIFormState.constructor | components/SIForm.tsx:28-37 | editing opens in extension mode iff the SI is EXTENDED or has a new expiration date |
| SIForm.SIFormState.Change | components/SIForm.tsx:39-42 | an edit sets one field and keeps the others |
| SIForm.SIFormState.ToggleExtension | components/SIForm.tsx:44-61 | switching on marks the draft EXTENDED; switching off blanks the new date and justification and resets to VIGENTE |
| SIForm.SIFormState.SetClosed | components/SIForm.tsx:119-136 | the closure box, offered only on an edited SI, sets CLOSED when ticked and VIGENTE when not |
| SIForm.SIFormState.RequiredInputEmpty | components/SIForm.tsx:150-292 | the browser refuses to submit while a `required` input is empty: number, location, issue date, expiration date, responsible, and the extension pair in extension mode |
| SIForm.SIFormState.Submit | components/SIForm.tsx:63-103 | no SI exactly when the browser's required-input check or handleSubmit's check stops it, that is when number, location, issue date, expiration date or responsible is empty (the issue date is checked only by the browser), or in extension mode without the new date and justification; extension mode saves EXTENDED, otherwise the draft's status; the extension fields survive only in extension mode; the extension is stamped today only the first time; an edited SI keeps its id |
| SIForm.ExtensionSubmissionGoverned | components/SIForm.tsx:76-99 | an SI submitted in extension mode is governed by its new date and, once recomputed, is EXPIRED, EXPIRING or EXTENDED |
| SIForm.PlainSubmissionNeverExtended | components/SIForm.tsx:76-98 | outside extension mode the SI is governed by its original date and, once recomputed, is never EXTENDED, whatever status the draft held |
| SIForm.ClosureRespected | components/SIForm.tsx:76-81 | a ticked closure is saved as CLOSED and survives recomputation exactly outside extension mode |
| Text.ToLower | components/SIList.tsx:46 | lower-casing keeps the length and lowers each letter A-Z |
| Text.Split | components/SIList.tsx:33 | a split has at least one part, and no part contains the separator |
| Text.Join | components/SIList.tsx:33 | the parts put back together with the separator between them: the inverse of the split |
| Text.Includes | components/SIList.tsx:48-50 | `s.includes(t)`: some position of `s` starts a copy of `t` (`IncludesAt`, `IncludesWitness`) |
| Text.JoinSplit | components/SIList.tsx:33 | joining the parts of a split gives back the text |
| Text.SplitJoin | components/SIList.tsx:33 | splitting a join of dash-free parts gives back the parts |
| SIList.FormatDate | components/SIList.tsx:31-35 | an empty date shows as '-' |
| SIList.FormatDateIso | components/SIList.tsx:31-35 | a YYYY-MM-DD date shows as DD/MM/YYYY |
| SIList.FormatDateNoDashes | components/SIList.tsx:33-34 | a date without dashes shows its text in the year slot, with 'undefined' for day and month |
| SIList.DemandOrder | components/SIList.tsx:37-40 | the service order of the first demand with the id, or 'Não Vinculada' when there is none |
| SIList.FilterSIs | components/SIList.tsx:42-58 | search, then status, then location, each applied only when set; equal to one filter on all three (`FilterSIsKeepsMatches`) |
| SIList.FilterSIsKeepsMatches | components/SIList.tsx:42-58 | the three filters in a row keep exactly the SIs that pass all of them, in input order |
| SIList.UnlinkedFoundBySearch | components/SIList.tsx:45-51 | an SI whose demand is missing is found by searching 'vinculada' |
| SIList.Priority | components/SIList.tsx:61-67 | EXPIRED is rank 0, EXPIRING rank 1, VIGENTE and EXTENDED rank 2, CLOSED rank 3, each exactly |
| SIList.SortSIs | components/SIList.tsx:60-76 | the sort is a permutation, ordered by rank and, within a rank, by governing date |
| SIList.VisibleSIs | components/SIList.tsx:42-77 | the list shown is a permutation of the SIs that pass the filters, each one passes, and it is ordered by rank and, within a rank, by governing date |
| SIList.ExpiredFirst | components/SIList.tsx:61-71 | every expired SI is shown before every SI that is not expired |
| SIList.SortSIsStable | components/SIList.tsx:60-76 | SIs with the same rank and date keep their input order |
| DemandList.IsOverdue | components/DemandList.tsx:77-84 | the list's overdue test: an open demand whose deadline's day is before today (`OverdueFromNextDay`) |
| DemandList.OverdueFromNextDay | components/DemandList.tsx:77-84 | a completed demand is never overdue; an open one is overdue from the day after its deadline on |
| DemandList.FormatDate | components/DemandList.tsx:86-89 | an empty date shows as 'undefined/undefined/'; any other date shows as the SI list shows it |
| DemandList.TimeAgo | components/DemandList.tsx:44-55 | no label without a date; a whole number of minutes, hours or days, each rounded down, below the next unit; under a minute is just now |
| DemandList.TimeAgoSamples | components/DemandList.tsx:44-55 | 59.999 s is just now, 90 min is 1 h, 84 h is 3 days, and a future date is just now |
| DemandList.UniqueLocations | components/DemandList.tsx:57 | each location used by a demand appears exactly once, and nothing else appears |
| DemandList.UniqueLocationsSnoc | components/DemandList.tsx:57 | locations are listed in order of first use |
| DemandList.InitialFilters | components/DemandList.tsx:15-34 | the list opens with the status chosen on the dashboard and no other filter |
| DemandList.PseudoStatusesAreDistinct | components/DemandList.tsx:97-101 | PENDING and OVERDUE are no status's text, so a real status filter keeps exactly that status |
| DemandList.OverdueIsPending | components/DemandList.tsx:98-99 | every overdue demand is pending |
| DemandList.FilterDemands | components/DemandList.tsx:91-103 | the search, status, location and difficulty filters in turn, each applied only when set; equal to one filter on all four (`FilterDemandsKeepsMatches`) |
| DemandList.FilterDemandsKeepsMatches | components/DemandList.tsx:91-103 | the four filters in a row keep exactly the demands that pass all of them, in input order |
| DemandList.SortDemands | components/DemandList.tsx:105-109 | the sort is a permutation, newest creation date first |
| DemandList.SortDemandsStable | components/DemandList.tsx:105-109 | demands created at the same instant keep their input order |
| DemandList.VisibleDemands | components/DemandList.tsx:91-111 | the list shown is a permutation of the demands that pass the filters, each one passes, newest first |
| SIDashboard.Stats | components/SIDashboard.tsx:19-27 | the total is the number of SIs; active counts VIGENTE plus EXTENDED; expiring, expired and closed count their own status; the four cards add up to the total |
| SIDashboard.StatsAddUp | components/SIDashboard.tsx:20-24 | every SI is counted on exactly one of the four cards |
| SIDashboard.StatusData | components/SIDashboard.tsx:29-35 | at most five slices, each with the positive number of SIs in its status; their names are the statuses in use, in the enumeration's order |
| SIDashboard.StatusDataComplete | components/SIDashboard.tsx:29-35 | every status in use has its slice |
| SIDashboard.StatusDataTotal | components/SIDashboard.tsx:29-35 | the slices account for every SI |
| SIDashboard.Tally | components/SIDashboard.tsx:38-41 | the dictionary the loop builds, one SI at a time (`TallySnoc`, `TallyCounts`) |
| SIDashboard.TallyCounts | components/SIDashboard.tsx:38-41 | the tally holds exactly the locations in use, each with its number of SIs |
| SIDashboard.TallyDomain | components/SIDashboard.tsx:38-41 | the tally has a key for each SI's location and for no other |
| SIDashboard.TallyKeysListed | components/SIDashboard.tsx:42 | the keys are listed once each in order of first use, and they are exactly the tally's keys |
| SIDashboard.LocationCounts | components/SIDashboard.tsx:38-41 | the loop builds the tally and its key list |
| SIDashboard.TopLocations | components/SIDashboard.tsx:42-45 | at most ten entries, the largest counts first, each a distinct key with its count |
| SIDashboard.TopLocationsLeftOff | components/SIDashboard.tsx:44-45 | a key left off is only left off a full chart, and has a count no larger than any shown |
| SIDashboard.LocationData | components/SIDashboard.tsx:37-46 | the histogram, computed by the loop, is the location chart |
| SIDashboard.LocationChart | components/SIDashboard.tsx:37-46 | the tally's keys in first-use order, charted largest first and cut to ten (`LocationChartShown`, `LocationChartLeftOff`) |
| SIDashboard.LocationChartShown | components/SIDashboard.tsx:37-46 | at most ten locations, each once, with its positive number of SIs, largest first |
| SIDashboard.LocationChartLeftOff | components/SIDashboard.tsx:37-46 | a location in use that is not shown has no more SIs than any shown, and the chart is full |
| SIDashboard.LocationCountsTotal | components/SIDashboard.tsx:37-41 | before the cut to ten, the per-location counts add up to the number of SIs |
| Charts.PositiveSlicesOrder | components/Dashboard.tsx:41-47 | a chart series is the slice of each category with a positive count, in the order the categories are listed |
| Dashboard.Stats | components/Dashboard.tsx:29-39 | completed plus pending is the total; overdue ones are among the pending |
| Dashboard.Overdue | components/Dashboard.tsx:33-36 | the card's overdue test: a deadline before now, not today, on an open demand (`OverdueIsEarlierDay`) |
| Dashboard.OverdueIsEarlierDay | components/Dashboard.tsx:33-36 | the card's test (before now and not today) is the list's (an earlier day) |
| Dashboard.ListedByStatus | components/Dashboard.tsx:96-145 | a list opened on a status choice shows as many demands as match that choice |
| Dashboard.TotalCardMatchesList | components/Dashboard.tsx:100 | the Total card's number is the length of the unfiltered list it opens |
| Dashboard.PendingCardMatchesList | components/Dashboard.tsx:113 | the open-demands card's number is the length of the PENDING list it opens |
| Dashboard.CompletedCardMatchesList | components/Dashboard.tsx:129 | the completed card's number is the length of the completed list it opens |
| Dashboard.OverdueCardMatchesList | components/Dashboard.tsx:145 | the overdue card's number is the length of the OVERDUE list it opens, when both read dates the same way |
| Dashboard.DifficultyData | components/Dashboard.tsx:41-47 | at most three slices, each with the positive number of demands of its difficulty; their names are the difficulties in use, in the enumeration's order |
| Dashboard.DifficultyDataComplete | components/Dashboard.tsx:41-47 | every difficulty in use has its slice |
| Dashboard.DifficultyDataTotal | components/Dashboard.tsx:41-47 | the difficulty slices account for every demand |
| Dashboard.StatusData | components/Dashboard.tsx:49-55 | at most four slices, each with the positive number of demands in its status; their names are the statuses in use, in the enumeration's order |
| Dashboard.StatusDataComplete | components/Dashboard.tsx:49-55 | every status in use has its slice |
| Dashboard.StatusDataTotal | components/Dashboard.tsx:49-55 | the status slices account for every demand |
| Dashboard.CompletedSliceIsCard | components/Dashboard.tsx:31-53 | the completed slice, when shown, equals the completed card |
| DemandForm.BlankDraft | components/DemandForm.tsx:14-23 | a new form opens today, LOW and NOT_STARTED, with every text empty |
| DemandForm.DraftOf | components/DemandForm.tsx:27-31 | an edited demand is loaded field for field |
| DemandForm.DemandFormState.constructor | components/DemandForm.tsx:14-31 | the form starts from the edited demand, or from the blank draft, and is not generating |
| DemandForm.DemandFormState.Change | components/DemandForm.tsx:33-36 | an edit sets one field and keeps the others |
| DemandForm.DemandFormState.SelectDifficulty | components/DemandForm.tsx:33-36 | the difficulty select sets the difficulty |
| DemandForm.DemandFormState.SelectStatus | components/DemandForm.tsx:33-36 | the status select sets any status, COMPLETED included |
| DemandForm.DemandFormState.AIEnhance | components/DemandForm.tsx:60-67 | without a description nothing happens; otherwise the description becomes the rewriter's answer for it and the location, or the generic context |
| DemandForm.ContextOf | components/DemandForm.tsx:64 | the rewriter's context is the location, or 'Instalação Elétrica Geral' when none is chosen |
| DemandForm.DemandFormState.Submit | components/DemandForm.tsx:38-58 | no demand when one of the five required fields is empty; an edited demand keeps its id and creation time, a new one takes fresh ones; the other fields, the status included, are the draft's |
| DemandForm.BlankDraftRejected | components/DemandForm.tsx:14-43 | a blank form cannot be submitted |
| DemandForm.UnchangedEditRoundTrip | components/DemandForm.tsx:27-56 | submitting an existing demand unchanged saves exactly that demand |
| DemandForm.FormBypassesCompletionGate | components/DemandForm.tsx:54 | a demand submitted as COMPLETED is stored as COMPLETED even where the completion guard refuses |

## Left out

- Browser storage: loading and saving are not modelled as I/O. Reading
  `localStorage` and parsing its JSON become the optional values passed to
  `LoadSaved`. The effects that write the collections back, and the
  authentication flag, are left out.
- Files and JSON: creating the backup file (Blob, object URL, download
  link) and reading an import (FileReader, JSON parsing and its errors) are
  left out. Only the document's content (`ExportDocument`) and the
  decision on a parsed document (`ImportDecision`, `ImportFile`) are
  modelled.
- Dialogs: `alert`, `confirm` and `prompt` are user interaction. Their
  answers are parameters and their messages are left out.
- Notifications: the notification service's calls are left out, since
  they call a browser API.
- The AI description rewriter: it calls a remote model over the network.
  It is the `enhance` parameter of `AIEnhance`, and the await is taken to
  complete at once. Edits made while waiting are not modelled.
- The clipboard copy in the Demand list and its "copied" indicator are
  left out as a browser API.
- The list's one-minute refresh timer is left out: the current time is a
  parameter.
- The login screen, the header and the sidebar hold no state the core
  decides upon, so they are not part of this model.
- Presentation is left out: JSX rendering, colours, badges, the chart
  drawing, the admin/viewer banner (`isAdmin`), the cancel buttons, and
  the "< 5 dias" label on the SI dashboard.
- Dates: JavaScript `Date`, the time zone and DST shifts are not
  modelled.
  - `dayOf` and `instantOf` stand for the host's readings.
  - `LocalDay(ms) = ms / 86400000` assumes `instantOf` yields local
    milliseconds.
  - The `Math.ceil` over milliseconds in the status engine is taken to be
    an exact day difference.
  - The UTC reading of date-only strings against the local `setHours` is
    not modelled.
- SIList.SortSIs: specified only when every governing date parses,
  because with a `NaN` comparator the order is left to the engine.
- SIList.VisibleSIs: specified only when the governing dates of the SIs
  that pass the filters parse, for the same reason. Dates of filtered-out
  SIs are not constrained.
- SIList.ExpiredFirst: the same condition as `VisibleSIs`.
- DemandList.SortDemands: specified only when every creation date
  parses, for the same reason.
- DemandList.VisibleDemands: specified only when the creation dates of
  the demands that pass the filters parse, for the same reason.
- Text.ToLower: lower-cases only the ASCII letters A-Z. The Unicode case
  mapping of `toLowerCase` is not modelled, so searches are
  case-insensitive only for unaccented letters.
- SIDashboard.TallyKeysListed: the key order is taken to be
  first-insertion order. JavaScript lists integer-like keys first, in
  numeric order, so a location named like a number is not placed as in
  the browser.
- DemandForm.DemandFormState.Submit: the draft is a full record. The
  source's partial record, where a matching field of an imported demand
  could be absent (`observation || ''`, `difficulty as Difficulty`), is
  not modelled, so the default for `observation` is the identity here.
- SIForm.SIFormState.Submit: the draft is a full record too, so the
  `|| ''` defaults of `demandId`, `description`, `responsibleArea` and
  `observations` are the identity here.
- `crypto.randomUUID()` and `new Date().toISOString()` are the `freshId`,
  `todayIso` and `nowIso` parameters.
- The SI form's select of the linked Demand offers the existing Demands.
  The model lets `Change` set any text.

Behaviour of the source that the model keeps as written:

- The completion guard reads the SI status stored at the last save or
  load, not a recomputed one.
- Import checks no role.
- An SI with no governing date keeps the status it was stored with.
- Extension mode overrides a ticked closure.
- The Demand form's status select can set COMPLETED and so bypasses the
  completion guard (`DemandForm.FormBypassesCompletionGate`).
