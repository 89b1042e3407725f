/** The SI form: a draft being edited, the extension switch, the closure
    tick box and the submission that turns the draft into an SI. */
module SIForm {
  import opened Types
  import opened StatusEngine

  /** The fields the form edits. The three extension fields may be absent
      when the draft was loaded from an SI that never had them. */
  datatype SIDraft = SIDraft(
    number: string,
    demandId: string,
    location: string,
    description: string,
    issueDate: string,
    expirationDate: string,
    status: SIStatus,
    responsible: string,
    responsibleArea: string,
    observations: string,
    newExpirationDate: Option<string>,
    extensionJustification: Option<string>)

  /** A new form: issued today, every other text empty, VIGENTE. */
  function BlankDraft(todayIso: string): (d: SIDraft)
    ensures d.issueDate == todayIso && d.status == VIGENTE
    ensures d.number == "" && d.location == "" && d.expirationDate == "" && d.responsible == ""
    ensures d.demandId == "" && d.description == "" && d.responsibleArea == "" && d.observations == ""
    ensures d.newExpirationDate == Some("") && d.extensionJustification == Some("")
  {
    SIDraft("", "", "", "", todayIso, "", VIGENTE, "", "", "", Some(""), Some(""))
  }

  /** An existing SI loaded into the form, field for field. */
  function DraftOf(si: SI): (d: SIDraft)
    ensures d.status == si.status && d.newExpirationDate == si.newExpirationDate
    ensures d.extensionJustification == si.extensionJustification
    ensures d.number == si.number && d.location == si.location && d.expirationDate == si.expirationDate
    ensures d.demandId == si.demandId && d.description == si.description && d.issueDate == si.issueDate
    ensures d.responsible == si.responsible && d.responsibleArea == si.responsibleArea
    ensures d.observations == si.observations
  {
    SIDraft(si.number, si.demandId, si.location, si.description, si.issueDate, si.expirationDate,
            si.status, si.responsible, si.responsibleArea, si.observations,
            si.newExpirationDate, si.extensionJustification)
  }

  /** The fields without which the form refuses to submit. */
  predicate MissingRequired(d: SIDraft)
  {
    d.number == "" || d.location == "" || d.expirationDate == "" || d.responsible == ""
  }

  /** The text inputs and the demand select, by their `name`. */
  datatype SIField = Number | DemandId | Location | Description | IssueDate | ExpirationDate |
                     Responsible | ResponsibleArea | Observations | NewExpirationDate | ExtensionJustification

  class SIFormState {
    const initialData: Option<SI>
    var formData: SIDraft
    var isExtensionMode: bool

    /** The form as it stands once mounted: editing an SI opens in extension
        mode when the SI is EXTENDED or already carries a new date. */
    constructor (initial: Option<SI>, todayIso: string)
      ensures initialData == initial
      ensures formData == if initial.Some? then DraftOf(initial.value) else BlankDraft(todayIso)
      ensures isExtensionMode <==>
                initial.Some? && (initial.value.status == EXTENDED || Truthy(initial.value.newExpirationDate))
    {
      initialData := initial;
      if initial.Some? {
        formData := DraftOf(initial.value);
        isExtensionMode := initial.value.status == EXTENDED || Truthy(initial.value.newExpirationDate);
      } else {
        formData := BlankDraft(todayIso);
        isExtensionMode := false;
      }
    }

    /** `handleChange`: that field takes the value, the others are kept. */
    method Change(field: SIField, value: string)
      modifies this`formData
      ensures formData == match field
        case Number => old(formData).(number := value)
        case DemandId => old(formData).(demandId := value)
        case Location => old(formData).(location := value)
        case Description => old(formData).(description := value)
        case IssueDate => old(formData).(issueDate := value)
        case ExpirationDate => old(formData).(expirationDate := value)
        case Responsible => old(formData).(responsible := value)
        case ResponsibleArea => old(formData).(responsibleArea := value)
        case Observations => old(formData).(observations := value)
        case NewExpirationDate => old(formData).(newExpirationDate := Some(value))
        case ExtensionJustification => old(formData).(extensionJustification := Some(value))
    {
      match field
      case Number => formData := formData.(number := value);
      case DemandId => formData := formData.(demandId := value);
      case Location => formData := formData.(location := value);
      case Description => formData := formData.(description := value);
      case IssueDate => formData := formData.(issueDate := value);
      case ExpirationDate => formData := formData.(expirationDate := value);
      case Responsible => formData := formData.(responsible := value);
      case ResponsibleArea => formData := formData.(responsibleArea := value);
      case Observations => formData := formData.(observations := value);
      case NewExpirationDate => formData := formData.(newExpirationDate := Some(value));
      case ExtensionJustification => formData := formData.(extensionJustification := Some(value));
    }

    /** The extension switch: switching on marks the draft EXTENDED;
        switching off blanks the extension fields and resets to VIGENTE. */
    method ToggleExtension()
      modifies this
      ensures isExtensionMode == !old(isExtensionMode)
      ensures isExtensionMode ==> formData == old(formData).(status := EXTENDED)
      ensures !isExtensionMode ==>
                formData == old(formData).(newExpirationDate := Some(""), extensionJustification := Some(""),
                                           status := VIGENTE)
    {
      isExtensionMode := !isExtensionMode;
      if isExtensionMode {
        formData := formData.(status := EXTENDED);
      } else {
        formData := formData.(newExpirationDate := Some(""), extensionJustification := Some(""), status := VIGENTE);
      }
    }

    /** The "close this SI" tick box, shown only when an existing SI is
        being edited: ticked is CLOSED, unticked VIGENTE. */
    method SetClosed(checked: bool)
      requires initialData.Some?
      modifies this`formData
      ensures formData == old(formData).(status := if checked then CLOSED else VIGENTE)
    {
      formData := formData.(status := if checked then CLOSED else VIGENTE);
    }

    /** The submission's validation: `true` when it stops with an alert. */
    predicate Rejects()
      reads this
    {
      MissingRequired(formData) ||
      (isExtensionMode && (!Truthy(formData.newExpirationDate) || !Truthy(formData.extensionJustification)))
    }

    /** The browser's constraint validation: a `required` input left empty
        stops the form before `handleSubmit` runs. The issue date is such an
        input; the extension pair is one only in extension mode. */
    predicate RequiredInputEmpty()
      reads this
    {
      formData.number == "" || formData.location == "" || formData.issueDate == "" ||
      formData.expirationDate == "" || formData.responsible == "" ||
      (isExtensionMode && (!Truthy(formData.newExpirationDate) || !Truthy(formData.extensionJustification)))
    }

    /** Submitting the form: the SI handed to the save handler, or `None`
        when the browser's validation or `handleSubmit`'s stops it. `freshId` stands for a newly generated UUID and
        `todayIso` for today's date as `YYYY-MM-DD`. */
    function Submit(freshId: string, todayIso: string): (r: Option<SI>)
      reads this
      ensures r.None? <==> RequiredInputEmpty() || Rejects()
      // of the browser's checks, only the issue date adds to handleSubmit's own
      ensures r.None? <==> Rejects() || formData.issueDate == ""
      // extension mode always submits EXTENDED; otherwise the draft's status
      ensures r.Some? ==> r.value.status == if isExtensionMode then EXTENDED else formData.status
      // the extension fields survive only in extension mode
      ensures r.Some? && isExtensionMode ==>
                Truthy(r.value.newExpirationDate) && Truthy(r.value.extensionJustification) &&
                r.value.newExpirationDate == formData.newExpirationDate &&
                r.value.extensionJustification == formData.extensionJustification
      ensures r.Some? && !isExtensionMode ==>
                r.value.newExpirationDate.None? && r.value.extensionJustification.None?
      // the extension is stamped with today's date only the first time
      ensures r.Some? && initialData.Some? && Truthy(initialData.value.extensionDate) ==>
                r.value.extensionDate == initialData.value.extensionDate
      ensures r.Some? && isExtensionMode && !(initialData.Some? && Truthy(initialData.value.extensionDate)) ==>
                r.value.extensionDate == Some(todayIso)
      ensures r.Some? && !isExtensionMode ==>
                r.value.extensionDate == if initialData.Some? then initialData.value.extensionDate else None
      // an edited SI keeps its id; a new one takes the fresh id
      ensures r.Some? ==>
                r.value.id == if initialData.Some? && initialData.value.id != "" then initialData.value.id else freshId
      // the remaining fields are the draft's
      ensures r.Some? ==>
                r.value.number == formData.number && r.value.demandId == formData.demandId &&
                r.value.location == formData.location && r.value.description == formData.description &&
                r.value.issueDate == formData.issueDate && r.value.expirationDate == formData.expirationDate &&
                r.value.responsible == formData.responsible &&
                r.value.responsibleArea == formData.responsibleArea &&
                r.value.observations == formData.observations
    {
      if RequiredInputEmpty() || Rejects() then None
      else
        var finalStatus :=
          if isExtensionMode && Truthy(formData.newExpirationDate) then EXTENDED
          else if formData.status == CLOSED then CLOSED
          else formData.status;
        var initialExtensionDate := if initialData.Some? then initialData.value.extensionDate else None;
        var initialId := if initialData.Some? then Some(initialData.value.id) else None;
        Some(SI(
          id := OrElse(initialId, freshId),
          number := formData.number,
          demandId := formData.demandId,
          location := formData.location,
          description := formData.description,
          issueDate := formData.issueDate,
          expirationDate := formData.expirationDate,
          status := finalStatus,
          extensionDate := if isExtensionMode && !Truthy(initialExtensionDate) then Some(todayIso) else initialExtensionDate,
          newExpirationDate := if isExtensionMode then formData.newExpirationDate else None,
          extensionJustification := if isExtensionMode then formData.extensionJustification else None,
          responsible := formData.responsible,
          responsibleArea := formData.responsibleArea,
          observations := formData.observations))
    }
  }

  /** An SI submitted in extension mode is governed by its new date once the
      save handler recomputes it: it stays EXTENDED unless that date is near
      or past, and it can no longer be CLOSED. */
  lemma ExtensionSubmissionGoverned(f: SIFormState, freshId: string, todayIso: string, today: int, dayOf: Parser)
    requires f.isExtensionMode && f.Submit(freshId, todayIso).Some?
    ensures var si := f.Submit(freshId, todayIso).value;
            EffectiveExpiration(si) == f.formData.newExpirationDate.value &&
            UpdateSIStatus(si, today, dayOf).status in {EXPIRED, EXPIRING, EXTENDED}
  {
  }

  /** Outside extension mode the submitted SI has no extension, so after
      recomputation it is never EXTENDED, and it is governed by the original
      expiration date. */
  lemma PlainSubmissionNeverExtended(f: SIFormState, freshId: string, todayIso: string, today: int, dayOf: Parser)
    requires !f.isExtensionMode && f.Submit(freshId, todayIso).Some?
    ensures var si := f.Submit(freshId, todayIso).value;
            EffectiveExpiration(si) == f.formData.expirationDate &&
            UpdateSIStatus(si, today, dayOf).status != EXTENDED
  {
  }

  /** A ticked closure is submitted as CLOSED, and then survives the save
      handler's recomputation, only outside extension mode: in extension
      mode the form submits EXTENDED regardless of the tick. */
  lemma ClosureRespected(f: SIFormState, freshId: string, todayIso: string, today: int, dayOf: Parser)
    requires f.formData.status == CLOSED && f.Submit(freshId, todayIso).Some?
    ensures var si := f.Submit(freshId, todayIso).value;
            (!f.isExtensionMode <==> si.status == CLOSED) &&
            (!f.isExtensionMode ==> UpdateSIStatus(si, today, dayOf) == si)
  {
  }
}
