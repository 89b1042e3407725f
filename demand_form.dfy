/** The Demand form: the draft being edited, the field edits, the AI
    rewrite of the description and the submission that turns the draft into
    a Demand. */
module DemandForm {
  import opened Types
  import opened ArrayOps
  import opened App

  /** The fields the form edits. */
  datatype DemandDraft = DemandDraft(
    openingDate: string,
    deadline: string,
    difficulty: Difficulty,
    location: string,
    serviceOrder: string,
    description: string,
    status: Status,
    observation: string)

  /** A new form: opened today, LOW, not started, every text empty. */
  function BlankDraft(todayIso: string): (d: DemandDraft)
    ensures d.openingDate == todayIso && d.difficulty == LOW && d.status == NOT_STARTED
    ensures d.deadline == "" && d.location == "" && d.serviceOrder == "" && d.description == ""
    ensures d.observation == ""
  {
    DemandDraft(todayIso, "", LOW, "", "", "", NOT_STARTED, "")
  }

  /** An existing Demand loaded into the form, field for field. */
  function DraftOf(d: Demand): (r: DemandDraft)
    ensures r.openingDate == d.openingDate && r.deadline == d.deadline && r.difficulty == d.difficulty
    ensures r.location == d.location && r.serviceOrder == d.serviceOrder
    ensures r.description == d.description && r.status == d.status && r.observation == d.observation
  {
    DemandDraft(d.openingDate, d.deadline, d.difficulty, d.location, d.serviceOrder,
                d.description, d.status, d.observation)
  }

  /** The fields without which the form refuses to submit. */
  predicate MissingRequired(d: DemandDraft)
  {
    d.openingDate == "" || d.deadline == "" || d.location == "" || d.serviceOrder == "" || d.description == ""
  }

  /** The text inputs, by their `name`. */
  datatype TextField = OpeningDate | Deadline | Location | ServiceOrder | Description | Observation

  /** The context handed to the description rewriter: the location, or a
      generic installation when none is chosen yet. */
  const GENERIC_CONTEXT: string := "Instalação Elétrica Geral"

  class DemandFormState {
    const initialData: Option<Demand>
    var formData: DemandDraft
    var isGenerating: bool

    /** The form as it stands once mounted: a blank draft, replaced by the
        Demand being edited when there is one. */
    constructor (initial: Option<Demand>, todayIso: string)
      ensures initialData == initial
      ensures formData == if initial.Some? then DraftOf(initial.value) else BlankDraft(todayIso)
      ensures !isGenerating
    {
      initialData := initial;
      formData := if initial.Some? then DraftOf(initial.value) else BlankDraft(todayIso);
      isGenerating := false;
    }

    /** `handleChange` on a text input: that field takes the value, the
        others are kept. */
    method Change(field: TextField, value: string)
      modifies this`formData
      ensures formData == match field
        case OpeningDate => old(formData).(openingDate := value)
        case Deadline => old(formData).(deadline := value)
        case Location => old(formData).(location := value)
        case ServiceOrder => old(formData).(serviceOrder := value)
        case Description => old(formData).(description := value)
        case Observation => old(formData).(observation := value)
    {
      match field
      case OpeningDate => formData := formData.(openingDate := value);
      case Deadline => formData := formData.(deadline := value);
      case Location => formData := formData.(location := value);
      case ServiceOrder => formData := formData.(serviceOrder := value);
      case Description => formData := formData.(description := value);
      case Observation => formData := formData.(observation := value);
    }

    /** `handleChange` on the difficulty select. */
    method SelectDifficulty(value: Difficulty)
      modifies this`formData
      ensures formData == old(formData).(difficulty := value)
    {
      formData := formData.(difficulty := value);
    }

    /** `handleChange` on the status select, which offers every status,
        COMPLETED included. */
    method SelectStatus(value: Status)
      modifies this`formData
      ensures formData == old(formData).(status := value)
    {
      formData := formData.(status := value);
    }

    /** `handleAIEnhance`: with a description, it is replaced by the
        rewriter's answer for it and the location (or the generic context);
        without one nothing happens. `enhance` stands for the remote model. */
    method AIEnhance(enhance: (string, string) -> string)
      modifies this
      ensures old(formData.description) == "" ==>
                formData == old(formData) && isGenerating == old(isGenerating)
      ensures old(formData.description) != "" ==>
                formData == old(formData).(description := enhance(old(formData.description), ContextOf(old(formData))))
      ensures old(formData.description) != "" ==> !isGenerating
    {
      if formData.description == "" {
        return;
      }
      isGenerating := true;
      var enhanced := enhance(formData.description, ContextOf(formData));
      formData := formData.(description := enhanced);
      isGenerating := false;
    }

    /** `handleSubmit`: the Demand handed to the save handler, or `None`
        when a required field is empty. `freshId` stands for a newly
        generated UUID and `nowIso` for the current timestamp. */
    function Submit(freshId: string, nowIso: string): (r: Option<Demand>)
      reads this
      ensures r.None? <==> MissingRequired(formData)
      // an edited Demand keeps its id and creation time; a new one takes fresh ones
      ensures r.Some? ==>
                r.value.id == if initialData.Some? && initialData.value.id != "" then initialData.value.id else freshId
      ensures r.Some? ==>
                r.value.createdAt ==
                  if initialData.Some? && initialData.value.createdAt != "" then initialData.value.createdAt else nowIso
      // every other field, the status included, is the draft's
      ensures r.Some? ==> DraftOf(r.value) == formData
    {
      if MissingRequired(formData) then None
      else
        var initialId := if initialData.Some? then Some(initialData.value.id) else None;
        var initialCreatedAt := if initialData.Some? then Some(initialData.value.createdAt) else None;
        Some(Demand(
          id := OrElse(initialId, freshId),
          openingDate := formData.openingDate,
          createdAt := OrElse(initialCreatedAt, nowIso),
          deadline := formData.deadline,
          difficulty := formData.difficulty,
          location := formData.location,
          serviceOrder := formData.serviceOrder,
          description := formData.description,
          status := formData.status,
          observation := formData.observation))
    }
  }

  /** `formData.location || GENERIC_CONTEXT`. */
  function ContextOf(d: DemandDraft): (c: string)
    ensures c != ""
    ensures d.location != "" ==> c == d.location
  {
    if d.location != "" then d.location else GENERIC_CONTEXT
  }

  /** A new form cannot be submitted until its required texts are filled
      in. */
  lemma BlankDraftRejected(f: DemandFormState, todayIso: string, freshId: string, nowIso: string)
    requires f.formData == BlankDraft(todayIso)
    ensures f.Submit(freshId, nowIso).None?
  {
  }

  /** Submitting an existing Demand unchanged saves exactly that Demand. */
  lemma UnchangedEditRoundTrip(f: DemandFormState, d: Demand, freshId: string, nowIso: string)
    requires f.initialData == Some(d) && f.formData == DraftOf(d)
    requires d.id != "" && d.createdAt != ""
    requires d.openingDate != "" && d.deadline != "" && d.location != "" && d.serviceOrder != "" &&
             d.description != ""
    ensures f.Submit(freshId, nowIso) == Some(d)
  {
  }

  /** The form's status reaches the save handler as chosen: a Demand
      submitted as COMPLETED is stored as COMPLETED even when its governing
      SI is expired and the completion button leaves it as it was. */
  lemma FormBypassesCompletionGate(f: DemandFormState, freshId: string, nowIso: string,
                                   demands: seq<Demand>, sis: seq<SI>, role: Option<UserRole>,
                                   proceed: bool, confirm: bool)
    requires f.formData.status == COMPLETED && f.Submit(freshId, nowIso).Some?
    requires CompletionGate(sis, f.Submit(freshId, nowIso).value.id).Blocked?
    ensures var d := f.Submit(freshId, nowIso).value;
            CompleteDemandEffect(demands, sis, role, d.id, proceed, confirm) == demands &&
            d.status == COMPLETED && d in Upsert(demands, d, DemandKey)
  {
    var d := f.Submit(freshId, nowIso).value;
    UpsertStores(demands, d, DemandKey, (y: Demand) => DemandKey(y) != DemandKey(d));
  }
}
