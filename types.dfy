/** The records, enumerations and constants shared by the whole tracker:
    work orders (Demands), intervention permits (SIs), user roles and the
    fixed list of facility locations. */
module Types {

  datatype Option<+T> = None | Some(value: T) {
    /** The value, or `default` when absent. */
    function GetOr(default: T): T
    {
      match this
      case Some(v) => v
      case None => default
    }
  }

  /** JavaScript truthiness of a string that may be `undefined`. */
  predicate Truthy(s: Option<string>)
  {
    s.Some? && s.value != ""
  }

  /** JavaScript `a || b` where `a` may be `undefined` and `b` is a string. */
  function OrElse(a: Option<string>, b: string): (r: string)
    ensures Truthy(a) ==> r == a.value
    ensures !Truthy(a) ==> r == b
  {
    if a.Some? && a.value != "" then a.value else b
  }

  datatype Difficulty = LOW | MEDIUM | HIGH

  datatype Status = NOT_STARTED | REQUEST_CALL | IN_PROGRESS | COMPLETED

  datatype SIStatus = VIGENTE | EXPIRING | EXPIRED | EXTENDED | CLOSED

  datatype UserRole = ADMIN | VIEWER

  datatype ViewState = DASHBOARD | LIST | FORM | SI_DASHBOARD | SI_LIST | SI_FORM

  /** The string each enumeration member stands for at run time. */
  function DifficultyText(d: Difficulty): string
  {
    match d
    case LOW => "BAIXA"
    case MEDIUM => "MÉDIA"
    case HIGH => "ALTA"
  }

  function StatusText(s: Status): string
  {
    match s
    case NOT_STARTED => "NÃO INICIADO"
    case REQUEST_CALL => "FNZ / SOLICITAR CHAMADO"
    case IN_PROGRESS => "EM EXECUÇÃO"
    case COMPLETED => "CONCLUÍDO"
  }

  function SIStatusText(s: SIStatus): string
  {
    match s
    case VIGENTE => "VIGENTE"
    case EXPIRING => "PRÓXIMA DO VENCIMENTO"
    case EXPIRED => "VENCIDA"
    case EXTENDED => "PRORROGADA"
    case CLOSED => "ENCERRADA"
  }

  function UserRoleText(r: UserRole): string
  {
    match r
    case ADMIN => "ADMIN"
    case VIEWER => "VIEWER"
  }

  predicate NoDuplicates<T(==)>(s: seq<T>)
  {
    forall i, j :: 0 <= i < j < |s| ==> s[i] != s[j]
  }

  /** `Object.values(Difficulty)`: every member once, in declaration order,
      with distinct run-time strings. */
  function AllDifficulties(): (r: seq<Difficulty>)
    ensures |r| == 3 && NoDuplicates(r)
    ensures forall i, j :: 0 <= i < j < |r| ==> DifficultyText(r[i]) != DifficultyText(r[j])
  {
    [LOW, MEDIUM, HIGH]
  }

  /** Every `Difficulty` member is listed by `AllDifficulties`. */
  lemma AllDifficultiesComplete(d: Difficulty)
    ensures d in AllDifficulties()
  {
    match d
    case LOW => assert AllDifficulties()[0] == d;
    case MEDIUM => assert AllDifficulties()[1] == d;
    case HIGH => assert AllDifficulties()[2] == d;
  }

  /** `Object.values(Status)`: four members, COMPLETED among them. */
  function AllStatuses(): (r: seq<Status>)
    ensures |r| == 4 && NoDuplicates(r)
    ensures COMPLETED in r
    ensures forall i, j :: 0 <= i < j < |r| ==> StatusText(r[i]) != StatusText(r[j])
  {
    [NOT_STARTED, REQUEST_CALL, IN_PROGRESS, COMPLETED]
  }

  /** Every `Status` member is listed by `AllStatuses`. */
  lemma AllStatusesComplete(s: Status)
    ensures s in AllStatuses()
  {
    match s
    case NOT_STARTED => assert AllStatuses()[0] == s;
    case REQUEST_CALL => assert AllStatuses()[1] == s;
    case IN_PROGRESS => assert AllStatuses()[2] == s;
    case COMPLETED => assert AllStatuses()[3] == s;
  }

  /** `Object.values(SIStatus)`: five members with distinct strings. */
  function AllSIStatuses(): (r: seq<SIStatus>)
    ensures |r| == 5 && NoDuplicates(r)
    ensures forall i, j :: 0 <= i < j < |r| ==> SIStatusText(r[i]) != SIStatusText(r[j])
  {
    [VIGENTE, EXPIRING, EXPIRED, EXTENDED, CLOSED]
  }

  /** Every `SIStatus` member is listed by `AllSIStatuses`. */
  lemma AllSIStatusesComplete(s: SIStatus)
    ensures s in AllSIStatuses()
  {
    match s
    case VIGENTE => assert AllSIStatuses()[0] == s;
    case EXPIRING => assert AllSIStatuses()[1] == s;
    case EXPIRED => assert AllSIStatuses()[2] == s;
    case EXTENDED => assert AllSIStatuses()[3] == s;
    case CLOSED => assert AllSIStatuses()[4] == s;
  }

  /** The two roles are exactly the strings 'ADMIN' and 'VIEWER'. */
  lemma UserRoleIsAdminOrViewer(r: UserRole)
    ensures UserRoleText(r) == "ADMIN" || UserRoleText(r) == "VIEWER"
    ensures (UserRoleText(r) == "ADMIN") <==> r == ADMIN
  {
  }

  /** The facility's substations and plant, in the order the location
      pickers show them. */
  const LOCATIONS: seq<string> :=
    [ "UHE SOBRADINHO",
      "SE SOB", "SE JGR", "SE JZD", "SE JZT", "SE SNB",
      "SE CND", "SE CFO", "SE OUR", "SE BMC", "SE IRE", "SE MPD",
      "SE IGD", "SE IGT", "SE BRA", "SE BRD", "SE TBV", "SE BJS",
      "SE BJD", "SE PND", "SE GPX", "SE FUT", "CRESP" ]

  /** The location list names 23 places, each once. */
  lemma LocationsDistinct()
    ensures |LOCATIONS| == 23 && NoDuplicates(LOCATIONS)
  {
  }

  /** A maintenance work order. Dates are the ISO strings the records carry. */
  datatype Demand = Demand(
    id: string,
    openingDate: string,
    createdAt: string,
    deadline: string,
    difficulty: Difficulty,
    location: string,
    serviceOrder: string,
    description: string,
    status: Status,
    observation: string)

  /** An intervention permit. `demandId == ""` means the SI is not linked to
      any Demand; the three extension fields may be absent (`undefined`). */
  datatype SI = SI(
    id: string,
    number: string,
    demandId: string,
    location: string,
    description: string,
    issueDate: string,
    expirationDate: string,
    status: SIStatus,
    extensionDate: Option<string>,
    newExpirationDate: Option<string>,
    extensionJustification: Option<string>,
    responsible: string,
    responsibleArea: string,
    observations: string)

  predicate IsLinked(si: SI)
  {
    si.demandId != ""
  }

  /** A host date parser: the day number (or instant) JavaScript assigns to a
      date string, `None` where JavaScript produces `NaN`. */
  type Parser = string -> Option<int>

  /** Milliseconds in one day. */
  const DAY_MS: int := 86400000

  /** The calendar day an instant in milliseconds falls on. */
  function LocalDay(ms: int): int
  {
    ms / DAY_MS
  }

  lemma LocalDayMonotone(a: int, b: int)
    requires a <= b
    ensures LocalDay(a) <= LocalDay(b)
  {
  }
}
