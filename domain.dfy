/**
 * The entities of the dispatch backend as values: the enumerations, the rows
 * of the six tables, and the error kinds the services raise, each with the
 * HTTP status code it is reported with.
 */
module Domain {
  import opened Collections

  // ----- enumerations -----

  datatype CallStatus = New | Accepted | Completed | Rejected

  /** The stored string of a status (`CallStatus.value`). */
  function StatusValue(s: CallStatus): string
  {
    match s
    case New => "new"
    case Accepted => "accepted"
    case Completed => "completed"
    case Rejected => "rejected"
  }

  datatype CallType = Critical | Important | Common

  datatype UserRole = Dispatcher | Worker | Admin

  datatype NotificationType = Trouble | Success | Message

  datatype PatientGender = Male | Female

  /** The trouble kinds a team can report; a `StrEnum`, so its value is its text. */
  datatype TroubleType = CarBroken | HumanFactor | ExternalFactor

  function TroubleText(t: TroubleType): string
  {
    match t
    case CarBroken => "Поломка автомобиля"
    case HumanFactor => "Человеческий фактор"
    case ExternalFactor => "Внешний фактор"
  }

  // ----- rows -----

  /** A position; latitude and longitude are copied and compared, never computed with. */
  datatype Coordinates = Coordinates(lat: real, lon: real)

  /**
   * A call row. `teamId` is nullable and nothing in the services ties it to
   * the status: it is whatever the last update wrote.
   */
  datatype Call = Call(
    id: nat,
    status: CallStatus,
    callType: CallType,
    reason: string,
    dateTime: int,
    address: string,
    lat: real,
    lon: real,
    patientId: nat,
    teamId: Option<nat>)

  /** The fields a dispatcher submits for a new call (the create schema): a call without an id. */
  datatype CallDraft = CallDraft(
    status: CallStatus,
    callType: CallType,
    reason: string,
    dateTime: int,
    address: string,
    lat: real,
    lon: real,
    patientId: nat,
    teamId: Option<nat>)

  function DraftOf(c: Call): CallDraft
  {
    CallDraft(c.status, c.callType, c.reason, c.dateTime, c.address, c.lat, c.lon, c.patientId, c.teamId)
  }

  function CallFromDraft(id: nat, d: CallDraft): (c: Call)
    ensures c.id == id && DraftOf(c) == d
  {
    Call(id, d.status, d.callType, d.reason, d.dateTime, d.address, d.lat, d.lon, d.patientId, d.teamId)
  }

  datatype Team = Team(
    id: nat,
    worker1Id: nat,
    worker2Id: nat,
    worker3Id: nat,
    carId: nat,
    lat: real,
    lon: real,
    isDeleted: bool)

  /** Where a team stands when its row is created without coordinates. */
  const DefaultTeamLat: real := 59.907126
  const DefaultTeamLon: real := 30.326599

  predicate IsWorkerOf(userId: nat, t: Team)
  {
    userId == t.worker1Id || userId == t.worker2Id || userId == t.worker3Id
  }

  datatype Car = Car(id: nat, number: string, status: bool, isDeleted: bool)

  /** A car row is serviceable unless told otherwise. */
  const DefaultCarStatus: bool := true

  /** A user row; `password` holds the hash, never the plaintext. */
  datatype User = User(
    id: nat,
    login: string,
    password: string,
    role: UserRole,
    name: string,
    surname: string,
    patronym: string)

  datatype Patient = Patient(
    id: nat,
    name: string,
    surname: string,
    patronym: string,
    gender: PatientGender,
    age: int)

  datatype Notification = Notification(id: nat, notificationType: NotificationType, text: string, userId: nat)

  // ----- errors -----

  /**
   * What a service raises. `Internal` stands for every exception the services
   * do not raise on purpose (an attribute of `None`, an index out of range, a
   * missing dictionary key, a failed schema validation, `raise None`): FastAPI
   * reports each of them as a server error.
   */
  datatype Error =
    | CallNotFound | TeamCallNotFound | CallAlreadyExists
    | CarNotFound | CarAlreadyExists | CarBusy
    | TeamNotFound | TeamBusy
    | UserNotFound | UserAlreadyExists | WorkerBusy
    | AuthError | TokenExpired | WrongRole | WrongLoginPassword
    | AdminRoleRequired | DispatcherRoleRequired | WorkerRoleRequired
    | RoutingFailed
    | Internal

  function HttpStatus(e: Error): nat
  {
    match e
    case CallNotFound => 404
    case TeamCallNotFound => 404
    case CallAlreadyExists => 409
    case CarNotFound => 404
    case CarAlreadyExists => 409
    case CarBusy => 409
    case TeamNotFound => 404
    case TeamBusy => 404
    case UserNotFound => 404
    case UserAlreadyExists => 409
    case WorkerBusy => 409
    case AuthError => 401
    case TokenExpired => 401
    case WrongRole => 401
    case WrongLoginPassword => 401
    case AdminRoleRequired => 403
    case DispatcherRoleRequired => 403
    case WorkerRoleRequired => 403
    case RoutingFailed => 400
    case Internal => 500
  }

  predicate IsNotFound(e: Error)
  {
    e in {CallNotFound, TeamCallNotFound, CarNotFound, TeamNotFound, UserNotFound}
  }

  predicate IsConflict(e: Error)
  {
    e in {CallAlreadyExists, CarAlreadyExists, CarBusy, UserAlreadyExists, WorkerBusy}
  }

  /**
   * The status codes follow the error kinds: absent rows are 404, conflicts
   * 409, authentication 401, missing roles 403, the route provider 400 — with
   * the one exception that a busy team is reported as 404, not as a conflict.
   */
  lemma StatusCodesFollowKinds(e: Error)
    ensures IsNotFound(e) ==> HttpStatus(e) == 404
    ensures IsConflict(e) ==> HttpStatus(e) == 409
    ensures e in {AuthError, TokenExpired, WrongRole, WrongLoginPassword} ==> HttpStatus(e) == 401
    ensures e in {AdminRoleRequired, DispatcherRoleRequired, WorkerRoleRequired} ==> HttpStatus(e) == 403
    ensures e == RoutingFailed ==> HttpStatus(e) == 400
    ensures e == TeamBusy ==> !IsConflict(e) && HttpStatus(e) == 404
    ensures HttpStatus(e) == 500 <==> e == Internal
  {
  }

  datatype Result<+T> = Ok(value: T) | Err(error: Error)

  /**
   * Builds one entry per element, in order, and stops at the first element
   * whose entry fails, with that failure.
   */
  method CollectAll<A, B>(xs: seq<A>, entry: A -> Result<B>) returns (r: Result<seq<B>>)
    ensures r.Ok? <==> forall i :: 0 <= i < |xs| ==> entry(xs[i]).Ok?
    ensures r.Err? ==> exists i :: 0 <= i < |xs| && entry(xs[i]) == Err(r.error) && forall j :: 0 <= j < i ==> entry(xs[j]).Ok?
    ensures r.Ok? ==> |r.value| == |xs| && forall i :: 0 <= i < |xs| ==> entry(xs[i]) == Ok(r.value[i])
  {
    var result: seq<B> := [];
    for i := 0 to |xs|
      invariant |result| == i
      invariant forall j :: 0 <= j < i ==> entry(xs[j]) == Ok(result[j])
    {
      var e := entry(xs[i]);
      if e.Err? {
        return Err(e.error);
      }
      result := result + [e.value];
    }
    return Ok(result);
  }
}
