/**
 * The call lifecycle. A call is created NEW (or with whatever status the
 * request carries), accepted by a team, then completed, rejected or reported
 * as troubled, which puts it back in the queue. No operation checks the prior
 * status: every transition overwrites it.
 */
module CallService {
  import opened Collections
  import opened Domain
  import opened Schemas
  import opened Persistence
  import opened Text
  import NotificationService
  import TeamService
  import CarService

  // ----- queries -----

  /** The calls waiting for a team. */
  function NewCalls(calls: seq<Call>): (r: seq<Call>)
    ensures forall c :: c in r <==> c in calls && c.status == New
    ensures IsSubseq(r, calls)
  {
    Filter(calls, (c: Call) => c.status == New)
  }

  /** The priority table: critical first, then important, then common. */
  function Priority(t: CallType): (p: nat)
    ensures p < 3
  {
    match t
    case Critical => 0
    case Important => 1
    case Common => 2
  }

  /** Critical calls rank before important ones, and those before common ones. */
  lemma PriorityRanks()
    ensures Priority(Critical) < Priority(Important) < Priority(Common)
  {
  }

  /** The sort key `(priority, -timestamp)` compared as a tuple: a call may precede another of lower or equal priority, and within one priority a call no older. */
  predicate PriorityLe(a: Call, b: Call)
  {
    Priority(a.callType) < Priority(b.callType) ||
    (Priority(a.callType) == Priority(b.callType) && a.dateTime >= b.dateTime)
  }

  lemma PriorityLeIsTotalPreorder()
    ensures TotalPreorder(PriorityLe)
  {
  }

  /**
   * `get_new_calls`: exactly the NEW calls, reordered so that critical calls
   * come before important ones and those before common ones, and within one
   * type the newer call comes first.
   */
  function GetNewCalls(calls: seq<Call>): (r: seq<Call>)
    ensures multiset(r) == multiset(NewCalls(calls))
    ensures forall c :: c in r <==> c in calls && c.status == New
    ensures forall i, j :: 0 <= i < j < |r| ==> Priority(r[i].callType) <= Priority(r[j].callType)
    ensures forall i, j :: 0 <= i < j < |r| && r[i].callType == r[j].callType ==> r[i].dateTime >= r[j].dateTime
  {
    PriorityLeIsTotalPreorder();
    var r := InsertionSort(NewCalls(calls), PriorityLe);
    PriorityOrder(r);
    SameMembers(r, NewCalls(calls));
    r
  }

  /** A sequence sorted by the key lists types by priority, and each type newest first. */
  lemma PriorityOrder(r: seq<Call>)
    requires SortedBy(r, PriorityLe)
    ensures forall i, j :: 0 <= i < j < |r| ==> Priority(r[i].callType) <= Priority(r[j].callType)
    ensures forall i, j :: 0 <= i < j < |r| && r[i].callType == r[j].callType ==> r[i].dateTime >= r[j].dateTime
  {
    forall i, j | 0 <= i < j < |r|
      ensures Priority(r[i].callType) <= Priority(r[j].callType)
      ensures r[i].callType == r[j].callType ==> r[i].dateTime >= r[j].dateTime
    {
      assert PriorityLe(r[i], r[j]);
    }
  }

  /** `get_actual_calls`: the calls that are still open, NEW or ACCEPTED, in stored order. */
  function GetActualCalls(calls: seq<Call>): (r: seq<Call>)
    ensures forall c :: c in r <==> c in calls && (c.status == New || c.status == Accepted)
    ensures IsSubseq(r, calls)
  {
    Filter(calls, (c: Call) => c.status == New || c.status == Accepted)
  }

  /** A call the team is working on. */
  predicate OnTeam(c: Call, teamId: nat)
  {
    c.teamId == Some(teamId) && c.status == Accepted
  }

  /** `get_call_by_team_id`: an accepted call assigned to the team, else TeamCallNotFound. */
  function GetCallByTeamId(calls: seq<Call>, teamId: nat): (r: Result<Call>)
    ensures r.Err? <==> forall c :: c in calls ==> !OnTeam(c, teamId)
    ensures r.Err? ==> r.error == TeamCallNotFound
    ensures r.Ok? ==> r.value in calls && OnTeam(r.value, teamId)
  {
    match First(calls, (c: Call) => OnTeam(c, teamId))
    case Some(c) => Ok(c)
    case None => Err(TeamCallNotFound)
  }

  // ----- notices -----

  const NewCallText: string := "Новый вызов"
  const AssignedText: string := "Назначен вызов"

  /** The notice to dispatchers that a call is done: "Вызов <id> выполнен", the id as `str` writes it. */
  function CompletedText(callId: int): string
  {
    "Вызов " + IntToString(callId) + " выполнен"
  }

  /** The notice to admins that a car broke: "Автомобиль <number> сломан". */
  function CarBrokenText(number: string): string
  {
    "Автомобиль " + number + " сломан"
  }

  /** The notice to dispatchers about a troubled call: "Проблема на вызове <id>: <kind>". */
  function TroubleNoticeText(callId: nat, kind: TroubleType): string
  {
    "Проблема на вызове " + NatToString(callId) + ": " + TroubleText(kind)
  }

  /** Different calls give different completion notices, and the id reads back from the notice. */
  lemma CompletedTextNamesTheCall(m: nat, n: nat)
    ensures |CompletedText(n)| == |NatToString(n)| + 15
    ensures ParseDigits(CompletedText(n)[6..6 + |NatToString(n)|]) == n
    ensures m != n ==> CompletedText(m) != CompletedText(n)
  {
    var s := CompletedText(n);
    assert s[6..6 + |NatToString(n)|] == NatToString(n);
    ParseNatToString(n);
    if m != n && CompletedText(m) == CompletedText(n) {
      assert |NatToString(m)| == |NatToString(n)|;
      assert CompletedText(m)[6..6 + |NatToString(m)|] == NatToString(m);
      NatToStringInjective(m, n);
    }
  }

  // ----- lifecycle -----

  /** A stored call that equals the draft on every field the request carries. */
  predicate Duplicates(calls: seq<Call>, d: CallDraft)
  {
    exists c :: c in calls && DraftOf(c) == d
  }

  /** The rows the draft refers to exist; otherwise the database refuses the insert. */
  predicate DraftRefsResolve(d: CallDraft, patients: seq<Patient>, teams: seq<Team>)
  {
    FindPatient(patients, d.patientId).Some? && (d.teamId.Some? ==> FindTeam(teams, d.teamId.value).Some?)
  }

  /**
   * `add_call`: CallAlreadyExists, and nothing stored, when a stored call
   * equals the draft; otherwise the call is stored as drafted and each
   * dispatcher gets one MESSAGE notice "Новый вызов".
   */
  method AddCall(store: Store, d: CallDraft) returns (r: Result<Call>)
    requires store.Valid()
    modifies store`calls, store`nextCallId, store`notifications, store`nextNotificationId
    ensures store.Valid()
    ensures Duplicates(old(store.calls), d) ==> r == Err(CallAlreadyExists)
    ensures !Duplicates(old(store.calls), d) && !DraftRefsResolve(d, store.patients, store.teams) ==> r == Err(Internal)
    ensures r.Err? ==> unchanged(store)
    ensures r.Ok? <==> !Duplicates(old(store.calls), d) && DraftRefsResolve(d, store.patients, store.teams)
    ensures r.Ok? ==> r.value == CallFromDraft(old(store.nextCallId), d)
    ensures r.Ok? ==> store.calls == old(store.calls) + [r.value] && store.nextCallId == old(store.nextCallId) + 1
    ensures r.Ok? ==> (store.notifications == old(store.notifications) +
      NotificationService.Batch(old(store.nextNotificationId), IdsWithRole(store.users, Dispatcher), Message, NewCallText))
    ensures r.Ok? ==> store.nextNotificationId == old(store.nextNotificationId) + |IdsWithRole(store.users, Dispatcher)|
  {
    var found := Filter(store.calls, (c: Call) => DraftOf(c) == d);
    if found != [] {
      assert found[0] in found;
      return Err(CallAlreadyExists);
    }
    if !DraftRefsResolve(d, store.patients, store.teams) {
      return Err(Internal);
    }
    var c := store.CreateCall(d);
    NotificationService.NotifyUsers(store, IdsWithRole(store.users, Dispatcher), Message, NewCallText);
    return Ok(c);
  }

  /**
   * `accept_call`: the call becomes ACCEPTED by the team, whatever its prior
   * status, and the team's three workers each get one MESSAGE notice
   * "Назначен вызов". A team id with no row is refused by the database and
   * changes nothing; an unknown call id changes no call but still notifies,
   * then fails on reading the call back.
   */
  method AcceptCall(store: Store, callId: nat, teamId: nat) returns (r: Result<Call>)
    requires store.Valid()
    modifies store`calls, store`notifications, store`nextNotificationId
    ensures store.Valid()
    ensures FindTeam(store.teams, teamId).None? ==> r == Err(Internal) && unchanged(store)
    ensures FindTeam(store.teams, teamId).Some? ==>
      var t := FindTeam(store.teams, teamId).value;
      && store.calls == UpdateCalls(old(store.calls), callId, CallUpdate(Some(Accepted), Some(Some(teamId))))
      && store.notifications == old(store.notifications) +
           NotificationService.Batch(old(store.nextNotificationId), [t.worker1Id, t.worker2Id, t.worker3Id], Message, AssignedText)
      && store.nextNotificationId == old(store.nextNotificationId) + 3
      && (r.Err? <==> FindCall(old(store.calls), callId).None?)
    ensures r.Err? ==> r.error == Internal
    ensures r.Ok? ==> r.value == FindCall(old(store.calls), callId).value.(status := Accepted, teamId := Some(teamId))
    ensures r.Ok? ==> FindCall(store.calls, callId) == Some(r.value)
  {
    var team := FindTeam(store.teams, teamId);
    if team.None? {
      return Err(Internal);
    }
    var u := CallUpdate(Some(Accepted), Some(Some(teamId)));
    var before := FindCall(store.calls, callId);
    if before.Some? {
      FindCallAfterUpdate(store.calls, callId, u);
    }
    store.UpdateCall(callId, u);
    var t := team.value;
    NotificationService.NotifyUsers(store, [t.worker1Id, t.worker2Id, t.worker3Id], Message, AssignedText);
    if before.None? {
      return Err(Internal);
    }
    return Ok(FindCall(store.calls, callId).value);
  }

  /**
   * `reject_call`: the call becomes REJECTED whatever its prior status, and
   * nothing else about it changes. An unknown id fails on reading the call back.
   */
  method RejectCall(store: Store, callId: nat) returns (r: Result<Call>)
    requires store.Valid()
    modifies store`calls
    ensures store.Valid()
    ensures store.calls == UpdateCalls(old(store.calls), callId, CallUpdate(Some(Rejected), None))
    ensures r.Err? <==> FindCall(old(store.calls), callId).None?
    ensures r.Err? ==> r.error == Internal
    ensures r.Ok? ==> r.value == FindCall(old(store.calls), callId).value.(status := Rejected)
  {
    var u := CallUpdate(Some(Rejected), None);
    var before := FindCall(store.calls, callId);
    if before.Some? {
      FindCallAfterUpdate(store.calls, callId, u);
    }
    store.UpdateCall(callId, u);
    if before.None? {
      return Err(Internal);
    }
    return Ok(FindCall(store.calls, callId).value);
  }

  /** The team a call's relationship resolves to, if the call names one that exists. */
  function TeamOfCall(c: Call, teams: seq<Team>): (r: Option<Team>)
    ensures r.Some? <==> c.teamId.Some? && FindTeam(teams, c.teamId.value).Some?
    ensures r.Some? ==> r.value.id == c.teamId.value && r.value in teams
  {
    if c.teamId.None? then None else FindTeam(teams, c.teamId.value)
  }

  /**
   * `complete_call`: the call becomes COMPLETED and keeps its team, every
   * dispatcher gets one SUCCESS notice "Вызов <id> выполнен", and the team is
   * moved to the call's site. The status and the notices are written first;
   * a call that is missing (any negative id among them), has no team or lies
   * outside the coordinate bounds fails after them with the teams untouched.
   * The notice names the id as given, a negative one included.
   */
  method CompleteCall(store: Store, callId: int) returns (r: Result<Call>)
    requires store.Valid()
    modifies store`calls, store`notifications, store`nextNotificationId, store`teams
    ensures store.Valid()
    ensures store.calls == UpdateCalls(old(store.calls), callId, CallUpdate(Some(Completed), None))
    ensures store.notifications == old(store.notifications) +
      NotificationService.Batch(old(store.nextNotificationId), IdsWithRole(store.users, Dispatcher), Success, CompletedText(callId))
    ensures store.nextNotificationId == old(store.nextNotificationId) + |IdsWithRole(store.users, Dispatcher)|
    ensures r.Ok? <==>
      && FindCall(old(store.calls), callId).Some?
      && TeamOfCall(FindCall(old(store.calls), callId).value, old(store.teams)).Some?
      && ValidCoordinates(Coordinates(FindCall(old(store.calls), callId).value.lat, FindCall(old(store.calls), callId).value.lon))
    ensures r.Err? ==> r.error == Internal && store.teams == old(store.teams)
    ensures callId < 0 ==> r.Err? && store.calls == old(store.calls)
    ensures FindCall(old(store.calls), callId).Some? && ValidCallModel(FindCall(old(store.calls), callId).value) ==>
      (r.Ok? <==> TeamOfCall(FindCall(old(store.calls), callId).value, old(store.teams)).Some?)
    ensures r.Ok? ==> r.value == FindCall(old(store.calls), callId).value.(status := Completed)
    ensures r.Ok? ==> |store.teams| == |old(store.teams)|
    ensures r.Ok? ==> forall i :: 0 <= i < |store.teams| ==>
      store.teams[i] == if old(store.teams)[i].id == r.value.teamId.value
                        then old(store.teams)[i].(lat := r.value.lat, lon := r.value.lon)
                        else old(store.teams)[i]
  {
    var u := CallUpdate(Some(Completed), None);
    var before := FindCall(store.calls, callId);
    if before.Some? {
      FindCallAfterUpdate(store.calls, callId, u);
      if ValidCallModel(before.value) {
        CallSiteIsValidTeamPosition(before.value);
      }
    }
    store.UpdateCall(callId, u);
    NotificationService.NotifyUsers(store, IdsWithRole(store.users, Dispatcher), Success, CompletedText(callId));
    var call := FindCall(store.calls, callId);
    if call.None? {
      return Err(Internal);
    }
    var team := TeamOfCall(call.value, store.teams);
    if team.None? {
      return Err(Internal);
    }
    var site := Coordinates(call.value.lat, call.value.lon);
    if !ValidCoordinates(site) {
      return Err(Internal);
    }
    var moved := TeamService.MoveTeam(store, team.value.id, site);
    return Ok(call.value);
  }

  /** The car of the troubled call's team, as loaded together with the call. */
  function CarOfCall(c: Call, teams: seq<Team>, cars: seq<Car>): (r: Option<Car>)
    ensures r.Some? ==> TeamOfCall(c, teams).Some? && r == FindCar(cars, TeamOfCall(c, teams).value.carId)
    ensures TeamOfCall(c, teams).Some? && FindCar(cars, TeamOfCall(c, teams).value.carId).Some? ==> r.Some?
  {
    match TeamOfCall(c, teams)
    case Some(t) => FindCar(cars, t.carId)
    case None => None
  }

  /**
   * Whether a CAR_BROKEN report gets through the car update: the car exists,
   * its number passes the update schema, and the update is not refused as a
   * repeat because the car is already out of service.
   */
  predicate CarBreakdownRecorded(c: Call, teams: seq<Team>, cars: seq<Car>)
  {
    match CarOfCall(c, teams, cars)
    case Some(car) => IsCarNumber(car.number) && car.status
    case None => false
  }

  /**
   * The CAR_BROKEN part of `trouble_call`: the car of the call's team is put
   * out of service with its number kept, through the car service, and every
   * admin gets a TROUBLE notice "Автомобиль <number> сломан". A missing team
   * or car, or a number the update schema refuses, fails before any change; a
   * car already out of service is refused by the car service as a repeat.
   */
  method BreakCar(store: Store, call: Call) returns (r: Result<()>)
    requires store.Valid()
    modifies store`cars, store`notifications, store`nextNotificationId
    ensures store.Valid()
    ensures r.Ok? <==> CarBreakdownRecorded(call, store.teams, old(store.cars))
    ensures r.Err? ==> unchanged(store)
    ensures r.Err? ==>
      var car := CarOfCall(call, store.teams, old(store.cars));
      r.error == if car.Some? && IsCarNumber(car.value.number) then CarAlreadyExists else Internal
    ensures r.Ok? ==>
      var car := CarOfCall(call, store.teams, old(store.cars)).value;
      var admins := IdsWithRole(store.users, Admin);
      && store.cars == UpdateCars(old(store.cars), car.id, CarUpdate(Some(car.number), Some(false), None))
      && store.notifications == old(store.notifications) +
           NotificationService.Batch(old(store.nextNotificationId), admins, Trouble, CarBrokenText(car.number))
      && store.nextNotificationId == old(store.nextNotificationId) + |admins|
  {
    var car := CarOfCall(call, store.teams, store.cars);
    if car.None? {
      return Err(Internal);
    }
    var body := CarUpdateRequest(car.value.number, false);
    if !ValidCarUpdate(body) {
      return Err(Internal);
    }
    assert FindCar(store.cars, car.value.id) == car;
    var updated := CarService.UpdateCar(store, car.value.id, body);
    if updated.Err? {
      return Err(updated.error);
    }
    NotificationService.NotifyUsers(store, IdsWithRole(store.users, Admin), Trouble, CarBrokenText(car.value.number));
    return Ok(());
  }

  /**
   * What `trouble_call` does after resetting the call: for CAR_BROKEN the car
   * is put out of service as `BreakCar` states, and when that fails nothing
   * further happens; then every dispatcher gets a TROUBLE notice naming the
   * call and the kind.
   */
  method ReportTrouble(store: Store, call: Call, kind: TroubleType) returns (r: Result<()>)
    requires store.Valid()
    modifies store`cars, store`notifications, store`nextNotificationId
    ensures store.Valid()
    ensures kind != CarBroken ==>
      && r.Ok?
      && store.cars == old(store.cars)
      && store.notifications == old(store.notifications) +
           NotificationService.Batch(old(store.nextNotificationId), IdsWithRole(store.users, Dispatcher), Trouble, TroubleNoticeText(call.id, kind))
      && store.nextNotificationId == old(store.nextNotificationId) + |IdsWithRole(store.users, Dispatcher)|
    ensures kind == CarBroken ==>
      var car := CarOfCall(call, store.teams, old(store.cars));
      var admins := IdsWithRole(store.users, Admin);
      && (r.Ok? <==> CarBreakdownRecorded(call, store.teams, old(store.cars)))
      && (r.Err? ==> store.cars == old(store.cars) && store.notifications == old(store.notifications))
      && (r.Err? ==> store.nextNotificationId == old(store.nextNotificationId))
      && (r.Ok? ==> store.nextNotificationId == old(store.nextNotificationId) + |admins| + |IdsWithRole(store.users, Dispatcher)|)
      && (r.Err? ==> r.error == if car.Some? && IsCarNumber(car.value.number) then CarAlreadyExists else Internal)
      && (r.Ok? ==> store.cars == UpdateCars(old(store.cars), car.value.id, CarUpdate(Some(car.value.number), Some(false), None)))
      && (r.Ok? ==> (store.notifications == old(store.notifications)
            + NotificationService.Batch(old(store.nextNotificationId), admins, Trouble, CarBrokenText(car.value.number))
            + NotificationService.Batch(old(store.nextNotificationId) + |admins|, IdsWithRole(store.users, Dispatcher),
                                        Trouble, TroubleNoticeText(call.id, kind))))
  {
    if kind == CarBroken {
      var broken := BreakCar(store, call);
      if broken.Err? {
        return Err(broken.error);
      }
    }
    NotificationService.NotifyUsers(store, IdsWithRole(store.users, Dispatcher), Trouble, TroubleNoticeText(call.id, kind));
    return Ok(());
  }

  /**
   * `trouble_call`: CallNotFound, before any change, for an unknown id.
   * Otherwise the call goes back to NEW with no team, and then the trouble is
   * reported as `ReportTrouble` states. When the car cannot be put out of
   * service the call has already been reset and the dispatchers are not
   * notified.
   */
  method TroubleCall(store: Store, callId: nat, kind: TroubleType) returns (r: Result<Call>)
    requires store.Valid()
    modifies store`calls, store`cars, store`notifications, store`nextNotificationId
    ensures store.Valid()
    ensures FindCall(old(store.calls), callId).None? ==> r == Err(CallNotFound) && unchanged(store)
    ensures FindCall(old(store.calls), callId).Some? ==>
      store.calls == UpdateCalls(old(store.calls), callId, CallUpdate(Some(New), Some(None)))
    ensures r.Ok? ==> r.value == FindCall(old(store.calls), callId).value.(status := New, teamId := None)
    ensures r.Ok? ==> FindCall(store.calls, callId) == Some(r.value)
    ensures FindCall(old(store.calls), callId).Some? && kind != CarBroken ==>
      && r.Ok?
      && store.cars == old(store.cars)
      && store.notifications == old(store.notifications) +
           NotificationService.Batch(old(store.nextNotificationId), IdsWithRole(store.users, Dispatcher), Trouble, TroubleNoticeText(callId, kind))
      && store.nextNotificationId == old(store.nextNotificationId) + |IdsWithRole(store.users, Dispatcher)|
    ensures FindCall(old(store.calls), callId).Some? && kind == CarBroken ==>
      var call := FindCall(old(store.calls), callId).value;
      var car := CarOfCall(call, store.teams, old(store.cars));
      var admins := IdsWithRole(store.users, Admin);
      && (r.Ok? <==> CarBreakdownRecorded(call, store.teams, old(store.cars)))
      && (r.Err? ==> store.cars == old(store.cars) && store.notifications == old(store.notifications))
      && (r.Err? ==> store.nextNotificationId == old(store.nextNotificationId))
      && (r.Ok? ==> store.nextNotificationId == old(store.nextNotificationId) + |admins| + |IdsWithRole(store.users, Dispatcher)|)
      && (r.Err? ==> r.error == if car.Some? && IsCarNumber(car.value.number) then CarAlreadyExists else Internal)
      && (r.Ok? ==> store.cars == UpdateCars(old(store.cars), car.value.id, CarUpdate(Some(car.value.number), Some(false), None)))
      && (r.Ok? ==> (store.notifications == old(store.notifications)
            + NotificationService.Batch(old(store.nextNotificationId), admins, Trouble, CarBrokenText(car.value.number))
            + NotificationService.Batch(old(store.nextNotificationId) + |admins|, IdsWithRole(store.users, Dispatcher),
                                        Trouble, TroubleNoticeText(callId, kind))))
  {
    var found := FindCall(store.calls, callId);
    if found.None? {
      return Err(CallNotFound);
    }
    assert found.value.id == callId by {
      var k := FirstIndex(store.calls, (c: Call) => c.id == callId);
    }
    var u := CallUpdate(Some(New), Some(None));
    FindCallAfterUpdate(store.calls, callId, u);
    store.UpdateCall(callId, u);
    var reported := ReportTrouble(store, found.value, kind);
    if reported.Err? {
      return Err(reported.error);
    }
    return Ok(FindCall(store.calls, callId).value);
  }
}
