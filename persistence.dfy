/**
 * The relational store the services talk to through their repositories, kept
 * in memory: one sequence of rows per table, in the order a query returns
 * them, and an id counter per table that grows the way an auto-increment
 * key does. Lookups, partial-field updates, creation and deletion mirror the
 * repository's `get_by_id` (first match), `update(id, **fields)` (every row
 * with that id), `create` and `delete`.
 */
module Persistence {
  import opened Collections
  import opened Domain

  // ----- lookups -----

  function FindCall(calls: seq<Call>, id: int): Option<Call>
  {
    First(calls, (c: Call) => c.id == id)
  }

  function FindTeam(teams: seq<Team>, id: nat): Option<Team>
  {
    First(teams, (t: Team) => t.id == id)
  }

  function FindCar(cars: seq<Car>, id: nat): Option<Car>
  {
    First(cars, (c: Car) => c.id == id)
  }

  function FindUser(users: seq<User>, id: nat): Option<User>
  {
    First(users, (u: User) => u.id == id)
  }

  function FindPatient(patients: seq<Patient>, id: nat): Option<Patient>
  {
    First(patients, (p: Patient) => p.id == id)
  }

  /** The ids of the users with a role, in stored order (`get_users_by_filters(role=...)`). */
  function IdsWithRole(users: seq<User>, role: UserRole): (ids: seq<nat>)
    ensures |ids| <= |users|
    ensures forall id :: id in ids <==> exists u :: u in users && u.role == role && u.id == id
    decreases |users|
  {
    if users == [] then []
    else
      assert users == [users[0]] + users[1..];
      (if users[0].role == role then [users[0].id] else []) + IdsWithRole(users[1..], role)
  }

  // ----- partial updates: the keyword arguments of `update(id, **fields)` -----

  /** `None` leaves a field as it is; `teamId := Some(None)` writes a null. */
  datatype CallUpdate = CallUpdate(status: Option<CallStatus>, teamId: Option<Option<nat>>)

  function ApplyCallUpdate(c: Call, u: CallUpdate): Call
  {
    c.(status := if u.status.Some? then u.status.value else c.status,
       teamId := if u.teamId.Some? then u.teamId.value else c.teamId)
  }

  function UpdateCalls(calls: seq<Call>, id: int, u: CallUpdate): seq<Call>
  {
    seq(|calls|, i requires 0 <= i < |calls| => if calls[i].id == id then ApplyCallUpdate(calls[i], u) else calls[i])
  }

  datatype TeamUpdate = TeamUpdate(lat: Option<real>, lon: Option<real>, isDeleted: Option<bool>)

  function ApplyTeamUpdate(t: Team, u: TeamUpdate): Team
  {
    t.(lat := if u.lat.Some? then u.lat.value else t.lat,
       lon := if u.lon.Some? then u.lon.value else t.lon,
       isDeleted := if u.isDeleted.Some? then u.isDeleted.value else t.isDeleted)
  }

  function UpdateTeams(teams: seq<Team>, id: nat, u: TeamUpdate): seq<Team>
  {
    seq(|teams|, i requires 0 <= i < |teams| => if teams[i].id == id then ApplyTeamUpdate(teams[i], u) else teams[i])
  }

  datatype CarUpdate = CarUpdate(number: Option<string>, status: Option<bool>, isDeleted: Option<bool>)

  function ApplyCarUpdate(c: Car, u: CarUpdate): Car
  {
    c.(number := if u.number.Some? then u.number.value else c.number,
       status := if u.status.Some? then u.status.value else c.status,
       isDeleted := if u.isDeleted.Some? then u.isDeleted.value else c.isDeleted)
  }

  function UpdateCars(cars: seq<Car>, id: nat, u: CarUpdate): seq<Car>
  {
    seq(|cars|, i requires 0 <= i < |cars| => if cars[i].id == id then ApplyCarUpdate(cars[i], u) else cars[i])
  }

  /** `delete(id)`: the rows with that id go, the others keep their order. */
  function DeleteUsers(users: seq<User>, id: nat): seq<User>
  {
    Filter(users, (u: User) => u.id != id)
  }

  /** The only user update the services issue writes the three name fields. */
  function RenameUsers(users: seq<User>, id: nat, name: string, surname: string, patronym: string): seq<User>
  {
    seq(|users|, i requires 0 <= i < |users| =>
      if users[i].id == id then users[i].(name := name, surname := surname, patronym := patronym) else users[i])
  }

  // ----- reading a row back after an update -----

  /** `get_by_id` after `update` returns the stored row with the update applied. */
  lemma FindCallAfterUpdate(calls: seq<Call>, id: int, u: CallUpdate)
    requires FindCall(calls, id).Some?
    ensures FindCall(UpdateCalls(calls, id, u), id) == Some(ApplyCallUpdate(FindCall(calls, id).value, u))
  {
    var k := FirstIndex(calls, (c: Call) => c.id == id);
    var after := UpdateCalls(calls, id, u);
    assert forall j :: 0 <= j < k ==> after[j].id != id;
    assert after[k] == ApplyCallUpdate(calls[k], u);
  }

  lemma FindTeamAfterUpdate(teams: seq<Team>, id: nat, u: TeamUpdate)
    requires FindTeam(teams, id).Some?
    ensures FindTeam(UpdateTeams(teams, id, u), id) == Some(ApplyTeamUpdate(FindTeam(teams, id).value, u))
  {
    var k := FirstIndex(teams, (t: Team) => t.id == id);
    var after := UpdateTeams(teams, id, u);
    assert forall j :: 0 <= j < k ==> after[j].id != id;
    assert after[k] == ApplyTeamUpdate(teams[k], u);
  }

  lemma FindCarAfterUpdate(cars: seq<Car>, id: nat, u: CarUpdate)
    requires FindCar(cars, id).Some?
    ensures FindCar(UpdateCars(cars, id, u), id) == Some(ApplyCarUpdate(FindCar(cars, id).value, u))
  {
    var k := FirstIndex(cars, (c: Car) => c.id == id);
    var after := UpdateCars(cars, id, u);
    assert forall j :: 0 <= j < k ==> after[j].id != id;
    assert after[k] == ApplyCarUpdate(cars[k], u);
  }

  lemma FindUserAfterRename(users: seq<User>, id: nat, name: string, surname: string, patronym: string)
    requires FindUser(users, id).Some?
    ensures FindUser(RenameUsers(users, id, name, surname, patronym), id)
         == Some(FindUser(users, id).value.(name := name, surname := surname, patronym := patronym))
  {
    var k := FirstIndex(users, (x: User) => x.id == id);
    var after := RenameUsers(users, id, name, surname, patronym);
    assert forall j :: 0 <= j < k ==> after[j].id != id;
    assert after[k] == users[k].(name := name, surname := surname, patronym := patronym);
  }

  /** After `delete(id)` no row with that id is left. */
  lemma FindUserAfterDelete(users: seq<User>, id: nat)
    ensures FindUser(DeleteUsers(users, id), id).None?
  {
    var after := DeleteUsers(users, id);
    forall i | 0 <= i < |after| ensures after[i].id != id {
      assert after[i] in after;
    }
  }

  // ----- primary keys -----

  /** Every id differs from every other and lies below the next id to hand out. */
  ghost predicate KeysBelow(ids: seq<nat>, next: nat)
  {
    && (forall i, j :: 0 <= i < j < |ids| ==> ids[i] != ids[j])
    && (forall i :: 0 <= i < |ids| ==> ids[i] < next)
  }

  function CallIds(calls: seq<Call>): seq<nat>
  {
    seq(|calls|, i requires 0 <= i < |calls| => calls[i].id)
  }

  function TeamIds(teams: seq<Team>): seq<nat>
  {
    seq(|teams|, i requires 0 <= i < |teams| => teams[i].id)
  }

  function CarIds(cars: seq<Car>): seq<nat>
  {
    seq(|cars|, i requires 0 <= i < |cars| => cars[i].id)
  }

  function UserIds(users: seq<User>): seq<nat>
  {
    seq(|users|, i requires 0 <= i < |users| => users[i].id)
  }

  function PatientIds(patients: seq<Patient>): seq<nat>
  {
    seq(|patients|, i requires 0 <= i < |patients| => patients[i].id)
  }

  function NotificationIds(notes: seq<Notification>): seq<nat>
  {
    seq(|notes|, i requires 0 <= i < |notes| => notes[i].id)
  }

  /** A key handed out by the counter keeps the table's keys unique. */
  lemma KeysBelowAppend(ids: seq<nat>, next: nat)
    requires KeysBelow(ids, next)
    ensures KeysBelow(ids + [next], next + 1)
  {
  }

  lemma KeysBelowCons(x: User, r: seq<User>, next: nat)
    requires KeysBelow(UserIds(r), next) && x.id < next
    requires forall y :: y in r ==> y.id != x.id
    ensures KeysBelow(UserIds([x] + r), next)
  {
    var ids := UserIds([x] + r);
    assert forall j :: 0 < j < |ids| ==> ids[j] == UserIds(r)[j - 1] && r[j - 1] in r;
  }

  /** Deleting the rows with one id keeps the remaining users' keys unique. */
  lemma {:induction false} KeysBelowDeleteUser(users: seq<User>, id: nat, next: nat)
    requires KeysBelow(UserIds(users), next)
    ensures KeysBelow(UserIds(DeleteUsers(users, id)), next)
    decreases |users|
  {
    if users != [] {
      var rest := users[1..];
      assert forall i :: 0 <= i < |rest| ==> UserIds(rest)[i] == UserIds(users)[i + 1];
      KeysBelowDeleteUser(rest, id, next);
      var r := DeleteUsers(rest, id);
      assert forall y :: y in r ==> y in rest;
      if users[0].id != id {
        assert DeleteUsers(users, id) == [users[0]] + r;
        assert UserIds(users)[0] == users[0].id;
        assert forall k :: 0 <= k < |rest| ==> rest[k].id == UserIds(users)[k + 1];
        assert forall k :: 0 <= k < |rest| ==> rest[k].id != users[0].id;
        KeysBelowCons(users[0], r, next);
      } else {
        assert DeleteUsers(users, id) == r;
      }
    }
  }

  /**
   * The tables of the dispatch backend. Methods here are the repository
   * operations; each touches one table and the counter that goes with it.
   */
  class Store {
    var calls: seq<Call>
    var teams: seq<Team>
    var cars: seq<Car>
    var users: seq<User>
    var patients: seq<Patient>
    var notifications: seq<Notification>

    var nextCallId: nat
    var nextTeamId: nat
    var nextCarId: nat
    var nextUserId: nat
    var nextNotificationId: nat

    /** Primary keys are unique in every table and below their counter. */
    ghost predicate Valid()
      reads this
    {
      && KeysBelow(CallIds(calls), nextCallId)
      && KeysBelow(TeamIds(teams), nextTeamId)
      && KeysBelow(CarIds(cars), nextCarId)
      && KeysBelow(UserIds(users), nextUserId)
      && (forall i, j :: 0 <= i < j < |patients| ==> patients[i].id != patients[j].id)
      && KeysBelow(NotificationIds(notifications), nextNotificationId)
    }

    constructor ()
      ensures Valid()
      ensures calls == [] && teams == [] && cars == [] && users == [] && patients == [] && notifications == []
      ensures nextCallId == 1 && nextTeamId == 1 && nextCarId == 1 && nextUserId == 1 && nextNotificationId == 1
    {
      calls, teams, cars, users, patients, notifications := [], [], [], [], [], [];
      nextCallId, nextTeamId, nextCarId, nextUserId, nextNotificationId := 1, 1, 1, 1, 1;
    }

    method CreateCall(d: CallDraft) returns (c: Call)
      requires Valid()
      modifies this`calls, this`nextCallId
      ensures Valid()
      ensures c == CallFromDraft(old(nextCallId), d)
      ensures calls == old(calls) + [c] && nextCallId == old(nextCallId) + 1
    {
      c := CallFromDraft(nextCallId, d);
      assert CallIds(calls + [c]) == CallIds(calls) + [nextCallId];
      KeysBelowAppend(CallIds(calls), nextCallId);
      calls := calls + [c];
      nextCallId := nextCallId + 1;
    }

    method UpdateCall(id: int, u: CallUpdate)
      requires Valid()
      modifies this`calls
      ensures Valid()
      ensures calls == UpdateCalls(old(calls), id, u)
    {
      assert CallIds(UpdateCalls(calls, id, u)) == CallIds(calls);
      calls := UpdateCalls(calls, id, u);
    }

    method CreateTeam(worker1Id: nat, worker2Id: nat, worker3Id: nat, carId: nat) returns (t: Team)
      requires Valid()
      modifies this`teams, this`nextTeamId
      ensures Valid()
      ensures t == Team(old(nextTeamId), worker1Id, worker2Id, worker3Id, carId, DefaultTeamLat, DefaultTeamLon, false)
      ensures teams == old(teams) + [t] && nextTeamId == old(nextTeamId) + 1
    {
      t := Team(nextTeamId, worker1Id, worker2Id, worker3Id, carId, DefaultTeamLat, DefaultTeamLon, false);
      assert TeamIds(teams + [t]) == TeamIds(teams) + [nextTeamId];
      KeysBelowAppend(TeamIds(teams), nextTeamId);
      teams := teams + [t];
      nextTeamId := nextTeamId + 1;
    }

    method UpdateTeam(id: nat, u: TeamUpdate)
      requires Valid()
      modifies this`teams
      ensures Valid()
      ensures teams == UpdateTeams(old(teams), id, u)
    {
      assert TeamIds(UpdateTeams(teams, id, u)) == TeamIds(teams);
      teams := UpdateTeams(teams, id, u);
    }

    method CreateCar(number: string) returns (c: Car)
      requires Valid()
      modifies this`cars, this`nextCarId
      ensures Valid()
      ensures c == Car(old(nextCarId), number, DefaultCarStatus, false)
      ensures cars == old(cars) + [c] && nextCarId == old(nextCarId) + 1
    {
      c := Car(nextCarId, number, DefaultCarStatus, false);
      assert CarIds(cars + [c]) == CarIds(cars) + [nextCarId];
      KeysBelowAppend(CarIds(cars), nextCarId);
      cars := cars + [c];
      nextCarId := nextCarId + 1;
    }

    method UpdateCar(id: nat, u: CarUpdate)
      requires Valid()
      modifies this`cars
      ensures Valid()
      ensures cars == UpdateCars(old(cars), id, u)
    {
      assert CarIds(UpdateCars(cars, id, u)) == CarIds(cars);
      cars := UpdateCars(cars, id, u);
    }

    method CreateUser(login: string, password: string, role: UserRole, name: string, surname: string, patronym: string)
      returns (u: User)
      requires Valid()
      modifies this`users, this`nextUserId
      ensures Valid()
      ensures u == User(old(nextUserId), login, password, role, name, surname, patronym)
      ensures users == old(users) + [u] && nextUserId == old(nextUserId) + 1
    {
      u := User(nextUserId, login, password, role, name, surname, patronym);
      assert UserIds(users + [u]) == UserIds(users) + [nextUserId];
      KeysBelowAppend(UserIds(users), nextUserId);
      users := users + [u];
      nextUserId := nextUserId + 1;
    }

    method RenameUser(id: nat, name: string, surname: string, patronym: string)
      requires Valid()
      modifies this`users
      ensures Valid()
      ensures users == RenameUsers(old(users), id, name, surname, patronym)
    {
      assert UserIds(RenameUsers(users, id, name, surname, patronym)) == UserIds(users);
      users := RenameUsers(users, id, name, surname, patronym);
    }

    method DeleteUser(id: nat)
      requires Valid()
      modifies this`users
      ensures Valid()
      ensures users == DeleteUsers(old(users), id)
    {
      KeysBelowDeleteUser(users, id, nextUserId);
      users := DeleteUsers(users, id);
    }

    method CreateNotification(kind: NotificationType, text: string, userId: nat) returns (n: Notification)
      requires Valid()
      modifies this`notifications, this`nextNotificationId
      ensures Valid()
      ensures n == Notification(old(nextNotificationId), kind, text, userId)
      ensures notifications == old(notifications) + [n] && nextNotificationId == old(nextNotificationId) + 1
    {
      n := Notification(nextNotificationId, kind, text, userId);
      assert NotificationIds(notifications + [n]) == NotificationIds(notifications) + [nextNotificationId];
      KeysBelowAppend(NotificationIds(notifications), nextNotificationId);
      notifications := notifications + [n];
      nextNotificationId := nextNotificationId + 1;
    }
  }
}
