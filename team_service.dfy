/**
 * Teams: three workers and a car. A team is soft-deleted through its
 * `isDeleted` flag, is busy while one of its calls is accepted, and is free
 * when it is neither deleted nor busy and its car is serviceable.
 */
module TeamService {
  import opened Collections
  import opened Domain
  import opened Schemas
  import opened Persistence

  /** `get_teams`: the teams that are not soft-deleted, in stored order. */
  function GetTeams(teams: seq<Team>): (r: seq<Team>)
    ensures forall t :: t in r <==> t in teams && !t.isDeleted
    ensures IsSubseq(r, teams)
  {
    Filter(teams, (t: Team) => !t.isDeleted)
  }

  /** A team is busy while some call assigned to it is accepted. */
  predicate IsBusy(t: Team, calls: seq<Call>)
  {
    exists c :: c in calls && c.teamId == Some(t.id) && c.status == Accepted
  }

  /** The team's car is serviceable (a team whose car row is missing has none). */
  predicate CarServiceable(t: Team, cars: seq<Car>)
  {
    match FindCar(cars, t.carId)
    case Some(car) => car.status
    case None => false
  }

  /** The car row of every team the listing reaches exists: a live team with no accepted call. */
  predicate CarsResolve(teams: seq<Team>, calls: seq<Call>, cars: seq<Car>)
  {
    forall t :: t in teams && !t.isDeleted && !IsBusy(t, calls) ==> FindCar(cars, t.carId).Some?
  }

  /**
   * `get_free_teams`: the live teams with no accepted call whose car is
   * serviceable, in stored order. The car is read only for a team that is not
   * busy, and a missing car row there is an error.
   */
  function GetFreeTeams(teams: seq<Team>, calls: seq<Call>, cars: seq<Car>): (r: Result<seq<Team>>)
    ensures r.Ok? <==> CarsResolve(teams, calls, cars)
    ensures r.Err? ==> r.error == Internal
    ensures r.Ok? ==> forall t :: t in r.value <==> t in teams && !t.isDeleted && !IsBusy(t, calls) && CarServiceable(t, cars)
    ensures r.Ok? ==> forall t :: t in r.value ==> t in GetTeams(teams)
    ensures r.Ok? ==> IsSubseq(r.value, teams)
  {
    if CarsResolve(teams, calls, cars) then
      Ok(Filter(teams, (t: Team) => !t.isDeleted && !IsBusy(t, calls) && CarServiceable(t, cars)))
    else
      Err(Internal)
  }

  /**
   * A worker as "Surname N. P.": the surname, a space, the first letter of the
   * name, ". ", the first letter of the patronym and ".". The source indexes the
   * first letters, so an empty name or patronym is an error (`None` here).
   */
  function Fio(u: User): (r: Option<string>)
    ensures r.Some? <==> |u.name| > 0 && |u.patronym| > 0
    ensures r.Some? ==> |r.value| == |u.surname| + 6
    ensures r.Some? ==> r.value[..|u.surname|] == u.surname
    ensures r.Some? ==> r.value[|u.surname| + 1] == u.name[0] && r.value[|u.surname| + 4] == u.patronym[0]
    ensures r.Some? ==> r.value[|u.surname|] == ' ' && r.value[|u.surname| + 2..|u.surname| + 4] == ". " && r.value[|u.surname| + 5] == '.'
  {
    if |u.name| == 0 || |u.patronym| == 0 then None
    else Some(u.surname + " " + [u.name[0]] + ". " + [u.patronym[0]] + ".")
  }

  /** Any user the user schema admits has initials that fit the listing schema's 3..150 characters. */
  lemma FioFitsListing(u: User)
    requires ValidNames(u.name, u.surname, u.patronym)
    ensures Fio(u).Some? && LengthIn(Fio(u).value, 3, 150)
  {
  }

  function WorkerFio(users: seq<User>, id: nat): Option<string>
  {
    match FindUser(users, id)
    case Some(u) => Fio(u)
    case None => None
  }

  /**
   * One entry of the team listing. Every way it can fail — a worker or car row
   * missing, a name without a first letter, an entry the listing schema
   * refuses — is an unhandled exception in the source.
   */
  function TeamInfo(t: Team, users: seq<User>, cars: seq<Car>, calls: seq<Call>): (r: Result<TeamFullInfo>)
    ensures r.Err? ==> r.error == Internal
    ensures r.Ok? ==> r.value.id == t.id && ValidTeamFullInfo(r.value)
    ensures r.Ok? ==> (r.value.isBusy <==> IsBusy(t, calls))
    ensures r.Ok? ==> FindCar(cars, t.carId).Some? && FindCar(cars, t.carId).value.number == r.value.carNumber
    ensures r.Ok? ==> (Some(r.value.worker1Fio) == WorkerFio(users, t.worker1Id)
                    && Some(r.value.worker2Fio) == WorkerFio(users, t.worker2Id)
                    && Some(r.value.worker3Fio) == WorkerFio(users, t.worker3Id))
  {
    var f1, f2, f3 := WorkerFio(users, t.worker1Id), WorkerFio(users, t.worker2Id), WorkerFio(users, t.worker3Id);
    var car := FindCar(cars, t.carId);
    if f1.None? || f2.None? || f3.None? || car.None? then Err(Internal)
    else
      var info := TeamFullInfo(t.id, f1.value, f2.value, f3.value, car.value.number, IsBusy(t, calls));
      if ValidTeamFullInfo(info) then Ok(info) else Err(Internal)
  }

  /** `get_full_info_teams`: one listing entry per live team, in order; any failing entry fails the whole listing. */
  method GetFullInfoTeams(teams: seq<Team>, users: seq<User>, cars: seq<Car>, calls: seq<Call>)
    returns (r: Result<seq<TeamFullInfo>>)
    ensures r.Ok? <==> forall i :: 0 <= i < |GetTeams(teams)| ==> TeamInfo(GetTeams(teams)[i], users, cars, calls).Ok?
    ensures r.Err? ==> r.error == Internal
    ensures r.Ok? ==> |r.value| == |GetTeams(teams)|
    ensures r.Ok? ==> forall i :: 0 <= i < |r.value| ==>
      TeamInfo(GetTeams(teams)[i], users, cars, calls) == Ok(r.value[i])
  {
    r := CollectAll(GetTeams(teams), (t: Team) => TeamInfo(t, users, cars, calls));
  }

  /** A live team that has the user among its three workers. */
  predicate LiveMember(t: Team, userId: nat)
  {
    !t.isDeleted && IsWorkerOf(userId, t)
  }

  /** `get_team_by_user_id`: the first live team with the user as a worker, else TeamNotFound. */
  function GetTeamByUserId(teams: seq<Team>, userId: nat): (r: Result<Team>)
    ensures r.Err? <==> forall i :: 0 <= i < |teams| ==> !LiveMember(teams[i], userId)
    ensures r.Err? ==> r.error == TeamNotFound
    ensures r.Ok? ==> exists k :: 0 <= k < |teams| && teams[k] == r.value && LiveMember(teams[k], userId) &&
                                 forall j :: 0 <= j < k ==> !LiveMember(teams[j], userId)
  {
    var k := FirstIndex(teams, (t: Team) => LiveMember(t, userId));
    if k < |teams| then Ok(teams[k]) else Err(TeamNotFound)
  }

  /** The three workers and the car a new team names exist; otherwise the database refuses the insert. */
  predicate TeamRefsResolve(users: seq<User>, cars: seq<Car>, worker1Id: nat, worker2Id: nat, worker3Id: nat, carId: nat)
  {
    && FindUser(users, worker1Id).Some? && FindUser(users, worker2Id).Some? && FindUser(users, worker3Id).Some?
    && FindCar(cars, carId).Some?
  }

  /**
   * `add_team`: a new team stands at the default position and is not
   * deleted. A worker or car id with no row fails and stores nothing.
   */
  method AddTeam(store: Store, worker1Id: nat, worker2Id: nat, worker3Id: nat, carId: nat) returns (r: Result<Team>)
    requires store.Valid()
    modifies store`teams, store`nextTeamId
    ensures store.Valid()
    ensures r.Ok? <==> TeamRefsResolve(store.users, store.cars, worker1Id, worker2Id, worker3Id, carId)
    ensures r.Err? ==> r.error == Internal && unchanged(store)
    ensures r.Ok? ==> r.value.id == old(store.nextTeamId) && !r.value.isDeleted
    ensures r.Ok? ==> r.value.worker1Id == worker1Id && r.value.worker2Id == worker2Id && r.value.worker3Id == worker3Id && r.value.carId == carId
    ensures r.Ok? ==> r.value.lat == DefaultTeamLat && r.value.lon == DefaultTeamLon
    ensures r.Ok? ==> store.teams == old(store.teams) + [r.value] && store.nextTeamId == old(store.nextTeamId) + 1
  {
    if !TeamRefsResolve(store.users, store.cars, worker1Id, worker2Id, worker3Id, carId) {
      return Err(Internal);
    }
    var t := store.CreateTeam(worker1Id, worker2Id, worker3Id, carId);
    return Ok(t);
  }

  /**
   * `move_team`: TeamNotFound for an unknown id; otherwise the team's rows get
   * the new latitude and longitude and nothing else changes.
   */
  method MoveTeam(store: Store, teamId: nat, to: Coordinates) returns (r: Result<Team>)
    requires store.Valid()
    requires ValidCoordinates(to)
    modifies store`teams
    ensures store.Valid()
    ensures r.Err? <==> FindTeam(old(store.teams), teamId).None?
    ensures r.Err? ==> r.error == TeamNotFound && store.teams == old(store.teams)
    ensures r.Ok? ==> r.value == FindTeam(old(store.teams), teamId).value.(lat := to.lat, lon := to.lon)
    ensures |store.teams| == |old(store.teams)|
    ensures forall i :: 0 <= i < |store.teams| ==>
      store.teams[i] == if old(store.teams)[i].id == teamId
                        then old(store.teams)[i].(lat := to.lat, lon := to.lon)
                        else old(store.teams)[i]
  {
    var team := FindTeam(store.teams, teamId);
    if team.None? {
      return Err(TeamNotFound);
    }
    store.UpdateTeam(teamId, TeamUpdate(Some(to.lat), Some(to.lon), None));
    var k := FirstIndex(old(store.teams), (t: Team) => t.id == teamId);
    assert store.teams[k] == old(store.teams)[k].(lat := to.lat, lon := to.lon);
    assert FindTeam(store.teams, teamId) == Some(store.teams[k]) by {
      assert forall j :: 0 <= j < k ==> store.teams[j].id != teamId;
    }
    return Ok(FindTeam(store.teams, teamId).value);
  }

  /**
   * `delete_team`: a team with an accepted call is TeamBusy; otherwise its rows
   * are flagged deleted and stay in the table. An unknown id fails on the
   * missing row.
   */
  method DeleteTeam(store: Store, teamId: nat) returns (r: Result<()>)
    requires store.Valid()
    modifies store`teams
    ensures store.Valid()
    ensures FindTeam(old(store.teams), teamId).None? ==> r == Err(Internal)
    ensures FindTeam(old(store.teams), teamId).Some? ==>
      (r.Err? <==> IsBusy(FindTeam(old(store.teams), teamId).value, store.calls))
    ensures r.Err? ==> store.teams == old(store.teams)
    ensures r.Err? && FindTeam(old(store.teams), teamId).Some? ==> r.error == TeamBusy
    ensures r.Ok? ==> |store.teams| == |old(store.teams)|
    ensures r.Ok? ==> forall i :: 0 <= i < |store.teams| ==>
      store.teams[i] == if old(store.teams)[i].id == teamId
                        then old(store.teams)[i].(isDeleted := true)
                        else old(store.teams)[i]
  {
    var team := FindTeam(store.teams, teamId);
    if team.None? {
      return Err(Internal);
    }
    if IsBusy(team.value, store.calls) {
      return Err(TeamBusy);
    }
    store.UpdateTeam(teamId, TeamUpdate(None, None, Some(true)));
    return Ok(());
  }
}
