/**
 * Users: dispatchers, workers and admins. A worker is busy while a live team
 * names them; users are deleted for real, not flagged.
 */
module UserService {
  import opened Collections
  import opened Domain
  import opened Schemas
  import opened Persistence
  import TeamService

  /** A live team names the user as one of its three workers. */
  ghost predicate InLiveTeam(id: nat, teams: seq<Team>)
  {
    exists t :: t in teams && !t.isDeleted && IsWorkerOf(id, t)
  }

  /** `__get_busy_workers`: the three worker ids of every live team, gathered into a set. */
  method BusyWorkers(teams: seq<Team>) returns (busy: set<nat>)
    ensures forall id :: id in busy <==> InLiveTeam(id, teams)
  {
    var live := TeamService.GetTeams(teams);
    busy := {};
    for i := 0 to |live|
      invariant forall id :: id in busy <==> exists j :: 0 <= j < i && IsWorkerOf(id, live[j])
    {
      busy := busy + {live[i].worker1Id, live[i].worker2Id, live[i].worker3Id};
    }
    forall id ensures id in busy <==> InLiveTeam(id, teams) {
      if id in busy {
        var j :| 0 <= j < |live| && IsWorkerOf(id, live[j]);
        assert live[j] in live;
      }
      if InLiveTeam(id, teams) {
        var t :| t in teams && !t.isDeleted && IsWorkerOf(id, t);
        assert t in live;
        var j :| 0 <= j < |live| && live[j] == t;
      }
    }
  }

  /** `get_free_workers`: the users with the worker role that no live team names, in stored order. */
  method GetFreeWorkers(users: seq<User>, teams: seq<Team>) returns (r: seq<User>)
    ensures forall u :: u in r <==> u in users && u.role == Worker && !InLiveTeam(u.id, teams)
    ensures IsSubseq(r, users)
  {
    var busy := BusyWorkers(teams);
    r := Filter(users, (u: User) => u.role == Worker && u.id !in busy);
  }

  /** No two users share a login. */
  predicate LoginsUnique(users: seq<User>)
  {
    forall i, j :: 0 <= i < j < |users| ==> users[i].login != users[j].login
  }

  /**
   * `add_user`: UserAlreadyExists, and nothing stored, when the login is taken;
   * otherwise one user is stored with the login, role and names of the draft
   * and the hash of its password in place of the password. Adding keeps
   * logins unique. The hash is a parameter.
   */
  method AddUser(store: Store, d: UserDraft, hash: string -> string) returns (r: Result<User>)
    requires store.Valid()
    modifies store`users, store`nextUserId
    ensures store.Valid()
    ensures r.Err? <==> exists u :: u in old(store.users) && u.login == d.login
    ensures r.Err? ==> r.error == UserAlreadyExists && store.users == old(store.users) && store.nextUserId == old(store.nextUserId)
    ensures r.Ok? ==> r.value == User(old(store.nextUserId), d.login, hash(d.password), d.role, d.name, d.surname, d.patronym)
    ensures r.Ok? ==> store.users == old(store.users) + [r.value] && store.nextUserId == old(store.nextUserId) + 1
    ensures LoginsUnique(old(store.users)) ==> LoginsUnique(store.users)
  {
    var found := Filter(store.users, (u: User) => u.login == d.login);
    if found != [] {
      assert found[0] in found;
      return Err(UserAlreadyExists);
    }
    var u := store.CreateUser(d.login, hash(d.password), d.role, d.name, d.surname, d.patronym);
    return Ok(u);
  }

  /**
   * `delete_user`: UserNotFound for an unknown id, WorkerBusy for a worker a
   * live team names; anyone else is removed from the table.
   */
  method DeleteUser(store: Store, id: nat) returns (r: Result<()>)
    requires store.Valid()
    modifies store`users
    ensures store.Valid()
    ensures FindUser(old(store.users), id).None? ==> r == Err(UserNotFound)
    ensures FindUser(old(store.users), id).Some? ==>
      (r.Err? <==> FindUser(old(store.users), id).value.role == Worker && InLiveTeam(id, store.teams))
    ensures r.Err? ==> store.users == old(store.users)
    ensures r.Err? && FindUser(old(store.users), id).Some? ==> r.error == WorkerBusy
    ensures r.Ok? ==> store.users == DeleteUsers(old(store.users), id)
    ensures r.Ok? ==> FindUser(store.users, id).None?
  {
    var user := FindUser(store.users, id);
    if user.None? {
      return Err(UserNotFound);
    }
    if user.value.role == Worker {
      var busy := BusyWorkers(store.teams);
      if user.value.id in busy {
        return Err(WorkerBusy);
      }
    }
    FindUserAfterDelete(store.users, id);
    store.DeleteUser(id);
    return Ok(());
  }

  /**
   * `update_user`: UserNotFound for an unknown id; otherwise the three name
   * fields are written and the user is read back. Login, password and role
   * cannot change.
   */
  method UpdateUser(store: Store, id: nat, body: UserUpdate) returns (r: Result<User>)
    requires store.Valid()
    modifies store`users
    ensures store.Valid()
    ensures r.Err? <==> FindUser(old(store.users), id).None?
    ensures r.Err? ==> r.error == UserNotFound && store.users == old(store.users)
    ensures r.Ok? ==> r.value == FindUser(old(store.users), id).value.(name := body.name, surname := body.surname, patronym := body.patronym)
    ensures |store.users| == |old(store.users)|
    ensures forall i :: 0 <= i < |store.users| ==>
      && store.users[i].id == old(store.users)[i].id
      && store.users[i].login == old(store.users)[i].login
      && store.users[i].password == old(store.users)[i].password
      && store.users[i].role == old(store.users)[i].role
      && (store.users[i].id != id ==> store.users[i] == old(store.users)[i])
  {
    var user := FindUser(store.users, id);
    if user.None? {
      return Err(UserNotFound);
    }
    FindUserAfterRename(store.users, id, body.name, body.surname, body.patronym);
    store.RenameUser(id, body.name, body.surname, body.patronym);
    return Ok(FindUser(store.users, id).value);
  }

  /** The user's notifications, in stored order. */
  function NotificationsOf(notes: seq<Notification>, id: nat): seq<Notification>
  {
    Filter(notes, (n: Notification) => n.userId == id)
  }

  /**
   * `get_user_notifications`: UserNotFound for an unknown id; otherwise exactly
   * the user's notifications, newest stored first.
   */
  function GetUserNotifications(users: seq<User>, notes: seq<Notification>, id: nat): (r: Result<seq<Notification>>)
    ensures r.Err? <==> FindUser(users, id).None?
    ensures r.Err? ==> r.error == UserNotFound
    ensures r.Ok? ==> forall n :: n in r.value <==> n in notes && n.userId == id
    ensures r.Ok? ==> Reverse(r.value) == NotificationsOf(notes, id)
  {
    if FindUser(users, id).None? then Err(UserNotFound)
    else
      var mine := NotificationsOf(notes, id);
      ReverseInvolution(mine);
      Ok(Reverse(mine))
  }
}
