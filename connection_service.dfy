/**
 * The websocket connection registry: the connected dispatchers, and for the
 * workers which team each socket listens for. Messages fan out to every
 * socket of a channel, and a socket whose send fails is unregistered.
 */
module ConnectionService {
  import opened Domain
  import opened Websocket
  import TeamService

  /** A websocket connection, known only by its identity. */
  type Socket = nat

  /** `teams[t]` read through the default: a team never touched has no sockets. */
  function MembersOf(teams: map<nat, set<Socket>>, t: nat): set<Socket>
  {
    if t in teams then teams[t] else {}
  }

  /** A worker socket sits in the set of the team it is recorded under, and in no other. */
  ghost predicate SocketsAgree(workers: map<Socket, nat>, teams: map<nat, set<Socket>>)
  {
    && (forall ws :: ws in workers ==> ws in MembersOf(teams, workers[ws]))
    && (forall t, ws :: t in teams && ws in teams[t] ==> ws in workers && workers[ws] == t)
  }

  /** Unregistering some of one team's sockets, from both maps, keeps them in agreement. */
  lemma DropKeepsAgreement(workers: map<Socket, nat>, teams: map<nat, set<Socket>>, t: nat, gone: set<Socket>)
    requires SocketsAgree(workers, teams)
    requires gone <= MembersOf(teams, t)
    ensures SocketsAgree(workers - gone, teams[t := MembersOf(teams, t) - gone])
  {
  }

  class Registry {
    var dispatchers: set<Socket>
    /** socket -> team id; a default dictionary whose missing keys read as team 0 */
    var workers: map<Socket, nat>
    /** team id -> its sockets; a default dictionary whose missing keys read as the empty set */
    var teams: map<nat, set<Socket>>

    function Members(t: nat): set<Socket>
      reads this
    {
      MembersOf(teams, t)
    }

    ghost predicate Consistent()
      reads this
    {
      SocketsAgree(workers, teams)
    }

    constructor ()
      ensures dispatchers == {} && workers == map[] && teams == map[]
      ensures Consistent()
    {
      dispatchers := {};
      workers := map[];
      teams := map[];
    }

    /** `handle_connect_dispatcher` */
    method ConnectDispatcher(ws: Socket)
      modifies this`dispatchers
      ensures dispatchers == old(dispatchers) + {ws}
    {
      dispatchers := dispatchers + {ws};
    }

    /** `handle_disconnect_dispatcher`: removing a socket that is not registered is no error. */
    method DisconnectDispatcher(ws: Socket)
      modifies this`dispatchers
      ensures dispatchers == old(dispatchers) - {ws}
    {
      dispatchers := dispatchers - {ws};
    }

    /**
     * `handle_connect_worker`: the socket is recorded under the first live
     * team that has the worker, and joins that team's set. A worker without a
     * team gets TeamNotFound and nothing is registered. A socket connecting for
     * the first time keeps the registry consistent.
     */
    method ConnectWorker(ws: Socket, workerId: nat, rows: seq<Team>) returns (r: Result<()>)
      modifies this`workers, this`teams
      ensures r.Err? <==> TeamService.GetTeamByUserId(rows, workerId).Err?
      ensures r.Err? ==> r.error == TeamNotFound && workers == old(workers) && teams == old(teams)
      ensures r.Ok? ==>
        var t := TeamService.GetTeamByUserId(rows, workerId).value.id;
        workers == old(workers)[ws := t] && teams == old(teams)[t := old(Members(t)) + {ws}]
      ensures old(Consistent()) && ws !in old(workers) ==> Consistent()
    {
      var team := TeamService.GetTeamByUserId(rows, workerId);
      if team.Err? {
        return Err(team.error);
      }
      var t := team.value.id;
      workers := workers[ws := t];
      teams := teams[t := Members(t) + {ws}];
      return Ok(());
    }

    /**
     * `handle_disconnect_worker`: the socket leaves the set of the team it is
     * recorded under and its record goes. An unknown socket reads as team 0,
     * so team 0 gets an (unchanged or empty) entry and nothing fails.
     */
    method DisconnectWorker(ws: Socket)
      modifies this`workers, this`teams
      ensures var t := if ws in old(workers) then old(workers)[ws] else 0;
        teams == old(teams)[t := old(Members(t)) - {ws}]
      ensures workers == old(workers) - {ws}
      ensures old(Consistent()) ==> Consistent() && forall t :: ws !in Members(t)
    {
      var t := if ws in workers then workers[ws] else 0;
      teams := teams[t := Members(t) - {ws}];
      workers := workers - {ws};
    }

    /**
     * `notify_dispatchers`, as intended: every registered dispatcher is sent
     * the message once; those whose send fails (`failing`) are unregistered and
     * the rest stay. Returns the sockets the message reached.
     */
    method NotifyDispatchers(m: WsMessage, failing: set<Socket>) returns (delivered: set<Socket>)
      requires IsDispatcherMessage(m)
      modifies this`dispatchers
      ensures delivered == old(dispatchers) - failing
      ensures dispatchers == delivered
    {
      var pending := dispatchers;
      delivered := {};
      while pending != {}
        invariant pending <= old(dispatchers)
        invariant delivered == (old(dispatchers) - pending) - failing
        invariant dispatchers == old(dispatchers) - (old(dispatchers) - pending) * failing
        decreases |pending|
      {
        var d :| d in pending;
        pending := pending - {d};
        if d in failing {
          DisconnectDispatcher(d);
        } else {
          delivered := delivered + {d};
        }
      }
    }

    /**
     * `notify_workers`, as intended: every socket registered under `teamId` is
     * sent the message once; those whose send fails are unregistered. Other
     * teams' sockets and the dispatchers are untouched. Reading the team's set
     * through the default gives the team an entry.
     */
    method NotifyWorkers(teamId: nat, m: WsMessage, failing: set<Socket>)
      requires IsWorkerMessage(m)
      requires Consistent()
      modifies this`workers, this`teams
      ensures teams == old(teams)[teamId := old(Members(teamId)) - failing]
      ensures workers == old(workers) - old(Members(teamId)) * failing
      ensures Consistent()
    {
      var snapshot := Members(teamId);
      teams := teams[teamId := snapshot];
      var pending := snapshot;
      ghost var removed: set<Socket> := {};
      assert snapshot - removed == snapshot;
      assert forall x :: x in snapshot ==> x in old(workers) && old(workers)[x] == teamId;
      while pending != {}
        invariant pending <= snapshot
        invariant removed == (snapshot - pending) * failing
        invariant teams == old(teams)[teamId := snapshot - removed]
        invariant workers == old(workers) - removed
        decreases |pending|
      {
        var ws :| ws in pending;
        pending := pending - {ws};
        if ws in failing {
          assert ws !in removed && Members(teamId) == snapshot - removed;
          DisconnectWorker(ws);
          OverwriteEntry(old(teams), teamId, snapshot - removed, (snapshot - removed) - {ws});
          RemoveOneMore(snapshot, old(workers), removed, ws);
          removed := removed + {ws};
        }
      }
      assert removed == snapshot * failing;
      assert snapshot - removed == snapshot - failing;
      DropKeepsAgreement(old(workers), old(teams), teamId, removed);
    }
  }

  /** Writing a team's entry twice leaves the second value. */
  lemma OverwriteEntry(teams: map<nat, set<Socket>>, t: nat, first: set<Socket>, second: set<Socket>)
    ensures teams[t := first][t := second] == teams[t := second]
  {
  }

  /** Removing one more socket, from a set of sockets and from a socket-keyed map. */
  lemma RemoveOneMore(s: set<Socket>, w: map<Socket, nat>, removed: set<Socket>, ws: Socket)
    ensures (s - removed) - {ws} == s - (removed + {ws})
    ensures (w - removed) - {ws} == w - (removed + {ws})
  {
  }

  // ----- the fan-out as written -----

  /** What one fan-out did: the sockets sent to, in order, the sockets unregistered, and whether it raised. */
  datatype FanOutOutcome = FanOutOutcome(attempted: seq<Socket>, unregistered: set<Socket>, raised: bool)

  /**
   * The fan-out loops as written iterate the very set a failed send discards
   * from. The next step of the iteration then raises (a set changed size
   * during iteration), so the fan-out ends at the first failed send: that one
   * socket is unregistered, the sockets after it get nothing, and the error
   * propagates. `order` is the set's iteration order.
   */
  function AsWrittenFanOut(order: seq<Socket>, failing: set<Socket>): (r: FanOutOutcome)
    ensures r.raised <==> exists i :: 0 <= i < |order| && order[i] in failing
    ensures r.unregistered <= failing && |r.unregistered| <= 1
    ensures r.raised ==> |r.unregistered| == 1
    ensures |r.attempted| <= |order| && r.attempted == order[..|r.attempted|]
    ensures r.raised ==>
      && |r.attempted| >= 1 && order[|r.attempted| - 1] in failing
      && r.unregistered == {order[|r.attempted| - 1]}
      && forall j :: 0 <= j < |r.attempted| - 1 ==> order[j] !in failing
    ensures !r.raised ==> r.attempted == order && r.unregistered == {}
  {
    if order == [] then FanOutOutcome([], {}, false)
    else if order[0] in failing then FanOutOutcome([order[0]], {order[0]}, true)
    else
      var rest := AsWrittenFanOut(order[1..], failing);
      FanOutOutcome([order[0]] + rest.attempted, rest.unregistered, rest.raised)
  }

  /**
   * With two distinct failing sockets registered, the fan-out as written
   * leaves a failed socket registered, where the intended fan-out
   * (`Registry.NotifyDispatchers`) unregisters every failed one.
   */
  lemma AsWrittenKeepsAFailedSocket(order: seq<Socket>, failing: set<Socket>, i: nat, j: nat)
    requires i < |order| && j < |order| && order[i] != order[j]
    requires order[i] in failing && order[j] in failing
    ensures AsWrittenFanOut(order, failing).raised
    ensures exists ws :: ws in order && ws in failing && ws !in AsWrittenFanOut(order, failing).unregistered
  {
    var u := AsWrittenFanOut(order, failing).unregistered;
    if order[i] !in u {
      assert order[i] in order;
    } else {
      assert order[j] in order;
    }
  }

  /** Two sockets that both fail, iterated in the order 1, 2: only the first is unregistered. */
  lemma FanOutExample()
    ensures AsWrittenFanOut([1, 2], {1, 2}) == FanOutOutcome([1], {1}, true)
  {
  }
}
