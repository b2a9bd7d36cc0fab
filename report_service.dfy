/**
 * Reports over the call table: completed calls per team since a date, the
 * number of completed and rejected calls since a date, and a row per
 * finished call between two dates.
 */
module ReportService {
  import opened Collections
  import opened Domain
  import opened Persistence
  import opened Text

  /** The calls dated at or after `start`. */
  function Since(calls: seq<Call>, start: int): (r: seq<Call>)
    ensures forall c :: c in r <==> c in calls && c.dateTime >= start
  {
    Filter(calls, (c: Call) => c.dateTime >= start)
  }

  /** How many of `calls` have the status. */
  function WithStatus(calls: seq<Call>, s: CallStatus): nat
  {
    CountWhere(calls, (c: Call) => c.status == s)
  }

  /** How many of `calls` the team completed. */
  function CompletedBy(calls: seq<Call>, teamId: nat): nat
  {
    CountWhere(calls, (c: Call) => c.status == Completed && c.teamId == Some(teamId))
  }

  /** One more call adds one to its status's count. */
  lemma WithStatusSnoc(calls: seq<Call>, c: Call, s: CallStatus)
    ensures WithStatus(calls + [c], s) == WithStatus(calls, s) + (if c.status == s then 1 else 0)
  {
    assert (calls + [c])[..|calls|] == calls;
  }

  /** One more call adds one to the load of the team that completed it. */
  lemma CompletedBySnoc(calls: seq<Call>, c: Call, teamId: nat)
    ensures CompletedBy(calls + [c], teamId)
         == CompletedBy(calls, teamId) + (if c.status == Completed && c.teamId == Some(teamId) then 1 else 0)
  {
    assert (calls + [c])[..|calls|] == calls;
  }

  // ----- load per team -----

  function TeamIdSet(teams: seq<Team>): set<nat>
  {
    set t | t in teams :: t.id
  }

  /** Every completed call names a team of the table; any other completed call is a missing dictionary key. */
  predicate CompletedCallsHaveTeams(calls: seq<Call>, teams: seq<Team>)
  {
    forall c :: c in calls && c.status == Completed ==> c.teamId.Some? && c.teamId.value in TeamIdSet(teams)
  }

  /** Each team's entry holds the number of `calls` it completed. */
  predicate LoadsAre(load: map<nat, nat>, calls: seq<Call>)
  {
    forall id :: id in load ==> load[id] == CompletedBy(calls, id)
  }

  /** `load[call.team_id] += 1` for a completed call keeps the entries exact over one more call. */
  lemma TallyStep(load: map<nat, nat>, seen: seq<Call>, c: Call)
    requires LoadsAre(load, seen)
    requires c.status == Completed ==> c.teamId.Some? && c.teamId.value in load
    ensures var next := if c.status == Completed then load[c.teamId.value := load[c.teamId.value] + 1] else load;
      next.Keys == load.Keys && LoadsAre(next, seen + [c])
  {
    forall id | id in load
      ensures CompletedBy(seen + [c], id)
           == CompletedBy(seen, id) + (if c.status == Completed && c.teamId == Some(id) then 1 else 0)
    {
      CompletedBySnoc(seen, c, id);
    }
  }

  /**
   * `get_teams_load`: one entry per team row, deleted teams included, holding
   * the number of calls since `start` that the team completed. A completed
   * call without a team of the table fails the report.
   */
  method TeamsLoad(teams: seq<Team>, calls: seq<Call>, start: int) returns (r: Result<map<nat, nat>>)
    ensures r.Ok? <==> CompletedCallsHaveTeams(Since(calls, start), teams)
    ensures r.Err? ==> r.error == Internal
    ensures r.Ok? ==> r.value.Keys == TeamIdSet(teams)
    ensures r.Ok? ==> LoadsAre(r.value, Since(calls, start))
  {
    var window := Since(calls, start);
    var load: map<nat, nat> := map id | id in TeamIdSet(teams) :: 0;
    for i := 0 to |window|
      invariant load.Keys == TeamIdSet(teams)
      invariant LoadsAre(load, window[..i])
      invariant CompletedCallsHaveTeams(window[..i], teams)
    {
      var c := window[i];
      assert window[..i + 1] == window[..i] + [c];
      if c.status == Completed && (c.teamId.None? || c.teamId.value !in load) {
        assert c in window;
        return Err(Internal);
      }
      TallyStep(load, window[..i], c);
      if c.status == Completed {
        load := load[c.teamId.value := load[c.teamId.value] + 1];
      }
    }
    assert window[..|window|] == window;
    return Ok(load);
  }

  /** The loads of the listed teams added up. */
  function SumLoads(ids: seq<nat>, calls: seq<Call>): nat
  {
    if ids == [] then 0 else CompletedBy(calls, ids[0]) + SumLoads(ids[1..], calls)
  }

  predicate Distinct(ids: seq<nat>)
  {
    forall i, j :: 0 <= i < j < |ids| ==> ids[i] != ids[j]
  }

  /** One more call raises the total by one exactly when it is completed by a listed team. */
  lemma {:induction false} SumLoadsSnoc(ids: seq<nat>, calls: seq<Call>, c: Call)
    requires Distinct(ids)
    ensures SumLoads(ids, calls + [c])
         == SumLoads(ids, calls) + (if c.status == Completed && c.teamId.Some? && c.teamId.value in ids then 1 else 0)
    decreases |ids|
  {
    if ids != [] {
      CompletedBySnoc(calls, c, ids[0]);
      assert Distinct(ids[1..]) by {
        forall i, j | 0 <= i < j < |ids[1..]| ensures ids[1..][i] != ids[1..][j] {
          assert ids[1..][i] == ids[i + 1] && ids[1..][j] == ids[j + 1];
        }
      }
      SumLoadsSnoc(ids[1..], calls, c);
      if c.teamId.Some? && c.teamId.value == ids[0] {
        assert c.teamId.value !in ids[1..] by {
          forall k | 0 <= k < |ids[1..]| ensures ids[1..][k] != ids[0] {
            assert ids[1..][k] == ids[k + 1];
          }
        }
      }
      assert c.teamId.Some? && c.teamId.value in ids <==>
        c.teamId.Some? && (c.teamId.value == ids[0] || c.teamId.value in ids[1..]) by {
        assert ids == [ids[0]] + ids[1..];
      }
    }
  }

  /**
   * When every completed call names one of the listed (distinct) teams, the
   * loads add up to the number of completed calls: each completed call is
   * counted for exactly one team.
   */
  lemma {:induction false} LoadsAddUp(ids: seq<nat>, calls: seq<Call>)
    requires Distinct(ids)
    requires forall c :: c in calls && c.status == Completed ==> c.teamId.Some? && c.teamId.value in ids
    ensures SumLoads(ids, calls) == WithStatus(calls, Completed)
    decreases |calls|
  {
    if calls == [] {
      assert forall k :: 0 <= k < |ids| ==> CompletedBy(calls, ids[k]) == 0;
      SumOfZeros(ids, calls);
    } else {
      var init, last := calls[..|calls| - 1], calls[|calls| - 1];
      assert calls == init + [last];
      LoadsAddUp(ids, init);
      SumLoadsSnoc(ids, init, last);
      WithStatusSnoc(init, last, Completed);
    }
  }

  lemma {:induction false} SumOfZeros(ids: seq<nat>, calls: seq<Call>)
    requires forall k :: 0 <= k < |ids| ==> CompletedBy(calls, ids[k]) == 0
    ensures SumLoads(ids, calls) == 0
    decreases |ids|
  {
    if ids != [] {
      SumOfZeros(ids[1..], calls);
    }
  }

  /**
   * Over a table with unique team ids, the loads in a successful team-load
   * report add up to the completed count the statistics report gives for the
   * same start.
   */
  lemma LoadsMatchStatistics(teams: seq<Team>, calls: seq<Call>, start: int)
    requires forall i, j :: 0 <= i < j < |teams| ==> teams[i].id != teams[j].id
    requires CompletedCallsHaveTeams(Since(calls, start), teams)
    ensures SumLoads(TeamIds(teams), Since(calls, start)) == WithStatus(Since(calls, start), Completed)
  {
    var ids := TeamIds(teams);
    forall c | c in Since(calls, start) && c.status == Completed
      ensures c.teamId.Some? && c.teamId.value in ids
    {
      var t :| t in teams && t.id == c.teamId.value;
      var k :| 0 <= k < |teams| && teams[k] == t;
      assert ids[k] == t.id;
    }
    LoadsAddUp(ids, Since(calls, start));
  }

  // ----- statistics -----

  /** The two counters hold the number of completed and of rejected calls among `calls`. */
  predicate CountsAre(stats: map<CallStatus, nat>, calls: seq<Call>)
  {
    && stats.Keys == {Completed, Rejected}
    && stats[Completed] == WithStatus(calls, Completed)
    && stats[Rejected] == WithStatus(calls, Rejected)
  }

  /** `stats[call.status] += 1` for a completed or rejected call keeps the counters exact over one more call. */
  lemma CountStep(stats: map<CallStatus, nat>, seen: seq<Call>, c: Call)
    requires CountsAre(stats, seen)
    ensures var next := if c.status in {Completed, Rejected} then stats[c.status := stats[c.status] + 1] else stats;
      CountsAre(next, seen + [c])
  {
    WithStatusSnoc(seen, c, Completed);
    WithStatusSnoc(seen, c, Rejected);
  }

  /**
   * `get_calls_statistics`: exactly two entries, COMPLETED and REJECTED,
   * counting the calls since `start` with each status.
   */
  method CallsStatistics(calls: seq<Call>, start: int) returns (stats: map<CallStatus, nat>)
    ensures stats.Keys == {Completed, Rejected}
    ensures stats[Completed] == WithStatus(Since(calls, start), Completed)
    ensures stats[Rejected] == WithStatus(Since(calls, start), Rejected)
  {
    var window := Since(calls, start);
    stats := map[Completed := 0, Rejected := 0];
    for i := 0 to |window|
      invariant CountsAre(stats, window[..i])
    {
      var c := window[i];
      assert window[..i + 1] == window[..i] + [c];
      CountStep(stats, window[..i], c);
      if c.status in {Completed, Rejected} {
        stats := stats[c.status := stats[c.status] + 1];
      }
    }
    assert window[..|window|] == window;
  }

  // ----- report rows -----

  /** One report row; every field is null in the placeholder row of an empty report. */
  datatype ReportRow = ReportRow(
    id: Option<nat>,
    dateTime: Option<int>,
    address: Option<string>,
    patientInfo: Option<string>,
    status: Option<string>,
    teamInfo: Option<string>)

  const Placeholder: ReportRow := ReportRow(None, None, None, None, None, None)

  /** A finished call dated within `[start, end]`. */
  predicate InReport(c: Call, start: int, end: int)
  {
    start <= c.dateTime <= end && (c.status == Completed || c.status == Rejected)
  }

  predicate IdLe(a: Call, b: Call)
  {
    a.id <= b.id
  }

  lemma IdLeIsTotalPreorder()
    ensures TotalPreorder(IdLe)
  {
  }

  /** The calls a report covers, sorted by id. */
  function ReportOrder(calls: seq<Call>, start: int, end: int): (r: seq<Call>)
    ensures multiset(r) == multiset(Filter(calls, (c: Call) => InReport(c, start, end)))
    ensures forall c :: c in r <==> c in calls && InReport(c, start, end)
    ensures forall i, j :: 0 <= i < j < |r| ==> r[i].id <= r[j].id
  {
    IdLeIsTotalPreorder();
    var r := InsertionSort(Filter(calls, (c: Call) => InReport(c, start, end)), IdLe);
    assert forall c :: c in r <==> c in multiset(r);
    r
  }

  /** The letter the report writes for a gender: М for male, Ж for anything else. */
  function GenderLetter(g: PatientGender): (c: char)
    ensures c == 'М' <==> g == Male
    ensures c == 'Ж' <==> g != Male
  {
    if g == Male then 'М' else 'Ж'
  }

  /** The three names joined by single spaces, as the report writes a person. */
  function FullNameOf(surname: string, name: string, patronym: string): (s: string)
    ensures |s| == |surname| + |name| + |patronym| + 2
    ensures s[..|surname|] == surname && s[|surname|] == ' '
    ensures s[|surname| + 1..|surname| + 1 + |name|] == name && s[|surname| + 1 + |name|] == ' '
    ensures s[|surname| + |name| + 2..] == patronym
  {
    surname + " " + name + " " + patronym
  }

  function FullName(u: User): string
  {
    FullNameOf(u.surname, u.name, u.patronym)
  }

  /** "<surname> <name> <patronym>, <gender letter>, <age>". */
  function PatientInfo(p: Patient): (s: string)
    ensures var k := |p.surname| + |p.name| + |p.patronym| + 4;
      && |s| > k
      && s[..k] == FullNameOf(p.surname, p.name, p.patronym) + ", "
      && s[k] == GenderLetter(p.gender)
      && s[k + 1..] == ", " + IntToString(p.age)
  {
    p.surname + " " + p.name + " " + p.patronym + ", " + [GenderLetter(p.gender)] + ", " + IntToString(p.age)
  }

  /** "Бригада <id>: <worker>, <worker>, <worker>, Автомобиль: <number>". */
  function CrewInfo(t: Team, w1: User, w2: User, w3: User, car: Car): (s: string)
    ensures |s| >= 8 + |car.number| && s[..8] == "Бригада "
    ensures s[|s| - |car.number|..] == car.number
  {
    "Бригада " + NatToString(t.id) + ": " + FullName(w1) + ", " + FullName(w2) + ", " + FullName(w3)
      + ", Автомобиль: " + car.number
  }

  /**
   * The crew text names the team by an id that reads back, then the three
   * workers in order, each after ", ", then the car number after "Автомобиль: ".
   */
  lemma CrewInfoNamesTheCrew(t: Team, w1: User, w2: User, w3: User, car: Car)
    ensures var s := CrewInfo(t, w1, w2, w3, car);
      var a := 8 + |NatToString(t.id)|;
      var b := a + 2 + |FullName(w1)|;
      var c := b + 2 + |FullName(w2)|;
      var d := c + 2 + |FullName(w3)|;
      && |s| == d + 14 + |car.number|
      && ParseDigits(s[8..a]) == t.id
      && s[a..a + 2] == ": "
      && s[a + 2..b] == FullName(w1)
      && s[b..b + 2] == ", "
      && s[b + 2..c] == FullName(w2)
      && s[c..c + 2] == ", "
      && s[c + 2..d] == FullName(w3)
      && s[d..d + 14] == ", Автомобиль: "
      && s[d + 14..] == car.number
  {
    CrewLayout(NatToString(t.id), FullName(w1), FullName(w2), FullName(w3), car.number);
    ParseNatToString(t.id);
  }

  /** Where each piece of the crew text lies, for any id digits, names and number. */
  lemma CrewLayout(id: string, f1: string, f2: string, f3: string, number: string)
    ensures var s := "Бригада " + id + ": " + f1 + ", " + f2 + ", " + f3 + ", Автомобиль: " + number;
      var a := 8 + |id|;
      var b := a + 2 + |f1|;
      var c := b + 2 + |f2|;
      var d := c + 2 + |f3|;
      && |s| == d + 14 + |number|
      && s[8..a] == id
      && s[a..a + 2] == ": "
      && s[a + 2..b] == f1
      && s[b..b + 2] == ", "
      && s[b + 2..c] == f2
      && s[c..c + 2] == ", "
      && s[c + 2..d] == f3
      && s[d..d + 14] == ", Автомобиль: "
      && s[d + 14..] == number
  {
    var p1 := "Бригада " + id;
    var p2 := p1 + ": ";
    var p3 := p2 + f1;
    var p4 := p3 + ", ";
    var p5 := p4 + f2;
    var p6 := p5 + ", ";
    var p7 := p6 + f3;
    var p8 := p7 + ", Автомобиль: ";
    var s := p8 + number;
    PieceAt(s, p8, number);
    PieceAt(s, p7, ", Автомобиль: ");
    PieceAt(s, p6, f3);
    PieceAt(s, p5, ", ");
    PieceAt(s, p4, f2);
    PieceAt(s, p3, ", ");
    PieceAt(s, p2, f1);
    PieceAt(s, p1, ": ");
    PieceAt(s, "Бригада ", id);
  }

  /** A prefix of `s` that splits as `p + piece` places `piece` right after `p`. */
  lemma PieceAt(s: string, p: string, piece: string)
    requires |p| + |piece| <= |s| && s[..|p| + |piece|] == p + piece
    ensures s[|p|..|p| + |piece|] == piece
    ensures s[..|p|] == p
  {
    assert s[|p|..|p| + |piece|] == (p + piece)[|p|..];
    assert s[..|p|] == (p + piece)[..|p|];
  }

  /** The team, its three workers and its car all resolve for a call. */
  predicate CrewResolves(c: Call, teams: seq<Team>, users: seq<User>, cars: seq<Car>)
  {
    c.teamId.Some? &&
    match FindTeam(teams, c.teamId.value)
    case None => false
    case Some(t) =>
      FindUser(users, t.worker1Id).Some? && FindUser(users, t.worker2Id).Some? &&
      FindUser(users, t.worker3Id).Some? && FindCar(cars, t.carId).Some?
  }

  /**
   * The row of one call. A completed call names its team, workers and car; a
   * rejected one has "NULL" there. A missing patient, or for a completed call
   * a missing team, worker or car, fails on the missing row.
   */
  function RowOf(c: Call, teams: seq<Team>, users: seq<User>, cars: seq<Car>, patients: seq<Patient>): (r: Result<ReportRow>)
    ensures r.Ok? <==> FindPatient(patients, c.patientId).Some? && (c.status == Completed ==> CrewResolves(c, teams, users, cars))
    ensures r.Err? ==> r.error == Internal
    ensures r.Ok? ==> && r.value.id == Some(c.id) && r.value.dateTime == Some(c.dateTime)
                      && r.value.address == Some(c.address) && r.value.status == Some(StatusValue(c.status))
    ensures r.Ok? ==> r.value.patientInfo == Some(PatientInfo(FindPatient(patients, c.patientId).value))
    ensures r.Ok? && c.status != Completed ==> r.value.teamInfo == Some("NULL")
    ensures r.Ok? && c.status == Completed ==>
      var t := FindTeam(teams, c.teamId.value).value;
      r.value.teamInfo == Some(CrewInfo(t, FindUser(users, t.worker1Id).value, FindUser(users, t.worker2Id).value,
                                        FindUser(users, t.worker3Id).value, FindCar(cars, t.carId).value))
  {
    var team :=
      if c.status != Completed then Some("NULL")
      else if !CrewResolves(c, teams, users, cars) then None
      else
        var t := FindTeam(teams, c.teamId.value).value;
        Some(CrewInfo(t, FindUser(users, t.worker1Id).value, FindUser(users, t.worker2Id).value,
                      FindUser(users, t.worker3Id).value, FindCar(cars, t.carId).value));
    match (team, FindPatient(patients, c.patientId))
    case (Some(info), Some(p)) =>
      Ok(ReportRow(Some(c.id), Some(c.dateTime), Some(c.address), Some(PatientInfo(p)), Some(StatusValue(c.status)), Some(info)))
    case _ => Err(Internal)
  }

  /**
   * `get_calls_reports`: one row per finished call dated within `[start, end]`,
   * in ascending id order; a single placeholder row when there is none.
   */
  method CallsReports(calls: seq<Call>, teams: seq<Team>, users: seq<User>, cars: seq<Car>, patients: seq<Patient>,
                      start: int, end: int) returns (r: Result<seq<ReportRow>>)
    ensures var order := ReportOrder(calls, start, end);
      r.Ok? <==> forall i :: 0 <= i < |order| ==> RowOf(order[i], teams, users, cars, patients).Ok?
    ensures r.Err? ==> r.error == Internal
    ensures r.Ok? ==> r.value != []
    ensures r.Ok? && ReportOrder(calls, start, end) == [] ==> r.value == [Placeholder]
    ensures r.Ok? && ReportOrder(calls, start, end) != [] ==>
      var order := ReportOrder(calls, start, end);
      && |r.value| == |order|
      && (forall i :: 0 <= i < |order| ==> RowOf(order[i], teams, users, cars, patients) == Ok(r.value[i]))
      && (forall i, j :: 0 <= i < j < |order| ==> r.value[i].id.value <= r.value[j].id.value)
  {
    var order := ReportOrder(calls, start, end);
    var rows := CollectAll(order, (c: Call) => RowOf(c, teams, users, cars, patients));
    if rows.Err? {
      return Err(rows.error);
    }
    if rows.value == [] {
      return Ok([Placeholder]);
    }
    return Ok(rows.value);
  }
}
