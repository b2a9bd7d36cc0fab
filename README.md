# Emergency dispatch backend — a verified model of its business layer

The system is a backend for an ambulance dispatch service. Dispatchers register
calls. Teams are three workers and a car. A team accepts a call, completes it,
or reports trouble, which puts the call back in the queue. Users get stored
notifications. Dispatchers and workers are pushed websocket messages. Admins
manage teams, cars and users and pull reports.

This project models the service layer of that backend in Dafny:

- the call lifecycle and the queue order;
- team, car and worker availability and soft deletion;
- notifications;
- the websocket connection registry and its fan-out;
- the three reports;
- the role, token and login checks;
- the thinning of a route returned by the routing service;
- the field constraints of the request and response schemas.

Modules, one file each:

| file | module | what it holds |
|---|---|---|
| collections.dfy | `Collections` | `Option`, and the list comprehension, `.first()`, slicing and sort, each with a characterising contract |
| text.dfy | `Text` | decimal rendering of integers, as f-strings write ids into texts |
| domain.dfy | `Domain` | the enumerations, the table rows, the error kinds with their HTTP codes, `Result` |
| schemas.dfy | `Schemas` | the schema field constraints as predicates, with what they imply |
| websocket.dfy | `Websocket` | the event discriminants and the message family |
| persistence.dfy | `Persistence` | the `Store` class: one sequence of rows per table, id counters, and the repository operations |
| notification_service.dfy | `NotificationService` | `notify_user`, `notify_users` |
| team_service.dfy | `TeamService` | team listings, free teams, lookup by worker, add, move, delete |
| car_service.dfy | `CarService` | car listings, free cars, add, delete, update |
| user_service.dfy | `UserService` | busy and free workers, add, delete, update, a user's notifications |
| call_service.dfy | `CallService` | the queue, add, accept, reject, complete, trouble |
| report_service.dfy | `ReportService` | team load, status statistics, the call report |
| connection_service.dfy | `ConnectionService` | the `Registry` class of websocket sockets, and the fan-out as written |
| auth.dfy | `Auth` | the role verifier, token errors, `require_role`, `required_roles`, `check_user` |
| routing.dfy | `Routing` | the route request URL, the thinning to every third position, the error mapping |

Modelling choices:

- **Tables.** The database is a `Store` object whose fields are the tables, as
  sequences in the order a query returns them. Each table has an id counter
  that behaves like an auto-increment key. `Store.Valid()` says that keys are
  unique and below their counter, and every operation preserves it.
- **Service operations.** Operations that change rows are methods that
  `modifies` exactly the tables they write. Their `ensures` give the whole new
  state: which rows changed and how, and the notifications appended.
- **Read-only operations.** Queries that only read are functions over the rows.
  The loops of the source (busy workers, the reports, `required_roles`, the
  fan-outs) are methods with loop invariants.
- **Errors.** An operation that can fail returns `Result`. `Internal` stands for
  every exception the source does not raise on purpose, such as an attribute
  read on `None`, a missing dictionary key, a schema rejection or
  `raise None`. FastAPI reports all of these as HTTP 500.
- **Rules the code does not check.** No operation checks the prior status of a
  call, and the model checks none either. `reject_call`, `accept_call` and
  `complete_call` overwrite any status. `complete_call` keeps the call's team.
  `add_call` stores the status the request carries.
- **Foreign keys.** Where the database would refuse a write because of a
  foreign key, the model returns `Internal` and changes nothing. This covers a
  team id with no row in `accept_call`, and a patient or team of a new call
  with no row. The database's `ON DELETE CASCADE` rules, and the refusals
  they lead to, are not modelled; `delete_user` is the one operation they
  affect (see "Left out").

## Model

| member | source | states |
|---|---|---|
| Domain.CallFromDraft | app/services/call_service.py:90-91 | a created call has the new id and exactly the fields of the draft |
| Domain.StatusCodesFollowKinds | app/exceptions/team.py:4-11 | absent rows are 404 and conflicts 409; authentication errors are 401, missing roles 403 and routing 400; a busy team is 404, not a conflict; only the internal error is 500 |
| Domain.CollectAll | app/services/team_service.py:19-38 | building a list entry by entry succeeds exactly when every entry does, with the entries in input order; otherwise it fails with the error of the first failing entry, every entry before it having succeeded |
| Collections.InsertionSort | app/services/call_service.py:42 | the sorted list is a permutation of the input and is ordered by the key |
| Text.IntToString | app/services/report_service.py:61 | an integer's rendering is non-empty and starts with '-' exactly when the integer is negative |
| Text.ParseNatToString | app/services/call_service.py:125 | the digits written for an id read back as that id |
| Text.NatToStringInjective | app/services/call_service.py:125 | different ids are written as different digit strings |
| Schemas.CarUpdateBody | app/schemas/car.py:14-15 | the update body keeps the number; an omitted status reads as serviceable |
| Schemas.CallSiteIsValidTeamPosition | app/schemas/call.py:14-15 | a call the model schema accepts lies inside the bounds of the coordinates schema, so `CallService.CompleteCall` never takes its schema-refusal branch for such a call |
| Websocket.EventValuesDistinct | app/schemas/websocket.py:8-19 | there are exactly ten event discriminants, and their strings are pairwise distinct |
| Websocket.JsonKeys | app/schemas/websocket.py:22-64 | every message serialises with the `event` key first and only once, followed by its own payload keys |
| Websocket.ChannelsDisjoint | app/services/connection_service.py:21-34 | no message kind is both a dispatcher and a worker message; "move started" is neither; the class does not fix the discriminant |
| Persistence.IdsWithRole | app/services/call_service.py:94-95 | the ids collected are exactly those of the users with the role |
| Persistence.FindCallAfterUpdate | app/db/repository.py:28-51 | reading a call back after `update` gives the stored row with the update applied |
| Persistence.FindTeamAfterUpdate | app/db/repository.py:28-51 | reading a team back after `update` gives the stored row with the update applied |
| Persistence.FindCarAfterUpdate | app/db/repository.py:28-51 | reading a car back after `update` gives the stored row with the update applied |
| Persistence.FindUserAfterRename | app/db/repository.py:28-51 | reading a user back after a name update gives the stored row with the three names replaced |
| Persistence.FindUserAfterDelete | app/db/repository.py:53-60 | after `delete`, no user with that id is found |
| Persistence.KeysBelowDeleteUser | app/db/repository.py:53-60 | deleting rows keeps the remaining primary keys unique and below the counter |
| Persistence.Store.constructor | app/db/models/base.py:9 | an empty store is valid and every counter starts at 1 |
| Persistence.Store.CreateCall | app/db/repository.py:33-42 | `create` appends one call under the next id and keeps the keys unique |
| Persistence.Store.UpdateCall | app/db/repository.py:44-51 | `update` applies the fields to every row with the id and leaves the keys unchanged |
| Persistence.Store.CreateTeam | app/db/models/team.py:20-23 | a new team stands at the default position (59.907126, 30.326599) and is not deleted |
| Persistence.Store.UpdateTeam | app/db/repository.py:44-51 | `update` applies the fields to every team with the id |
| Persistence.Store.CreateCar | app/db/models/car.py:14-15 | a new car is serviceable and not deleted |
| Persistence.Store.UpdateCar | app/db/repository.py:44-51 | `update` applies the fields to every car with the id |
| Persistence.Store.CreateUser | app/db/repository.py:33-42 | `create` appends one user under the next id |
| Persistence.Store.RenameUser | app/services/user_service.py:82 | the user update writes the three name fields of the rows with the id |
| Persistence.Store.DeleteUser | app/db/repository.py:53-60 | `delete` removes the rows with the id and keeps the other rows in order |
| Persistence.Store.CreateNotification | app/services/notification_service.py:12 | one notification row is appended under the next id |
| NotificationService.NotifyUser | app/services/notification_service.py:11-13 | exactly one row is stored, carrying the given text, type and user |
| NotificationService.NotifyUsers | app/services/notification_service.py:15-19 | one row per listed id is appended, in list order, with consecutive ids |
| NotificationService.BatchCarriesNotice | app/services/notification_service.py:17-19 | each row of a batch carries the notice's text and type, addressed to the listed user at that position |
| NotificationService.BatchCountsPerUser | app/services/notification_service.py:16 | each user gets as many rows as the list names them: none for an empty list, two for an id listed twice |
| TeamService.GetTeams | app/services/team_service.py:13-14 | exactly the teams not deleted, in stored order |
| TeamService.GetFreeTeams | app/services/team_service.py:47-54 | exactly the live teams with no accepted call whose car is serviceable, in stored order; a live team with no accepted call and no car row is an error |
| TeamService.Fio | app/services/team_service.py:21-23 | "Surname N. P." exists exactly when name and patronym are non-empty; it is the surname, a space, the name's initial, ". ", the patronym's initial and ".", each at its offset |
| TeamService.FioFitsListing | app/schemas/team.py:23-25 | any user the user schema accepts gets initials of 3 to 150 characters, which the listing schema accepts |
| TeamService.TeamInfo | app/services/team_service.py:21-35 | a listing entry has the team's id, the three workers' initials and the car number; it is busy exactly when the team has an accepted call; a missing row or a refused entry is an error |
| TeamService.GetFullInfoTeams | app/services/team_service.py:16-38 | one entry per live team, in order; any failing entry fails the listing |
| TeamService.GetTeamByUserId | app/services/team_service.py:56-61 | the first live team with the user as one of its three workers; TeamNotFound exactly when there is none |
| TeamService.AddTeam | app/services/team_service.py:43-45 | a new team with the given workers and car is stored at the default position, not deleted; a worker or car with no row stores nothing |
| TeamService.MoveTeam | app/services/team_service.py:63-68 | TeamNotFound for an unknown id; otherwise only the latitude and longitude of the team's rows change |
| TeamService.DeleteTeam | app/services/team_service.py:70-74 | TeamBusy exactly when the team has an accepted call; otherwise the team is flagged deleted and keeps its row; an unknown id is an error |
| CarService.GetCars | app/services/car_service.py:13-14 | exactly the cars not deleted, in stored order |
| CarService.TeamOfCar | app/db/models/car.py:17-21 | a car's team is a team row naming that car, deleted or not, and there is none exactly when no team names it |
| CarService.GetFreeCars | app/services/car_service.py:16-18 | exactly the live, serviceable cars that no team row names, in stored order |
| CarService.AddCar | app/services/car_service.py:20-26 | CarAlreadyExists exactly when a live car has the number, and nothing is stored; a deleted car's number can be reused; live numbers stay unique |
| CarService.DeleteCar | app/services/car_service.py:28-35 | CarNotFound for an unknown id; CarBusy exactly when the car's team exists and is live; otherwise only the deleted flag is set |
| CarService.UpdateCar | app/services/car_service.py:37-44 | CarAlreadyExists exactly when both number and status repeat the stored ones; otherwise both are written and read back |
| UserService.BusyWorkers | app/services/user_service.py:19-26 | the busy set is exactly the worker ids of the live teams |
| UserService.GetFreeWorkers | app/services/user_service.py:44-48 | exactly the users with the worker role that no live team names, in stored order |
| UserService.AddUser | app/services/user_service.py:50-65 | UserAlreadyExists exactly when the login is taken, and nothing is stored; otherwise one user with the hash of the password; logins stay unique |
| UserService.DeleteUser | app/services/user_service.py:67-75 | UserNotFound for an unknown id; WorkerBusy exactly for a worker a live team names; anyone else is removed |
| UserService.UpdateUser | app/services/user_service.py:77-84 | UserNotFound exactly for an unknown id; otherwise only the three names of that user change, never login, password or role |
| UserService.GetUserNotifications | app/services/user_service.py:86-91 | UserNotFound for an unknown id; otherwise exactly the user's notifications, newest first, so reversing gives stored order |
| CallService.NewCalls | app/services/call_service.py:36 | exactly the NEW calls, in stored order |
| CallService.Priority | app/services/call_service.py:37-41 | the priority table maps each call type below 3 |
| CallService.PriorityRanks | app/services/call_service.py:37-41 | critical ranks before important, and important before common |
| CallService.PriorityLeIsTotalPreorder | app/services/call_service.py:42 | the sort key, priority then newer first, is a total preorder |
| CallService.GetNewCalls | app/services/call_service.py:35-43 | a permutation of the NEW calls: critical before important before common, and within one type newer first |
| CallService.PriorityOrder | app/services/call_service.py:42 | a list sorted by the key lists types by priority, and each type newest first |
| CallService.GetActualCalls | app/services/call_service.py:45-47 | exactly the NEW and ACCEPTED calls, in stored order |
| CallService.GetCallByTeamId | app/services/call_service.py:56-60 | an accepted call assigned to the team; TeamCallNotFound exactly when there is none |
| CallService.CompletedTextNamesTheCall | app/services/call_service.py:125 | the completion notice names the call: its id reads back from the text, and different calls get different texts |
| CallService.AddCall | app/services/call_service.py:85-100 | CallAlreadyExists, with nothing stored, when a stored call equals the draft; otherwise the call is stored as drafted and each dispatcher gets one "Новый вызов" message; the call counter advances by one and the notification counter by the number of dispatchers |
| CallService.AcceptCall | app/services/call_service.py:102-110 | the call becomes ACCEPTED with the team, from any status; the team's three workers each get one "Назначен вызов" message; an unknown team changes nothing; the notification counter advances by three |
| CallService.RejectCall | app/services/call_service.py:112-114 | the call becomes REJECTED from any status and nothing else changes; an unknown id fails on the read-back |
| CallService.TeamOfCall | app/db/models/call.py:37-46 | the call's team exists exactly when its team id is set and has a row |
| CallService.CompleteCall | app/services/call_service.py:116-131 | the call becomes COMPLETED and keeps its team; each dispatcher gets the completion notice; the team moves to the call's site; a call without a team, or a missing or negative id, fails after the status and notices are written, the notice naming the id as given; for a call the model schema accepts, only a missing team fails; the notification counter advances by the number of dispatchers |
| CallService.CarOfCall | app/services/call_service.py:141 | the car loaded with the call is the car row of the call's team |
| CallService.BreakCar | app/services/call_service.py:140-149 | the team's car is put out of service with its number kept, and each admin gets "Автомобиль … сломан"; a car already out of service is CarAlreadyExists, with nothing changed |
| CallService.ReportTrouble | app/services/call_service.py:140-157 | for every kind, each dispatcher gets the trouble notice naming the call and the kind; for a broken car, the car update and admin notices come first, and their failure stops the report; the notification counter advances by the notices written |
| CallService.TroubleCall | app/services/call_service.py:133-158 | CallNotFound before any change for an unknown id; otherwise the call goes back to NEW with no team, then the trouble is reported; a car already out of service fails after the call was reset; the notification counter advances by the notices written |
| ReportService.Since | app/services/report_service.py:18 | exactly the calls dated at or after the start |
| ReportService.TeamsLoad | app/services/report_service.py:16-26 | one entry per team row, deleted teams included, holding the number of calls since the start that the team completed; a completed call with no team of the table is an error |
| ReportService.LoadsAddUp | app/services/report_service.py:22-24 | when every completed call names one of the teams, the loads add up to the number of completed calls |
| ReportService.LoadsMatchStatistics | app/services/report_service.py:16-36 | the loads of a successful team-load report add up to the completed count of the statistics report for the same start |
| ReportService.CallsStatistics | app/services/report_service.py:28-36 | exactly the two keys COMPLETED and REJECTED, each counting the calls since the start with that status |
| ReportService.IdLeIsTotalPreorder | app/services/report_service.py:43 | ordering by id is a total preorder |
| ReportService.ReportOrder | app/services/report_service.py:39-43 | a permutation of the finished calls dated within the window, in ascending id order |
| ReportService.GenderLetter | app/services/report_service.py:61 | М exactly for male and Ж exactly otherwise |
| ReportService.PatientInfo | app/services/report_service.py:60-61 | the patient's surname, name and patronym separated by spaces, then ", ", the gender letter, ", " and the age |
| ReportService.CrewInfo | app/services/report_service.py:49-52 | the crew text starts with "Бригада " and ends with the car number |
| ReportService.CrewInfoNamesTheCrew | app/services/report_service.py:49-52 | the crew text gives the team id, which reads back as the id, then ": ", the three workers' full names in order separated by ", ", then ", Автомобиль: " and the car number |
| ReportService.FullNameOf | app/services/report_service.py:50-52 | a person is written as surname, name and patronym, each at its offset, separated by single spaces |
| ReportService.RowOf | app/services/report_service.py:45-65 | a row carries the call's id, date, address, status value and patient text; its team text is "NULL" for a rejected call and names the crew for a completed one; a missing row is an error |
| ReportService.CallsReports | app/services/report_service.py:38-74 | one row per finished call in the window, in ascending id order; a single placeholder row of nulls when there is none |
| ConnectionService.DropKeepsAgreement | app/services/connection_service.py:42-43 | unregistering some of one team's sockets from both maps keeps every socket recorded under exactly the team whose set holds it |
| ConnectionService.Registry.constructor | app/services/connection_service.py:38-43 | the registry starts empty and consistent |
| ConnectionService.Registry.ConnectDispatcher | app/services/connection_service.py:45-46 | the socket joins the dispatcher set |
| ConnectionService.Registry.DisconnectDispatcher | app/services/connection_service.py:48-49 | the socket leaves the dispatcher set, and an absent socket is no error |
| ConnectionService.Registry.ConnectWorker | app/services/connection_service.py:51-57 | the socket is recorded under the worker's team and joins its set; a worker without a team gets TeamNotFound and nothing changes; a fresh socket keeps the registry consistent |
| ConnectionService.Registry.DisconnectWorker | app/services/connection_service.py:59-61 | the socket leaves the set of its recorded team, or of team 0 when unknown, and its record goes; consistency is kept and the socket is in no team |
| ConnectionService.Registry.NotifyDispatchers | app/services/connection_service.py:63-70 | every dispatcher is sent the message once; the failing ones are unregistered and the others stay |
| ConnectionService.Registry.NotifyWorkers | app/services/connection_service.py:72-79 | only the team's sockets are sent to; the failing ones leave the team's set and the socket map; other teams and dispatchers are untouched; consistency is kept |
| ConnectionService.AsWrittenFanOut | app/services/connection_service.py:66-70 | the fan-out as written raises exactly when some socket fails; then the sockets attempted end at the first failing one, and that socket alone is unregistered; otherwise every socket is attempted and none is unregistered |
| ConnectionService.AsWrittenKeepsAFailedSocket | app/services/connection_service.py:66-70 | with two failing sockets, the fan-out as written leaves a failed socket registered |
| ConnectionService.FanOutExample | app/services/connection_service.py:75-79 | sockets 1 and 2 both failing: only socket 1 is unregistered, and socket 2 is never sent to |
| Auth.RoleRequired | app/exceptions/auth.py:24-36 | each role requirement's error is a 403 |
| Auth.Verify | app/utils/role_verifier.py:9-15 | a user passes a requirement exactly when they hold the role or are an admin; otherwise the role's own error |
| Auth.RoleLattice | app/utils/role_verifier.py:10-15 | an admin passes everything, everyone passes their own role, only an admin passes the admin requirement, and dispatchers and workers fail each other's requirement |
| Auth.ValidateToken | app/utils/auth_utils.py:16-37 | a missing token is AuthError, an undecodable one TokenExpired, both 401 |
| Auth.CurrentUser | app/utils/auth_utils.py:40-45 | the token's error, or the user with the token's subject id, absent if deleted |
| Auth.RequireRole | app/utils/auth_utils.py:56-65 | the current user exactly when the token is good, the user exists and passes the role; the role's error otherwise; a token naming no user is an internal error |
| Auth.RequiredRoles | app/utils/auth_utils.py:68-82 | the current user exactly when they pass some listed role; otherwise the last role's error; an empty list or a missing user is an internal error |
| Auth.WithLogin | app/services/auth_service.py:16 | exactly the users stored with the login |
| Auth.CheckUser | app/services/auth_service.py:15-24 | an unknown login and a wrong password are both WrongLoginPassword; a right password with another role is WrongRole; otherwise the first user with the login |
| Auth.WrongPasswordLooksLikeUnknownLogin | app/services/auth_service.py:17-21 | a wrong password gets the same answer as the same table without that login, whatever role is asked for |
| Routing.Downsample | app/utils/routing.py:28-31 | ⌈n/3⌉ coordinates, the k-th taken from position 3k with longitude first; any unreadable kept position is RoutingFailed |
| Routing.DownsampleKeepsEveryThird | app/utils/routing.py:28 | the kept indices are exactly the multiples of 3 below the length |
| Routing.DownsampleEnds | app/utils/routing.py:28 | an empty line gives an empty route, and a non-empty one keeps its first position |
| Routing.Url | app/utils/routing.py:18-21 | the request starts with the service URL and "/" and ends with the fixed query |
| Routing.UrlPathOrder | app/utils/routing.py:18-21 | the path is the team's "lon,lat" up to the first ';', then the call's |
| Routing.GetRoute | app/utils/routing.py:13-31 | a failed request is RoutingFailed (400); otherwise the thinned route of the answer |

## Left out

- Row order: the store keeps rows in insertion order and queries return them in that order. The database gives no `ORDER BY`, so any order the database picks is not modelled.
- Foreign keys and cascades are not enforced by the store. The inserts and updates the database would refuse for a missing row (a new call's patient or team, an accepted call's team, a new team's workers or car) are modelled where a service issues them, as `Internal` with nothing changed. The database's `ON DELETE CASCADE` rules are not modelled.
- UserService.DeleteUser: removes only the user row. The database also deletes, by `ON DELETE CASCADE`, the user's notifications (app/db/models/notification.py:23) and every team row that names the user as a worker (app/db/models/team.py:15-17), which can only be a soft-deleted team here. When such a team is still referenced by a call (app/db/models/call.py:37 has no cascade), the database refuses the delete and the request fails with HTTP 500. Neither the cascade nor that refusal is modelled.
- Timestamps (`created_at`, `updated_at`) and dates: a call's `date_time` is an integer instant. The `strftime` text of a report row is left as that instant.
- Coordinates are reals. Float rounding and the float-to-text format of the route URL are out. The format is a parameter of `Routing.Url`.
- The car-number pattern's `\d` is modelled as ASCII digits. The regular expression engine also accepts other Unicode decimal digits.
- bcrypt hashing and verification are parameters: a hash function for `UserService.AddUser` and a verify predicate for `Auth.CheckUser`.
- JWT decoding, cookies and CSRF headers are out. `Auth.ValidateToken` takes what decoding gave (a subject, no token, or an undecodable token).
- The HTTP request of the route provider is a parameter of `Routing.GetRoute`. It gives the positions of the first route, or nothing on any failure.
- Schema validation of stored rows when they are read back (`from_orm`) is out. Rows are taken as stored.
- Asynchronous interleaving of requests and of websocket sends is out; every operation runs to completion alone.
- The websocket endpoint loops, the movement simulation and route cache, the routers, settings, logging, migrations and the console call generator are out. They are I/O and wiring.
- `get_calls`, `get_call_by_id`, `get_call_full_info`, `get_active_calls`, `get_users`, `get_user_by_id`, `get_users_by_role`, `get_team_by_id` and `del_notification` are single repository reads or deletes with no rule of their own. They are not modelled separately.
- Patient operations are not part of this model; only the patient row and its schema constraints are.
- CallService.GetNewCalls: states a sorted permutation of the NEW calls, not the stability of Python's sort. The order of two calls with the same type and the same instant is left open.
- ConnectionService.Registry.NotifyWorkers: requires a consistent registry, in which each socket sits in the set of the team it is recorded under. Over an inconsistent registry the new state of the socket map is not stated.
- ConnectionService.Registry.ConnectWorker: keeps consistency only for a socket not yet registered. A socket registered again under another team stays in its old team's set, as in the source.
- ConnectionService.Registry.NotifyDispatchers: the message content and the send are not modelled. A send is an oracle given as the set of sockets whose send fails.
- TeamService.MoveTeam: requires coordinates the coordinates schema accepts, since its callers build them through that schema. `CallService.CompleteCall` models the schema refusal for a call site out of bounds.

## Findings

| source | as written | input that shows it | evidently intended | confidence | as-written member | corrected member |
|---|---|---|---|---|---|---|
| app/services/connection_service.py:66-70, 75-79 | the fan-out loops iterate the live socket set and discard a failed socket from that same set; the next step of the iteration raises because the set changed size, so the fan-out stops at the first failed send | two registered dispatchers (or two sockets of one team) whose sends both fail: the first is unregistered, the second is never sent to and stays registered, and the notifier raises | every registered socket is sent the message once, and every socket whose send fails is unregistered | not executed | ConnectionService.AsWrittenKeepsAFailedSocket | ConnectionService.Registry.NotifyDispatchers |
