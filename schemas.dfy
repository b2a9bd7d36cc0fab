/**
 * The field constraints the request and response schemas declare, as
 * predicates over the rows and drafts of `Domain`. A value that fails one of
 * them is refused by the schema library before (or, for a response, after)
 * the service runs.
 */
module Schemas {
  import opened Collections
  import opened Domain

  predicate LengthIn(s: string, lo: nat, hi: nat)
  {
    lo <= |s| <= hi
  }

  // ----- coordinates (shared by calls and teams) -----

  predicate LatInRange(lat: real)
  {
    59.7 <= lat <= 60.2
  }

  predicate LonInRange(lon: real)
  {
    29.6 <= lon <= 30.9
  }

  predicate ValidCoordinates(c: Coordinates)
  {
    LatInRange(c.lat) && LonInRange(c.lon)
  }

  // ----- calls -----

  /** A `team_id` must be given, may be null, and when it is a number it is positive. */
  predicate ValidTeamRef(t: Option<nat>)
  {
    t.None? || t.value > 0
  }

  predicate ValidCallDraft(d: CallDraft)
  {
    && LengthIn(d.reason, 1, 50)
    && LengthIn(d.address, 1, 80)
    && LatInRange(d.lat) && LonInRange(d.lon)
    && d.patientId > 0
    && ValidTeamRef(d.teamId)
  }

  /** The model schema is the draft's constraints plus a positive id. */
  predicate ValidCallModel(c: Call)
  {
    c.id > 0 && ValidCallDraft(DraftOf(c))
  }

  /** A call joined with its patient, as sent to a team's workers. */
  datatype CallFullInfo = CallFullInfo(
    id: nat,
    reason: string,
    address: string,
    dateTime: int,
    status: CallStatus,
    callType: CallType,
    patientName: string,
    patientSurname: string,
    patientPatronym: string,
    patientAge: int,
    patientGender: PatientGender,
    lat: real,
    lon: real)

  predicate ValidCallFullInfo(f: CallFullInfo)
  {
    && f.id > 0
    && LengthIn(f.reason, 1, 50)
    && LengthIn(f.address, 1, 80)
    && LengthIn(f.patientName, 1, 20)
    && LengthIn(f.patientSurname, 1, 20)
    && LengthIn(f.patientPatronym, 1, 20)
    && 0 < f.patientAge <= 150
    && LatInRange(f.lat) && LonInRange(f.lon)
  }

  // ----- cars -----

  /** An upper-case Cyrillic letter in the code-point range А..Я (U+0410..U+042F). */
  predicate IsCyrillicCapital(c: char)
  {
    '\U{0410}' <= c <= '\U{042F}'
  }

  /** Ё is U+0401, below А: the range leaves it out. */
  const CyrillicCapitalYo: char := '\U{0401}'

  predicate IsAsciiDigit(c: char)
  {
    '0' <= c <= '9'
  }

  /** The car-number pattern: one letter, three digits, two letters, nothing else. */
  predicate IsCarNumber(s: string)
  {
    && |s| == 6
    && IsCyrillicCapital(s[0])
    && IsAsciiDigit(s[1]) && IsAsciiDigit(s[2]) && IsAsciiDigit(s[3])
    && IsCyrillicCapital(s[4]) && IsCyrillicCapital(s[5])
  }

  /** The body of a car update: a number and a serviceability flag. */
  datatype CarUpdateRequest = CarUpdateRequest(number: string, status: bool)

  /** Builds the update body; an omitted status reads as serviceable. */
  function CarUpdateBody(number: string, status: Option<bool>): (r: CarUpdateRequest)
    ensures r.number == number
    ensures status.None? ==> r.status
    ensures status.Some? ==> r.status == status.value
  {
    CarUpdateRequest(number, if status.Some? then status.value else true)
  }

  predicate ValidCarUpdate(r: CarUpdateRequest)
  {
    IsCarNumber(r.number)
  }

  /** The create schema carries the number alone; the model schema adds a positive id. */
  predicate ValidCarCreate(number: string)
  {
    IsCarNumber(number)
  }

  predicate ValidCarModel(c: Car)
  {
    c.id > 0 && IsCarNumber(c.number)
  }

  // ----- teams -----

  /** The three workers and the car are positive ids; nothing asks them to differ. */
  predicate ValidTeamCreate(worker1Id: int, worker2Id: int, worker3Id: int, carId: int)
  {
    worker1Id > 0 && worker2Id > 0 && worker3Id > 0 && carId > 0
  }

  predicate ValidTeamModel(t: Team)
  {
    && t.id > 0
    && ValidTeamCreate(t.worker1Id, t.worker2Id, t.worker3Id, t.carId)
    && LatInRange(t.lat) && LonInRange(t.lon)
  }

  /** A team as listed to dispatchers: workers by initials, the car by number, and whether it is on a call. */
  datatype TeamFullInfo = TeamFullInfo(
    id: nat,
    worker1Fio: string,
    worker2Fio: string,
    worker3Fio: string,
    carNumber: string,
    isBusy: bool)

  predicate ValidTeamFullInfo(f: TeamFullInfo)
  {
    && f.id > 0
    && LengthIn(f.worker1Fio, 3, 150)
    && LengthIn(f.worker2Fio, 3, 150)
    && LengthIn(f.worker3Fio, 3, 150)
    && IsCarNumber(f.carNumber)
  }

  // ----- users -----

  datatype UserDraft = UserDraft(
    login: string,
    password: string,
    name: string,
    surname: string,
    patronym: string,
    role: UserRole)

  predicate ValidNames(name: string, surname: string, patronym: string)
  {
    LengthIn(name, 1, 50) && LengthIn(surname, 1, 50) && LengthIn(patronym, 1, 50)
  }

  predicate ValidUserCreate(d: UserDraft)
  {
    LengthIn(d.login, 4, 20) && LengthIn(d.password, 8, 20) && ValidNames(d.name, d.surname, d.patronym)
  }

  /** The update body has the three name fields and nothing else. */
  datatype UserUpdate = UserUpdate(name: string, surname: string, patronym: string)

  predicate ValidUserUpdate(u: UserUpdate)
  {
    ValidNames(u.name, u.surname, u.patronym)
  }

  /** A stored user: the password field is exactly as long as a bcrypt hash. */
  predicate ValidUserModel(u: User)
  {
    u.id > 0 && LengthIn(u.login, 4, 20) && |u.password| == 60 && ValidNames(u.name, u.surname, u.patronym)
  }

  // ----- patients -----

  predicate ValidPatientFields(name: string, surname: string, patronym: string, age: int)
  {
    LengthIn(name, 1, 20) && LengthIn(surname, 1, 20) && LengthIn(patronym, 1, 20) && 0 < age <= 150
  }

  /** The create and the model schema share the field constraints; the model adds a positive id. */
  predicate ValidPatientModel(p: Patient)
  {
    p.id > 0 && ValidPatientFields(p.name, p.surname, p.patronym, p.age)
  }

  // ----- what the constraints imply -----

  /**
   * The bounds are inclusive at both ends and the same for a call, a team and
   * a bare coordinate pair, so a call's site is always a valid place to move a
   * team to.
   */
  lemma CallSiteIsValidTeamPosition(c: Call)
    requires ValidCallModel(c)
    ensures ValidCoordinates(Coordinates(c.lat, c.lon))
  {
  }
}
