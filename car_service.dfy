/**
 * Cars: a number plate and a serviceability flag. A car is soft-deleted
 * through `isDeleted`, and is free while no team row refers to it and it is
 * serviceable.
 */
module CarService {
  import opened Collections
  import opened Domain
  import opened Schemas
  import opened Persistence

  /** `get_cars`: the cars that are not soft-deleted, in stored order. */
  function GetCars(cars: seq<Car>): (r: seq<Car>)
    ensures forall c :: c in r <==> c in cars && !c.isDeleted
    ensures IsSubseq(r, cars)
  {
    Filter(cars, (c: Car) => !c.isDeleted)
  }

  /**
   * The team a car's one-to-one relationship resolves to: a team row with that
   * car id, deleted or not. Nothing makes `car_id` unique among teams; the
   * first such row stands for the one the database returns.
   */
  function TeamOfCar(teams: seq<Team>, carId: nat): (r: Option<Team>)
    ensures r.None? <==> forall t :: t in teams ==> t.carId != carId
    ensures r.Some? ==> r.value in teams && r.value.carId == carId
  {
    First(teams, (t: Team) => t.carId == carId)
  }

  /**
   * `get_free_cars`: the live, serviceable cars no team row refers to. A car
   * that only a deleted team refers to is still not free.
   */
  function GetFreeCars(cars: seq<Car>, teams: seq<Team>): (r: seq<Car>)
    ensures forall c :: c in r <==> c in cars && !c.isDeleted && c.status && forall t :: t in teams ==> t.carId != c.id
    ensures forall c :: c in r ==> c in GetCars(cars)
    ensures IsSubseq(r, cars)
  {
    Filter(cars, (c: Car) => !c.isDeleted && TeamOfCar(teams, c.id).None? && c.status)
  }

  /** No two live cars share a number. */
  predicate LiveNumbersUnique(cars: seq<Car>)
  {
    forall i, j :: 0 <= i < j < |cars| && !cars[i].isDeleted && !cars[j].isDeleted ==> cars[i].number != cars[j].number
  }

  /**
   * `add_car`: CarAlreadyExists, and nothing stored, when a live car has the
   * number; a deleted car's number may be reused. A new car is serviceable
   * and live. Adding keeps live numbers unique.
   */
  method AddCar(store: Store, number: string) returns (r: Result<Car>)
    requires store.Valid()
    modifies store`cars, store`nextCarId
    ensures store.Valid()
    ensures r.Err? <==> exists c :: c in old(store.cars) && c.number == number && !c.isDeleted
    ensures r.Err? ==> r.error == CarAlreadyExists && store.cars == old(store.cars) && store.nextCarId == old(store.nextCarId)
    ensures r.Ok? ==> r.value == Car(old(store.nextCarId), number, true, false)
    ensures r.Ok? ==> store.cars == old(store.cars) + [r.value] && store.nextCarId == old(store.nextCarId) + 1
    ensures LiveNumbersUnique(old(store.cars)) ==> LiveNumbersUnique(store.cars)
  {
    var existing := Filter(store.cars, (c: Car) => c.number == number && !c.isDeleted);
    if existing != [] {
      assert existing[0] in existing;
      return Err(CarAlreadyExists);
    }
    var car := store.CreateCar(number);
    return Ok(car);
  }

  /**
   * `delete_car`: CarNotFound for an unknown id, CarBusy when the car's team
   * exists and is live; otherwise the car is flagged deleted and stays in the
   * table.
   */
  method DeleteCar(store: Store, carId: nat) returns (r: Result<()>)
    requires store.Valid()
    modifies store`cars
    ensures store.Valid()
    ensures FindCar(old(store.cars), carId).None? ==> r == Err(CarNotFound)
    ensures FindCar(old(store.cars), carId).Some? ==>
      (r.Err? <==> TeamOfCar(store.teams, carId).Some? && !TeamOfCar(store.teams, carId).value.isDeleted)
    ensures r.Err? ==> store.cars == old(store.cars)
    ensures r.Err? && FindCar(old(store.cars), carId).Some? ==> r.error == CarBusy
    ensures r.Ok? ==> |store.cars| == |old(store.cars)|
    ensures r.Ok? ==> forall i :: 0 <= i < |store.cars| ==>
      store.cars[i] == if old(store.cars)[i].id == carId then old(store.cars)[i].(isDeleted := true) else old(store.cars)[i]
  {
    var car := FindCar(store.cars, carId);
    if car.None? {
      return Err(CarNotFound);
    }
    var team := TeamOfCar(store.teams, carId);
    if team.Some? && !team.value.isDeleted {
      return Err(CarBusy);
    }
    store.UpdateCar(carId, CarUpdate(None, None, Some(true)));
    return Ok(());
  }

  /**
   * `update_car`: CarAlreadyExists when the body repeats both the stored number
   * and the stored status; otherwise both are written and the car is read back.
   * An unknown id fails on the missing row.
   */
  method UpdateCar(store: Store, carId: nat, body: CarUpdateRequest) returns (r: Result<Car>)
    requires store.Valid()
    modifies store`cars
    ensures store.Valid()
    ensures FindCar(old(store.cars), carId).None? ==> r == Err(Internal) && store.cars == old(store.cars)
    ensures FindCar(old(store.cars), carId).Some? ==>
      var stored := FindCar(old(store.cars), carId).value;
      (r.Err? <==> stored.number == body.number && stored.status == body.status) &&
      (r.Err? ==> r.error == CarAlreadyExists && store.cars == old(store.cars)) &&
      (r.Ok? ==> r.value == stored.(number := body.number, status := body.status))
    ensures r.Ok? ==> store.cars == UpdateCars(old(store.cars), carId, CarUpdate(Some(body.number), Some(body.status), None))
    ensures r.Ok? ==> FindCar(store.cars, carId) == Some(r.value)
  {
    var existing := FindCar(store.cars, carId);
    if existing.None? {
      return Err(Internal);
    }
    if existing.value.number == body.number && existing.value.status == body.status {
      return Err(CarAlreadyExists);
    }
    var u := CarUpdate(Some(body.number), Some(body.status), None);
    FindCarAfterUpdate(store.cars, carId, u);
    store.UpdateCar(carId, u);
    return Ok(FindCar(store.cars, carId).value);
  }
}
