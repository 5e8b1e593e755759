/** Drivers, their vehicles and the bookings made with them (backend/project/myapp/views.py):
    keeping a driver's `vehicle_type`/`vehicle_id` in step with the `driver` column of the
    bus, car and bike tables, creating bookings, and accepting or rejecting a booking, which
    marks one of the driver's vehicles as booked. */
module Fleet {
  import opened Wrappers
  import opened Http
  import opened Tables
  import Serializers
  import Decimal

  datatype VehicleKind = Bus | Car | Bike {
    /** The value stored in `Driver.vehicle_type` and accepted as a request's `vehicle_type`. */
    function Name(): string {
      match this
      case Bus => "bus"
      case Car => "car"
      case Bike => "bike"
    }

    /** The capitalised name used in the handlers' messages. */
    function Label(): string {
      match this
      case Bus => "Bus"
      case Car => "Car"
      case Bike => "Bike"
    }
  }

  /** A driver row; `name` and `licenseNumber` stand for the columns that no core handler touches. */
  datatype Driver = Driver(name: string, licenseNumber: string, vehicleType: Option<VehicleKind>, vehicleId: Option<nat>)

  /** A bus, car or bike row; `details` stands for the columns that no core handler reads. */
  datatype Vehicle = Vehicle(driver: Option<int>, isBooked: bool, details: string)

  /** A `BookingRequest` row: the requesting user, the driver asked, the two addresses,
      the status and the creation instant. */
  datatype Booking = Booking(user: int, driver: int, fromAddress: string, toAddress: string,
                             status: string, createdAt: int)

  /** Python truthiness of a `driver_id`: neither None nor 0. */
  predicate Assigned(driverId: Option<int>) {
    driverId.Some? && driverId.value != 0
  }

  /** `update_driver_vehicle_info(driver_id, vehicle_type, vehicle_id)`: a falsy or unknown
      driver id changes nothing; otherwise exactly that driver's two vehicle fields are set. */
  function AssignVehicle(drivers: map<int, Driver>, driverId: Option<int>, kind: VehicleKind, vehicleId: nat): (r: map<int, Driver>)
    ensures r.Keys == drivers.Keys
    ensures forall d :: d in drivers && !(Assigned(driverId) && d == driverId.value) ==> r[d] == drivers[d]
    ensures Assigned(driverId) && driverId.value in drivers ==>
      var before := drivers[driverId.value];
      var after := r[driverId.value];
      after.vehicleType == Some(kind) && after.vehicleId == Some(vehicleId) &&
      after.name == before.name && after.licenseNumber == before.licenseNumber
  {
    if !Assigned(driverId) || driverId.value !in drivers then drivers
    else
      var id := driverId.value;
      drivers[id := drivers[id].(vehicleType := Some(kind), vehicleId := Some(vehicleId))]
  }

  /** `clear_driver_vehicle_info(driver_id)`: as above, with both fields set to None. */
  function ClearVehicle(drivers: map<int, Driver>, driverId: Option<int>): (r: map<int, Driver>)
    ensures r.Keys == drivers.Keys
    ensures forall d :: d in drivers && !(Assigned(driverId) && d == driverId.value) ==> r[d] == drivers[d]
    ensures Assigned(driverId) && driverId.value in drivers ==>
      var before := drivers[driverId.value];
      var after := r[driverId.value];
      after.vehicleType.None? && after.vehicleId.None? &&
      after.name == before.name && after.licenseNumber == before.licenseNumber
  {
    if !Assigned(driverId) || driverId.value !in drivers then drivers
    else
      var id := driverId.value;
      drivers[id := drivers[id].(vehicleType := None, vehicleId := None)]
  }

  /** The driver-change block of `update_bus`/`update_car`/`update_bike`. When the
      vehicle's driver changed, the old driver loses the vehicle and the new one gets it;
      when it did not change, no driver row is touched; no other driver changes either. */
  function SyncDriverChange(drivers: map<int, Driver>, oldDriver: Option<int>, newDriver: Option<int>,
                            kind: VehicleKind, vehicleId: nat): (r: map<int, Driver>)
    ensures r.Keys == drivers.Keys
    ensures oldDriver == newDriver ==> r == drivers
    ensures forall d ::
      (d in drivers && !(Assigned(oldDriver) && d == oldDriver.value) && !(Assigned(newDriver) && d == newDriver.value))
      ==> r[d] == drivers[d]
    ensures oldDriver != newDriver && Assigned(oldDriver) && oldDriver.value in drivers ==>
      r[oldDriver.value] == drivers[oldDriver.value].(vehicleType := None, vehicleId := None)
    ensures oldDriver != newDriver && Assigned(newDriver) && newDriver.value in drivers ==>
      r[newDriver.value] == drivers[newDriver.value].(vehicleType := Some(kind), vehicleId := Some(vehicleId))
  {
    if oldDriver == newDriver then drivers
    else
      var cleared := if Assigned(oldDriver) then ClearVehicle(drivers, oldDriver) else drivers;
      if Assigned(newDriver) then AssignVehicle(cleared, newDriver, kind, vehicleId) else cleared
  }

  /** The driver, vehicle and booking tables. */
  datatype FleetState = FleetState(drivers: map<int, Driver>, buses: Table<Vehicle>, cars: Table<Vehicle>,
                                   bikes: Table<Vehicle>, bookings: Table<Booking>) {

    ghost predicate WellFormed() {
      buses.WellFormed() && cars.WellFormed() && bikes.WellFormed() && bookings.WellFormed()
    }

    function Vehicles(kind: VehicleKind): Table<Vehicle> {
      match kind
      case Bus => buses
      case Car => cars
      case Bike => bikes
    }

    function WithVehicles(kind: VehicleKind, t: Table<Vehicle>): (r: FleetState)
      ensures r.Vehicles(kind) == t
      ensures forall k :: k != kind ==> r.Vehicles(k) == Vehicles(k)
      ensures r.drivers == drivers && r.bookings == bookings
    {
      match kind
      case Bus => this.(buses := t)
      case Car => this.(cars := t)
      case Bike => this.(bikes := t)
    }
  }

  datatype FleetStep = FleetStep(response: Response, state: FleetState)

  /** `create_bus`/`create_car`/`create_bike`: the serializer's verdict is an input; a saved
      vehicle with a driver makes that driver point at it. */
  function CreateVehicleStep(st: FleetState, kind: VehicleKind, v: Vehicle, valid: bool): (r: FleetStep)
    requires st.WellFormed()
    ensures r.state.WellFormed()
    ensures !valid ==> r == FleetStep(Response(BadRequest, ValidationErrors), st)
    ensures valid ==>
      var id := st.Vehicles(kind).nextId;
      && r.response == Response(CreatedStatus, Created(kind.Label() + " created successfully", id))
      && id !in st.Vehicles(kind).rows
      && r.state.Vehicles(kind) == st.Vehicles(kind).Insert(v)
      && r.state.drivers == AssignVehicle(st.drivers, v.driver, kind, id)
    ensures forall k :: k != kind ==> r.state.Vehicles(k) == st.Vehicles(k)
    ensures r.state.bookings == st.bookings
  {
    if !valid then FleetStep(Response(BadRequest, ValidationErrors), st)
    else
      var id := st.Vehicles(kind).nextId;
      var saved := st.WithVehicles(kind, st.Vehicles(kind).Insert(v));
      var drivers := if Assigned(v.driver) then AssignVehicle(saved.drivers, v.driver, kind, id) else saved.drivers;
      FleetStep(Response(CreatedStatus, Created(kind.Label() + " created successfully", id)), saved.(drivers := drivers))
  }

  /** `update_bus`/`update_car`/`update_bike`: replace the row with the validated input and
      move the driver assignment if the driver changed. */
  function UpdateVehicleStep(st: FleetState, kind: VehicleKind, id: nat, v: Vehicle, valid: bool): (r: FleetStep)
    requires st.WellFormed()
    ensures r.state.WellFormed()
    ensures id !in st.Vehicles(kind).rows ==> r == FleetStep(Response(NotFound, Error(kind.Label() + " not found")), st)
    ensures id in st.Vehicles(kind).rows && !valid ==> r == FleetStep(Response(BadRequest, ValidationErrors), st)
    ensures id in st.Vehicles(kind).rows && valid ==>
      && r.response == Response(Ok, Message(kind.Label() + " updated successfully"))
      && r.state.Vehicles(kind) == st.Vehicles(kind).Put(id, v)
      && r.state.drivers == SyncDriverChange(st.drivers, st.Vehicles(kind).rows[id].driver, v.driver, kind, id)
    ensures forall k :: k != kind ==> r.state.Vehicles(k) == st.Vehicles(k)
    ensures r.state.bookings == st.bookings
  {
    var t := st.Vehicles(kind);
    if id !in t.rows then FleetStep(Response(NotFound, Error(kind.Label() + " not found")), st)
    else if !valid then FleetStep(Response(BadRequest, ValidationErrors), st)
    else
      var oldDriver := t.rows[id].driver;
      var saved := st.WithVehicles(kind, t.Put(id, v));
      FleetStep(Response(Ok, Message(kind.Label() + " updated successfully")),
                saved.(drivers := SyncDriverChange(saved.drivers, oldDriver, v.driver, kind, id)))
  }

  // ---------------------------------------------------------------- bookings

  /** A field of a JSON request body: absent, a string, or some other JSON value. */
  datatype FieldValue = Missing | Text(text: string) | NonText

  const Accepted: string := "accepted"
  const Rejected: string := "rejected"

  /** The status a new booking gets from the model's default. */
  const DefaultBookingStatus: string := "pending"

  const InvalidStatus: string := "Invalid status. Choose accepted or rejected"
  const BookingNotFound: string := "Booking not found"
  const ActiveRideExists: string := "This user already has an active ride with another driver."
  const BookingRejected: string := "Booking rejected"
  const NoVehicleFound: string := "Booking accepted but no vehicle found for driver"

  /** No user has two accepted bookings. */
  ghost predicate AtMostOneAcceptedPerUser(bookings: Table<Booking>) {
    forall a, b ::
      (a in bookings.rows && b in bookings.rows && bookings.rows[a].status == Accepted &&
       bookings.rows[b].status == Accepted && bookings.rows[a].user == bookings.rows[b].user)
      ==> a == b
  }

  /** `filter(user=user, status='accepted').exclude(id=bookingId).first()` finds a row. */
  predicate OtherAccepted(bookings: Table<Booking>, user: int, bookingId: nat) {
    exists k :: k in bookings.rows && k != bookingId && bookings.rows[k].user == user && bookings.rows[k].status == Accepted
  }

  function LowerChar(c: char): char {
    if 'A' <= c <= 'Z' then (c as int + 32) as char else c
  }

  /** `str.lower()` on the ASCII letters: no capital is left, a capital becomes its small
      letter and every other character stays. */
  function Lower(s: string): (r: string)
    ensures |r| == |s|
    ensures forall i :: 0 <= i < |r| ==> !('A' <= r[i] <= 'Z')
    ensures forall i :: 0 <= i < |s| && 'A' <= s[i] <= 'Z' ==> r[i] as int == s[i] as int + 32
    ensures forall i :: 0 <= i < |s| && !('A' <= s[i] <= 'Z') ==> r[i] == s[i]
  {
    seq(|s|, i requires 0 <= i < |s| => LowerChar(s[i]))
  }

  /** `s` spells `name` with any of its small letters written as capitals. */
  predicate CaseVariant(s: string, name: string) {
    |s| == |name| &&
    forall i :: 0 <= i < |s| ==> s[i] == name[i] || ('a' <= name[i] <= 'z' && s[i] as int == name[i] as int - 32)
  }

  /** A word of small letters only. */
  predicate SmallLetters(name: string) {
    forall i :: 0 <= i < |name| ==> 'a' <= name[i] <= 'z'
  }

  /** The explicit `vehicle_type` branches of `update_booking_status`. */
  function KindNamed(s: string): (r: Option<VehicleKind>)
    ensures r.Some? <==> s in {"bus", "car", "bike"}
    ensures r.Some? ==> r.value.Name() == s
  {
    if s == "bus" then Some(Bus) else if s == "car" then Some(Car) else if s == "bike" then Some(Bike) else None
  }

  /** The `filter(driver=driver)` condition. */
  function OwnedBy(driver: int): Vehicle -> bool {
    (v: Vehicle) => v.driver == Some(driver)
  }

  /** The order in which the auto-detection loop tries the vehicle tables. */
  const DetectionOrder: seq<VehicleKind> := [Bus, Car, Bike]

  /** The first kind in `kinds` for which the driver has a vehicle, with the first such vehicle. */
  function Detect(kinds: seq<VehicleKind>, st: FleetState, driver: int): (r: Option<(VehicleKind, nat)>)
    requires st.WellFormed()
    ensures r.None? ==> forall i, id :: 0 <= i < |kinds| && id in st.Vehicles(kinds[i]).rows ==>
                          st.Vehicles(kinds[i]).rows[id].driver != Some(driver)
    ensures r.Some? ==> exists i :: 0 <= i < |kinds| && kinds[i] == r.value.0 &&
                          (forall j :: 0 <= j < i ==> st.Vehicles(kinds[j]).First(OwnedBy(driver)).None?)
    ensures r.Some? ==> st.Vehicles(r.value.0).First(OwnedBy(driver)) == Some(r.value.1)
  {
    if kinds == [] then None
    else
      match st.Vehicles(kinds[0]).First(OwnedBy(driver))
      case Some(id) => Some((kinds[0], id))
      case None =>
        var rest := Detect(kinds[1..], st, driver);
        if rest.Some? then
          assert forall i :: 0 <= i < |kinds[1..]| ==> kinds[1..][i] == kinds[i + 1];
          rest
        else
          assert forall i :: 0 < i < |kinds| ==> kinds[i] == kinds[1..][i - 1];
          rest
  }

  /** `vehicle.is_booked = True; vehicle.save()`. */
  function MarkBooked(st: FleetState, kind: VehicleKind, id: nat): (r: FleetState)
    requires id in st.Vehicles(kind).rows
    ensures r.Vehicles(kind).rows.Keys == st.Vehicles(kind).rows.Keys
    ensures r.Vehicles(kind).rows[id] == st.Vehicles(kind).rows[id].(isBooked := true)
    ensures forall j :: j in st.Vehicles(kind).rows && j != id ==> r.Vehicles(kind).rows[j] == st.Vehicles(kind).rows[j]
    ensures r.Vehicles(kind).nextId == st.Vehicles(kind).nextId
    ensures forall k :: k != kind ==> r.Vehicles(k) == st.Vehicles(k)
    ensures r.drivers == st.drivers && r.bookings == st.bookings
  {
    var t := st.Vehicles(kind);
    st.WithVehicles(kind, t.Put(id, t.rows[id].(isBooked := true)))
  }

  /** The part of `update_booking_status` after the status is saved, on acceptance: mark the
      driver's first vehicle of the requested type, or auto-detect one. */
  function AcceptStep(saved: FleetState, driver: int, vehicleType: string): (r: FleetStep)
    requires saved.WellFormed()
    ensures r.state.WellFormed()
    ensures r.state.drivers == saved.drivers && r.state.bookings == saved.bookings
    ensures r.response.status in {Ok, NotFound}
    ensures KindNamed(vehicleType).Some? ==>
      var k := KindNamed(vehicleType).value;
      match saved.Vehicles(k).First(OwnedBy(driver))
      case Some(id) => r == FleetStep(Response(Ok, Message("Booking accepted and " + vehicleType + " marked as booked")),
                                      MarkBooked(saved, k, id))
      case None => r == FleetStep(Response(NotFound, Error("No " + vehicleType + " found for this driver")), saved)
    ensures KindNamed(vehicleType).None? ==>
      match Detect(DetectionOrder, saved, driver)
      case Some((k, id)) =>
        r == FleetStep(Response(Ok, Message("Booking accepted and " + k.Name() + " marked as booked (auto-detected)")),
                       MarkBooked(saved, k, id))
      case None => r == FleetStep(Response(Ok, Message(NoVehicleFound)), saved)
  {
    match KindNamed(vehicleType)
    case Some(k) =>
      (match saved.Vehicles(k).First(OwnedBy(driver))
       case Some(id) => FleetStep(Response(Ok, Message("Booking accepted and " + vehicleType + " marked as booked")),
                                  MarkBooked(saved, k, id))
       case None => FleetStep(Response(NotFound, Error("No " + vehicleType + " found for this driver")), saved))
    case None =>
      match Detect(DetectionOrder, saved, driver)
      case Some((k, id)) =>
        FleetStep(Response(Ok, Message("Booking accepted and " + k.Name() + " marked as booked (auto-detected)")),
                  MarkBooked(saved, k, id))
      case None => FleetStep(Response(Ok, Message(NoVehicleFound)), saved)
  }

  /** `update_booking_status(booking_id)` with the body's `status` and `vehicle_type`. */
  function StatusStep(st: FleetState, bookingId: nat, status: FieldValue, vehicleType: FieldValue): (r: FleetStep)
    requires st.WellFormed()
    ensures r.state.WellFormed()
    ensures r.state.drivers == st.drivers
    ensures vehicleType.NonText? ==> r == FleetStep(Response(InternalError, ServerError), st)
    ensures !vehicleType.NonText? && status != Text(Accepted) && status != Text(Rejected) ==>
      r == FleetStep(Response(BadRequest, Error(InvalidStatus)), st)
    ensures !vehicleType.NonText? && status in {Text(Accepted), Text(Rejected)} && bookingId !in st.bookings.rows ==>
      r == FleetStep(Response(NotFound, Error(BookingNotFound)), st)
    ensures r.state.bookings.rows == st.bookings.rows ||
      (bookingId in st.bookings.rows && status.Text? &&
       r.state.bookings == st.bookings.Put(bookingId, st.bookings.rows[bookingId].(status := status.text)))
    ensures AtMostOneAcceptedPerUser(st.bookings) ==> AtMostOneAcceptedPerUser(r.state.bookings)
  {
    if vehicleType.NonText? then FleetStep(Response(InternalError, ServerError), st)
    else
      var vt := if vehicleType.Text? then Lower(vehicleType.text) else "";
      if status != Text(Accepted) && status != Text(Rejected) then
        FleetStep(Response(BadRequest, Error(InvalidStatus)), st)
      else if bookingId !in st.bookings.rows then
        FleetStep(Response(NotFound, Error(BookingNotFound)), st)
      else
        var booking := st.bookings.rows[bookingId];
        if status.text == Accepted && OtherAccepted(st.bookings, booking.user, bookingId) then
          FleetStep(Response(BadRequest, Error(ActiveRideExists)), st)
        else
          var saved := st.(bookings := st.bookings.Put(bookingId, booking.(status := status.text)));
          assert AtMostOneAcceptedPerUser(st.bookings) ==> AtMostOneAcceptedPerUser(saved.bookings);
          if status.text == Accepted then AcceptStep(saved, booking.driver, vt)
          else FleetStep(Response(Ok, Message(BookingRejected)), saved)
  }

  /** `create_booking`'s key rename: a body with `driver` and no `drivers` has the value
      moved to `drivers`; any other body is left as it is. */
  function RenameDriverKey(data: map<string, string>): (r: map<string, string>)
    ensures "driver" in data && "drivers" !in data ==>
      r.Keys == data.Keys - {"driver"} + {"drivers"} && r["drivers"] == data["driver"]
    ensures !("driver" in data && "drivers" !in data) ==> r == data
    ensures forall k :: k in r && k != "drivers" ==> k in data && r[k] == data[k]
  {
    if "driver" in data && "drivers" !in data then (data - {"driver"})["drivers" := data["driver"]] else data
  }

  /** The validated fields of a new booking: the serializer cannot yield a status. */
  datatype NewBooking = NewBooking(user: int, driver: int, fromAddress: string, toAddress: string)

  /** The model's name for the booked driver's column: the rename is there "to match model
      field" `drivers`, the new row's driver is read back as `booking.drivers` and a driver's
      bookings are filtered on `drivers_id`. */
  const DriverColumn: string := "drivers"

  /** `serializer.save()`, that is `BookingRequest.objects.create(**validated_data)` with the
      driver passed under the serializer's name for it. The model raises `TypeError` on a
      keyword that is not one of its fields, so a row is written exactly when that name is
      the model's column. */
  function SaveBooking(bookings: Table<Booking>, driverField: string, nb: NewBooking, now: int): (r: Option<Table<Booking>>)
    requires bookings.WellFormed()
    ensures r.Some? <==> driverField == DriverColumn
    ensures r.Some? ==> r.value == bookings.Insert(Booking(nb.user, nb.driver, nb.fromAddress, nb.toAddress, DefaultBookingStatus, now))
  {
    if driverField == DriverColumn then
      Some(bookings.Insert(Booking(nb.user, nb.driver, nb.fromAddress, nb.toAddress, DefaultBookingStatus, now)))
    else None
  }

  /** `create_booking` with a booking serializer that names the driver `driverField`. The
      serializer sees only its writable fields of the renamed body; a body missing one of its
      required fields is refused, on the others its verdict is an input, yielding the
      validated fields or a refusal. A save that raises is answered with 500. */
  function CreateBookingWith(st: FleetState, data: map<string, string>, driverField: string,
                             serializer: map<string, string> -> Option<NewBooking>, now: int): (r: FleetStep)
    requires st.WellFormed() && driverField !in Serializers.BookingReadOnlyFields
    ensures r.state.WellFormed()
    ensures r.state.drivers == st.drivers
    ensures forall k :: r.state.Vehicles(k) == st.Vehicles(k)
    ensures var input := Serializers.BookingInput(driverField, RenameDriverKey(data));
      !Serializers.BookingRequiredPresent(driverField, input) || serializer(input).None? ==>
        r == FleetStep(Response(BadRequest, ValidationErrors), st)
    ensures var input := Serializers.BookingInput(driverField, RenameDriverKey(data));
      Serializers.BookingRequiredPresent(driverField, input) && serializer(input).Some? && driverField != DriverColumn ==>
        r == FleetStep(Response(InternalError, ServerError), st)
    ensures var input := Serializers.BookingInput(driverField, RenameDriverKey(data));
      Serializers.BookingRequiredPresent(driverField, input) && serializer(input).Some? && driverField == DriverColumn ==>
        var nb := serializer(input).value;
        var id := st.bookings.nextId;
        && r.state.bookings == st.bookings.Insert(
             Booking(nb.user, nb.driver, nb.fromAddress, nb.toAddress, DefaultBookingStatus, now))
        && r.response == Response(CreatedStatus, BookingCreated(id, nb.driver, DefaultBookingStatus, now))
    ensures AtMostOneAcceptedPerUser(st.bookings) ==> AtMostOneAcceptedPerUser(r.state.bookings)
  {
    var input := Serializers.BookingInput(driverField, RenameDriverKey(data));
    if !Serializers.BookingRequiredPresent(driverField, input) then FleetStep(Response(BadRequest, ValidationErrors), st)
    else
      match serializer(input)
      case None => FleetStep(Response(BadRequest, ValidationErrors), st)
      case Some(nb) =>
        match SaveBooking(st.bookings, driverField, nb, now)
        case None => FleetStep(Response(InternalError, ServerError), st)
        case Some(bookings) =>
          FleetStep(Response(CreatedStatus, BookingCreated(st.bookings.nextId, nb.driver, DefaultBookingStatus, now)),
                    st.(bookings := bookings))
  }

  /** `create_booking` as written: the serializer declares `driver`, which is not the model's
      column, so no request ever creates a booking. A body the serializer accepts makes the
      save raise (500), any other is refused (400), and the tables never change. */
  function CreateBookingStep(st: FleetState, data: map<string, string>,
                             serializer: map<string, string> -> Option<NewBooking>, now: int): (r: FleetStep)
    requires st.WellFormed()
    ensures r.state == st
    ensures var input := Serializers.BookingInput(Serializers.DeclaredDriverField, RenameDriverKey(data));
      r.response == if Serializers.BookingRequiredPresent(Serializers.DeclaredDriverField, input) && serializer(input).Some?
                    then Response(InternalError, ServerError) else Response(BadRequest, ValidationErrors)
  {
    CreateBookingWith(st, data, Serializers.DeclaredDriverField, serializer, now)
  }

  /** `create_booking` with the serializer naming the driver by the model's column, as the
      rename intends: a client's `driver` is moved to `drivers`, validated and saved. */
  function IntendedCreateBookingStep(st: FleetState, data: map<string, string>,
                                     serializer: map<string, string> -> Option<NewBooking>, now: int): (r: FleetStep)
    requires st.WellFormed()
    ensures r.state.drivers == st.drivers
    ensures forall k :: r.state.Vehicles(k) == st.Vehicles(k)
    ensures r.response.status == CreatedStatus || r == FleetStep(Response(BadRequest, ValidationErrors), st)
    ensures AtMostOneAcceptedPerUser(st.bookings) ==> AtMostOneAcceptedPerUser(r.state.bookings)
  {
    CreateBookingWith(st, data, DriverColumn, serializer, now)
  }

  // ---------------------------------------------------------------- properties

  /** A successful vehicle update leaves the new driver pointing at the vehicle and, when the
      driver changed, the previous driver pointing at nothing. */
  lemma UpdateMovesAssignment(st: FleetState, kind: VehicleKind, id: nat, v: Vehicle)
    requires st.WellFormed() && id in st.Vehicles(kind).rows
    ensures var r := UpdateVehicleStep(st, kind, id, v, true);
      var previous := st.Vehicles(kind).rows[id].driver;
      && (Assigned(v.driver) && v.driver.value in st.drivers && previous != v.driver ==>
            r.state.drivers[v.driver.value].vehicleType == Some(kind) &&
            r.state.drivers[v.driver.value].vehicleId == Some(id))
      && (Assigned(previous) && previous.value in st.drivers && previous != v.driver &&
          !(Assigned(v.driver) && v.driver.value == previous.value) ==>
            r.state.drivers[previous.value].vehicleType.None? &&
            r.state.drivers[previous.value].vehicleId.None?)
      && (previous == v.driver ==> r.state.drivers == st.drivers)
  {
  }

  /** Rejecting an existing booking only stores the new status. */
  lemma RejectOnlySetsStatus(st: FleetState, bookingId: nat, vehicleType: FieldValue)
    requires st.WellFormed() && bookingId in st.bookings.rows && !vehicleType.NonText?
    ensures StatusStep(st, bookingId, Text(Rejected), vehicleType) ==
      FleetStep(Response(Ok, Message(BookingRejected)),
                st.(bookings := st.bookings.Put(bookingId, st.bookings.rows[bookingId].(status := Rejected))))
  {
  }

  /** Accepting a booking whose user already has another accepted booking is refused and
      changes nothing; otherwise the status is stored before any vehicle lookup, whatever
      the lookup then finds. */
  lemma AcceptStoresStatusFirst(st: FleetState, bookingId: nat, vehicleType: FieldValue)
    requires st.WellFormed() && bookingId in st.bookings.rows && !vehicleType.NonText?
    ensures var b := st.bookings.rows[bookingId];
      var r := StatusStep(st, bookingId, Text(Accepted), vehicleType);
      var vt := if vehicleType.Text? then Lower(vehicleType.text) else "";
      && (OtherAccepted(st.bookings, b.user, bookingId) ==>
            r == FleetStep(Response(BadRequest, Error(ActiveRideExists)), st))
      && (!OtherAccepted(st.bookings, b.user, bookingId) ==>
            r == AcceptStep(st.(bookings := st.bookings.Put(bookingId, b.(status := Accepted))), b.driver, vt))
  {
  }

  /** After an accepted status update that was not refused, the booking is its user's only
      accepted booking. */
  lemma {:induction false} AcceptedBookingIsExclusive(st: FleetState, bookingId: nat, vehicleType: FieldValue)
    requires st.WellFormed() && bookingId in st.bookings.rows && !vehicleType.NonText?
    requires StatusStep(st, bookingId, Text(Accepted), vehicleType).response.status != BadRequest
    ensures var rows := StatusStep(st, bookingId, Text(Accepted), vehicleType).state.bookings.rows;
      && bookingId in rows && rows[bookingId].status == Accepted
      && forall k :: k in rows && k != bookingId && rows[k].user == rows[bookingId].user ==> rows[k].status != Accepted
  {
    var b := st.bookings.rows[bookingId];
    AcceptStoresStatusFirst(st, bookingId, vehicleType);
    assert !OtherAccepted(st.bookings, b.user, bookingId);
    var rows := StatusStep(st, bookingId, Text(Accepted), vehicleType).state.bookings.rows;
    assert rows == st.bookings.rows[bookingId := b.(status := Accepted)];
  }

  /** The auto-detection tries buses, then cars, then bikes. */
  lemma {:induction false} DetectionOrderIsBusCarBike(st: FleetState, driver: int)
    requires st.WellFormed()
    ensures var owned := (k: VehicleKind) => st.Vehicles(k).First(OwnedBy(driver));
      var r := Detect(DetectionOrder, st, driver);
      && (owned(Bus).Some? ==> r == Some((Bus, owned(Bus).value)))
      && (owned(Bus).None? && owned(Car).Some? ==> r == Some((Car, owned(Car).value)))
      && (owned(Bus).None? && owned(Car).None? && owned(Bike).Some? ==> r == Some((Bike, owned(Bike).value)))
      && (owned(Bus).None? && owned(Car).None? && owned(Bike).None? ==> r.None?)
  {
    assert DetectionOrder[1..] == [Car, Bike];
    assert [Car, Bike][1..] == [Bike];
    assert [Bike][1..] == [];
    var bikeOnly := Detect([Bike], st, driver);
    assert bikeOnly == match st.Vehicles(Bike).First(OwnedBy(driver))
                       case Some(id) => Some((Bike, id))
                       case None => Detect([], st, driver);
  }

  /** Lowering is idempotent. */
  lemma LowerIsIdempotent(s: string)
    ensures Lower(Lower(s)) == Lower(s)
  {
  }

  /** Lowering gives a word of small letters exactly when the input is a case variant of it. */
  lemma {:induction false} LowerMatchesCaseVariants(s: string, name: string)
    requires SmallLetters(name)
    ensures Lower(s) == name <==> CaseVariant(s, name)
  {
    if CaseVariant(s, name) {
      forall i | 0 <= i < |s|
        ensures Lower(s)[i] == name[i]
      {
        if s[i] != name[i] {
          assert 'A' <= s[i] <= 'Z';
        }
      }
    }
  }

  /** A `vehicle_type` selects a kind exactly when it spells the kind's name in any mix of
      small letters and capitals. */
  lemma {:induction false} CaseVariantSelects(k: VehicleKind, s: string)
    ensures KindNamed(Lower(s)) == Some(k) <==> CaseVariant(s, k.Name())
  {
    assert SmallLetters(k.Name());
    LowerMatchesCaseVariants(s, k.Name());
  }

  /** A new booking is never accepted, so creating one cannot give a user a second accepted
      booking. */
  lemma CreatedBookingIsPending(st: FleetState, data: map<string, string>,
                                serializer: map<string, string> -> Option<NewBooking>, now: int)
    requires st.WellFormed()
    ensures var r := IntendedCreateBookingStep(st, data, serializer, now);
      r.response.status == CreatedStatus ==>
        r.response.body.BookingCreated? && r.response.body.bookingId in r.state.bookings.rows &&
        r.state.bookings.rows[r.response.body.bookingId].status == DefaultBookingStatus != Accepted
  {
  }

  /** The rename leaves a body without `driver`, or with both keys, untouched, and renaming
      twice is renaming once. */
  lemma RenameIsIdempotent(data: map<string, string>)
    ensures RenameDriverKey(RenameDriverKey(data)) == RenameDriverKey(data)
  {
  }

  /** The booking serializer declares `driver`, but the rename moves that key to `drivers`,
      which is not one of its fields: the serializer sees a `driver` value only when the body
      carried both keys. */
  lemma RenamedDriverNeverReachesSerializer(data: map<string, string>)
    ensures var input := Serializers.BookingInput(Serializers.DeclaredDriverField, RenameDriverKey(data));
      && "drivers" !in input
      && ("driver" in input <==> "driver" in data && "drivers" in data)
  {
  }

  /** A body that names the driver only under `driver` is always refused with 400 and
      changes nothing, whatever else it carries: the rename takes away the serializer's
      required `driver` field. */
  lemma {:induction false} DriverOnlyBodyIsRefused(st: FleetState, data: map<string, string>,
                                                   serializer: map<string, string> -> Option<NewBooking>, now: int)
    requires st.WellFormed() && "driver" in data && "drivers" !in data
    ensures CreateBookingStep(st, data, serializer, now) == FleetStep(Response(BadRequest, ValidationErrors), st)
  {
    RenamedDriverNeverReachesSerializer(data);
  }

  /** A body with both keys and a user, accepted by the serializer, reaches the save, which
      raises: 500 and nothing written. */
  lemma {:induction false} BothKeysBodyFailsOnSave(st: FleetState, data: map<string, string>,
                                                   serializer: map<string, string> -> Option<NewBooking>, now: int)
    requires st.WellFormed() && "driver" in data && "drivers" in data && "user" in data
    requires serializer(Serializers.BookingInput(Serializers.DeclaredDriverField, data)).Some?
    ensures CreateBookingStep(st, data, serializer, now) == FleetStep(Response(InternalError, ServerError), st)
  {
    assert RenameDriverKey(data) == data;
  }

  /** With the serializer naming the model's column, a body naming the driver `driver` is
      validated under `drivers` and, when accepted, answered 201 with the validated booking
      inserted. When the serializer resolves the driver to the primary key the client sent,
      the stored driver is the client's. */
  lemma {:induction false} IntendedDriverOnlyBodyIsCreated(st: FleetState, data: map<string, string>,
                                                           serializer: map<string, string> -> Option<NewBooking>, now: int)
    requires st.WellFormed() && "driver" in data && "drivers" !in data && "user" in data
    requires serializer(Serializers.BookingInput(DriverColumn, RenameDriverKey(data))).Some?
    ensures var nb := serializer(Serializers.BookingInput(DriverColumn, RenameDriverKey(data))).value;
      var r := IntendedCreateBookingStep(st, data, serializer, now);
      && Serializers.BookingInput(DriverColumn, RenameDriverKey(data))[DriverColumn] == data["driver"]
      && r.state.bookings == st.bookings.Insert(Booking(nb.user, nb.driver, nb.fromAddress, nb.toAddress, DefaultBookingStatus, now))
      && r.response == Response(CreatedStatus, BookingCreated(st.bookings.nextId, nb.driver, DefaultBookingStatus, now))
      && (nb.driver >= 0 && Decimal.NatToDecimal(nb.driver) == data["driver"] ==>
            Decimal.NatToDecimal(r.state.bookings.rows[st.bookings.nextId].driver) == data["driver"])
  {
    var input := Serializers.BookingInput(DriverColumn, RenameDriverKey(data));
    assert "user" in input && DriverColumn in input;
  }

  /** The service object: the four tables as fields, updated in place by the handlers. */
  class FleetService {
    var drivers: map<int, Driver>
    var buses: Table<Vehicle>
    var cars: Table<Vehicle>
    var bikes: Table<Vehicle>
    var bookings: Table<Booking>

    ghost predicate Valid()
      reads this
    {
      State().WellFormed()
    }

    function State(): FleetState
      reads this
    {
      FleetState(drivers, buses, cars, bikes, bookings)
    }

    constructor(drivers: map<int, Driver>)
      ensures Valid()
      ensures State() == FleetState(drivers, Empty(), Empty(), Empty(), Empty())
    {
      this.drivers := drivers;
      buses, cars, bikes := Empty(), Empty(), Empty();
      bookings := Empty();
    }

    function VehiclesOf(kind: VehicleKind): (t: Table<Vehicle>)
      reads this
      ensures t == State().Vehicles(kind)
    {
      match kind
      case Bus => buses
      case Car => cars
      case Bike => bikes
    }

    method SetVehicles(kind: VehicleKind, t: Table<Vehicle>)
      modifies this
      ensures State() == old(State()).WithVehicles(kind, t)
    {
      match kind
      case Bus => buses := t;
      case Car => cars := t;
      case Bike => bikes := t;
    }

    /** `update_driver_vehicle_info`. */
    method UpdateDriverVehicleInfo(driverId: Option<int>, kind: VehicleKind, vehicleId: nat)
      modifies this
      ensures State() == old(State()).(drivers := AssignVehicle(old(drivers), driverId, kind, vehicleId))
    {
      if !Assigned(driverId) {
        return;
      }
      if driverId.value in drivers {
        var driver := drivers[driverId.value];
        driver := driver.(vehicleType := Some(kind));
        driver := driver.(vehicleId := Some(vehicleId));
        drivers := drivers[driverId.value := driver];
      }
    }

    /** `clear_driver_vehicle_info`. */
    method ClearDriverVehicleInfo(driverId: Option<int>)
      modifies this
      ensures State() == old(State()).(drivers := ClearVehicle(old(drivers), driverId))
    {
      if !Assigned(driverId) {
        return;
      }
      if driverId.value in drivers {
        var driver := drivers[driverId.value];
        driver := driver.(vehicleType := None);
        driver := driver.(vehicleId := None);
        drivers := drivers[driverId.value := driver];
      }
    }

    method CreateVehicle(kind: VehicleKind, v: Vehicle, valid: bool) returns (response: Response)
      requires Valid()
      modifies this
      ensures Valid()
      ensures FleetStep(response, State()) == CreateVehicleStep(old(State()), kind, v, valid)
    {
      if !valid {
        return Response(BadRequest, ValidationErrors);
      }
      var t := VehiclesOf(kind);
      var id := t.nextId;
      SetVehicles(kind, t.Insert(v));
      if Assigned(v.driver) {
        UpdateDriverVehicleInfo(v.driver, kind, id);
      }
      response := Response(CreatedStatus, Created(kind.Label() + " created successfully", id));
    }

    method UpdateVehicle(kind: VehicleKind, id: nat, v: Vehicle, valid: bool) returns (response: Response)
      requires Valid()
      modifies this
      ensures Valid()
      ensures FleetStep(response, State()) == UpdateVehicleStep(old(State()), kind, id, v, valid)
    {
      var t := VehiclesOf(kind);
      if id !in t.rows {
        return Response(NotFound, Error(kind.Label() + " not found"));
      }
      var oldDriver := t.rows[id].driver;
      if !valid {
        return Response(BadRequest, ValidationErrors);
      }
      SetVehicles(kind, t.Put(id, v));
      var newDriver := v.driver;
      if oldDriver != newDriver {
        if Assigned(oldDriver) {
          ClearDriverVehicleInfo(oldDriver);
        }
        if Assigned(newDriver) {
          UpdateDriverVehicleInfo(newDriver, kind, id);
        }
      }
      response := Response(Ok, Message(kind.Label() + " updated successfully"));
    }

    method MarkVehicleBooked(kind: VehicleKind, id: nat)
      requires id in State().Vehicles(kind).rows
      modifies this
      ensures State() == MarkBooked(old(State()), kind, id)
    {
      var t := VehiclesOf(kind);
      var vehicle := t.rows[id];
      vehicle := vehicle.(isBooked := true);
      SetVehicles(kind, t.Put(id, vehicle));
    }

    method UpdateBookingStatus(bookingId: nat, status: FieldValue, vehicleType: FieldValue) returns (response: Response)
      requires Valid()
      modifies this
      ensures Valid()
      ensures FleetStep(response, State()) == StatusStep(old(State()), bookingId, status, vehicleType)
    {
      if vehicleType.NonText? {
        return Response(InternalError, ServerError);
      }
      var vt := if vehicleType.Text? then Lower(vehicleType.text) else "";
      if status != Text(Accepted) && status != Text(Rejected) {
        return Response(BadRequest, Error(InvalidStatus));
      }
      if bookingId !in bookings.rows {
        return Response(NotFound, Error(BookingNotFound));
      }
      var booking := bookings.rows[bookingId];
      if status.text == Accepted && OtherAccepted(bookings, booking.user, bookingId) {
        return Response(BadRequest, Error(ActiveRideExists));
      }
      bookings := bookings.Put(bookingId, booking.(status := status.text));
      if status.text != Accepted {
        return Response(Ok, Message(BookingRejected));
      }
      response := Accept(booking.driver, vt);
    }

    /** The acceptance part of `update_booking_status`, after the status is saved: mark the
        named kind's vehicle, or auto-detect one. */
    method Accept(driver: int, vt: string) returns (response: Response)
      requires Valid()
      modifies this
      ensures Valid()
      ensures FleetStep(response, State()) == AcceptStep(old(State()), driver, vt)
    {
      var kind := KindNamed(vt);
      if kind.Some? {
        var vehicle := VehiclesOf(kind.value).First(OwnedBy(driver));
        if vehicle.Some? {
          MarkVehicleBooked(kind.value, vehicle.value);
          return Response(Ok, Message("Booking accepted and " + vt + " marked as booked"));
        }
        return Response(NotFound, Error("No " + vt + " found for this driver"));
      }
      ghost var saved := State();
      var order := DetectionOrder;
      var i := 0;
      while i < |order|
        invariant 0 <= i <= |order|
        invariant State() == saved
        invariant Detect(order, saved, driver) == Detect(order[i..], saved, driver)
      {
        var vehicle := VehiclesOf(order[i]).First(OwnedBy(driver));
        if vehicle.Some? {
          MarkVehicleBooked(order[i], vehicle.value);
          return Response(Ok, Message("Booking accepted and " + order[i].Name() + " marked as booked (auto-detected)"));
        }
        assert order[i..][1..] == order[i + 1..];
        i := i + 1;
      }
      response := Response(Ok, Message(NoVehicleFound));
    }

    method CreateBooking(data: map<string, string>, driverField: string,
                         serializer: map<string, string> -> Option<NewBooking>, now: int)
      returns (response: Response)
      requires Valid() && driverField !in Serializers.BookingReadOnlyFields
      modifies this
      ensures Valid()
      ensures FleetStep(response, State()) == CreateBookingWith(old(State()), data, driverField, serializer, now)
    {
      var renamed := RenameDriverKey(data);
      var input := Serializers.BookingInput(driverField, renamed);
      if !Serializers.BookingRequiredPresent(driverField, input) {
        return Response(BadRequest, ValidationErrors);
      }
      var validated := serializer(input);
      if validated.None? {
        return Response(BadRequest, ValidationErrors);
      }
      var nb := validated.value;
      var id := bookings.nextId;
      var saved := SaveBooking(bookings, driverField, nb, now);
      if saved.None? {
        return Response(InternalError, ServerError);
      }
      bookings := saved.value;
      response := Response(CreatedStatus, BookingCreated(id, nb.driver, DefaultBookingStatus, now));
    }
  }
}
