/**
 * Data model shared by the repositories and services: the reservation row,
 * the reference tables (vehicle types, reservation times, spaces, prices),
 * the error conditions the core reports, and the database those tables live in.
 *
 * Times are nanoseconds since the Unix epoch, as Go's `time.Duration` counts them.
 */
module Models {

  datatype Option<T> = None | Some(value: T)

  /** Every error the modelled core returns, one variant per distinct condition. */
  datatype Error =
    | InvalidWindow                        // end time not after start time
    | NoPoolIds                            // the space-pool resolver found no vehicle type
    | NotConfigured(vehicleTypeId: int)    // no vehicle_spaces row for the pool's id
    | NoPrice(vehicleTypeId: int, reservationTimeId: int)
    | NotFound(code: string)               // no reservation row with that code
    | NoSession(code: string)              // user cancel of a reservation never paid through Stripe
    | CancelCutoff                         // user cancel less than 12 hours before the start
    | UnsupportedPaymentMethod(methodId: int)
    | UnknownVehicleType(name: string)
    | UnknownTimeName(name: string)
    | Upstream(message: string)            // an error reported by the payment provider
    | Store(message: string)               // an error reported by the database

  datatype Result<T> = Ok(value: T) | Err(error: Error)

  const OneHour: int := 3_600_000_000_000
  const OneDay: int := 24 * OneHour
  const OneWeek: int := 7 * OneDay
  const OneMonth: int := 30 * OneDay

  const StatusPending: string := "pending"
  const StatusActive: string := "active"
  const StatusCanceled: string := "canceled"
  const StatusFinished: string := "finished"

  datatype VehicleType = VehicleType(id: int, name: string)

  datatype ReservationTime = ReservationTime(id: int, name: string)

  /** One row of the `reservations` table. */
  datatype Reservation = Reservation(
    id: int,
    code: string,
    userName: string,
    userEmail: string,
    userPhone: string,
    vehicleTypeId: int,
    vehiclePlate: string,
    vehicleModel: string,
    paymentMethodId: int,
    status: string,
    startTime: int,
    endTime: int,
    createdAt: int,
    updatedAt: int,
    stripeSessionId: string,
    paymentStatus: string,
    language: string,
    totalPrice: Option<int>)

  /** What a client sends to book, check or price a window. */
  datatype ReservationRequest = ReservationRequest(
    vehicleTypeId: int,
    vehicleTypeName: string,
    userName: string,
    userEmail: string,
    userPhone: string,
    vehiclePlate: string,
    vehicleModel: string,
    paymentMethodId: int,
    startTime: int,
    endTime: int,
    language: string,
    totalPrice: int)

  /** All ids of the rows are distinct. */
  ghost predicate DistinctIds(rows: seq<Reservation>)
  {
    forall i, j :: 0 <= i < j < |rows| ==> rows[i].id != rows[j].id
  }

  /**
   * The relational store. `spaces` is the vehicle_spaces table keyed by vehicle
   * type id; `prices` is vehicle_prices keyed by (vehicle type id, reservation
   * time id), so at most one price exists per pair; `nextId` is the serial
   * sequence that hands out reservation ids.
   */
  class Database {
    var reservations: seq<Reservation>
    var nextId: int
    var vehicleTypes: seq<VehicleType>
    var reservationTimes: seq<ReservationTime>
    var spaces: map<int, int>
    var prices: map<(int, int), int>

    ghost predicate Valid()
      reads this
    {
      DistinctIds(reservations) &&
      forall i :: 0 <= i < |reservations| ==> reservations[i].id < nextId
    }

    constructor (types: seq<VehicleType>, times: seq<ReservationTime>,
                 spaces: map<int, int>, prices: map<(int, int), int>)
      ensures Valid()
      ensures reservations == [] && vehicleTypes == types && reservationTimes == times
      ensures this.spaces == spaces && this.prices == prices
    {
      reservations := [];
      nextId := 1;
      vehicleTypes := types;
      reservationTimes := times;
      this.spaces := spaces;
      this.prices := prices;
    }
  }
}
