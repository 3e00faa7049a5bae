/** The value types shared by every part of the desk-booking system:
    the enums of types.ts, the reservation and settings records, the
    session row, and the two wrappers through which operations report
    domain errors (Result) and store faults (Attempt). */
module Domain {

  datatype Option<+T> = None | Some(value: T)
  {
    function GetOr(default: T): T
    {
      match this
      case Some(v) => v
      case None => default
    }
  }

  datatype Role = Admin | Member

  datatype Slot = Morning | Afternoon

  datatype Status = Confirmed | Cancelled

  /** The five domain errors of the admission engine. */
  datatype ReservationError = Full | Duplicate | TooLate | NotFound | Unauthorized

  /** `{success: true, data} | {success: false, error}`. */
  datatype Result<+T> = Success(data: T) | Failure(error: ReservationError)

  /** An error thrown by the store: the Prisma error code, if any, and the message. */
  datatype StoreError = StoreError(code: Option<string>, message: string)

  /** What an awaited store operation does: return a value, or throw. */
  datatype Attempt<+T> = Returned(value: T) | Threw(fault: StoreError)

  type UserId = string
  type Token = string
  type ReservationId = nat

  /** Days since 1970-01-01 in the deployment's local time zone. */
  type Day = int

  /** Milliseconds since the local epoch (one fixed zone, no daylight saving). */
  type Instant = int

  /** A reservation row; `day` is the stored date (local midnight of that day). */
  datatype Reservation = Reservation(
    id: ReservationId,
    userId: UserId,
    day: Day,
    slot: Slot,
    status: Status,
    reminderSentAt: Option<Instant>)

  /** The coworking settings row (a singleton). */
  datatype Settings = Settings(
    totalDesks: int,
    morningStartHour: int,
    morningEndHour: int,
    afternoonStartHour: int,
    afternoonEndHour: int)

  /** The row created when none exists: 10 desks, morning 8-13, afternoon 13-18. */
  const DefaultSettings := Settings(10, 8, 13, 13, 18)

  /** The part of a user row the authentication gate reads. */
  datatype AuthUser = AuthUser(id: UserId, role: Role)

  /** A session row, keyed by its token in the session table. */
  datatype Session = Session(userId: UserId, expiresAt: Instant)
}
