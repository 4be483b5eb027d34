/**
 * The persistent records of the appointment marketplace (the Sequelize
 * models), with their enumerations, defaults and validators.
 *
 * Timestamps are integers in milliseconds since the epoch.  Money
 * (DECIMAL(10, 2) columns) is an integer number of cents.
 */
module Records {

  datatype Option<+T> = None | Some(value: T)

  datatype Result<+T, +E> = Ok(value: T) | Err(error: E)

  /** Length of one bookable block: 40 minutes. */
  const BlockMs: int := 40 * 60 * 1000

  /** The cancellation lead time: 24 hours. */
  const DayMs: int := 24 * 60 * 60 * 1000

  /** JavaScript truthiness of a numeric request field: absent and 0 are falsy. */
  predicate Truthy(x: Option<int>) {
    x.Some? && x.value != 0
  }

  /** Truthiness of a string request field: absent and "" are falsy. */
  predicate TruthyText(x: Option<string>) {
    x.Some? && x.value != ""
  }

  datatype Role = Admin | Profesional | Paciente

  /** A user row: only the attributes the core reads. */
  datatype User = User(id: int, role: Role, ratePerHour: Option<int>)

  /** ENUM('pending', 'confirmed', 'cancelled', 'completed'), NOT NULL. */
  datatype AppointmentStatus = Pending | Confirmed | Cancelled | Completed

  /** ENUM('none', 'pending_approval', 'approved', 'rejected'). */
  datatype CancellationStatus = NoCancellation | PendingApproval | Approved | Rejected

  /**
   * An appointment row.  scheduledTime and totalPrice are NOT NULL; the
   * model has no cancellation_initiator or cancellation_requested_at
   * attribute, so those are not part of the row.
   */
  datatype Appointment = Appointment(
    id: int,
    professionalId: int,
    patientId: int,
    scheduledTime: int,
    status: AppointmentStatus,
    totalPrice: int,
    cancellationStatus: CancellationStatus,
    cancellationReason: Option<string>)

  /** A row inserted with only the required attributes gets the schema's defaults. */
  function NewAppointment(id: int, professionalId: int, patientId: int, scheduledTime: int, totalPrice: int): Appointment
  {
    Appointment(id, professionalId, patientId, scheduledTime, Pending, totalPrice, NoCancellation, None)
  }

  /**
   * An availability interval.  Both ends are NOT NULL; the schema does not
   * require availableFrom < availableTo.
   */
  datatype Schedule = Schedule(id: int, professionalId: int, availableFrom: int, availableTo: int)

  /** ENUM('pending', 'completed', 'failed'), default 'pending'. */
  datatype PaymentStatus = PaymentPending | PaymentCompleted | PaymentFailed

  /** A payment row; method and amount are NOT NULL. */
  datatype Payment = Payment(
    id: int,
    appointmentId: int,
    paymentMethod: string,
    paymentStatus: PaymentStatus,
    paymentDate: int,
    amount: int)

  /** The model-level validator of evaluations.rating: an integer in 1..5. */
  predicate ValidRating(rating: int) {
    1 <= rating <= 5
  }

  /**
   * An evaluation row.  The three ids and the rating are NOT NULL, the
   * comment is nullable, and no constraint makes appointmentId unique.
   */
  datatype Evaluation = Evaluation(
    id: int,
    appointmentId: int,
    patientId: int,
    professionalId: int,
    rating: int,
    comment: Option<string>,
    createdAt: int)
}
