/**
 * The appointment lifecycle: booking (guards in order, then the conflict
 * check against confirmed appointments, then the insert), cancellation by
 * the patient with 24 hours' notice, the unchecked status overwrite,
 * deletion, and the patient's list of completed appointments still to be
 * rated.  The last part relates the booking check to the listing of free
 * blocks, which counts different appointments over a different window.
 */
module Booking {
  import opened Records
  import opened Ordering
  import opened Store
  import opened Scheduler

  // ---------------------------------------------------------------------
  // Booking

  /**
   * A booking request after parsing: the professional id from the body, the
   * caller's id from the token, and the requested start.  None stands for
   * an absent or unparseable field.
   */
  datatype BookingRequest = BookingRequest(professionalId: Option<int>, patientId: Option<int>, scheduledTime: Option<int>)

  datatype BookingError =
    | InvalidProfessionalId
    | InvalidPatientId
    | InvalidTime
    | ProfessionalNotFound
    | NoRate
    | SlotTaken
  {
    function Code(): int {
      match this
      case InvalidProfessionalId => 400
      case InvalidPatientId => 400
      case InvalidTime => 400
      case ProfessionalNotFound => 404
      case NoRate => 400
      case SlotTaken => 409
    }
  }

  /** The lookup of a user with that id and the professional role. */
  function FindProfessional(users: seq<User>, id: int): (r: Option<User>)
    ensures r.Some? ==> r.value in users && r.value.id == id && r.value.role == Profesional
    ensures r.None? <==> forall u :: u in users ==> u.id != id || u.role != Profesional
  {
    if users == [] then None
    else if users[0].id == id && users[0].role == Profesional then Some(users[0])
    else FindProfessional(users[1..], id)
  }

  /** Some confirmed appointment of the professional starts in [lo, hi]. */
  predicate ConfirmedWithin(apps: seq<Appointment>, professionalId: int, lo: int, hi: int) {
    exists i | 0 <= i < |apps| ::
      apps[i].professionalId == professionalId && apps[i].status == Confirmed && lo <= apps[i].scheduledTime <= hi
  }

  /** The booking conflict query: a confirmed appointment in [s, s+40min] or in [s-40min, s]. */
  predicate BookingConflict(apps: seq<Appointment>, professionalId: int, s: int) {
    ConfirmedWithin(apps, professionalId, s, s + BlockMs) || ConfirmedWithin(apps, professionalId, s - BlockMs, s)
  }

  /** The two ranges of the conflict query together are the one range [s-40min, s+40min]. */
  lemma BookingConflictIsOneWindow(apps: seq<Appointment>, professionalId: int, s: int)
    ensures BookingConflict(apps, professionalId, s) <==> ConfirmedWithin(apps, professionalId, s - BlockMs, s + BlockMs)
  {
    if ConfirmedWithin(apps, professionalId, s - BlockMs, s + BlockMs) {
      var i :| 0 <= i < |apps| && apps[i].professionalId == professionalId && apps[i].status == Confirmed
        && s - BlockMs <= apps[i].scheduledTime <= s + BlockMs;
      if apps[i].scheduledTime <= s {
        assert ConfirmedWithin(apps, professionalId, s - BlockMs, s);
      } else {
        assert ConfirmedWithin(apps, professionalId, s, s + BlockMs);
      }
    }
  }

  /** The id, caller and date checks all pass. */
  predicate WellFormed(req: BookingRequest) {
    Truthy(req.professionalId) && Truthy(req.patientId) && req.scheduledTime.Some?
  }

  /** The request also names a professional who has a rate. */
  predicate Priced(users: seq<User>, req: BookingRequest) {
    && WellFormed(req)
    && FindProfessional(users, req.professionalId.value).Some?
    && FindProfessional(users, req.professionalId.value).value.ratePerHour.Some?
  }

  /**
   * createAppointment's decision: the first guard that fails, in order, or
   * the row the insert writes, with id newId.
   */
  function CheckBooking(users: seq<User>, apps: seq<Appointment>, req: BookingRequest, newId: int)
    : (r: Result<Appointment, BookingError>)
    ensures r == Err(InvalidProfessionalId) <==> !Truthy(req.professionalId)
    ensures r == Err(InvalidPatientId) <==> Truthy(req.professionalId) && !Truthy(req.patientId)
    ensures r == Err(InvalidTime) <==>
      Truthy(req.professionalId) && Truthy(req.patientId) && req.scheduledTime.None?
    ensures r == Err(ProfessionalNotFound) <==>
      WellFormed(req) && FindProfessional(users, req.professionalId.value).None?
    ensures r == Err(NoRate) <==>
      && WellFormed(req) && FindProfessional(users, req.professionalId.value).Some?
      && FindProfessional(users, req.professionalId.value).value.ratePerHour.None?
    ensures r == Err(SlotTaken) <==>
      Priced(users, req) &&
      ConfirmedWithin(apps, req.professionalId.value, req.scheduledTime.value - BlockMs, req.scheduledTime.value + BlockMs)
    ensures r.Ok? <==>
      Priced(users, req) &&
      !ConfirmedWithin(apps, req.professionalId.value, req.scheduledTime.value - BlockMs, req.scheduledTime.value + BlockMs)
    ensures r.Ok? ==>
      && r.value.id == newId
      && r.value.professionalId == req.professionalId.value
      && r.value.patientId == req.patientId.value
      && r.value.scheduledTime == req.scheduledTime.value
      && r.value.status == Pending
      && r.value.totalPrice == FindProfessional(users, req.professionalId.value).value.ratePerHour.value
      && r.value.cancellationStatus == NoCancellation
      && r.value.cancellationReason.None?
  {
    if !Truthy(req.professionalId) then Err(InvalidProfessionalId)
    else if !Truthy(req.patientId) then Err(InvalidPatientId)
    else if req.scheduledTime.None? then Err(InvalidTime)
    else
      var professionalId, s := req.professionalId.value, req.scheduledTime.value;
      match FindProfessional(users, professionalId)
      case None => Err(ProfessionalNotFound)
      case Some(professional) =>
        if professional.ratePerHour.None? then Err(NoRate)
        else
          BookingConflictIsOneWindow(apps, professionalId, s);
          if BookingConflict(apps, professionalId, s) then Err(SlotTaken)
          else Ok(NewAppointment(newId, professionalId, req.patientId.value, s, professional.ratePerHour.value))
  }

  /** createAppointment: on success exactly one pending row is added; on any error nothing changes. */
  method CreateAppointment(db: Database, req: BookingRequest) returns (r: Result<Appointment, BookingError>)
    requires db.Valid()
    modifies db`appointments, db`nextAppointmentId
    ensures db.Valid()
    ensures r == CheckBooking(old(db.users), old(db.appointments), req, old(db.nextAppointmentId))
    ensures r.Err? ==> db.appointments == old(db.appointments) && db.nextAppointmentId == old(db.nextAppointmentId)
    ensures r.Ok? ==> db.appointments == old(db.appointments) + [r.value] && db.nextAppointmentId == old(db.nextAppointmentId) + 1
  {
    r := CheckBooking(db.users, db.appointments, req, db.nextAppointmentId);
    if r.Ok? {
      db.appointments := db.appointments + [r.value];
      db.nextAppointmentId := db.nextAppointmentId + 1;
    }
  }

  lemma ConfirmedWithinIgnoresUnconfirmed(apps: seq<Appointment>, a: Appointment, professionalId: int, lo: int, hi: int)
    requires a.status != Confirmed
    ensures ConfirmedWithin(apps + [a], professionalId, lo, hi) == ConfirmedWithin(apps, professionalId, lo, hi)
  {
    var both := apps + [a];
    if ConfirmedWithin(both, professionalId, lo, hi) {
      var i :| 0 <= i < |both| && both[i].professionalId == professionalId && both[i].status == Confirmed
        && lo <= both[i].scheduledTime <= hi;
      assert i < |apps| && apps[i] == both[i];
    }
    if ConfirmedWithin(apps, professionalId, lo, hi) {
      var i :| 0 <= i < |apps| && apps[i].professionalId == professionalId && apps[i].status == Confirmed
        && lo <= apps[i].scheduledTime <= hi;
      assert both[i] == apps[i];
    }
  }

  /**
   * A booking leaves the slot bookable: the new row is pending, which the
   * conflict check ignores, so the same request succeeds again.
   */
  lemma RepeatedBookingSucceeds(users: seq<User>, apps: seq<Appointment>, req: BookingRequest, newId: int, nextId: int)
    requires CheckBooking(users, apps, req, newId).Ok?
    ensures var a := CheckBooking(users, apps, req, newId).value;
      CheckBooking(users, apps + [a], req, nextId) == Ok(a.(id := nextId))
  {
    var a := CheckBooking(users, apps, req, newId).value;
    var s := req.scheduledTime.value;
    ConfirmedWithinIgnoresUnconfirmed(apps, a, req.professionalId.value, s - BlockMs, s + BlockMs);
  }

  /** With a single confirmed appointment at t, a booking at s conflicts iff |s - t| <= 40 min. */
  lemma SingleConfirmedConflict(a: Appointment, s: int)
    requires a.status == Confirmed
    ensures BookingConflict([a], a.professionalId, s) <==> s - BlockMs <= a.scheduledTime <= s + BlockMs
  {
    BookingConflictIsOneWindow([a], a.professionalId, s);
    if s - BlockMs <= a.scheduledTime <= s + BlockMs {
      assert [a][0] == a;
    }
  }

  // ---------------------------------------------------------------------
  // The listing and the booking check disagree

  /**
   * A block the listing shows as free is rejected at booking time exactly
   * when a confirmed appointment starts in the 40 minutes before it: the
   * listing never looks before the block, the booking check does.
   */
  lemma ListedBlockRejectedIff(apps: seq<Appointment>, professionalId: int, lo: int, hi: int, s: int)
    requires Block(s, s + BlockMs) in FreeBlocks(apps, professionalId, lo, hi)
    ensures BookingConflict(apps, professionalId, s) <==> ConfirmedWithin(apps, professionalId, s - BlockMs, s - 1)
  {
    FreeBlockIff(apps, professionalId, lo, hi, s);
    BookingConflictIsOneWindow(apps, professionalId, s);
    if ConfirmedWithin(apps, professionalId, s - BlockMs, s + BlockMs) {
      var i :| 0 <= i < |apps| && apps[i].professionalId == professionalId && apps[i].status == Confirmed
        && s - BlockMs <= apps[i].scheduledTime <= s + BlockMs;
      assert apps[i].scheduledTime <= s - 1;
      assert ConfirmedWithin(apps, professionalId, s - BlockMs, s - 1);
    }
    if ConfirmedWithin(apps, professionalId, s - BlockMs, s - 1) {
      var i :| 0 <= i < |apps| && apps[i].professionalId == professionalId && apps[i].status == Confirmed
        && s - BlockMs <= apps[i].scheduledTime <= s - 1;
      assert ConfirmedWithin(apps, professionalId, s - BlockMs, s + BlockMs);
    }
  }

  /**
   * Free-listed does not imply bookable: with a confirmed appointment 20
   * minutes before t, the interval [t, t+40min] lists its block, and booking
   * that block answers 409.
   */
  lemma FreeListedButRejected(professionalId: int, patientId: int, t: int, rate: int)
    requires professionalId != 0 && patientId != 0
    ensures var apps := [Appointment(1, professionalId, patientId, t - BlockMs / 2, Confirmed, rate, NoCancellation, None)];
      var users := [User(professionalId, Profesional, Some(rate))];
      && FreeBlocks(apps, professionalId, t, t + BlockMs) == [Block(t, t + BlockMs)]
      && CheckBooking(users, apps, BookingRequest(Some(professionalId), Some(patientId), Some(t)), 2) == Err(SlotTaken)
  {
    var apps := [Appointment(1, professionalId, patientId, t - BlockMs / 2, Confirmed, rate, NoCancellation, None)];
    assert apps[0].scheduledTime == t - 1200000;
    assert !Occupied(apps, professionalId, t, t + BlockMs);
    assert FreeBlocks(apps, professionalId, t + BlockMs, t + BlockMs) == [];
    assert ConfirmedWithin(apps, professionalId, t - BlockMs, t + BlockMs);
  }

  /**
   * Bookable does not imply free-listed: a pending appointment at t hides the
   * block [t, t+40min] from the listing, yet booking it again succeeds.
   */
  lemma HiddenButBookable(professionalId: int, patientId: int, t: int, rate: int)
    requires professionalId != 0 && patientId != 0
    ensures var apps := [Appointment(1, professionalId, patientId, t, Pending, rate, NoCancellation, None)];
      var users := [User(professionalId, Profesional, Some(rate))];
      && FreeBlocks(apps, professionalId, t, t + BlockMs) == []
      && CheckBooking(users, apps, BookingRequest(Some(professionalId), Some(patientId), Some(t)), 2).Ok?
  {
    var apps := [Appointment(1, professionalId, patientId, t, Pending, rate, NoCancellation, None)];
    assert apps[0].status == Pending && apps[0].scheduledTime == t;
    assert Occupied(apps, professionalId, t, t + BlockMs);
    assert !ConfirmedWithin(apps, professionalId, t - BlockMs, t + BlockMs);
  }

  /** The rate's sign is not checked: a professional with a negative rate is booked at that price. */
  lemma NegativeRateIsCharged(professionalId: int, patientId: int, t: int, rate: int)
    requires professionalId != 0 && patientId != 0 && rate < 0
    ensures var users := [User(professionalId, Profesional, Some(rate))];
      var r := CheckBooking(users, [], BookingRequest(Some(professionalId), Some(patientId), Some(t)), 1);
      r.Ok? && r.value.totalPrice == rate
  {
    assert !ConfirmedWithin([], professionalId, t - BlockMs, t + BlockMs);
  }

  // ---------------------------------------------------------------------
  // Cancellation by the patient

  /** The body fields of a cancellation; None stands for an absent field. */
  datatype CancelRequest = CancelRequest(appointmentId: Option<int>, reason: Option<string>)

  datatype CancelError =
    | CancelMissingFields
    | CancelNotFound
    | NotPatient
    | TooLate
  {
    function Code(): int {
      match this
      case CancelMissingFields => 400
      case CancelNotFound => 404
      case NotPatient => 403
      case TooLate => 400
    }
  }

  /** Both fields are present and non-empty. */
  predicate CancelFieldsGiven(req: CancelRequest) {
    Truthy(req.appointmentId) && TruthyText(req.reason)
  }

  /**
   * cancelAppointment's decision at time now for the caller: the first guard
   * that fails, or the position of the row to cancel.
   */
  function CheckCancellation(apps: seq<Appointment>, req: CancelRequest, callerId: int, now: int)
    : (r: Result<nat, CancelError>)
    ensures r == Err(CancelMissingFields) <==> !CancelFieldsGiven(req)
    ensures r == Err(CancelNotFound) <==>
      CancelFieldsGiven(req) && AppointmentIndex(apps, req.appointmentId.value).None?
    ensures r == Err(NotPatient) <==>
      && CancelFieldsGiven(req) && AppointmentIndex(apps, req.appointmentId.value).Some?
      && apps[AppointmentIndex(apps, req.appointmentId.value).value].patientId != callerId
    ensures r == Err(TooLate) <==>
      && CancelFieldsGiven(req) && AppointmentIndex(apps, req.appointmentId.value).Some?
      && apps[AppointmentIndex(apps, req.appointmentId.value).value].patientId == callerId
      && apps[AppointmentIndex(apps, req.appointmentId.value).value].scheduledTime - now < DayMs
    ensures r.Ok? ==>
      && r.value < |apps| && apps[r.value].id == req.appointmentId.value
      && apps[r.value].patientId == callerId
      && apps[r.value].scheduledTime - now >= DayMs
  {
    if !CancelFieldsGiven(req) then Err(CancelMissingFields)
    else match AppointmentIndex(apps, req.appointmentId.value)
      case None => Err(CancelNotFound)
      case Some(k) =>
        if apps[k].patientId != callerId then Err(NotPatient)
        else if apps[k].scheduledTime - now < DayMs then Err(TooLate)
        else Ok(k)
  }

  /**
   * cancelAppointment: on success the row becomes cancelled, its
   * cancellation approved, with the given reason; on any error nothing
   * changes.
   */
  method CancelAppointment(db: Database, req: CancelRequest, callerId: int, now: int)
    returns (r: Result<Appointment, CancelError>)
    requires db.Valid()
    modifies db`appointments
    ensures db.Valid()
    ensures var c := CheckCancellation(old(db.appointments), req, callerId, now);
      && (c.Err? ==> r == Err(c.error) && db.appointments == old(db.appointments))
      && (c.Ok? ==>
        && db.appointments == old(db.appointments)[c.value := old(db.appointments)[c.value].(
             status := Cancelled, cancellationStatus := Approved, cancellationReason := Some(req.reason.value))]
        && r == Ok(db.appointments[c.value]))
  {
    var c := CheckCancellation(db.appointments, req, callerId, now);
    match c
    case Err(e) =>
      r := Err(e);
    case Ok(k) =>
      var row := db.appointments[k].(
        status := Cancelled, cancellationStatus := Approved, cancellationReason := Some(req.reason.value));
      db.appointments := db.appointments[k := row];
      r := Ok(row);
  }

  /** A row's position depends only on the ids of the rows. */
  lemma AppointmentIndexOnlyReadsIds(apps: seq<Appointment>, k: nat, a: Appointment, id: int)
    requires k < |apps| && a.id == apps[k].id
    ensures AppointmentIndex(apps[k := a], id) == AppointmentIndex(apps, id)
  {
    var apps' := apps[k := a];
    assert forall i :: 0 <= i < |apps| ==> apps'[i].id == apps[i].id;
  }

  /** The cancellation guards never look at the status: any row may be cancelled in time. */
  lemma CancellationIgnoresStatus(apps: seq<Appointment>, req: CancelRequest, callerId: int, now: int,
                                  k: nat, status: AppointmentStatus)
    requires k < |apps|
    ensures CheckCancellation(apps[k := apps[k].(status := status)], req, callerId, now)
      == CheckCancellation(apps, req, callerId, now)
  {
    if CancelFieldsGiven(req) {
      AppointmentIndexOnlyReadsIds(apps, k, apps[k].(status := status), req.appointmentId.value);
    }
  }

  /** A completed appointment far enough ahead is cancelled like any other. */
  lemma CompletedAppointmentCanBeCancelled(a: Appointment, reason: string, now: int)
    requires a.id != 0 && reason != [] && a.status == Completed && a.scheduledTime - now >= DayMs
    ensures CheckCancellation([a], CancelRequest(Some(a.id), Some(reason)), a.patientId, now) == Ok(0)
  {
  }

  // ---------------------------------------------------------------------
  // Status overwrite and deletion

  datatype AppointmentError =
    | AppointmentNotFound
    | InvalidStatus      // absent, or not one of the four values
  {
    function Code(): int {
      match this
      case AppointmentNotFound => 404
      case InvalidStatus => 400
    }
  }

  /** updateAppointmentStatus's decision: the row must exist and the value must be a status. */
  function CheckStatusUpdate(apps: seq<Appointment>, id: int, status: Option<AppointmentStatus>)
    : (r: Result<nat, AppointmentError>)
    ensures r == Err(AppointmentNotFound) <==> AppointmentIndex(apps, id).None?
    ensures r == Err(InvalidStatus) <==> AppointmentIndex(apps, id).Some? && status.None?
    ensures r.Ok? ==> r.value < |apps| && apps[r.value].id == id && status.Some?
  {
    match AppointmentIndex(apps, id)
    case None => Err(AppointmentNotFound)
    case Some(k) => if status.None? then Err(InvalidStatus) else Ok(k)
  }

  /** updateAppointmentStatus: overwrites the status, whatever it was. */
  method UpdateAppointmentStatus(db: Database, id: int, status: Option<AppointmentStatus>)
    returns (r: Result<Appointment, AppointmentError>)
    requires db.Valid()
    modifies db`appointments
    ensures db.Valid()
    ensures var c := CheckStatusUpdate(old(db.appointments), id, status);
      && (c.Err? ==> r == Err(c.error) && db.appointments == old(db.appointments))
      && (c.Ok? ==>
        && db.appointments == old(db.appointments)[c.value := old(db.appointments)[c.value].(status := status.value)]
        && r == Ok(db.appointments[c.value]))
  {
    var c := CheckStatusUpdate(db.appointments, id, status);
    match c
    case Err(e) =>
      r := Err(e);
    case Ok(k) =>
      var row := db.appointments[k].(status := status.value);
      db.appointments := db.appointments[k := row];
      r := Ok(row);
  }

  /** No transition is refused: every stored row accepts every status. */
  lemma EveryTransitionAccepted(apps: seq<Appointment>, k: nat, status: AppointmentStatus)
    requires k < |apps|
    requires forall i, j :: 0 <= i < j < |apps| ==> apps[i].id != apps[j].id
    ensures CheckStatusUpdate(apps, apps[k].id, Some(status)) == Ok(k)
  {
    IndexOfDistinctIds(apps, k);
  }

  /** deleteAppointment: removes the row with that key, or answers 404. */
  method DeleteAppointment(db: Database, id: int) returns (r: Result<Appointment, AppointmentError>)
    requires db.Valid()
    modifies db`appointments
    ensures db.Valid()
    ensures var k := AppointmentIndex(old(db.appointments), id);
      && (k.None? ==> r == Err(AppointmentNotFound) && db.appointments == old(db.appointments))
      && (k.Some? ==>
        && r == Ok(old(db.appointments)[k.value])
        && db.appointments == old(db.appointments)[..k.value] + old(db.appointments)[k.value + 1..])
  {
    var k := AppointmentIndex(db.appointments, id);
    if k.None? {
      return Err(AppointmentNotFound);
    }
    r := Ok(db.appointments[k.value]);
    db.appointments := db.appointments[..k.value] + db.appointments[k.value + 1..];
  }

  /** Once deleted, a key is not found again, and every other row is kept. */
  lemma DeletedRowIsGone(apps: seq<Appointment>, k: nat)
    requires k < |apps|
    requires forall i, j :: 0 <= i < j < |apps| ==> apps[i].id != apps[j].id
    ensures var rest := apps[..k] + apps[k + 1..];
      && AppointmentIndex(rest, apps[k].id).None?
      && forall i :: 0 <= i < |apps| && i != k ==> apps[i] in rest
  {
    var rest := apps[..k] + apps[k + 1..];
    forall i | 0 <= i < |rest| ensures rest[i].id != apps[k].id {
      if i < k {
        assert rest[i] == apps[i];
      } else {
        assert rest[i] == apps[i + 1];
      }
    }
    forall i | 0 <= i < |apps| && i != k ensures apps[i] in rest {
      if i < k {
        assert rest[i] == apps[i];
      } else {
        assert rest[i - 1] == apps[i];
      }
    }
  }

  // ---------------------------------------------------------------------
  // Completed appointments still to be rated

  /** Some evaluation refers to the appointment. */
  predicate Rated(evals: seq<Evaluation>, appointmentId: int) {
    exists i | 0 <= i < |evals| :: evals[i].appointmentId == appointmentId
  }

  /** The rows the patient can still rate. */
  predicate Unrated(evals: seq<Evaluation>, patientId: int, a: Appointment) {
    a.patientId == patientId && a.status == Completed && !Rated(evals, a.id)
  }

  datatype HistoryError = NothingToRate
  {
    function Code(): int { 404 }
  }

  /** The caller's completed rows without an evaluation, latest first. */
  function UnratedLatestFirst(apps: seq<Appointment>, evals: seq<Evaluation>, patientId: int): (r: seq<Appointment>)
    ensures forall a :: multiset(r)[a] == if Unrated(evals, patientId, a) then multiset(apps)[a] else 0
    ensures forall i, j :: 0 <= i < j < |r| ==> r[i].scheduledTime >= r[j].scheduledTime
  {
    var completed := Filter(apps, (a: Appointment) => a.patientId == patientId && a.status == Completed);
    var ordered := SortBy(completed, (a: Appointment) => -a.scheduledTime);
    var unrated := Filter(ordered, (a: Appointment) => !Rated(evals, a.id));
    var latestFirst := (x: Appointment, y: Appointment) => x.scheduledTime >= y.scheduledTime;
    assert SortedWith(ordered, latestFirst);
    FilterKeepsOrder(ordered, (a: Appointment) => !Rated(evals, a.id), latestFirst);
    unrated
  }

  /**
   * getCompletedAppointments: the caller's completed appointments, latest
   * first, without those that already have an evaluation; 404 when none is
   * left.
   */
  function CompletedUnrated(apps: seq<Appointment>, evals: seq<Evaluation>, patientId: int)
    : (r: Result<seq<Appointment>, HistoryError>)
    ensures r.Err? <==> forall a :: a in apps ==> !Unrated(evals, patientId, a)
    ensures r.Ok? ==> forall a :: a in r.value <==> a in apps && Unrated(evals, patientId, a)
    ensures r.Ok? ==> forall a :: multiset(r.value)[a] == if Unrated(evals, patientId, a) then multiset(apps)[a] else 0
    ensures r.Ok? ==> forall i, j :: 0 <= i < j < |r.value| ==> r.value[i].scheduledTime >= r.value[j].scheduledTime
  {
    var unrated := UnratedLatestFirst(apps, evals, patientId);
    assert forall a :: a in unrated <==> a in apps && Unrated(evals, patientId, a) by {
      forall a ensures a in unrated <==> a in apps && Unrated(evals, patientId, a) {
        assert a in unrated <==> multiset(unrated)[a] > 0;
        assert a in apps <==> multiset(apps)[a] > 0;
      }
    }
    if unrated == [] then Err(NothingToRate) else Ok(unrated)
  }
}
