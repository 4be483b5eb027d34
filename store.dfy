/**
 * The relational store the handlers share: one table per model, each a
 * sequence of rows in insertion order, and an auto-increment counter per
 * table for the primary keys it hands out.  Users are read, never written,
 * by the core.
 */
module Store {
  import opened Records

  class Database {
    var users: seq<User>
    var appointments: seq<Appointment>
    var schedules: seq<Schedule>
    var payments: seq<Payment>
    var evaluations: seq<Evaluation>
    var nextScheduleId: int
    var nextAppointmentId: int
    var nextPaymentId: int
    var nextEvaluationId: int

    /** Primary keys are positive, distinct, and below the table's counter. */
    ghost predicate Valid()
      reads this
    {
      && nextScheduleId >= 1 && nextAppointmentId >= 1 && nextPaymentId >= 1 && nextEvaluationId >= 1
      && (forall i, j :: 0 <= i < j < |users| ==> users[i].id != users[j].id)
      && (forall i :: 0 <= i < |appointments| ==> 0 < appointments[i].id < nextAppointmentId)
      && (forall i, j :: 0 <= i < j < |appointments| ==> appointments[i].id != appointments[j].id)
      && (forall i :: 0 <= i < |schedules| ==> 0 < schedules[i].id < nextScheduleId)
      && (forall i, j :: 0 <= i < j < |schedules| ==> schedules[i].id != schedules[j].id)
      && (forall i :: 0 <= i < |payments| ==> 0 < payments[i].id < nextPaymentId)
      && (forall i, j :: 0 <= i < j < |payments| ==> payments[i].id != payments[j].id)
      && (forall i :: 0 <= i < |evaluations| ==> 0 < evaluations[i].id < nextEvaluationId)
      && (forall i, j :: 0 <= i < j < |evaluations| ==> evaluations[i].id != evaluations[j].id)
    }

    /** A store with the given users and every other table empty. */
    constructor (users: seq<User>)
      requires forall i, j :: 0 <= i < j < |users| ==> users[i].id != users[j].id
      ensures Valid()
      ensures this.users == users
      ensures appointments == [] && schedules == [] && payments == [] && evaluations == []
    {
      this.users := users;
      appointments, schedules, payments, evaluations := [], [], [], [];
      nextScheduleId, nextAppointmentId, nextPaymentId, nextEvaluationId := 1, 1, 1, 1;
    }

    /** Payment.create: the row gets the next key. */
    method InsertPayment(appointmentId: int, paymentMethod: string, status: PaymentStatus, date: int, amount: int)
      returns (row: Payment)
      requires Valid()
      modifies this`payments, this`nextPaymentId
      ensures Valid()
      ensures row == Payment(old(nextPaymentId), appointmentId, paymentMethod, status, date, amount)
      ensures payments == old(payments) + [row] && nextPaymentId == old(nextPaymentId) + 1
    {
      row := Payment(nextPaymentId, appointmentId, paymentMethod, status, date, amount);
      payments := payments + [row];
      nextPaymentId := nextPaymentId + 1;
    }

    /** Evaluation.create or a raw INSERT: the row gets the next key. */
    method InsertEvaluation(appointmentId: int, patientId: int, professionalId: int, rating: int,
                            comment: Option<string>, createdAt: int)
      returns (row: Evaluation)
      requires Valid()
      modifies this`evaluations, this`nextEvaluationId
      ensures Valid()
      ensures row == Evaluation(old(nextEvaluationId), appointmentId, patientId, professionalId, rating, comment, createdAt)
      ensures evaluations == old(evaluations) + [row] && nextEvaluationId == old(nextEvaluationId) + 1
    {
      row := Evaluation(nextEvaluationId, appointmentId, patientId, professionalId, rating, comment, createdAt);
      evaluations := evaluations + [row];
      nextEvaluationId := nextEvaluationId + 1;
    }
  }

  /** findByPk on the appointments table: the position of the row with that key. */
  function AppointmentIndex(apps: seq<Appointment>, id: int): (r: Option<nat>)
    ensures r.Some? ==> r.value < |apps| && apps[r.value].id == id
    ensures r.Some? ==> forall i :: 0 <= i < r.value ==> apps[i].id != id
    ensures r.None? <==> forall i :: 0 <= i < |apps| ==> apps[i].id != id
  {
    if apps == [] then None
    else if apps[0].id == id then Some(0)
    else match AppointmentIndex(apps[1..], id)
      case None => None
      case Some(k) => Some(k + 1)
  }

  /** With distinct keys, findByPk finds every row at its own position. */
  lemma IndexOfDistinctIds(apps: seq<Appointment>, k: nat)
    requires k < |apps|
    requires forall i, j :: 0 <= i < j < |apps| ==> apps[i].id != apps[j].id
    ensures AppointmentIndex(apps, apps[k].id) == Some(k)
  {
  }
}
