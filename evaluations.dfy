/**
 * Evaluations of completed appointments.  Two handlers insert them: the
 * evaluation endpoint, which validates the rating but never looks for an
 * earlier evaluation, and the professional-rating endpoint, which refuses a
 * second evaluation but stores any rating.  A third lists a professional's
 * evaluations, latest first.
 */
module Evaluations {
  import opened Records
  import opened Ordering
  import opened Store
  import opened Booking

  /** The body fields of an evaluation; None stands for an absent field. */
  datatype EvaluationRequest = EvaluationRequest(appointmentId: Option<int>, rating: Option<int>, comment: Option<string>)

  datatype EvaluationError =
    | NoPatient        // the caller has no id
    | MissingFields    // appointment id or rating absent or zero
    | NotOwned         // no appointment with that id belongs to the caller
    | NotCompleted
    | AlreadyRated
    | RatingRejected   // the model's 1..5 validator refuses the rating
  {
    function Code(): int {
      match this
      case NoPatient => 400
      case MissingFields => 400
      case NotOwned => 404
      case NotCompleted => 400
      case AlreadyRated => 400
      case RatingRejected => 500
    }
  }

  /** The lookup `WHERE id = :id AND patient_id = :patient LIMIT 1`. */
  function OwnedAppointment(apps: seq<Appointment>, id: int, patientId: int): (r: Option<nat>)
    ensures r.Some? ==> r.value < |apps| && apps[r.value].id == id && apps[r.value].patientId == patientId
    ensures r.None? <==> forall i :: 0 <= i < |apps| ==> apps[i].id != id || apps[i].patientId != patientId
  {
    if apps == [] then None
    else if apps[0].id == id && apps[0].patientId == patientId then Some(0)
    else match OwnedAppointment(apps[1..], id, patientId)
      case None => None
      case Some(k) => Some(k + 1)
  }

  predicate FieldsGiven(req: EvaluationRequest) {
    Truthy(req.appointmentId) && Truthy(req.rating)
  }

  // ---------------------------------------------------------------------
  // The evaluation endpoint

  /** createEvaluation's decision: the first check that fails, or the position of the appointment. */
  function CheckEvaluation(apps: seq<Appointment>, req: EvaluationRequest, patientId: int): (r: Result<nat, EvaluationError>)
    ensures r == Err(MissingFields) <==> !FieldsGiven(req)
    ensures r == Err(NotOwned) <==> FieldsGiven(req) && OwnedAppointment(apps, req.appointmentId.value, patientId).None?
    ensures r == Err(NotCompleted) <==>
      && FieldsGiven(req) && OwnedAppointment(apps, req.appointmentId.value, patientId).Some?
      && apps[OwnedAppointment(apps, req.appointmentId.value, patientId).value].status != Completed
    ensures r == Err(RatingRejected) <==>
      && FieldsGiven(req) && OwnedAppointment(apps, req.appointmentId.value, patientId).Some?
      && apps[OwnedAppointment(apps, req.appointmentId.value, patientId).value].status == Completed
      && !ValidRating(req.rating.value)
    ensures r.Ok? ==>
      && FieldsGiven(req) && ValidRating(req.rating.value)
      && r.value < |apps| && apps[r.value].id == req.appointmentId.value
      && apps[r.value].patientId == patientId && apps[r.value].status == Completed
    ensures r != Err(AlreadyRated) && r != Err(NoPatient)
  {
    if !FieldsGiven(req) then Err(MissingFields)
    else match OwnedAppointment(apps, req.appointmentId.value, patientId)
      case None => Err(NotOwned)
      case Some(k) =>
        if apps[k].status != Completed then Err(NotCompleted)
        else if !ValidRating(req.rating.value) then Err(RatingRejected)
        else Ok(k)
  }

  /**
   * createEvaluation: inserts one evaluation for the professional of the
   * appointment, with the comment as given; nothing changes on error.
   */
  method CreateEvaluation(db: Database, req: EvaluationRequest, patientId: int, now: int)
    returns (r: Result<Evaluation, EvaluationError>)
    requires db.Valid()
    modifies db`evaluations, db`nextEvaluationId
    ensures db.Valid()
    ensures var c := CheckEvaluation(old(db.appointments), req, patientId);
      && (c.Err? ==> r == Err(c.error) && db.evaluations == old(db.evaluations) && db.nextEvaluationId == old(db.nextEvaluationId))
      && (c.Ok? ==>
        && r == Ok(Evaluation(old(db.nextEvaluationId), req.appointmentId.value, patientId,
                              old(db.appointments)[c.value].professionalId, req.rating.value, req.comment, now))
        && db.evaluations == old(db.evaluations) + [r.value]
        && db.nextEvaluationId == old(db.nextEvaluationId) + 1)
  {
    var c := CheckEvaluation(db.appointments, req, patientId);
    if c.Err? {
      return Err(c.error);
    }
    var row := db.InsertEvaluation(req.appointmentId.value, patientId, db.appointments[c.value].professionalId,
                                   req.rating.value, req.comment, now);
    r := Ok(row);
  }

  /** No two evaluations refer to the same appointment. */
  predicate OnePerAppointment(evals: seq<Evaluation>) {
    forall i, j :: 0 <= i < j < |evals| ==> evals[i].appointmentId != evals[j].appointmentId
  }

  /**
   * The evaluation endpoint accepts the same request twice: its check does
   * not read the evaluations, and the two rows it writes refer to the same
   * appointment.
   */
  lemma EvaluationEndpointAdmitsDuplicates(apps: seq<Appointment>, evals: seq<Evaluation>, req: EvaluationRequest,
                                           patientId: int, firstId: int, now: int, later: int)
    requires CheckEvaluation(apps, req, patientId).Ok?
    ensures var k := CheckEvaluation(apps, req, patientId).value;
      var e1 := Evaluation(firstId, req.appointmentId.value, patientId, apps[k].professionalId, req.rating.value, req.comment, now);
      var e2 := Evaluation(firstId + 1, req.appointmentId.value, patientId, apps[k].professionalId, req.rating.value, req.comment, later);
      !OnePerAppointment(evals + [e1] + [e2])
  {
    var k := CheckEvaluation(apps, req, patientId).value;
    var e1 := Evaluation(firstId, req.appointmentId.value, patientId, apps[k].professionalId, req.rating.value, req.comment, now);
    var e2 := Evaluation(firstId + 1, req.appointmentId.value, patientId, apps[k].professionalId, req.rating.value, req.comment, later);
    var all := evals + [e1] + [e2];
    assert all[|evals|] == e1 && all[|evals| + 1] == e2;
  }

  // ---------------------------------------------------------------------
  // The professional-rating endpoint

  /** rateProfessional's decision: the first check that fails, or the position of the appointment. */
  function CheckRating(apps: seq<Appointment>, evals: seq<Evaluation>, req: EvaluationRequest, patientId: Option<int>)
    : (r: Result<nat, EvaluationError>)
    ensures r == Err(NoPatient) <==> !Truthy(patientId)
    ensures r == Err(MissingFields) <==> Truthy(patientId) && !FieldsGiven(req)
    ensures r == Err(NotOwned) <==>
      Truthy(patientId) && FieldsGiven(req) && OwnedAppointment(apps, req.appointmentId.value, patientId.value).None?
    ensures r == Err(NotCompleted) <==>
      && Truthy(patientId) && FieldsGiven(req) && OwnedAppointment(apps, req.appointmentId.value, patientId.value).Some?
      && apps[OwnedAppointment(apps, req.appointmentId.value, patientId.value).value].status != Completed
    ensures r == Err(AlreadyRated) <==>
      && Truthy(patientId) && FieldsGiven(req) && OwnedAppointment(apps, req.appointmentId.value, patientId.value).Some?
      && apps[OwnedAppointment(apps, req.appointmentId.value, patientId.value).value].status == Completed
      && Rated(evals, req.appointmentId.value)
    ensures r.Ok? ==>
      && Truthy(patientId) && FieldsGiven(req) && !Rated(evals, req.appointmentId.value)
      && r.value < |apps| && apps[r.value].id == req.appointmentId.value
      && apps[r.value].patientId == patientId.value && apps[r.value].status == Completed
    ensures r != Err(RatingRejected)
  {
    if !Truthy(patientId) then Err(NoPatient)
    else if !FieldsGiven(req) then Err(MissingFields)
    else match OwnedAppointment(apps, req.appointmentId.value, patientId.value)
      case None => Err(NotOwned)
      case Some(k) =>
        if apps[k].status != Completed then Err(NotCompleted)
        else if Rated(evals, req.appointmentId.value) then Err(AlreadyRated)
        else Ok(k)
  }

  /** `comment || null`: an empty comment is stored as null. */
  function StoredComment(comment: Option<string>): (r: Option<string>)
    ensures r.Some? <==> TruthyText(comment)
    ensures r.Some? ==> r == comment
  {
    if TruthyText(comment) then comment else None
  }

  /**
   * rateProfessional: inserts one evaluation for the professional of the
   * appointment, with the rating as given; nothing changes on error.
   */
  method RateProfessional(db: Database, req: EvaluationRequest, patientId: Option<int>, now: int)
    returns (r: Result<Evaluation, EvaluationError>)
    requires db.Valid()
    modifies db`evaluations, db`nextEvaluationId
    ensures db.Valid()
    ensures var c := CheckRating(old(db.appointments), old(db.evaluations), req, patientId);
      && (c.Err? ==> r == Err(c.error) && db.evaluations == old(db.evaluations) && db.nextEvaluationId == old(db.nextEvaluationId))
      && (c.Ok? ==>
        && r == Ok(Evaluation(old(db.nextEvaluationId), req.appointmentId.value, patientId.value,
                              old(db.appointments)[c.value].professionalId, req.rating.value, StoredComment(req.comment), now))
        && db.evaluations == old(db.evaluations) + [r.value]
        && db.nextEvaluationId == old(db.nextEvaluationId) + 1)
  {
    var c := CheckRating(db.appointments, db.evaluations, req, patientId);
    if c.Err? {
      return Err(c.error);
    }
    var row := db.InsertEvaluation(req.appointmentId.value, patientId.value, db.appointments[c.value].professionalId,
                                   req.rating.value, StoredComment(req.comment), now);
    r := Ok(row);
  }

  /** The rating endpoint keeps at most one evaluation per appointment. */
  lemma RatingKeepsOnePerAppointment(apps: seq<Appointment>, evals: seq<Evaluation>, req: EvaluationRequest,
                                     patientId: Option<int>, e: Evaluation)
    requires OnePerAppointment(evals)
    requires CheckRating(apps, evals, req, patientId).Ok? && e.appointmentId == req.appointmentId.value
    ensures OnePerAppointment(evals + [e])
  {
    var all := evals + [e];
    forall i, j | 0 <= i < j < |all| ensures all[i].appointmentId != all[j].appointmentId {
      if j == |evals| {
        assert all[i] == evals[i];
        assert !(evals[i].appointmentId == req.appointmentId.value);
      } else {
        assert all[i] == evals[i] && all[j] == evals[j];
      }
    }
  }

  /** The rating endpoint stores any non-zero rating: its decision never looks at the value. */
  lemma RatingValueIsNotChecked(apps: seq<Appointment>, evals: seq<Evaluation>, req: EvaluationRequest,
                                patientId: Option<int>, rating: int)
    requires Truthy(req.rating) && rating != 0
    ensures CheckRating(apps, evals, req.(rating := Some(rating)), patientId) == CheckRating(apps, evals, req, patientId)
  {
  }

  /** A rating of 9 for a completed, unrated appointment: the rating endpoint accepts it, the evaluation endpoint answers 500. */
  lemma OutOfRangeRatingSplitsTheEndpoints(a: Appointment)
    requires a.id != 0 && a.patientId != 0 && a.status == Completed
    ensures var req := EvaluationRequest(Some(a.id), Some(9), None);
      && CheckRating([a], [], req, Some(a.patientId)) == Ok(0)
      && CheckEvaluation([a], req, a.patientId) == Err(RatingRejected)
  {
  }

  // ---------------------------------------------------------------------
  // Listing a professional's evaluations

  /** The `id` route parameter: absent or empty, an integer, or text that is not one. */
  datatype IdParam = NoParam | Parsed(n: int) | NotANumber

  datatype ListError = BadProfessionalId | NoEvaluations
  {
    function Code(): int {
      match this
      case BadProfessionalId => 400
      case NoEvaluations => 404
    }
  }

  /** The professional whose evaluations are listed: the parameter, else the caller. */
  function ListedProfessional(param: IdParam, callerId: int): int
    requires param != NotANumber
  {
    if param.Parsed? then param.n else callerId
  }

  /** The evaluations of one professional, latest first. */
  function LatestOf(evals: seq<Evaluation>, professionalId: int): (r: seq<Evaluation>)
    ensures forall e :: multiset(r)[e] == if e.professionalId == professionalId then multiset(evals)[e] else 0
    ensures forall i, j :: 0 <= i < j < |r| ==> r[i].createdAt >= r[j].createdAt
  {
    var ordered := SortBy(Filter(evals, (e: Evaluation) => e.professionalId == professionalId), (e: Evaluation) => -e.createdAt);
    assert forall e :: multiset(ordered)[e] == multiset(Filter(evals, (e: Evaluation) => e.professionalId == professionalId))[e];
    ordered
  }

  /**
   * getEvaluationsByProfessional: 400 for a parameter that is not a number,
   * 404 when the professional has no evaluation, else all of them, latest
   * first.
   */
  function EvaluationsByProfessional(evals: seq<Evaluation>, param: IdParam, callerId: int)
    : (r: Result<seq<Evaluation>, ListError>)
    ensures r == Err(BadProfessionalId) <==> param == NotANumber
    ensures r == Err(NoEvaluations) <==>
      param != NotANumber && forall e :: e in evals ==> e.professionalId != ListedProfessional(param, callerId)
    ensures r.Ok? ==> param != NotANumber
    ensures r.Ok? ==> forall e :: e in r.value <==>
                        e in evals && e.professionalId == ListedProfessional(param, callerId)
    ensures r.Ok? ==> forall e :: multiset(r.value)[e] ==
                        if e.professionalId == ListedProfessional(param, callerId) then multiset(evals)[e] else 0
    ensures r.Ok? ==> forall i, j :: 0 <= i < j < |r.value| ==> r.value[i].createdAt >= r.value[j].createdAt
  {
    if param == NotANumber then Err(BadProfessionalId)
    else
      var rows := LatestOf(evals, ListedProfessional(param, callerId));
      assert forall e :: e in rows <==> e in evals && e.professionalId == ListedProfessional(param, callerId) by {
        forall e ensures e in rows <==> e in evals && e.professionalId == ListedProfessional(param, callerId) {
          assert e in rows <==> multiset(rows)[e] > 0;
          assert e in evals <==> multiset(evals)[e] > 0;
        }
      }
      if rows == [] then Err(NoEvaluations) else Ok(rows)
  }
}
