/** The booking decision of server/controllers/bookingController.js: a fixed
    chain of checks (fields present, doctor known, slot offered, slot free,
    patient known, payment succeeded) followed by two writes, one appointment
    and one payment. The card gateway is a parameter: it is handed the amount
    in cents and the payment method and answers with a payment intent or a
    card error. The confirmation e-mail is not modelled. */
module Booking {
  import opened Wrappers
  import opened Models
  import opened Store

  /** The request: `doctorId` from the path, the rest from the body. A
      missing or empty field is None or "". */
  datatype BookingRequest = BookingRequest(
    doctorId: Option<Id>,
    date: Option<Date>,
    timeSlot: string,
    paymentMethodId: string)

  /** What the card gateway does with a confirmed payment intent. */
  datatype GatewayReply =
    | Intent(status: string, id: string)   // a payment intent and its status
    | CardError                            // a thrown error of type StripeCardError
    | GatewayFailure                       // any other thrown error

  datatype Response =
    | Created(appointment: Appointment, payment: Payment)   // 201
    | Error(status: int, message: string)

  const MISSING_FIELDS := "All fields are required"
  const DOCTOR_NOT_FOUND := "Doctor not found"
  const SLOT_NOT_OFFERED := "Selected time slot is not available"
  const SLOT_TAKEN := "Time slot already booked, choose another slot."
  const USER_NOT_FOUND := "User not found"
  const PAYMENT_FAILED := "Payment failed. Please try again."
  const CARD_DECLINED := "Payment declined. Please try another card."
  const SERVER_ERROR := "Internal server error. Please try again later."

  predicate HasAllFields(req: BookingRequest) {
    req.doctorId.Some? && req.date.Some? && req.timeSlot != "" && req.paymentMethodId != ""
  }

  /** `availability.some(d => d.timeSlots.includes(slot))`: the slot is offered
      on SOME day of the week, whichever weekday the booked date falls on. */
  function SlotOffered(availability: seq<DayAvailability>, slot: string): (b: bool)
    ensures b <==> exists i :: 0 <= i < |availability| && slot in availability[i].timeSlots
  {
    if availability == [] then false
    else slot in availability[0].timeSlots || SlotOffered(availability[1..], slot)
  }

  /** `Appointment.findOne({ doctorId, date, timeSlot })`: any appointment for
      the same doctor, date and slot, whatever its status. */
  function FindBooking(appointments: seq<Appointment>, doctorId: Id, date: Date, slot: string): Option<nat> {
    FirstWhere(appointments, (a: Appointment) => a.doctorId == doctorId && a.date == date && a.timeSlot == slot)
  }

  /** The outcome of one booking request against the store `t`: the response
      and the store afterwards. */
  function Book(t: Tables, patientId: Id, req: BookingRequest, now: Date,
                charge: (int, string) -> GatewayReply): (Response, Tables)
  {
    if !HasAllFields(req) then (Error(400, MISSING_FIELDS), t)
    else match FindDoctor(t.doctors, req.doctorId.value)
      case None => (Error(404, DOCTOR_NOT_FOUND), t)
      case Some(di) =>
        var doctor := t.doctors[di];
        if !SlotOffered(doctor.availability, req.timeSlot) then (Error(400, SLOT_NOT_OFFERED), t)
        else if FindBooking(t.appointments, req.doctorId.value, req.date.value, req.timeSlot).Some? then
          (Error(400, SLOT_TAKEN), t)
        else if FindUser(t.users, patientId).None? then (Error(404, USER_NOT_FOUND), t)
        else match charge(doctor.feesPerSession * 100, req.paymentMethodId)
          case CardError => (Error(400, CARD_DECLINED), t)
          case GatewayFailure => (Error(500, SERVER_ERROR), t)
          case Intent(status, transactionId) =>
            if status != "succeeded" then (Error(400, PAYMENT_FAILED), t)
            else
              var a := Appointment(t.nextId, req.doctorId.value, patientId, req.date.value,
                                   req.timeSlot, PENDING, PAID, now);
              var p := Payment(t.nextId + 1, a.id, patientId, req.doctorId.value,
                               doctor.feesPerSession, transactionId, req.paymentMethodId, SUCCESS, now);
              (Created(a, p),
               t.(appointments := t.appointments + [a], payments := t.payments + [p], nextId := t.nextId + 2))
  }

  /** The handler: checks in the source's order with an early return on the
      first failure, then saves the appointment and the payment. */
  method BookAppointment(db: Db, patientId: Id, req: BookingRequest, now: Date,
                         charge: (int, string) -> GatewayReply) returns (res: Response)
    requires db.Valid()
    modifies db
    ensures db.Valid()
    ensures (res, db.State()) == Book(old(db.State()), patientId, req, now, charge)
  {
    if !HasAllFields(req) {
      return Error(400, MISSING_FIELDS);
    }
    var doctorId := req.doctorId.value;
    var di := FindDoctor(db.doctors, doctorId);
    if di.None? {
      return Error(404, DOCTOR_NOT_FOUND);
    }
    var doctor := db.doctors[di.value];
    if !SlotOffered(doctor.availability, req.timeSlot) {
      return Error(400, SLOT_NOT_OFFERED);
    }
    var existing := FindBooking(db.appointments, doctorId, req.date.value, req.timeSlot);
    if existing.Some? {
      return Error(400, SLOT_TAKEN);
    }
    var user := FindUser(db.users, patientId);
    if user.None? {
      return Error(404, USER_NOT_FOUND);
    }
    var intent := charge(doctor.feesPerSession * 100, req.paymentMethodId);
    if intent.CardError? {
      return Error(400, CARD_DECLINED);
    } else if intent.GatewayFailure? {
      return Error(500, SERVER_ERROR);
    }
    if intent.status != "succeeded" {
      return Error(400, PAYMENT_FAILED);
    }
    var appointment, payment := SaveBooking(db, patientId, doctorId, req.date.value, req.timeSlot,
                                            doctor.feesPerSession, intent.id, req.paymentMethodId, now);
    res := Created(appointment, payment);
  }

  /** The two saves of a successful booking: a Pending, Paid appointment and
      the Success payment that points at it, each under a fresh id. */
  method SaveBooking(db: Db, patientId: Id, doctorId: Id, date: Date, timeSlot: string,
                     fee: int, transactionId: string, paymentMethodId: string, now: Date)
    returns (appointment: Appointment, payment: Payment)
    requires db.Valid()
    modifies db
    ensures db.Valid()
    ensures appointment == Appointment(old(db.nextId), doctorId, patientId, date, timeSlot, PENDING, PAID, now)
    ensures payment == Payment(old(db.nextId) + 1, appointment.id, patientId, doctorId,
                               fee, transactionId, paymentMethodId, SUCCESS, now)
    ensures db.State() == old(db.State()).(appointments := old(db.appointments) + [appointment],
                                           payments := old(db.payments) + [payment],
                                           nextId := old(db.nextId) + 2)
  {
    appointment := Appointment(db.nextId, doctorId, patientId, date, timeSlot, PENDING, PAID, now);
    payment := Payment(db.nextId + 1, appointment.id, patientId, doctorId,
                       fee, transactionId, paymentMethodId, SUCCESS, now);
    AppendFresh(db.appointments, AppointmentId, db.nextId, appointment, db.nextId + 2);
    AppendFresh(db.payments, PaymentId, db.nextId, payment, db.nextId + 2);
    RaiseBound(db.users, UserId, db.nextId, db.nextId + 2);
    RaiseBound(db.doctors, DoctorId, db.nextId, db.nextId + 2);
    RaiseBound(db.admins, AdminId, db.nextId, db.nextId + 2);
    RaiseBound(db.reviews, ReviewId, db.nextId, db.nextId + 2);
    db.appointments := db.appointments + [appointment];
    db.payments := db.payments + [payment];
    db.nextId := db.nextId + 2;
  }

  /** Every rejection comes before any write: a failed booking leaves every
      collection as it was, and it fails for one of the listed reasons. */
  lemma RejectionWritesNothing(t: Tables, patientId: Id, req: BookingRequest, now: Date,
                               charge: (int, string) -> GatewayReply)
    requires Book(t, patientId, req, now, charge).0.Error?
    ensures Book(t, patientId, req, now, charge).1 == t
    ensures Book(t, patientId, req, now, charge).0.message in
              {MISSING_FIELDS, DOCTOR_NOT_FOUND, SLOT_NOT_OFFERED, SLOT_TAKEN,
               USER_NOT_FOUND, PAYMENT_FAILED, CARD_DECLINED, SERVER_ERROR}
  {
  }

  /** A request missing any of doctorId, date, timeSlot or paymentMethodId
      gets 400 and writes nothing. */
  lemma MissingFieldRejected(t: Tables, patientId: Id, req: BookingRequest, now: Date,
                             charge: (int, string) -> GatewayReply)
    requires req.doctorId.None? || req.date.None? || req.timeSlot == "" || req.paymentMethodId == ""
    ensures Book(t, patientId, req, now, charge) == (Error(400, MISSING_FIELDS), t)
  {
  }

  /** Any stored appointment with the same doctor, date and slot blocks the
      booking, whatever its status: a cancelled one blocks it too. */
  lemma TakenSlotRejected(t: Tables, patientId: Id, req: BookingRequest, now: Date,
                          charge: (int, string) -> GatewayReply, k: nat)
    requires HasAllFields(req)
    requires FindDoctor(t.doctors, req.doctorId.value).Some?
    requires SlotOffered(t.doctors[FindDoctor(t.doctors, req.doctorId.value).value].availability, req.timeSlot)
    requires k < |t.appointments|
    requires t.appointments[k].doctorId == req.doctorId.value
    requires t.appointments[k].date == req.date.value
    requires t.appointments[k].timeSlot == req.timeSlot
    ensures Book(t, patientId, req, now, charge) == (Error(400, SLOT_TAKEN), t)
  {
  }

  /** A successful booking adds exactly one appointment, Pending and Paid, for
      the request's doctor, date and slot and the caller; and exactly one
      payment linked to it, recording the doctor's fee while the gateway was
      asked for that fee in cents. Nothing else changes. */
  lemma SuccessWrites(t: Tables, patientId: Id, req: BookingRequest, now: Date,
                      charge: (int, string) -> GatewayReply)
    requires Book(t, patientId, req, now, charge).0.Created?
    ensures var (r, t') := Book(t, patientId, req, now, charge);
      var a := r.appointment;
      var p := r.payment;
      && HasAllFields(req)
      && FindDoctor(t.doctors, req.doctorId.value).Some?
      && var doctor := t.doctors[FindDoctor(t.doctors, req.doctorId.value).value];
      && t'.appointments == t.appointments + [a]
      && t'.payments == t.payments + [p]
      && a.doctorId == req.doctorId.value && a.patientId == patientId
      && a.date == req.date.value && a.timeSlot == req.timeSlot
      && a.status == PENDING && a.paymentStatus == PAID
      && p.appointmentId == a.id && p.patientId == patientId && p.doctorId == a.doctorId
      && p.amount == doctor.feesPerSession
      && charge(doctor.feesPerSession * 100, req.paymentMethodId) == Intent("succeeded", p.transactionId)
      && p.paymentMethod == req.paymentMethodId && p.paymentStatus == SUCCESS
      && t'.users == t.users && t'.doctors == t.doctors && t'.admins == t.admins
      && t'.reviews == t.reviews
  {
  }

  /** The two new documents get fresh identifiers, so the store stays
      well formed. */
  lemma BookKeepsWellFormed(t: Tables, patientId: Id, req: BookingRequest, now: Date,
                            charge: (int, string) -> GatewayReply)
    requires WellFormed(t)
    ensures WellFormed(Book(t, patientId, req, now, charge).1)
  {
    var (r, t') := Book(t, patientId, req, now, charge);
    if r.Created? {
      AppendFresh(t.appointments, AppointmentId, t.nextId, r.appointment, t'.nextId);
      AppendFresh(t.payments, PaymentId, t.nextId, r.payment, t'.nextId);
      RaiseBound(t.users, UserId, t.nextId, t'.nextId);
      RaiseBound(t.doctors, DoctorId, t.nextId, t'.nextId);
      RaiseBound(t.admins, AdminId, t.nextId, t'.nextId);
      RaiseBound(t.reviews, ReviewId, t.nextId, t'.nextId);
    }
  }

  /** Once a booking succeeds, any further request for the same doctor, date
      and slot is rejected with "already booked" and writes nothing. */
  lemma SecondBookingRejected(t: Tables, patientId: Id, req: BookingRequest, now: Date,
                              charge: (int, string) -> GatewayReply,
                              patientId2: Id, paymentMethodId2: string, now2: Date,
                              charge2: (int, string) -> GatewayReply)
    requires Book(t, patientId, req, now, charge).0.Created?
    requires paymentMethodId2 != ""
    ensures var t' := Book(t, patientId, req, now, charge).1;
      Book(t', patientId2, req.(paymentMethodId := paymentMethodId2), now2, charge2)
        == (Error(400, SLOT_TAKEN), t')
  {
    var (r, t') := Book(t, patientId, req, now, charge);
    SuccessWrites(t, patientId, req, now, charge);
    var req2 := req.(paymentMethodId := paymentMethodId2);
    assert t'.appointments[|t.appointments|] == r.appointment;
    TakenSlotRejected(t', patientId2, req2, now2, charge2, |t.appointments|);
  }
}
