/** The doctor's dashboard routes, server/routes/docRoutes.js: appointment
    and payment listings with their chart data, the appointment status
    update and the availability update. The caller is a user; the doctor
    profile is the one linked to that user (`getDoctorId`). Calendar
    arithmetic is a parameter: `window(period)` is the [start, end] a
    route computes for "daily", "weekly" or "monthly" at the current time,
    `endOfDay(d)` is `d` moved to 23:59:59.999 local time, and `dateKey(d)`
    is `new Date(d).toLocaleDateString()`. */
module DocRoutes {
  import opened Wrappers
  import opened Models
  import opened Store
  import opened Tally

  const DOCTOR_NOT_FOUND := "Doctor not found"
  const INVALID_AVAILABILITY := "Invalid availability data"
  const AVAILABILITY_UPDATED := "Availability updated"
  const INVALID_STATUS := "Invalid status. Allowed values: 'Completed', 'Cancelled'"
  const NOT_YOURS := "Appointment not found or unauthorized"
  const PATIENT_NOT_FOUND := "Patient not found"
  const STATUS_UPDATED := "Appointment status updated and email notification sent"
  const DATES_REQUIRED := "Start date and end date are required for custom range"

  const DAILY := "daily"
  const WEEKLY := "weekly"
  const MONTHLY := "monthly"
  const CUSTOM := "custom"

  /** `getDoctorId(userId)`. */
  function DoctorOfUser(t: Tables, userId: Id): Option<Id> {
    match FindDoctorOfUser(t.doctors, userId)
    case None => None
    case Some(i) => Some(t.doctors[i].id)
  }

  // ---------------------------------------------------------------------
  // Appointment chart data, generateGraphData

  datatype Graph = Graph(
    totalAppointments: nat,
    completed: nat,
    cancelled: nat,
    pending: nat,
    revenue: int,
    byTime: Assoc<string>,
    byStatus: Assoc<string>,
    byDate: Assoc<string>)

  function TimeSlots(apps: seq<Appointment>): (r: seq<string>)
    ensures |r| == |apps| && forall k :: 0 <= k < |apps| ==> r[k] == apps[k].timeSlot
  {
    seq(|apps|, k requires 0 <= k < |apps| => apps[k].timeSlot)
  }

  function Statuses(apps: seq<Appointment>): (r: seq<string>)
    ensures |r| == |apps| && forall k :: 0 <= k < |apps| ==> r[k] == apps[k].status
  {
    seq(|apps|, k requires 0 <= k < |apps| => apps[k].status)
  }

  function DateKeys(apps: seq<Appointment>, dateKey: Date -> string): (r: seq<string>)
    ensures |r| == |apps| && forall k :: 0 <= k < |apps| ==> r[k] == dateKey(apps[k].date)
  {
    seq(|apps|, k requires 0 <= k < |apps| => dateKey(apps[k].date))
  }

  /** What the chart data is meant to say about a list of appointments:
      the counts per status, 100 of revenue per completed appointment, and
      the number of appointments per slot, per status and per day. */
  function GraphOf(apps: seq<Appointment>, dateKey: Date -> string): Graph {
    Graph(|apps|,
          CountWithStatus(apps, COMPLETED), CountWithStatus(apps, CANCELLED), CountWithStatus(apps, PENDING),
          100 * CountWithStatus(apps, COMPLETED),
          Count(TimeSlots(apps)), Count(Statuses(apps)), Count(DateKeys(apps, dateKey)))
  }

  /** The `forEach` loop of `generateGraphData`. */
  method GenerateGraphData(apps: seq<Appointment>, dateKey: Date -> string) returns (g: Graph)
    ensures g == GraphOf(apps, dateKey)
  {
    var completed, cancelled, pending, revenue := 0, 0, 0, 0;
    var byTime, byStatus, byDate := [], [], [];
    var i := 0;
    while i < |apps|
      invariant 0 <= i <= |apps|
      invariant completed == CountWithStatus(apps[..i], COMPLETED)
      invariant cancelled == CountWithStatus(apps[..i], CANCELLED)
      invariant pending == CountWithStatus(apps[..i], PENDING)
      invariant revenue == 100 * completed
      invariant byTime == Count(TimeSlots(apps[..i]))
      invariant byStatus == Count(Statuses(apps[..i]))
      invariant byDate == Count(DateKeys(apps[..i], dateKey))
    {
      var a := apps[i];
      GraphStep(apps, i, dateKey);
      if a.status == COMPLETED {
        completed, revenue := completed + 1, revenue + 100;
      } else if a.status == CANCELLED {
        cancelled := cancelled + 1;
      } else if a.status == PENDING {
        pending := pending + 1;
      }
      byTime := Bump(byTime, a.timeSlot, 1);
      byStatus := Bump(byStatus, a.status, 1);
      byDate := Bump(byDate, dateKey(a.date), 1);
      i := i + 1;
    }
    assert apps[..|apps|] == apps;
    g := Graph(|apps|, completed, cancelled, pending, revenue, byTime, byStatus, byDate);
  }

  /** What one more appointment does to each part of the chart data. */
  lemma GraphStep(apps: seq<Appointment>, i: nat, dateKey: Date -> string)
    requires i < |apps|
    ensures CountWithStatus(apps[..i + 1], COMPLETED) ==
      CountWithStatus(apps[..i], COMPLETED) + (if apps[i].status == COMPLETED then 1 else 0)
    ensures CountWithStatus(apps[..i + 1], CANCELLED) ==
      CountWithStatus(apps[..i], CANCELLED) + (if apps[i].status == CANCELLED then 1 else 0)
    ensures CountWithStatus(apps[..i + 1], PENDING) ==
      CountWithStatus(apps[..i], PENDING) + (if apps[i].status == PENDING then 1 else 0)
    ensures Count(TimeSlots(apps[..i + 1])) == Bump(Count(TimeSlots(apps[..i])), apps[i].timeSlot, 1)
    ensures Count(Statuses(apps[..i + 1])) == Bump(Count(Statuses(apps[..i])), apps[i].status, 1)
    ensures Count(DateKeys(apps[..i + 1], dateKey)) == Bump(Count(DateKeys(apps[..i], dateKey)), dateKey(apps[i].date), 1)
  {
    var a := apps[i];
    assert apps[..i + 1][..i] == apps[..i];
    assert TimeSlots(apps[..i + 1]) == TimeSlots(apps[..i]) + [a.timeSlot];
    assert Statuses(apps[..i + 1]) == Statuses(apps[..i]) + [a.status];
    assert DateKeys(apps[..i + 1], dateKey) == DateKeys(apps[..i], dateKey) + [dateKey(a.date)];
    CountSnoc(TimeSlots(apps[..i]), a.timeSlot);
    CountSnoc(Statuses(apps[..i]), a.status);
    CountSnoc(DateKeys(apps[..i], dateKey), dateKey(a.date));
  }

  predicate KnownStatuses(apps: seq<Appointment>) {
    forall k :: 0 <= k < |apps| ==> IsAppointmentStatus(apps[k].status)
  }

  lemma {:induction false} StatusCountsAddUp(apps: seq<Appointment>)
    ensures CountWithStatus(apps, COMPLETED) + CountWithStatus(apps, CANCELLED) + CountWithStatus(apps, PENDING) <= |apps|
    ensures CountWithStatus(apps, COMPLETED) + CountWithStatus(apps, CANCELLED) + CountWithStatus(apps, PENDING) == |apps|
            <==> KnownStatuses(apps)
  {
    if apps != [] {
      var init := apps[..|apps| - 1];
      StatusCountsAddUp(init);
      if KnownStatuses(apps) {
        assert KnownStatuses(init) by {
          forall k | 0 <= k < |init| ensures IsAppointmentStatus(init[k].status) {
            assert init[k] == apps[k];
          }
        }
      }
      if KnownStatuses(init) && IsAppointmentStatus(apps[|apps| - 1].status) {
        assert KnownStatuses(apps) by {
          forall k | 0 <= k < |apps| ensures IsAppointmentStatus(apps[k].status) {
            if k < |init| { assert init[k] == apps[k]; }
          }
        }
      }
    }
  }

  /** Conservation in the chart data: every tally adds up to the number of
      appointments, each status count is the byStatus entry of that status,
      revenue is 100 per completed appointment, and the three status counts
      add up to the total exactly when no appointment has a status outside
      the schema's enum. */
  lemma GraphConservation(apps: seq<Appointment>, dateKey: Date -> string)
    ensures var g := GraphOf(apps, dateKey);
      && g.totalAppointments == |apps|
      && Sum(g.byTime) == |apps| && Sum(g.byStatus) == |apps| && Sum(g.byDate) == |apps|
      && g.revenue == 100 * g.completed
      && Get(g.byStatus, COMPLETED) == g.completed
      && Get(g.byStatus, CANCELLED) == g.cancelled
      && Get(g.byStatus, PENDING) == g.pending
      && (g.completed + g.cancelled + g.pending == g.totalAppointments <==> KnownStatuses(apps))
  {
    CountSum(TimeSlots(apps));
    CountSum(Statuses(apps));
    CountSum(DateKeys(apps, dateKey));
    StatusCountsAddUp(apps);
    StatusTally(apps, COMPLETED);
    StatusTally(apps, CANCELLED);
    StatusTally(apps, PENDING);
  }

  lemma StatusTally(apps: seq<Appointment>, status: string)
    ensures Get(Count(Statuses(apps)), status) == CountWithStatus(apps, status)
  {
    CountGet(Statuses(apps), status);
    StatusOccurrences(apps, status);
  }

  lemma {:induction false} StatusOccurrences(apps: seq<Appointment>, status: string)
    ensures multiset(Statuses(apps))[status] == CountWithStatus(apps, status)
  {
    if apps != [] {
      var init := apps[..|apps| - 1];
      StatusOccurrences(init, status);
      assert Statuses(apps) == Statuses(init) + [apps[|apps| - 1].status];
    }
  }

  // ---------------------------------------------------------------------
  // Payment chart data, generatePaymentGraphData

  datatype PaymentGraph = PaymentGraph(
    totalPayments: nat,
    totalEarnings: int,
    averageEarningsPerPayment: real,
    byDate: Assoc<string>,
    byPatient: Assoc<string>,
    byStatus: Assoc<string>,
    byPaymentMethod: Assoc<string>)

  /** `payment.patientId.name` after `populate`: None when the patient is
      gone, where the source throws. */
  function PatientName(users: seq<User>, id: Id): Option<string> {
    match FindUser(users, id)
    case None => None
    case Some(i) => Some(users[i].name)
  }

  function DateAmounts(payments: seq<Payment>, dateKey: Date -> string): (r: seq<(string, int)>)
    ensures |r| == |payments|
    ensures forall k :: 0 <= k < |payments| ==> r[k] == (dateKey(payments[k].createdAt), payments[k].amount)
  {
    seq(|payments|, k requires 0 <= k < |payments| => (dateKey(payments[k].createdAt), payments[k].amount))
  }

  function PatientAmounts(payments: seq<Payment>, users: seq<User>): (r: seq<(string, int)>)
    ensures |r| == |payments|
    ensures forall k :: 0 <= k < |payments| ==>
      r[k] == (PatientName(users, payments[k].patientId).GetOr(""), payments[k].amount)
  {
    seq(|payments|, k requires 0 <= k < |payments| =>
      (PatientName(users, payments[k].patientId).GetOr(""), payments[k].amount))
  }

  /** The (method, amount) pairs of the payments whose method is truthy. */
  function MethodAmounts(payments: seq<Payment>): seq<(string, int)> {
    if payments == [] then []
    else
      var p := payments[|payments| - 1];
      MethodAmounts(payments[..|payments| - 1]) + (if p.paymentMethod != "" then [(p.paymentMethod, p.amount)] else [])
  }

  /** `count > 0 ? total / count : 0`, on exact reals. */
  function Average(total: int, count: nat): (r: real)
    ensures count > 0 ==> r * count as real == total as real
    ensures count == 0 ==> r == 0.0
  {
    if count > 0 then total as real / count as real else 0.0
  }

  predicate PatientsPresent(payments: seq<Payment>, users: seq<User>) {
    forall k :: 0 <= k < |payments| ==> PatientName(users, payments[k].patientId).Some?
  }

  /** The chart data as written: the Payment schema has no `status` field,
      so the byStatus grouping never receives an entry. None is the
      TypeError a payment whose patient is gone raises. */
  function PaymentGraphOf(payments: seq<Payment>, users: seq<User>, dateKey: Date -> string): Option<PaymentGraph> {
    if !PatientsPresent(payments, users) then None
    else Some(PaymentGraph(|payments|, TotalAmount(payments), Average(TotalAmount(payments), |payments|),
                           Accumulate(DateAmounts(payments, dateKey)),
                           Accumulate(PatientAmounts(payments, users)),
                           [],
                           Accumulate(MethodAmounts(payments))))
  }

  /** `payments.reduce((sum, payment) => sum + payment.amount, 0)`. */
  method SumAmounts(payments: seq<Payment>) returns (total: int)
    ensures total == TotalAmount(payments)
  {
    total := 0;
    var j := 0;
    while j < |payments|
      invariant 0 <= j <= |payments|
      invariant total == TotalAmount(payments[..j])
    {
      assert payments[..j + 1][..j] == payments[..j];
      total := total + payments[j].amount;
      j := j + 1;
    }
    assert payments[..|payments|] == payments;
  }

  /** The `forEach` loop of `generatePaymentGraphData`. */
  method GeneratePaymentGraphData(payments: seq<Payment>, users: seq<User>, dateKey: Date -> string)
    returns (g: Option<PaymentGraph>)
    ensures g == PaymentGraphOf(payments, users, dateKey)
  {
    var total := SumAmounts(payments);
    var data := PaymentGraph(|payments|, total, Average(total, |payments|), [], [], [], []);
    var i := 0;
    while i < |payments|
      invariant 0 <= i <= |payments|
      invariant PatientsPresent(payments[..i], users)
      invariant data.totalPayments == |payments| && data.totalEarnings == total
      invariant data.averageEarningsPerPayment == Average(total, |payments|)
      invariant data.byDate == Accumulate(DateAmounts(payments[..i], dateKey))
      invariant data.byPatient == Accumulate(PatientAmounts(payments[..i], users))
      invariant data.byStatus == []
      invariant data.byPaymentMethod == Accumulate(MethodAmounts(payments[..i]))
    {
      var p := payments[i];
      PaymentStep(payments, users, dateKey, i);
      data := data.(byDate := Bump(data.byDate, dateKey(p.createdAt), p.amount));
      var name := PatientName(users, p.patientId);
      if name.None? {
        assert PatientName(users, payments[i].patientId).None?;
        return None;
      }
      data := data.(byPatient := Bump(data.byPatient, name.value, p.amount));
      if p.paymentMethod != "" {
        data := data.(byPaymentMethod := Bump(data.byPaymentMethod, p.paymentMethod, p.amount));
      }
      i := i + 1;
    }
    assert payments[..|payments|] == payments;
    g := Some(data);
  }

  lemma PaymentStep(payments: seq<Payment>, users: seq<User>, dateKey: Date -> string, i: nat)
    requires i < |payments|
    ensures var p := payments[i];
      && Accumulate(DateAmounts(payments[..i + 1], dateKey))
           == Bump(Accumulate(DateAmounts(payments[..i], dateKey)), dateKey(p.createdAt), p.amount)
      && Accumulate(PatientAmounts(payments[..i + 1], users))
           == Bump(Accumulate(PatientAmounts(payments[..i], users)), PatientName(users, p.patientId).GetOr(""), p.amount)
      && Accumulate(MethodAmounts(payments[..i + 1]))
           == (if p.paymentMethod != "" then Bump(Accumulate(MethodAmounts(payments[..i])), p.paymentMethod, p.amount)
               else Accumulate(MethodAmounts(payments[..i])))
      && (PatientsPresent(payments[..i + 1], users) <==>
            PatientsPresent(payments[..i], users) && PatientName(users, p.patientId).Some?)
  {
    var p := payments[i];
    var before := payments[..i];
    assert payments[..i + 1] == before + [p];
    DateAmountsSnoc(before, p, dateKey);
    PatientAmountsSnoc(before, p, users);
    MethodAmountsSnoc(before, p);
    PresentSnoc(before, p, users);
  }

  lemma MethodAmountsSnoc(payments: seq<Payment>, p: Payment)
    ensures Accumulate(MethodAmounts(payments + [p]))
      == (if p.paymentMethod != "" then Bump(Accumulate(MethodAmounts(payments)), p.paymentMethod, p.amount)
          else Accumulate(MethodAmounts(payments)))
  {
    assert (payments + [p])[..|payments|] == payments;
    if p.paymentMethod != "" {
      assert MethodAmounts(payments + [p]) == MethodAmounts(payments) + [(p.paymentMethod, p.amount)];
      AccumulateSnoc(MethodAmounts(payments), p.paymentMethod, p.amount);
    } else {
      assert MethodAmounts(payments + [p]) == MethodAmounts(payments);
    }
  }

  lemma PresentSnoc(payments: seq<Payment>, p: Payment, users: seq<User>)
    ensures PatientsPresent(payments + [p], users) <==>
      PatientsPresent(payments, users) && PatientName(users, p.patientId).Some?
  {
    var s := payments + [p];
    if PatientsPresent(s, users) {
      forall k | 0 <= k < |payments| ensures PatientName(users, payments[k].patientId).Some? {
        assert s[k] == payments[k];
      }
      assert s[|payments|] == p;
    }
  }

  lemma DateAmountsSnoc(payments: seq<Payment>, p: Payment, dateKey: Date -> string)
    ensures Accumulate(DateAmounts(payments + [p], dateKey))
      == Bump(Accumulate(DateAmounts(payments, dateKey)), dateKey(p.createdAt), p.amount)
  {
    assert DateAmounts(payments + [p], dateKey) == DateAmounts(payments, dateKey) + [(dateKey(p.createdAt), p.amount)];
    AccumulateSnoc(DateAmounts(payments, dateKey), dateKey(p.createdAt), p.amount);
  }

  lemma PatientAmountsSnoc(payments: seq<Payment>, p: Payment, users: seq<User>)
    ensures Accumulate(PatientAmounts(payments + [p], users))
      == Bump(Accumulate(PatientAmounts(payments, users)), PatientName(users, p.patientId).GetOr(""), p.amount)
  {
    assert PatientAmounts(payments + [p], users)
      == PatientAmounts(payments, users) + [(PatientName(users, p.patientId).GetOr(""), p.amount)];
    AccumulateSnoc(PatientAmounts(payments, users), PatientName(users, p.patientId).GetOr(""), p.amount);
  }

  lemma {:induction false} DateAmountsWeigh(payments: seq<Payment>, dateKey: Date -> string)
    ensures Weights(DateAmounts(payments, dateKey)) == TotalAmount(payments)
  {
    if payments != [] {
      var init := payments[..|payments| - 1];
      DateAmountsWeigh(init, dateKey);
      assert DateAmounts(payments, dateKey)[..|payments| - 1] == DateAmounts(init, dateKey);
    }
  }

  lemma {:induction false} PatientAmountsWeigh(payments: seq<Payment>, users: seq<User>)
    ensures Weights(PatientAmounts(payments, users)) == TotalAmount(payments)
  {
    if payments != [] {
      var init := payments[..|payments| - 1];
      PatientAmountsWeigh(init, users);
      assert PatientAmounts(payments, users)[..|payments| - 1] == PatientAmounts(init, users);
    }
  }

  lemma {:induction false} MethodAmountsWeigh(payments: seq<Payment>)
    requires forall k :: 0 <= k < |payments| ==> payments[k].paymentMethod != ""
    ensures Weights(MethodAmounts(payments)) == TotalAmount(payments)
  {
    if payments != [] {
      var init := payments[..|payments| - 1];
      var p := payments[|payments| - 1];
      assert forall k :: 0 <= k < |init| ==> init[k].paymentMethod != "" by {
        forall k | 0 <= k < |init| ensures init[k].paymentMethod != "" {
          assert init[k] == payments[k];
        }
      }
      MethodAmountsWeigh(init);
      WeightsSnoc(MethodAmounts(init), p.paymentMethod, p.amount);
    }
  }

  /** Conservation in the payment chart data: totalEarnings is the sum of
      the amounts, the per-day and per-patient sums add up to it, and so do
      the per-method sums when every payment has a method (the schema
      requires one); the average is 0 for no payments. */
  lemma PaymentGraphConservation(payments: seq<Payment>, users: seq<User>, dateKey: Date -> string)
    requires PatientsPresent(payments, users)
    ensures var g := PaymentGraphOf(payments, users, dateKey).value;
      && g.totalPayments == |payments|
      && g.totalEarnings == TotalAmount(payments)
      && Sum(g.byDate) == g.totalEarnings
      && Sum(g.byPatient) == g.totalEarnings
      && ((forall k :: 0 <= k < |payments| ==> payments[k].paymentMethod != "") ==> Sum(g.byPaymentMethod) == g.totalEarnings)
      && (payments == [] ==> g.averageEarningsPerPayment == 0.0)
  {
    AccumulateSum(DateAmounts(payments, dateKey));
    DateAmountsWeigh(payments, dateKey);
    AccumulateSum(PatientAmounts(payments, users));
    PatientAmountsWeigh(payments, users);
    if forall k :: 0 <= k < |payments| ==> payments[k].paymentMethod != "" {
      AccumulateSum(MethodAmounts(payments));
      MethodAmountsWeigh(payments);
    }
  }

  /** The payment-status chart is always empty as written. */
  lemma PaymentStatusNeverGrouped(payments: seq<Payment>, users: seq<User>, dateKey: Date -> string)
    ensures var g := PaymentGraphOf(payments, users, dateKey);
      g.Some? ==> g.value.byStatus == []
  {
  }

  /** The grouping meant: amounts per `paymentStatus`. */
  function StatusAmounts(payments: seq<Payment>): (r: seq<(string, int)>)
    ensures |r| == |payments|
    ensures forall k :: 0 <= k < |payments| ==> r[k] == (payments[k].paymentStatus, payments[k].amount)
  {
    seq(|payments|, k requires 0 <= k < |payments| => (payments[k].paymentStatus, payments[k].amount))
  }

  function ByPaymentStatus(payments: seq<Payment>): Assoc<string> {
    Accumulate(StatusAmounts(payments))
  }

  lemma {:induction false} StatusAmountsWeigh(payments: seq<Payment>)
    ensures Weights(StatusAmounts(payments)) == TotalAmount(payments)
  {
    if payments != [] {
      var init := payments[..|payments| - 1];
      StatusAmountsWeigh(init);
      assert StatusAmounts(payments)[..|payments| - 1] == StatusAmounts(init);
    }
  }

  /** Grouped by `paymentStatus`, every payment lands under its status, the
      groups add up to the total earnings and each status appears once. */
  lemma ByPaymentStatusConserves(payments: seq<Payment>, status: string)
    ensures Sum(ByPaymentStatus(payments)) == TotalAmount(payments)
    ensures DistinctKeys(ByPaymentStatus(payments))
    ensures status in Keys(ByPaymentStatus(payments)) <==>
      exists k :: 0 <= k < |payments| && payments[k].paymentStatus == status
  {
    AccumulateSum(StatusAmounts(payments));
    StatusAmountsWeigh(payments);
    AccumulateKeys(StatusAmounts(payments), status);
    if exists k :: 0 <= k < |payments| && payments[k].paymentStatus == status {
      var k :| 0 <= k < |payments| && payments[k].paymentStatus == status;
      assert StatusAmounts(payments)[k].0 == status;
    }
  }

  // ---------------------------------------------------------------------
  // Routes

  datatype Response =
    | AvailabilityUpdated(doctor: Doctor)
    | StatusUpdated(appointment: Appointment)
    | Appointments(appointments: seq<Appointment>, graph: Graph)
    | Payments(payments: seq<Payment>, paymentGraph: PaymentGraph)
    | Error(status: int, message: string)
    /** 500 with the message of the exception the handler caught. */
    | Failed

  /** The `availability` field of the body: absent (or otherwise falsy),
      present but not an array, or an array of entries. */
  datatype AvailabilityBody = Missing | NotAList | Entries(entries: seq<DayAvailability>)

  function UpdateAvailability(t: Tables, userId: Id, body: AvailabilityBody): (Response, Tables) {
    match FindDoctorOfUser(t.doctors, userId)
    case None => (Error(404, DOCTOR_NOT_FOUND), t)
    case Some(i) =>
      if !body.Entries? then (Error(400, INVALID_AVAILABILITY), t)
      else if !EntriesSave(body.entries) then (Failed, t)  // `runValidators` on the update
      else
        var d := t.doctors[i].(availability := body.entries);
        (AvailabilityUpdated(d), t.(doctors := t.doctors[i := d]))
  }

  method SetAvailability(db: Db, userId: Id, body: AvailabilityBody) returns (res: Response)
    requires db.Valid()
    modifies db
    ensures db.Valid()
    ensures (res, db.State()) == UpdateAvailability(old(db.State()), userId, body)
  {
    var i := FindDoctorOfUser(db.doctors, userId);
    if i.None? {
      return Error(404, DOCTOR_NOT_FOUND);
    }
    if !body.Entries? {
      return Error(400, INVALID_AVAILABILITY);
    }
    if !EntriesSave(body.entries) {
      return Failed;
    }
    var doctor := db.doctors[i.value].(availability := body.entries);
    ReplaceSameId(db.doctors, DoctorId, db.nextId, i.value, doctor);
    db.doctors := db.doctors[i.value := doctor];
    res := AvailabilityUpdated(doctor);
  }

  /** A body without an array is refused with 400 and nothing changes; an
      accepted one replaces the caller's availability, the whole list, and
      nothing else. */
  lemma AvailabilityNeedsList(t: Tables, userId: Id, body: AvailabilityBody)
    requires FindDoctorOfUser(t.doctors, userId).Some?
    ensures var (r, t') := UpdateAvailability(t, userId, body);
      && (!body.Entries? ==> r == Error(400, INVALID_AVAILABILITY) && t' == t)
      && (r.AvailabilityUpdated? ==>
            && body.Entries?
            && var i := FindDoctorOfUser(t.doctors, userId).value;
            && t'.doctors == t.doctors[i := t.doctors[i].(availability := body.entries)]
            && t'.doctors[i].userId == userId
            && t'.appointments == t.appointments && t'.users == t.users)
  {
  }

  function FindDoctorsAppointment(apps: seq<Appointment>, id: Id, doctorId: Id): (r: Option<nat>)
    ensures r.Some? ==> r.value < |apps| && apps[r.value].id == id && apps[r.value].doctorId == doctorId
    ensures r.None? ==> forall k :: 0 <= k < |apps| ==> !(apps[k].id == id && apps[k].doctorId == doctorId)
  {
    FirstWhere(apps, (a: Appointment) => a.id == id && a.doctorId == doctorId)
  }

  /** The doctor-side status update. The status is saved before the patient
      is looked up, so a missing patient gets 404 with the change already
      made. */
  function UpdateStatus(t: Tables, userId: Id, appointmentId: Id, status: string): (Response, Tables) {
    match DoctorOfUser(t, userId)
    case None => (Error(404, DOCTOR_NOT_FOUND), t)
    case Some(doctorId) =>
      if status != COMPLETED && status != CANCELLED then (Error(400, INVALID_STATUS), t)
      else match FindDoctorsAppointment(t.appointments, appointmentId, doctorId)
        case None => (Error(404, NOT_YOURS), t)
        case Some(i) =>
          var a := t.appointments[i].(status := status);
          var t' := t.(appointments := t.appointments[i := a]);
          if FindUser(t.users, a.patientId).None? then (Error(404, PATIENT_NOT_FOUND), t')
          else (StatusUpdated(a), t')
  }

  method SetAppointmentStatus(db: Db, userId: Id, appointmentId: Id, status: string) returns (res: Response)
    requires db.Valid()
    modifies db
    ensures db.Valid()
    ensures (res, db.State()) == UpdateStatus(old(db.State()), userId, appointmentId, status)
  {
    var d := FindDoctorOfUser(db.doctors, userId);
    if d.None? {
      return Error(404, DOCTOR_NOT_FOUND);
    }
    var doctorId := db.doctors[d.value].id;
    if status != COMPLETED && status != CANCELLED {
      return Error(400, INVALID_STATUS);
    }
    var i := FindDoctorsAppointment(db.appointments, appointmentId, doctorId);
    if i.None? {
      return Error(404, NOT_YOURS);
    }
    var appointment := db.appointments[i.value];
    appointment := appointment.(status := status);
    ReplaceSameId(db.appointments, AppointmentId, db.nextId, i.value, appointment);
    db.appointments := db.appointments[i.value := appointment];
    if FindUser(db.users, appointment.patientId).None? {
      return Error(404, PATIENT_NOT_FOUND);
    }
    res := StatusUpdated(appointment);
  }

  /** Any status other than Completed or Cancelled is refused with 400, and
      an appointment of another doctor (or none) with 404, both without a
      change. Otherwise that one appointment gets the new status, whatever
      its old one was, and nothing else changes. */
  lemma StatusUpdateGuarded(t: Tables, userId: Id, appointmentId: Id, status: string)
    requires UniqueIds(t.appointments, AppointmentId)
    requires DoctorOfUser(t, userId).Some?
    ensures var doctorId := DoctorOfUser(t, userId).value;
      var (r, t') := UpdateStatus(t, userId, appointmentId, status);
      && (status != COMPLETED && status != CANCELLED ==> r == Error(400, INVALID_STATUS) && t' == t)
      && ((status == COMPLETED || status == CANCELLED) &&
          (forall k :: 0 <= k < |t.appointments| ==>
             !(t.appointments[k].id == appointmentId && t.appointments[k].doctorId == doctorId))
          ==> r == Error(404, NOT_YOURS) && t' == t)
      && (t' != t ==>
            && |t'.appointments| == |t.appointments|
            && t'.users == t.users && t'.payments == t.payments && t'.doctors == t.doctors
            && forall k :: 0 <= k < |t.appointments| ==>
                 t'.appointments[k] == (if t.appointments[k].id == appointmentId
                                        then t.appointments[k].(status := status)
                                        else t.appointments[k]))
  {
    var doctorId := DoctorOfUser(t, userId).value;
    var f := FindDoctorsAppointment(t.appointments, appointmentId, doctorId);
    if (status == COMPLETED || status == CANCELLED) && f.Some? {
      forall k | 0 <= k < |t.appointments| && t.appointments[k].id == appointmentId ensures k == f.value {
        assert AppointmentId(t.appointments[k]) == AppointmentId(t.appointments[f.value]);
      }
    }
  }

  /** There are no terminal states: a Completed appointment can be
      Cancelled, a Cancelled one Completed, and a patient can cancel a
      Completed one (the patient-side route is PatientRoutes.Cancel). */
  lemma NoTerminalStates(t: Tables, userId: Id, i: nat, status: string)
    requires i < |t.appointments|
    requires DoctorOfUser(t, userId) == Some(t.appointments[i].doctorId)
    requires UniqueIds(t.appointments, AppointmentId)
    requires status == COMPLETED || status == CANCELLED
    ensures var t' := UpdateStatus(t, userId, t.appointments[i].id, status).1;
      t'.appointments[i].status == status
  {
    var f := FindDoctorsAppointment(t.appointments, t.appointments[i].id, t.appointments[i].doctorId);
    assert f.Some?;
    assert AppointmentId(t.appointments[f.value]) == AppointmentId(t.appointments[i]);
  }

  /** The window the appointment listing filters `date` on: the period's
      window, else a custom range when both dates are given, else none. */
  function AppointmentWindow(period: string, startDate: Option<Date>, endDate: Option<Date>,
                             window: string -> (Date, Date), endOfDay: Date -> Date): Option<(Date, Date)>
  {
    if period == DAILY || period == WEEKLY || period == MONTHLY then Some(window(period))
    else if startDate.Some? && endDate.Some? then Some((startDate.value, endOfDay(endDate.value)))
    else None
  }

  function InWindow(d: Date, w: Option<(Date, Date)>): bool {
    w.None? || (w.value.0 <= d && d <= w.value.1)
  }

  /** `Appointment.find({ doctorId[, date: { $gte, $lte }] })`. */
  function DoctorsAppointments(apps: seq<Appointment>, doctorId: Id, w: Option<(Date, Date)>): (r: seq<Appointment>)
    ensures forall a :: a in r <==> a in apps && a.doctorId == doctorId && InWindow(a.date, w)
  {
    if apps == [] then []
    else (if apps[0].doctorId == doctorId && InWindow(apps[0].date, w) then [apps[0]] else [])
         + DoctorsAppointments(apps[1..], doctorId, w)
  }

  function ListAppointments(t: Tables, userId: Id, period: string, startDate: Option<Date>, endDate: Option<Date>,
                            window: string -> (Date, Date), endOfDay: Date -> Date, dateKey: Date -> string): Response
  {
    match DoctorOfUser(t, userId)
    case None => Error(404, DOCTOR_NOT_FOUND)
    case Some(doctorId) =>
      var apps := DoctorsAppointments(t.appointments, doctorId, AppointmentWindow(period, startDate, endDate, window, endOfDay));
      Appointments(apps, GraphOf(apps, dateKey))
  }

  /** The listing never fails once the doctor is known: with no period and
      no complete custom range it lists every appointment of the doctor, and
      it holds only the doctor's appointments, each in the window. */
  lemma AppointmentListingScope(t: Tables, userId: Id, period: string, startDate: Option<Date>, endDate: Option<Date>,
                                window: string -> (Date, Date), endOfDay: Date -> Date, dateKey: Date -> string)
    requires DoctorOfUser(t, userId).Some?
    ensures var r := ListAppointments(t, userId, period, startDate, endDate, window, endOfDay, dateKey);
      var doctorId := DoctorOfUser(t, userId).value;
      && r.Appointments?
      && (forall a :: a in r.appointments ==> a in t.appointments && a.doctorId == doctorId)
      && (period != DAILY && period != WEEKLY && period != MONTHLY && (startDate.None? || endDate.None?) ==>
            forall a :: a in t.appointments && a.doctorId == doctorId ==> a in r.appointments)
      && (startDate.Some? && endDate.Some? && period != DAILY && period != WEEKLY && period != MONTHLY ==>
            forall a :: a in r.appointments ==> startDate.value <= a.date <= endOfDay(endDate.value))
  {
  }

  /** The window the payment listing filters `createdAt` on, or the 400 a
      custom period without both dates gets. Any other period lists all. */
  function PaymentWindow(period: string, startDate: Option<Date>, endDate: Option<Date>,
                         window: string -> (Date, Date), endOfDay: Date -> Date): Option<Option<(Date, Date)>>
  {
    if period == DAILY || period == WEEKLY || period == MONTHLY then Some(Some(window(period)))
    else if period == CUSTOM then
      if startDate.None? || endDate.None? then None
      else Some(Some((startDate.value, endOfDay(endDate.value))))
    else Some(None)
  }

  function DoctorsPayments(payments: seq<Payment>, doctorId: Id, w: Option<(Date, Date)>): (r: seq<Payment>)
    ensures forall p :: p in r <==> p in payments && p.doctorId == doctorId && InWindow(p.createdAt, w)
  {
    if payments == [] then []
    else (if payments[0].doctorId == doctorId && InWindow(payments[0].createdAt, w) then [payments[0]] else [])
         + DoctorsPayments(payments[1..], doctorId, w)
  }

  function ListPayments(t: Tables, userId: Id, period: string, startDate: Option<Date>, endDate: Option<Date>,
                        window: string -> (Date, Date), endOfDay: Date -> Date, dateKey: Date -> string): Response
  {
    match DoctorOfUser(t, userId)
    case None => Error(404, DOCTOR_NOT_FOUND)
    case Some(doctorId) =>
      match PaymentWindow(period, startDate, endDate, window, endOfDay)
      case None => Error(400, DATES_REQUIRED)
      case Some(w) =>
        var payments := DoctorsPayments(t.payments, doctorId, w);
        match PaymentGraphOf(payments, t.users, dateKey)
        case None => Failed
        case Some(g) => Payments(payments, g)
  }

  /** Unlike the appointment listing, a custom period needs both dates: 400
      otherwise. A listing holds only the doctor's payments in the window. */
  lemma PaymentListingScope(t: Tables, userId: Id, period: string, startDate: Option<Date>, endDate: Option<Date>,
                            window: string -> (Date, Date), endOfDay: Date -> Date, dateKey: Date -> string)
    requires DoctorOfUser(t, userId).Some?
    ensures var r := ListPayments(t, userId, period, startDate, endDate, window, endOfDay, dateKey);
      && (r == Error(400, DATES_REQUIRED) <==> period == CUSTOM && (startDate.None? || endDate.None?))
      && (r.Payments? ==>
            && (forall p :: p in r.payments ==> p in t.payments && p.doctorId == DoctorOfUser(t, userId).value)
            && r.paymentGraph.totalEarnings == TotalAmount(r.payments))
  {
  }
}
