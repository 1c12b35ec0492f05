/** The administrator's routes, server/routes/adminRoutes.js: dashboard
    counts and revenue, and approving or rejecting a doctor. */
module AdminRoutes {
  import opened Wrappers
  import opened Models
  import opened Store
  import Booking

  datatype Stats = Stats(
    totalUsers: nat,
    totalDoctors: nat,
    totalAppointments: nat,
    pendingAppointments: nat,
    totalPayments: nat,
    totalRevenue: int)

  function GetStats(t: Tables): Stats {
    Stats(|t.users|, |t.doctors|, |t.appointments|, CountWithStatus(t.appointments, PENDING),
          |t.payments|, TotalAmount(t.payments))
  }

  lemma {:induction false} CountAtMostLength(apps: seq<Appointment>, status: string)
    ensures CountWithStatus(apps, status) <= |apps|
    ensures CountWithStatus(apps, status) == |apps| <==> forall k :: 0 <= k < |apps| ==> apps[k].status == status
  {
    if apps != [] {
      var init := apps[..|apps| - 1];
      CountAtMostLength(init, status);
      if forall k :: 0 <= k < |apps| ==> apps[k].status == status {
        assert forall k :: 0 <= k < |init| ==> init[k].status == status by {
          forall k | 0 <= k < |init| ensures init[k].status == status {
            assert init[k] == apps[k];
          }
        }
      }
    }
  }

  /** Pending appointments never outnumber appointments, and the two are
      equal exactly when every appointment is Pending. */
  lemma PendingAtMostTotal(t: Tables)
    ensures GetStats(t).pendingAppointments <= GetStats(t).totalAppointments
    ensures GetStats(t).pendingAppointments == GetStats(t).totalAppointments <==>
      forall k :: 0 <= k < |t.appointments| ==> t.appointments[k].status == PENDING
  {
    CountAtMostLength(t.appointments, PENDING);
  }

  /** The `$sum` over all payments: 0 when there are none, and additive over
      any split of the collection, so it does not depend on the order the
      pipeline visits the documents in. */
  lemma {:induction false} RevenueIsTheSum(a: seq<Payment>, b: seq<Payment>)
    ensures TotalAmount([]) == 0
    ensures TotalAmount(a + b) == TotalAmount(a) + TotalAmount(b)
    ensures TotalAmount(a + b) == TotalAmount(b + a)
  {
    RevenueSplit(a, b);
    RevenueSplit(b, a);
  }

  lemma {:induction false} RevenueSplit(a: seq<Payment>, b: seq<Payment>)
    ensures TotalAmount(a + b) == TotalAmount(a) + TotalAmount(b)
  {
    if b == [] {
      assert a + b == a;
    } else {
      var n := |b| - 1;
      RevenueSplit(a, b[..n]);
      assert (a + b)[..|a + b| - 1] == a + b[..n];
    }
  }

  /** A successful booking adds one pending appointment, one payment and the
      doctor's fee to the revenue; a rejected one changes no figure. */
  lemma BookingMovesStats(t: Tables, patientId: Id, req: Booking.BookingRequest, now: Date,
                          charge: (int, string) -> Booking.GatewayReply)
    ensures var (r, t') := Booking.Book(t, patientId, req, now, charge);
      && (r.Created? ==>
            && GetStats(t').totalAppointments == GetStats(t).totalAppointments + 1
            && GetStats(t').pendingAppointments == GetStats(t).pendingAppointments + 1
            && GetStats(t').totalPayments == GetStats(t).totalPayments + 1
            && GetStats(t').totalRevenue == GetStats(t).totalRevenue + r.payment.amount
            && r.payment.amount == t.doctors[FindDoctor(t.doctors, req.doctorId.value).value].feesPerSession)
      && (r.Error? ==> GetStats(t') == GetStats(t))
  {
    var (r, t') := Booking.Book(t, patientId, req, now, charge);
    if r.Created? {
      Booking.SuccessWrites(t, patientId, req, now, charge);
      assert (t.appointments + [r.appointment])[..|t.appointments|] == t.appointments;
      assert (t.payments + [r.payment])[..|t.payments|] == t.payments;
    } else {
      Booking.RejectionWritesNothing(t, patientId, req, now, charge);
    }
  }

  datatype Response = Updated(message: string) | Error(status: int, message: string)

  const STATUS_UPDATED := "Doctor status updated"
  const INVALID_STATUS := "Invalid status"

  /** Only Approved and Rejected pass; the update's result is not looked at,
      so an unknown id still gets the success reply. */
  function SetDoctorStatus(t: Tables, id: Id, status: string): (Response, Tables) {
    if status != APPROVED && status != REJECTED then (Error(400, INVALID_STATUS), t)
    else match FindDoctor(t.doctors, id)
      case None => (Updated(STATUS_UPDATED), t)
      case Some(i) => (Updated(STATUS_UPDATED), t.(doctors := t.doctors[i := t.doctors[i].(status := status)]))
  }

  method UpdateDoctorStatus(db: Db, id: Id, status: string) returns (res: Response)
    requires db.Valid()
    modifies db
    ensures db.Valid()
    ensures (res, db.State()) == SetDoctorStatus(old(db.State()), id, status)
  {
    if status != APPROVED && status != REJECTED {
      return Error(400, INVALID_STATUS);
    }
    var i := FindDoctor(db.doctors, id);
    if i.Some? {
      var doctor := db.doctors[i.value].(status := status);
      ReplaceSameId(db.doctors, DoctorId, db.nextId, i.value, doctor);
      db.doctors := db.doctors[i.value := doctor];
    }
    res := Updated(STATUS_UPDATED);
  }

  /** Any other value is refused with 400 and no change; an accepted one
      always gets the success reply and changes the status of the addressed
      doctor and nothing else. */
  lemma StatusUpdateOnlyTouchesStatus(t: Tables, id: Id, status: string)
    requires UniqueIds(t.doctors, DoctorId)
    ensures var (r, t') := SetDoctorStatus(t, id, status);
      && (r.Error? <==> status != APPROVED && status != REJECTED)
      && (r.Error? ==> r == Error(400, INVALID_STATUS) && t' == t)
      && (r.Updated? ==>
            && r == Updated(STATUS_UPDATED)
            && t'.users == t.users && t'.appointments == t.appointments && t'.payments == t.payments
            && |t'.doctors| == |t.doctors|
            && forall k :: 0 <= k < |t.doctors| ==>
                 t'.doctors[k] == (if t.doctors[k].id == id then t.doctors[k].(status := status) else t.doctors[k]))
  {
    var f := FindDoctor(t.doctors, id);
    if f.Some? {
      forall k | 0 <= k < |t.doctors| && t.doctors[k].id == id ensures k == f.value {
        assert DoctorId(t.doctors[k]) == DoctorId(t.doctors[f.value]);
      }
    }
  }
}
