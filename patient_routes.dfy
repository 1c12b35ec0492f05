/** The patient's own routes, server/routes/patientRoutes.js: the profile
    with the patient's appointments ordered by date, cancelling one of the
    patient's own appointments, and the profile update. The caller's id is
    the one the auth middleware put on the request. */
module PatientRoutes {
  import opened Wrappers
  import opened Models
  import opened Store
  import opened Sorting

  /** One appointment as the profile lists it. */
  datatype AppointmentView = AppointmentView(
    id: Id, doctorName: Option<string>, date: Date, timeSlot: string, status: string)

  datatype Response =
    | Profile(patient: User, appointments: seq<AppointmentView>)
    | Cancelled(appointment: Appointment)
    | Updated(patient: User)
    | Error(status: int, message: string)

  const PATIENT_NOT_FOUND := "Patient not found"
  const APPOINTMENT_NOT_FOUND := "Appointment not found"
  const SERVER_ERROR := "Server error"

  function AppointmentDate(a: Appointment): int { a.date }

  /** `Appointment.find({ patientId })`, in stored order. */
  function AppointmentsOf(apps: seq<Appointment>, patientId: Id): (r: seq<Appointment>)
    ensures forall a :: a in r <==> a in apps && a.patientId == patientId
    ensures |r| <= |apps|
  {
    if apps == [] then []
    else (if apps[0].patientId == patientId then [apps[0]] else []) + AppointmentsOf(apps[1..], patientId)
  }

  /** The caller's appointments appear exactly as often as they are stored,
      and no other appointment appears. */
  lemma {:induction false} AppointmentsOfExact(apps: seq<Appointment>, patientId: Id)
    ensures forall a ::
      multiset(AppointmentsOf(apps, patientId))[a] == (if a.patientId == patientId then multiset(apps)[a] else 0)
  {
    if apps != [] {
      AppointmentsOfExact(apps[1..], patientId);
      assert apps == [apps[0]] + apps[1..];
    }
  }

  /** The caller's appointments sorted by date, or None when the caller is
      not a stored Patient. */
  function OwnAppointments(t: Tables, patientId: Id): Option<seq<Appointment>> {
    match FindUser(t.users, patientId)
    case None => None
    case Some(i) =>
      if t.users[i].role != PATIENT then None
      else Some(SortBy(AppointmentsOf(t.appointments, patientId), AppointmentDate))
  }

  /** The profile as written: `doctorId` is populated with the field `name`,
      which the Doctor schema does not have, so the doctor's name is always
      missing; an appointment whose doctor is gone makes `.name` throw, 500. */
  function GetProfile(t: Tables, patientId: Id): Response {
    match OwnAppointments(t, patientId)
    case None => Error(404, PATIENT_NOT_FOUND)
    case Some(mine) =>
      if exists k :: 0 <= k < |mine| && FindDoctor(t.doctors, mine[k].doctorId).None? then
        Error(500, SERVER_ERROR)
      else
        Profile(t.users[FindUser(t.users, patientId).value],
                seq(|mine|, k requires 0 <= k < |mine| =>
                  AppointmentView(mine[k].id, None, mine[k].date, mine[k].timeSlot, mine[k].status)))
  }

  /** The name the page means to show: the name of the user behind the doctor. */
  function DoctorName(t: Tables, doctorId: Id): Option<string> {
    match FindDoctor(t.doctors, doctorId)
    case None => None
    case Some(d) =>
      match FindUser(t.users, t.doctors[d].userId)
      case None => None
      case Some(u) => Some(t.users[u].name)
  }

  /** The profile as intended: each appointment carries its doctor's name. */
  function GetProfileWithNames(t: Tables, patientId: Id): Response {
    match OwnAppointments(t, patientId)
    case None => Error(404, PATIENT_NOT_FOUND)
    case Some(mine) =>
      Profile(t.users[FindUser(t.users, patientId).value],
              seq(|mine|, k requires 0 <= k < |mine| => NamedView(t, mine[k])))
  }

  function NamedView(t: Tables, a: Appointment): AppointmentView {
    AppointmentView(a.id, DoctorName(t, a.doctorId), a.date, a.timeSlot, a.status)
  }

  /** Whatever the data, the profile as written never names a doctor. */
  lemma ProfileNeverNamesDoctor(t: Tables, patientId: Id)
    ensures var r := GetProfile(t, patientId);
      r.Profile? ==> forall k :: 0 <= k < |r.appointments| ==> r.appointments[k].doctorName.None?
  {
  }

  /** Only a stored Patient gets a profile, the intended one included. */
  lemma ProfileOnlyForPatients(t: Tables, patientId: Id)
    requires UniqueIds(t.users, UserId)
    ensures GetProfileWithNames(t, patientId).Profile? <==>
      exists i :: 0 <= i < |t.users| && t.users[i].id == patientId && t.users[i].role == PATIENT
  {
    if exists i :: 0 <= i < |t.users| && t.users[i].id == patientId && t.users[i].role == PATIENT {
      var i :| 0 <= i < |t.users| && t.users[i].id == patientId && t.users[i].role == PATIENT;
      var f := FindUser(t.users, patientId);
      assert f.Some?;
      assert t.users[f.value].id == t.users[i].id;
    }
  }

  /** `v` shows one of the caller's stored appointments, under the name of
      that appointment's doctor. */
  predicate ShowsOwnAppointment(t: Tables, patientId: Id, v: AppointmentView) {
    exists j :: 0 <= j < |t.appointments| && t.appointments[j].patientId == patientId
      && t.appointments[j].id == v.id && v.doctorName == DoctorName(t, t.appointments[j].doctorId)
  }

  /** The intended profile lists exactly as many entries as the caller has
      appointments, ordered by date, each one of the caller's appointments
      named after its doctor's user. */
  lemma ProfileWithNamesListsOwnAppointments(t: Tables, patientId: Id)
    ensures var r := GetProfileWithNames(t, patientId);
      r.Profile? ==>
        && r.patient.id == patientId
        && (forall j, k :: 0 <= j < k < |r.appointments| ==> r.appointments[j].date <= r.appointments[k].date)
        && |r.appointments| == |AppointmentsOf(t.appointments, patientId)|
        && (forall k :: 0 <= k < |r.appointments| ==> ShowsOwnAppointment(t, patientId, r.appointments[k]))
  {
    var f := FindUser(t.users, patientId);
    if f.Some? && t.users[f.value].role == PATIENT {
      var own := AppointmentsOf(t.appointments, patientId);
      var mine := SortBy(own, AppointmentDate);
      forall k | 0 <= k < |mine|
        ensures ShowsOwnAppointment(t, patientId, NamedView(t, mine[k]))
      {
        var a := mine[k];
        assert a in multiset(mine);
        assert a in own;
        var j :| 0 <= j < |t.appointments| && t.appointments[j] == a;
      }
    }
  }

  /** `Appointment.findOneAndUpdate({ _id, patientId }, { status: "Cancelled" })`:
      there is no check on the current status. */
  function Cancel(t: Tables, patientId: Id, appointmentId: Id): (Response, Tables) {
    match FindOwnAppointment(t.appointments, appointmentId, patientId)
    case None => (Error(404, APPOINTMENT_NOT_FOUND), t)
    case Some(i) =>
      var a := t.appointments[i].(status := CANCELLED);
      (Cancelled(a), t.(appointments := t.appointments[i := a]))
  }

  function FindOwnAppointment(apps: seq<Appointment>, id: Id, patientId: Id): (r: Option<nat>)
    ensures r.Some? ==> r.value < |apps| && apps[r.value].id == id && apps[r.value].patientId == patientId
    ensures r.None? ==> forall k :: 0 <= k < |apps| ==> !(apps[k].id == id && apps[k].patientId == patientId)
  {
    FirstWhere(apps, (a: Appointment) => a.id == id && a.patientId == patientId)
  }

  method CancelAppointment(db: Db, patientId: Id, appointmentId: Id) returns (res: Response)
    requires db.Valid()
    modifies db
    ensures db.Valid()
    ensures (res, db.State()) == Cancel(old(db.State()), patientId, appointmentId)
  {
    var i := FindOwnAppointment(db.appointments, appointmentId, patientId);
    if i.None? {
      return Error(404, APPOINTMENT_NOT_FOUND);
    }
    var appointment := db.appointments[i.value].(status := CANCELLED);
    ReplaceSameId(db.appointments, AppointmentId, db.nextId, i.value, appointment);
    db.appointments := db.appointments[i.value := appointment];
    res := Cancelled(appointment);
  }

  /** Only the owner can cancel: an appointment that is not the caller's is
      answered 404, indistinguishable from one that does not exist, and
      nothing changes. The owner's cancel works from any status, Completed
      included, and changes that appointment's status and nothing else. */
  lemma CancelOwnOnly(t: Tables, patientId: Id, appointmentId: Id)
    requires WellFormed(t)
    ensures var (r, t') := Cancel(t, patientId, appointmentId);
      && (r.Error? <==> forall k :: 0 <= k < |t.appointments| ==>
            !(t.appointments[k].id == appointmentId && t.appointments[k].patientId == patientId))
      && (r.Error? ==> r == Error(404, APPOINTMENT_NOT_FOUND) && t' == t)
      && (r.Cancelled? ==>
            && |t'.appointments| == |t.appointments|
            && forall k :: 0 <= k < |t.appointments| ==>
                 t'.appointments[k] == (if t.appointments[k].id == appointmentId
                                        then t.appointments[k].(status := CANCELLED)
                                        else t.appointments[k]))
      && t'.users == t.users && t'.payments == t.payments && t'.doctors == t.doctors
  {
    var f := FindOwnAppointment(t.appointments, appointmentId, patientId);
    if f.Some? {
      assert forall k :: 0 <= k < |t.appointments| && t.appointments[k].id == appointmentId ==> k == f.value
        by { assert UniqueIds(t.appointments, AppointmentId); }
    }
  }

  /** Cancelling twice leaves the store as cancelling once. */
  lemma CancelIdempotent(t: Tables, patientId: Id, appointmentId: Id)
    ensures var t1 := Cancel(t, patientId, appointmentId).1;
      Cancel(t1, patientId, appointmentId).1 == t1
  {
    var f := FindOwnAppointment(t.appointments, appointmentId, patientId);
    if f.Some? {
      var t1 := Cancel(t, patientId, appointmentId).1;
      var g := FindOwnAppointment(t1.appointments, appointmentId, patientId);
      assert t1.appointments[f.value].id == appointmentId && t1.appointments[f.value].patientId == patientId;
      assert g.Some?;
      assert t1.appointments[g.value].status == CANCELLED;
      assert t1.appointments[g.value := t1.appointments[g.value].(status := CANCELLED)] == t1.appointments;
    }
  }

  /** The body of a profile update: a field left out of the request is None
      and is not touched; a field sent, even as "", is written. */
  datatype PatientUpdate = PatientUpdate(name: Option<string>, email: Option<string>, contact: Option<string>)

  function Set(x: Option<string>, stored: string): string {
    if x.Some? then x.value else stored
  }

  /** `User.findByIdAndUpdate(patientId, { name, email, contact[, profileImage] })`:
      no role check and no schema validation; the unique index on `email`
      refuses an address another user has, which the handler answers 500. */
  function UpdateProfile(t: Tables, patientId: Id, req: PatientUpdate, file: Option<string>): (Response, Tables) {
    match FindUser(t.users, patientId)
    case None => (Error(404, PATIENT_NOT_FOUND), t)
    case Some(i) =>
      if req.email.Some? && exists k :: 0 <= k < |t.users| && k != i && t.users[k].email == req.email.value then
        (Error(500, SERVER_ERROR), t)
      else
        var u := t.users[i].(name := Set(req.name, t.users[i].name),
                             email := Set(req.email, t.users[i].email),
                             contact := Set(req.contact, t.users[i].contact),
                             profileImage := if file.Some? && file.value != "" then file.value else t.users[i].profileImage);
        (Updated(u), t.(users := t.users[i := u]))
  }

  method UpdatePatientProfile(db: Db, patientId: Id, req: PatientUpdate, file: Option<string>) returns (res: Response)
    requires db.Valid()
    modifies db
    ensures db.Valid()
    ensures (res, db.State()) == UpdateProfile(old(db.State()), patientId, req, file)
  {
    var i := FindUser(db.users, patientId);
    if i.None? {
      return Error(404, PATIENT_NOT_FOUND);
    }
    if req.email.Some? {
      var k := 0;
      while k < |db.users|
        invariant 0 <= k <= |db.users|
        invariant forall j :: 0 <= j < k ==> !(j != i.value && db.users[j].email == req.email.value)
      {
        if k != i.value && db.users[k].email == req.email.value {
          return Error(500, SERVER_ERROR);
        }
        k := k + 1;
      }
    }
    var user := db.users[i.value];
    user := user.(name := Set(req.name, user.name), email := Set(req.email, user.email),
                  contact := Set(req.contact, user.contact));
    if file.Some? && file.value != "" {
      user := user.(profileImage := file.value);
    }
    ReplaceSameId(db.users, UserId, db.nextId, i.value, user);
    db.users := db.users[i.value := user];
    res := Updated(user);
  }

  /** A successful update keeps e-mail addresses unique, writes every field
      that was sent and keeps every one that was not, and touches no other
      user. */
  lemma UpdateKeepsEmailsUnique(t: Tables, patientId: Id, req: PatientUpdate, file: Option<string>)
    requires forall j, k :: 0 <= j < k < |t.users| ==> t.users[j].email != t.users[k].email
    ensures var (r, t') := UpdateProfile(t, patientId, req, file);
      && (forall j, k :: 0 <= j < k < |t'.users| ==> t'.users[j].email != t'.users[k].email)
      && (r.Updated? ==>
            && r.patient.id == patientId
            && r.patient.name == Set(req.name, t.users[FindUser(t.users, patientId).value].name)
            && r.patient.email == Set(req.email, t.users[FindUser(t.users, patientId).value].email)
            && r.patient.contact == Set(req.contact, t.users[FindUser(t.users, patientId).value].contact)
            && r.patient.profileImage == (if file.Some? && file.value != "" then file.value
                                          else t.users[FindUser(t.users, patientId).value].profileImage)
            && r.patient.role == t.users[FindUser(t.users, patientId).value].role
            && r.patient.password == t.users[FindUser(t.users, patientId).value].password
            && t'.users[FindUser(t.users, patientId).value] == r.patient
            && |t'.users| == |t.users|
            && forall k :: 0 <= k < |t.users| && t.users[k].id != patientId ==> t'.users[k] == t.users[k])
      && (r.Error? ==> t' == t)
  {
  }
}
