/** Account rules of server/controllers/authController.js: registration with
    its role-specific profile, login with one error for every failure, the
    list of approved doctors, the partial profile update and the doctor
    status update. bcrypt and jsonwebtoken are parameters: `hash` for
    `bcrypt.hash` with a salt from `bcrypt.genSalt`, `matches` for
    `bcrypt.compare`, `sign` for `jwt.sign`. A document that fails its schema
    on save makes the handler answer 500 "Server error". */
module AuthController {
  import opened Wrappers
  import opened Models
  import opened Store
  import opened AuthMiddleware

  datatype RegisterRequest = RegisterRequest(
    name: string,
    email: string,
    password: Option<string>,   // None when the body has no password
    role: string,
    contact: string,
    specialization: string,
    experience: Option<int>,
    feesPerSession: Option<int>,
    availability: seq<DayAvailability>)

  datatype Response =
    | Registered(token: string, role: string)
    | LoggedIn(token: string, id: Id, role: string)
    | Doctors(doctors: seq<Doctor>)
    | UserReply(user: User)
    | DoctorReply(doctor: Doctor)
    | Error(status: int, message: string)

  const USER_EXISTS := "User already exists"
  const INVALID_CREDENTIALS := "Invalid credentials"
  const SERVER_ERROR := "Server error"
  const USER_NOT_FOUND := "User not found"
  const NO_APPROVED := "No approved doctors found"
  const DOCTOR_NOT_FOUND := "Doctor not found"

  /** The User schema's required fields and role enum. */
  predicate UserSaves(u: User) {
    u.name != "" && u.email != "" && u.password != "" && u.contact != "" && IsRole(u.role)
  }

  /** The Doctor schema's required fields, on the profile and on each
      availability entry. */
  predicate DoctorFieldsPresent(req: RegisterRequest) {
    req.specialization != "" && req.experience.Some? && req.feesPerSession.Some?
    && EntriesSave(req.availability)
  }

  function Register(t: Tables, req: RegisterRequest, salt: string,
                    hash: (string, string) -> string, sign: Claims -> string): (Response, Tables)
  {
    if FindUserByEmail(t.users, req.email).Some? then (Error(400, USER_EXISTS), t)
    // bcrypt.hash rejects an undefined password before anything is saved
    else if req.password.None? then (Error(500, SERVER_ERROR), t)
    else
      var user := User(t.nextId, req.name, req.email, hash(req.password.value, salt), req.role, req.contact, "");
      if !UserSaves(user) then (Error(500, SERVER_ERROR), t)
      else
        var t1 := t.(users := t.users + [user], nextId := t.nextId + 1);
        if req.role == DOCTOR then
          if !DoctorFieldsPresent(req) then (Error(500, SERVER_ERROR), t1)
          else
            var doctor := Doctor(t1.nextId, user.id, req.specialization, req.experience.value,
                                 req.feesPerSession.value, req.availability, PENDING);
            (Registered(sign(Claims(user.id, user.role)), user.role),
             t1.(doctors := t1.doctors + [doctor], nextId := t1.nextId + 1))
        else if req.role == ADMIN then
          (Registered(sign(Claims(user.id, user.role)), user.role),
           t1.(admins := t1.admins + [Admin(t1.nextId, user.id)], nextId := t1.nextId + 1))
        else (Registered(sign(Claims(user.id, user.role)), user.role), t1)
  }

  method RegisterUser(db: Db, req: RegisterRequest, salt: string,
                      hash: (string, string) -> string, sign: Claims -> string) returns (res: Response)
    requires db.Valid()
    modifies db
    ensures db.Valid()
    ensures (res, db.State()) == Register(old(db.State()), req, salt, hash, sign)
  {
    if FindUserByEmail(db.users, req.email).Some? {
      return Error(400, USER_EXISTS);
    }
    if req.password.None? {
      return Error(500, SERVER_ERROR);
    }
    var hashed := hash(req.password.value, salt);
    var user := User(db.nextId, req.name, req.email, hashed, req.role, req.contact, "");
    if !UserSaves(user) {
      return Error(500, SERVER_ERROR);
    }
    db.SaveUser(user);
    if req.role == DOCTOR {
      if !DoctorFieldsPresent(req) {
        return Error(500, SERVER_ERROR);
      }
      db.SaveDoctor(Doctor(db.nextId, user.id, req.specialization, req.experience.value,
                           req.feesPerSession.value, req.availability, PENDING));
    }
    if req.role == ADMIN {
      db.SaveAdmin(Admin(db.nextId, user.id));
    }
    res := Registered(sign(Claims(user.id, user.role)), user.role);
  }

  lemma RegisterKeepsWellFormed(t: Tables, req: RegisterRequest, salt: string,
                                hash: (string, string) -> string, sign: Claims -> string)
    requires WellFormed(t)
    ensures WellFormed(Register(t, req, salt, hash, sign).1)
  {
    var t' := Register(t, req, salt, hash, sign).1;
    if t' != t {
      var user := t'.users[|t.users|];
      AppendFresh(t.users, UserId, t.nextId, user, t'.nextId);
      RaiseBound(t.appointments, AppointmentId, t.nextId, t'.nextId);
      RaiseBound(t.payments, PaymentId, t.nextId, t'.nextId);
      RaiseBound(t.reviews, ReviewId, t.nextId, t'.nextId);
      if |t'.doctors| > |t.doctors| {
        AppendFresh(t.doctors, DoctorId, t.nextId, t'.doctors[|t.doctors|], t'.nextId);
      } else {
        RaiseBound(t.doctors, DoctorId, t.nextId, t'.nextId);
      }
      if |t'.admins| > |t.admins| {
        AppendFresh(t.admins, AdminId, t.nextId, t'.admins[|t.admins|], t'.nextId);
      } else {
        RaiseBound(t.admins, AdminId, t.nextId, t'.nextId);
      }
    }
  }

  /** An e-mail already on file is refused with 400 and nothing is created. */
  lemma DuplicateEmailRejected(t: Tables, req: RegisterRequest, salt: string,
                               hash: (string, string) -> string, sign: Claims -> string, k: nat)
    requires k < |t.users| && t.users[k].email == req.email
    ensures Register(t, req, salt, hash, sign) == (Error(400, USER_EXISTS), t)
  {
    assert t.users[k].email == req.email;
  }

  /** A successful registration needs a password and stores one user whose
      password is its salted hash; a Doctor also gets exactly one Pending
      profile with the supplied details, whose availability entries all pass
      the schema, an Admin exactly one admin record, a Patient neither. */
  lemma RegisterCreates(t: Tables, req: RegisterRequest, salt: string,
                        hash: (string, string) -> string, sign: Claims -> string)
    requires Register(t, req, salt, hash, sign).0.Registered?
    ensures var t' := Register(t, req, salt, hash, sign).1;
      && |t'.users| == |t.users| + 1 && t'.users[..|t.users|] == t.users
      && var u := t'.users[|t.users|];
      && u.email == req.email && u.name == req.name && u.role == req.role
      && req.password.Some? && u.password == hash(req.password.value, salt)
      && (req.role == DOCTOR ==>
            && t'.doctors == t.doctors + [t'.doctors[|t.doctors|]]
            && var d := t'.doctors[|t.doctors|];
            && d.userId == u.id && d.status == PENDING
            && d.specialization == req.specialization
            && Some(d.experience) == req.experience && Some(d.feesPerSession) == req.feesPerSession
            && d.availability == req.availability && EntriesSave(d.availability))
      && (req.role != DOCTOR ==> t'.doctors == t.doctors)
      && (req.role == ADMIN ==> t'.admins == t.admins + [Admin(t'.admins[|t.admins|].id, u.id)])
      && (req.role != ADMIN ==> t'.admins == t.admins)
  {
  }

  /** A Doctor whose profile fails its schema (a missing specialization,
      experience or fee, or an availability entry without a day or with an
      empty slot) still gets a user account: the user is saved first. */
  lemma DoctorProfileFailureKeepsUser(t: Tables, req: RegisterRequest, salt: string,
                                      hash: (string, string) -> string, sign: Claims -> string)
    requires FindUserByEmail(t.users, req.email).None?
    requires req.password.Some?
    requires UserSaves(User(t.nextId, req.name, req.email, hash(req.password.value, salt), req.role, req.contact, ""))
    requires req.role == DOCTOR && !DoctorFieldsPresent(req)
    ensures Register(t, req, salt, hash, sign).0 == Error(500, SERVER_ERROR)
    ensures |Register(t, req, salt, hash, sign).1.users| == |t.users| + 1
    ensures Register(t, req, salt, hash, sign).1.doctors == t.doctors
  {
  }

  /** A new e-mail without a password is answered 500 and nothing is written:
      hashing fails before the user is built. */
  lemma MissingPasswordWritesNothing(t: Tables, req: RegisterRequest, salt: string,
                                     hash: (string, string) -> string, sign: Claims -> string)
    requires req.password.None?
    ensures Register(t, req, salt, hash, sign).1 == t
    ensures Register(t, req, salt, hash, sign).0 ==
      if FindUserByEmail(t.users, req.email).Some? then Error(400, USER_EXISTS) else Error(500, SERVER_ERROR)
  {
  }

  /** `password` is None when the body has none; bcrypt.compare then rejects. */
  function Login(users: seq<User>, email: string, password: Option<string>,
                 matches: (string, string) -> bool, sign: Claims -> string): Response
  {
    match FindUserByEmail(users, email)
    case None => Error(400, INVALID_CREDENTIALS)
    case Some(i) =>
      if password.None? then Error(500, SERVER_ERROR)
      else if !matches(password.value, users[i].password) then Error(400, INVALID_CREDENTIALS)
      else LoggedIn(sign(Claims(users[i].id, users[i].role)), users[i].id, users[i].role)
  }

  /** With a password sent, login fails with one and the same 400 whether
      the e-mail is unknown or the password does not match; without one it
      fails with 500 exactly when the e-mail is known. It succeeds exactly
      when a password is sent and the first user with that e-mail has a
      matching one. */
  lemma LoginErrorIsUniform(users: seq<User>, email: string, password: Option<string>,
                            matches: (string, string) -> bool, sign: Claims -> string)
    ensures var r := Login(users, email, password, matches, sign);
      r.Error? ==> r == Error(400, INVALID_CREDENTIALS) || r == Error(500, SERVER_ERROR)
    ensures Login(users, email, password, matches, sign) == Error(500, SERVER_ERROR) <==>
      password.None? && exists i :: 0 <= i < |users| && users[i].email == email
    ensures Login(users, email, password, matches, sign).LoggedIn? <==>
      (exists i :: 0 <= i < |users| && users[i].email == email) && password.Some? &&
      matches(password.value, users[FindUserByEmail(users, email).value].password)
  {
    if exists i :: 0 <= i < |users| && users[i].email == email {
      var i :| 0 <= i < |users| && users[i].email == email;
      assert FindUserByEmail(users, email).Some?;
    }
  }

  /** Register then log in: when `matches` accepts a password against its own
      salted hash (bcrypt's guarantee), the new account logs in with the
      password it was registered with, as the new user and role. */
  lemma RegisterThenLogin(t: Tables, req: RegisterRequest, salt: string,
                          hash: (string, string) -> string, sign: Claims -> string,
                          matches: (string, string) -> bool)
    requires Register(t, req, salt, hash, sign).0.Registered?
    requires req.password.Some? && matches(req.password.value, hash(req.password.value, salt))
    ensures var t' := Register(t, req, salt, hash, sign).1;
      Login(t'.users, req.email, req.password, matches, sign)
        == LoggedIn(sign(Claims(t.nextId, req.role)), t.nextId, req.role)
  {
    var t' := Register(t, req, salt, hash, sign).1;
    var k := |t.users|;
    assert t'.users[k].email == req.email;
    assert t'.users[..k] == t.users;
    var f := FindUserByEmail(t'.users, req.email);
    assert f.Some?;
  }

  /** `Doctor.find({ status: "Approved" })`, or 404 when there is none. */
  function GetAllDoctors(doctors: seq<Doctor>): Response {
    var approved := Approved(doctors);
    if approved == [] then Error(404, NO_APPROVED) else Doctors(approved)
  }

  function Approved(doctors: seq<Doctor>): (r: seq<Doctor>)
    ensures forall d :: d in r <==> d in doctors && d.status == APPROVED
  {
    if doctors == [] then []
    else (if doctors[0].status == APPROVED then [doctors[0]] else []) + Approved(doctors[1..])
  }

  /** The listing holds exactly the approved doctors, and is 404 when there
      are none. */
  lemma ListingIsApprovedOnly(doctors: seq<Doctor>)
    ensures GetAllDoctors(doctors).Doctors? ==>
      forall d :: d in GetAllDoctors(doctors).doctors <==> d in doctors && d.status == APPROVED
    ensures GetAllDoctors(doctors) == Error(404, NO_APPROVED) <==>
      forall d :: d in doctors ==> d.status != APPROVED
  {
    if Approved(doctors) != [] {
      assert Approved(doctors)[0] in Approved(doctors);
    }
  }

  /** The body of a profile update; a field the client left out is None or "". */
  datatype ProfileUpdate = ProfileUpdate(
    name: string,
    contact: string,
    specialization: string,
    experience: Option<int>,
    feesPerSession: Option<int>,
    availability: Option<seq<DayAvailability>>)

  /** `x || old` for a number: undefined and 0 keep the old value. */
  function OrInt(x: Option<int>, stored: int): int {
    if x.Some? && x.value != 0 then x.value else stored
  }

  /** `x || old` for a string: undefined and "" keep the old value. */
  function OrString(x: string, stored: string): string {
    if x != "" then x else stored
  }

  function UpdatedUser(u: User, req: ProfileUpdate, file: Option<string>): User {
    u.(profileImage := if file.Some? then file.value else u.profileImage,
       name := OrString(req.name, u.name),
       contact := OrString(req.contact, u.contact))
  }

  function UpdatedDoctor(d: Doctor, req: ProfileUpdate): Doctor {
    d.(specialization := OrString(req.specialization, d.specialization),
       experience := OrInt(req.experience, d.experience),
       feesPerSession := OrInt(req.feesPerSession, d.feesPerSession),
       availability := if req.availability.Some? then req.availability.value else d.availability)
  }

  function UpdateProfile(t: Tables, userId: Id, req: ProfileUpdate, file: Option<string>): (Response, Tables) {
    match FindUser(t.users, userId)
    case None => (Error(404, USER_NOT_FOUND), t)
    case Some(i) =>
      var u := UpdatedUser(t.users[i], req, file);
      var t1 := t.(users := t.users[i := u]);
      if u.role != DOCTOR then (UserReply(u), t1)
      else match FindDoctorOfUser(t.doctors, userId)
        case None => (UserReply(u), t1)
        case Some(j) =>
          var d := UpdatedDoctor(t.doctors[j], req);
          // the user is already saved when the profile fails its schema
          if !EntriesSave(d.availability) then (Error(500, SERVER_ERROR), t1)
          else (UserReply(u), t1.(doctors := t.doctors[j := d]))
  }

  method UpdateUserProfile(db: Db, userId: Id, req: ProfileUpdate, file: Option<string>) returns (res: Response)
    requires db.Valid()
    modifies db
    ensures db.Valid()
    ensures (res, db.State()) == UpdateProfile(old(db.State()), userId, req, file)
  {
    var i := FindUser(db.users, userId);
    if i.None? {
      return Error(404, USER_NOT_FOUND);
    }
    var user := db.users[i.value];
    if file.Some? {
      user := user.(profileImage := file.value);
    }
    user := user.(name := OrString(req.name, user.name));
    user := user.(contact := OrString(req.contact, user.contact));
    ReplaceSameId(db.users, UserId, db.nextId, i.value, user);
    db.users := db.users[i.value := user];
    if user.role == DOCTOR {
      var j := FindDoctorOfUser(db.doctors, userId);
      if j.Some? {
        var doctor := UpdatedDoctor(db.doctors[j.value], req);
        if !EntriesSave(doctor.availability) {
          return Error(500, SERVER_ERROR);
        }
        ReplaceSameId(db.doctors, DoctorId, db.nextId, j.value, doctor);
        db.doctors := db.doctors[j.value := doctor];
      }
    }
    res := UserReply(user);
  }

  /** A falsy field (missing, "" or 0) keeps the stored value, so 0 cannot be
      set; a truthy one replaces it; the image changes only with an upload;
      nothing but the caller's user and doctor profile changes. */
  lemma ProfileUpdateKeepsFalsy(t: Tables, userId: Id, req: ProfileUpdate, file: Option<string>)
    requires FindUser(t.users, userId).Some?
    ensures var i := FindUser(t.users, userId).value;
      var t' := UpdateProfile(t, userId, req, file).1;
      && |t'.users| == |t.users|
      && (forall k :: 0 <= k < |t.users| && k != i ==> t'.users[k] == t.users[k])
      && t'.users[i].name == (if req.name == "" then t.users[i].name else req.name)
      && t'.users[i].contact == (if req.contact == "" then t.users[i].contact else req.contact)
      && t'.users[i].profileImage == (if file.None? then t.users[i].profileImage else file.value)
      && t'.users[i].email == t.users[i].email && t'.users[i].password == t.users[i].password
      && t'.users[i].role == t.users[i].role && t'.users[i].id == t.users[i].id
      && t'.appointments == t.appointments && t'.payments == t.payments && t'.reviews == t.reviews
      && t'.admins == t.admins && t'.nextId == t.nextId
      && (t.users[i].role != DOCTOR || FindDoctorOfUser(t.doctors, userId).None? ==> t'.doctors == t.doctors)
  {
  }

  /** The caller's doctor profile, when the caller is a Doctor that has one,
      takes every truthy field sent and keeps every falsy one (a missing
      field, "" or 0); an availability list, even an empty one, is truthy
      and replaces the stored one. When the resulting availability has an
      entry without a day or with an empty slot, the profile fails its schema:
      500, with the user already saved and no doctor changed. No other doctor
      ever changes. */
  lemma DoctorProfileKeepsFalsy(t: Tables, userId: Id, req: ProfileUpdate, file: Option<string>)
    requires FindUser(t.users, userId).Some?
    requires t.users[FindUser(t.users, userId).value].role == DOCTOR
    requires FindDoctorOfUser(t.doctors, userId).Some?
    ensures var j := FindDoctorOfUser(t.doctors, userId).value;
      var (r, t') := UpdateProfile(t, userId, req, file);
      var d, d' := t.doctors[j], t'.doctors[j];
      var availability := if req.availability.None? then d.availability else req.availability.value;
      && |t'.doctors| == |t.doctors|
      && (forall k :: 0 <= k < |t.doctors| && k != j ==> t'.doctors[k] == t.doctors[k])
      && (r == Error(500, SERVER_ERROR) <==> !EntriesSave(availability))
      && (!EntriesSave(availability) ==> t'.doctors == t.doctors)
      && (EntriesSave(availability) ==>
        && r == UserReply(t'.users[FindUser(t.users, userId).value])
        && d'.id == d.id && d'.userId == userId && d'.status == d.status
        && d'.specialization == (if req.specialization == "" then d.specialization else req.specialization)
        && d'.experience == (if req.experience.None? || req.experience == Some(0) then d.experience else req.experience.value)
        && d'.feesPerSession == (if req.feesPerSession.None? || req.feesPerSession == Some(0) then d.feesPerSession
                                 else req.feesPerSession.value)
        && d'.availability == availability)
  {
  }

  lemma ZeroCannotBeSet(d: Doctor, req: ProfileUpdate)
    requires req.experience == Some(0) && req.feesPerSession == Some(0)
    ensures UpdatedDoctor(d, req).experience == d.experience
    ensures UpdatedDoctor(d, req).feesPerSession == d.feesPerSession
  {
  }

  /** The status stored when the request body carries none: assigning
      `undefined` to the document's field unsets it, and the schema checks
      neither presence nor enum for an unset field. No listing treats it as
      Approved. */
  const UNSET_STATUS: string := ""

  /** `status` is `None` when the request body has no `status` field. */
  function UpdateDoctorStatus(t: Tables, id: Id, status: Option<string>): (Response, Tables) {
    match FindDoctor(t.doctors, id)
    case None => (Error(404, DOCTOR_NOT_FOUND), t)
    case Some(i) =>
      match status
      case None =>
        var d := t.doctors[i].(status := UNSET_STATUS);
        (DoctorReply(d), t.(doctors := t.doctors[i := d]))
      case Some(s) =>
        if !IsDoctorStatus(s) then (Error(500, SERVER_ERROR), t)
        else
          var d := t.doctors[i].(status := s);
          (DoctorReply(d), t.(doctors := t.doctors[i := d]))
  }

  method SetDoctorStatus(db: Db, id: Id, status: Option<string>) returns (res: Response)
    requires db.Valid()
    modifies db
    ensures db.Valid()
    ensures (res, db.State()) == UpdateDoctorStatus(old(db.State()), id, status)
  {
    var i := FindDoctor(db.doctors, id);
    if i.None? {
      return Error(404, DOCTOR_NOT_FOUND);
    }
    var doctor := db.doctors[i.value].(status := if status.None? then UNSET_STATUS else status.value);
    if status.Some? && !IsDoctorStatus(doctor.status) {
      return Error(500, SERVER_ERROR);
    }
    ReplaceSameId(db.doctors, DoctorId, db.nextId, i.value, doctor);
    db.doctors := db.doctors[i.value := doctor];
    res := DoctorReply(doctor);
  }

  /** The handler itself checks nothing about the status: an unknown doctor
      gets 404; a missing status unsets the field and is answered like a
      success; any value in the schema's enum is stored, Pending included;
      anything else, the empty string too, is turned away only by the schema,
      with 500 and no change. Only the doctor's status ever changes. */
  lemma DoctorStatusLeftToSchema(t: Tables, id: Id, status: Option<string>)
    ensures var (r, t') := UpdateDoctorStatus(t, id, status);
      t'.(doctors := t.doctors) == t
    ensures FindDoctor(t.doctors, id).None? ==>
      UpdateDoctorStatus(t, id, status) == (Error(404, DOCTOR_NOT_FOUND), t)
    ensures FindDoctor(t.doctors, id).Some? ==>
      var i := FindDoctor(t.doctors, id).value;
      var (r, t') := UpdateDoctorStatus(t, id, status);
      if status.None? then
        var d := t.doctors[i].(status := UNSET_STATUS);
        !IsDoctorStatus(d.status) && r == DoctorReply(d) && t'.doctors == t.doctors[i := d]
      else if IsDoctorStatus(status.value) then
        var d := t.doctors[i].(status := status.value);
        r == DoctorReply(d) && t'.doctors == t.doctors[i := d]
      else r == Error(500, SERVER_ERROR) && t' == t
  {
  }
}
