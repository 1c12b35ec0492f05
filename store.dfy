/** The document collections the server reads and writes. `Tables` is a
    value snapshot of all collections; `Db` is the mutable store that route
    handlers update in place. Fresh identifiers come from a counter, standing
    for MongoDB's ObjectId generation. */
module Store {
  import opened Wrappers
  import opened Models

  datatype Tables = Tables(
    users: seq<User>,
    doctors: seq<Doctor>,
    admins: seq<Admin>,
    appointments: seq<Appointment>,
    payments: seq<Payment>,
    reviews: seq<Review>,
    nextId: nat)

  /** The first index whose element satisfies `p`: what `findOne`,
      `findById` and `Array.prototype.find` return. */
  function FirstWhere<T>(s: seq<T>, p: T -> bool): (r: Option<nat>)
    ensures r.Some? ==> r.value < |s| && p(s[r.value])
    ensures r.Some? ==> forall j :: 0 <= j < r.value ==> !p(s[j])
    ensures r.None? ==> forall j :: 0 <= j < |s| ==> !p(s[j])
  {
    if s == [] then None
    else if p(s[0]) then Some(0)
    else match FirstWhere(s[1..], p)
      case None => None
      case Some(i) => Some(i + 1)
  }

  predicate IdsBelow<T>(s: seq<T>, idOf: T -> Id, bound: nat) {
    forall i :: 0 <= i < |s| ==> idOf(s[i]) < bound
  }

  predicate UniqueIds<T>(s: seq<T>, idOf: T -> Id) {
    forall i, j :: 0 <= i < j < |s| ==> idOf(s[i]) != idOf(s[j])
  }

  predicate Identified<T>(s: seq<T>, idOf: T -> Id, bound: nat) {
    IdsBelow(s, idOf, bound) && UniqueIds(s, idOf)
  }

  /** Every document has an identifier of its own, below the counter. */
  predicate WellFormed(t: Tables) {
    && Identified(t.users, UserId, t.nextId)
    && Identified(t.doctors, DoctorId, t.nextId)
    && Identified(t.admins, AdminId, t.nextId)
    && Identified(t.appointments, AppointmentId, t.nextId)
    && Identified(t.payments, PaymentId, t.nextId)
    && Identified(t.reviews, ReviewId, t.nextId)
  }

  /** Appending a document with a fresh identifier keeps identifiers unique. */
  lemma AppendFresh<T>(s: seq<T>, idOf: T -> Id, bound: nat, x: T, bound': nat)
    requires Identified(s, idOf, bound)
    requires bound <= idOf(x) < bound'
    ensures Identified(s + [x], idOf, bound')
  {
  }

  /** Replacing a document by one with the same identifier keeps them unique. */
  lemma ReplaceSameId<T>(s: seq<T>, idOf: T -> Id, bound: nat, i: nat, x: T)
    requires Identified(s, idOf, bound)
    requires i < |s| && idOf(x) == idOf(s[i])
    ensures Identified(s[i := x], idOf, bound)
  {
  }

  /** Removing a document keeps identifiers unique. */
  lemma RemoveAt<T>(s: seq<T>, idOf: T -> Id, bound: nat, i: nat)
    requires Identified(s, idOf, bound)
    requires i < |s|
    ensures Identified(s[..i] + s[i + 1..], idOf, bound)
  {
    var r := s[..i] + s[i + 1..];
    forall a | 0 <= a < |r| ensures r[a] == s[if a < i then a else a + 1] {
    }
  }

  lemma RaiseBound<T>(s: seq<T>, idOf: T -> Id, bound: nat, bound': nat)
    requires Identified(s, idOf, bound) && bound <= bound'
    ensures Identified(s, idOf, bound')
  {
  }

  function FindUser(users: seq<User>, id: Id): Option<nat> {
    FirstWhere(users, (u: User) => u.id == id)
  }

  function FindUserByEmail(users: seq<User>, email: string): Option<nat> {
    FirstWhere(users, (u: User) => u.email == email)
  }

  function FindDoctor(doctors: seq<Doctor>, id: Id): Option<nat> {
    FirstWhere(doctors, (d: Doctor) => d.id == id)
  }

  /** `Doctor.findOne({ userId })`: the profile linked to a user account. */
  function FindDoctorOfUser(doctors: seq<Doctor>, userId: Id): Option<nat> {
    FirstWhere(doctors, (d: Doctor) => d.userId == userId)
  }

  function FindReview(reviews: seq<Review>, id: Id): Option<nat> {
    FirstWhere(reviews, (r: Review) => r.id == id)
  }

  /** How many appointments have the given status, counted in list order. */
  function CountWithStatus(apps: seq<Appointment>, status: string): nat {
    if apps == [] then 0
    else CountWithStatus(apps[..|apps| - 1], status) + (if apps[|apps| - 1].status == status then 1 else 0)
  }

  /** The sum of the payments' amounts, `reduce((sum, p) => sum + p.amount, 0)`. */
  function TotalAmount(payments: seq<Payment>): int {
    if payments == [] then 0 else TotalAmount(payments[..|payments| - 1]) + payments[|payments| - 1].amount
  }

  /** The mutable store. Each collection is a field that route handlers
      reassign; `State` is its value. */
  class Db {
    var users: seq<User>
    var doctors: seq<Doctor>
    var admins: seq<Admin>
    var appointments: seq<Appointment>
    var payments: seq<Payment>
    var reviews: seq<Review>
    var nextId: nat

    function State(): Tables
      reads this
    {
      Tables(users, doctors, admins, appointments, payments, reviews, nextId)
    }

    predicate Valid()
      reads this
    {
      WellFormed(State())
    }

    constructor ()
      ensures Valid()
      ensures State() == Tables([], [], [], [], [], [], 0)
    {
      users, doctors, admins := [], [], [];
      appointments, payments, reviews := [], [], [];
      nextId := 0;
    }

    /** `new User(...).save()` under the next id. */
    method SaveUser(u: User)
      requires Valid() && u.id == nextId
      modifies this
      ensures Valid()
      ensures State() == old(State()).(users := old(users) + [u], nextId := old(nextId) + 1)
    {
      AppendFresh(users, UserId, nextId, u, nextId + 1);
      RaiseBound(doctors, DoctorId, nextId, nextId + 1);
      RaiseBound(admins, AdminId, nextId, nextId + 1);
      RaiseBound(appointments, AppointmentId, nextId, nextId + 1);
      RaiseBound(payments, PaymentId, nextId, nextId + 1);
      RaiseBound(reviews, ReviewId, nextId, nextId + 1);
      users := users + [u];
      nextId := nextId + 1;
    }

    /** `new Doctor(...).save()` under the next id. */
    method SaveDoctor(d: Doctor)
      requires Valid() && d.id == nextId
      modifies this
      ensures Valid()
      ensures State() == old(State()).(doctors := old(doctors) + [d], nextId := old(nextId) + 1)
    {
      AppendFresh(doctors, DoctorId, nextId, d, nextId + 1);
      RaiseBound(users, UserId, nextId, nextId + 1);
      RaiseBound(admins, AdminId, nextId, nextId + 1);
      RaiseBound(appointments, AppointmentId, nextId, nextId + 1);
      RaiseBound(payments, PaymentId, nextId, nextId + 1);
      RaiseBound(reviews, ReviewId, nextId, nextId + 1);
      doctors := doctors + [d];
      nextId := nextId + 1;
    }

    /** `new Admin(...).save()` under the next id. */
    method SaveAdmin(a: Admin)
      requires Valid() && a.id == nextId
      modifies this
      ensures Valid()
      ensures State() == old(State()).(admins := old(admins) + [a], nextId := old(nextId) + 1)
    {
      AppendFresh(admins, AdminId, nextId, a, nextId + 1);
      RaiseBound(users, UserId, nextId, nextId + 1);
      RaiseBound(doctors, DoctorId, nextId, nextId + 1);
      RaiseBound(appointments, AppointmentId, nextId, nextId + 1);
      RaiseBound(payments, PaymentId, nextId, nextId + 1);
      RaiseBound(reviews, ReviewId, nextId, nextId + 1);
      admins := admins + [a];
      nextId := nextId + 1;
    }
  }
}
