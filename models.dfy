/** The document shapes of server/models: users, doctors (the photographers'
    profiles), appointments and payments, plus the review and admin records
    the routes create. Identifiers are naturals (MongoDB ObjectIds), dates are
    millisecond timestamps, and the schema enums are string constants with a
    membership predicate each. */
module Models {

  type Id = nat

  /** A point in time, in milliseconds since 1970-01-01 (JavaScript `Date`). */
  type Date = int

  // Appointment.status (Appointment.js:16-20)
  const PENDING := "Pending"
  const COMPLETED := "Completed"
  const CANCELLED := "Cancelled"

  // Appointment.paymentStatus (Appointment.js:21-25); "Pending" doubles as its default
  const PAID := "Paid"

  // Payment.paymentStatus (Payment.js:25-29)
  const SUCCESS := "Success"
  const FAILED := "Failed"

  // User.role (User.js:7)
  const PATIENT := "Patient"
  const DOCTOR := "Doctor"
  const ADMIN := "Admin"

  // Doctor.status (Doctor.js:14-18); "Pending" is its default
  const APPROVED := "Approved"
  const REJECTED := "Rejected"

  predicate IsAppointmentStatus(s: string) {
    s == PENDING || s == COMPLETED || s == CANCELLED
  }

  predicate IsDoctorStatus(s: string) {
    s == PENDING || s == APPROVED || s == REJECTED
  }

  predicate IsRole(s: string) {
    s == PATIENT || s == DOCTOR || s == ADMIN
  }

  /** One weekday of a doctor's weekly availability: `{ day, timeSlots }`. */
  datatype DayAvailability = DayAvailability(day: string, timeSlots: seq<string>)

  /** The Doctor schema's `required` on each entry's day and on each of its
      time slots (Doctor.js:10-11): a list that fails it is refused on save. */
  predicate EntriesSave(entries: seq<DayAvailability>) {
    forall k :: 0 <= k < |entries| ==>
      entries[k].day != "" && forall j :: 0 <= j < |entries[k].timeSlots| ==> entries[k].timeSlots[j] != ""
  }

  datatype User = User(
    id: Id,
    name: string,
    email: string,
    password: string,       // the stored (hashed) password
    role: string,
    contact: string,
    profileImage: string)   // "" is the schema default

  datatype Doctor = Doctor(
    id: Id,
    userId: Id,
    specialization: string,
    experience: int,
    feesPerSession: int,
    availability: seq<DayAvailability>,
    status: string)

  datatype Admin = Admin(id: Id, userId: Id)

  datatype Appointment = Appointment(
    id: Id,
    doctorId: Id,
    patientId: Id,
    date: Date,
    timeSlot: string,
    status: string,
    paymentStatus: string,
    createdAt: Date)

  datatype Payment = Payment(
    id: Id,
    appointmentId: Id,
    patientId: Id,
    doctorId: Id,
    amount: int,
    transactionId: string,
    paymentMethod: string,
    paymentStatus: string,
    createdAt: Date)

  datatype Review = Review(
    id: Id,
    doctorId: Id,
    patientId: Id,
    rating: int,
    comment: string,
    createdAt: Date)

  // Named projections, so that lookups by id can share one definition.
  function UserId(u: User): Id { u.id }
  function DoctorId(d: Doctor): Id { d.id }
  function AppointmentId(a: Appointment): Id { a.id }
  function PaymentId(p: Payment): Id { p.id }
  function ReviewId(r: Review): Id { r.id }
  function AdminId(a: Admin): Id { a.id }
}
