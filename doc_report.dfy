/** The doctor's detailed report, the `/report` route of
    server/routes/docRoutes.js: the doctor's appointments, payments and
    reviews created inside the period's window, grouped per day, with
    totals, the payment-method distribution, patient metrics and review
    metrics. `isoDay(d)` is `new Date(d).toISOString().split("T")[0]`; the
    instants the route derives from the current time are a `Calendar`. */
module DocReport {
  import opened Wrappers
  import opened Models
  import opened Store
  import opened Tally
  import opened Grouping
  import opened Sorting
  import DocRoutes

  const INVALID_PERIOD := "Invalid period. Allowed values: 'daily', 'weekly', 'monthly', 'custom'"
  const CUSTOM_DATES_REQUIRED := "startDate and endDate are required for custom period"
  const TOP := 5

  /** What `now` gives the route, in local time: midnight and 23:59:59.999
      today; Sunday and Saturday of this week at the current time of day;
      midnight of the first and of the last day of this month; midnight of
      the first day of the next month. */
  datatype Calendar = Calendar(
    startOfDay: Date, endOfDay: Date,
    startOfWeek: Date, endOfWeek: Date,
    startOfMonth: Date, lastDayOfMonth: Date, startOfNextMonth: Date)

  /** The filter `createdAt: { $gte: start, $lt: end }`. */
  datatype Window = Window(start: Date, end: Date)

  predicate Within(d: Date, w: Window) {
    w.start <= d < w.end
  }

  datatype Period = Bad(message: string) | Good(window: Window)

  /** The period's window, or the 400 message. The monthly window ends at
      midnight of the month's last day, as written. */
  function ReportWindow(period: string, startDate: Option<Date>, endDate: Option<Date>, cal: Calendar): Period {
    if period == DocRoutes.DAILY then Good(Window(cal.startOfDay, cal.endOfDay))
    else if period == DocRoutes.WEEKLY then Good(Window(cal.startOfWeek, cal.endOfWeek))
    else if period == DocRoutes.MONTHLY then Good(Window(cal.startOfMonth, cal.lastDayOfMonth))
    else if period == DocRoutes.CUSTOM then
      if startDate.None? || endDate.None? then Bad(CUSTOM_DATES_REQUIRED)
      else Good(Window(startDate.value, endDate.value))
    else Bad(INVALID_PERIOD)
  }

  /** The window with the month running up to the next month's first
      midnight. */
  function CorrectedWindow(period: string, startDate: Option<Date>, endDate: Option<Date>, cal: Calendar): Period {
    if period == DocRoutes.MONTHLY then Good(Window(cal.startOfMonth, cal.startOfNextMonth))
    else ReportWindow(period, startDate, endDate, cal)
  }

  /** The four periods are accepted; a custom one needs both dates. */
  lemma PeriodValidation(period: string, startDate: Option<Date>, endDate: Option<Date>, cal: Calendar)
    ensures var r := ReportWindow(period, startDate, endDate, cal);
      && (r == Bad(INVALID_PERIOD) <==>
            period !in {DocRoutes.DAILY, DocRoutes.WEEKLY, DocRoutes.MONTHLY, DocRoutes.CUSTOM})
      && (r == Bad(CUSTOM_DATES_REQUIRED) <==>
            period == DocRoutes.CUSTOM && (startDate.None? || endDate.None?))
      && (r.Good? && period == DocRoutes.CUSTOM ==> r.window == Window(startDate.value, endDate.value))
  {
  }

  /** As written, a record created on the last day of the month falls
      outside the monthly window; the corrected window holds every instant
      of the month and nothing of the next one. */
  lemma MonthlyWindowDropsLastDay(cal: Calendar, d: Date)
    requires cal.startOfMonth <= cal.lastDayOfMonth <= d < cal.startOfNextMonth
    ensures !Within(d, ReportWindow(DocRoutes.MONTHLY, None, None, cal).window)
    ensures Within(d, CorrectedWindow(DocRoutes.MONTHLY, None, None, cal).window)
  {
  }

  /** The corrected windows differ only for the month, which then holds
      every instant from its first midnight up to the next month's. */
  lemma CorrectedMonthIsTheMonth(period: string, startDate: Option<Date>, endDate: Option<Date>, cal: Calendar, d: Date)
    ensures var r := CorrectedWindow(period, startDate, endDate, cal);
      period == DocRoutes.MONTHLY ==>
        r.Good? && (Within(d, r.window) <==> cal.startOfMonth <= d < cal.startOfNextMonth)
    ensures period != DocRoutes.MONTHLY ==>
      CorrectedWindow(period, startDate, endDate, cal) == ReportWindow(period, startDate, endDate, cal)
  {
  }

  // ---------------------------------------------------------------------
  // The three finds: `Model.find({ doctorId, createdAt: ... }).sort(...)`

  function DateOf(a: Appointment): int { a.date }
  function PaidAt(p: Payment): int { p.createdAt }
  function ReviewedAt(r: Review): int { r.createdAt }

  function AppointmentsIn(apps: seq<Appointment>, doctorId: Id, w: Window): (r: seq<Appointment>)
    ensures forall a :: a in r <==> a in apps && a.doctorId == doctorId && Within(a.createdAt, w)
  {
    if apps == [] then []
    else (if apps[0].doctorId == doctorId && Within(apps[0].createdAt, w) then [apps[0]] else [])
         + AppointmentsIn(apps[1..], doctorId, w)
  }

  function PaymentsIn(payments: seq<Payment>, doctorId: Id, w: Window): (r: seq<Payment>)
    ensures forall p :: p in r <==> p in payments && p.doctorId == doctorId && Within(p.createdAt, w)
  {
    if payments == [] then []
    else (if payments[0].doctorId == doctorId && Within(payments[0].createdAt, w) then [payments[0]] else [])
         + PaymentsIn(payments[1..], doctorId, w)
  }

  function ReviewsIn(reviews: seq<Review>, doctorId: Id, w: Window): (r: seq<Review>)
    ensures forall v :: v in r <==> v in reviews && v.doctorId == doctorId && Within(v.createdAt, w)
  {
    if reviews == [] then []
    else (if reviews[0].doctorId == doctorId && Within(reviews[0].createdAt, w) then [reviews[0]] else [])
         + ReviewsIn(reviews[1..], doctorId, w)
  }

  datatype Selection = Selection(apps: seq<Appointment>, payments: seq<Payment>, reviews: seq<Review>)

  function Select(t: Tables, doctorId: Id, w: Window): Selection {
    Selection(SortBy(AppointmentsIn(t.appointments, doctorId, w), DateOf),
              SortBy(PaymentsIn(t.payments, doctorId, w), PaidAt),
              SortBy(ReviewsIn(t.reviews, doctorId, w), ReviewedAt))
  }

  /** Each list holds exactly the doctor's records created in the window,
      once each, in date order. */
  lemma SelectionScope(t: Tables, doctorId: Id, w: Window)
    ensures var s := Select(t, doctorId, w);
      && (forall a :: a in s.apps <==> a in t.appointments && a.doctorId == doctorId && Within(a.createdAt, w))
      && (forall p :: p in s.payments <==> p in t.payments && p.doctorId == doctorId && Within(p.createdAt, w))
      && (forall v :: v in s.reviews <==> v in t.reviews && v.doctorId == doctorId && Within(v.createdAt, w))
      && multiset(s.apps) == multiset(AppointmentsIn(t.appointments, doctorId, w))
      && SortedBy(s.apps, DateOf) && SortedBy(s.payments, PaidAt) && SortedBy(s.reviews, ReviewedAt)
  {
    var s := Select(t, doctorId, w);
    forall a ensures a in s.apps <==> a in AppointmentsIn(t.appointments, doctorId, w) {
      assert a in s.apps <==> a in multiset(s.apps);
    }
    forall p ensures p in s.payments <==> p in PaymentsIn(t.payments, doctorId, w) {
      assert p in s.payments <==> p in multiset(s.payments);
    }
    forall v ensures v in s.reviews <==> v in ReviewsIn(t.reviews, doctorId, w) {
      assert v in s.reviews <==> v in multiset(s.reviews);
    }
  }

  // ---------------------------------------------------------------------
  // Per-day records, the three `reduce`s keyed by the ISO day

  datatype DayAppointments = DayAppointments(total: int, completed: int, cancelled: int)
  datatype DayPayments = DayPayments(revenue: int, methods: Assoc<string>)
  datatype DayReviews = DayReviews(total: nat, rating: int)

  const NO_APPOINTMENTS := DayAppointments(0, 0, 0)
  const NO_PAYMENTS := DayPayments(0, [])
  const NO_REVIEWS := DayReviews(0, 0)

  function AppointmentDay(isoDay: Date -> string): Appointment -> string {
    (a: Appointment) => isoDay(a.date)
  }

  function PaymentDay(isoDay: Date -> string): Payment -> string {
    (p: Payment) => isoDay(p.createdAt)
  }

  function ReviewDay(isoDay: Date -> string): Review -> string {
    (v: Review) => isoDay(v.createdAt)
  }

  /** What one appointment does to its day's record. */
  function AppointmentStep(a: Appointment): DayAppointments -> DayAppointments {
    (d: DayAppointments) => DayAppointments(d.total + 1,
                                           d.completed + (if a.status == COMPLETED then 1 else 0),
                                           d.cancelled + (if a.status == CANCELLED then 1 else 0))
  }

  /** What one payment does to its day's record. */
  function PaymentStep(p: Payment): DayPayments -> DayPayments {
    (d: DayPayments) => DayPayments(d.revenue + p.amount, Bump(d.methods, p.paymentMethod, 1))
  }

  /** What one review does to its day's record. */
  function ReviewStep(v: Review): DayReviews -> DayReviews {
    (d: DayReviews) => DayReviews(d.total + 1, d.rating + v.rating)
  }

  function AppointmentDays(apps: seq<Appointment>, isoDay: Date -> string): Table<string, DayAppointments> {
    GroupBy(apps, AppointmentDay(isoDay), NO_APPOINTMENTS, AppointmentStep)
  }

  function PaymentDays(payments: seq<Payment>, isoDay: Date -> string): Table<string, DayPayments> {
    GroupBy(payments, PaymentDay(isoDay), NO_PAYMENTS, PaymentStep)
  }

  function ReviewDays(reviews: seq<Review>, isoDay: Date -> string): Table<string, DayReviews> {
    GroupBy(reviews, ReviewDay(isoDay), NO_REVIEWS, ReviewStep)
  }

  /** The appointment `reduce`: the day's record is created on first sight,
      then its fields are updated in place. */
  method AggregateAppointments(apps: seq<Appointment>, isoDay: Date -> string) returns (acc: Table<string, DayAppointments>)
    ensures acc == AppointmentDays(apps, isoDay)
  {
    acc := [];
    var i := 0;
    while i < |apps|
      invariant 0 <= i <= |apps|
      invariant acc == AppointmentDays(apps[..i], isoDay)
    {
      var a := apps[i];
      var date := isoDay(a.date);
      var at := IndexOf(acc, date);
      var day := if at.Some? then acc[at.value].1 else NO_APPOINTMENTS;
      day := day.(total := day.total + 1);
      if a.status == COMPLETED {
        day := day.(completed := day.completed + 1);
      } else if a.status == CANCELLED {
        day := day.(cancelled := day.cancelled + 1);
      }
      assert day == AppointmentStep(a)(if at.Some? then acc[at.value].1 else NO_APPOINTMENTS);
      GroupByPrefix(apps, i, AppointmentDay(isoDay), NO_APPOINTMENTS, AppointmentStep);
      if at.Some? {
        UpsertFound(acc, date, NO_APPOINTMENTS, AppointmentStep(a));
        acc := acc[at.value := (date, day)];
      } else {
        UpsertNew(acc, date, NO_APPOINTMENTS, AppointmentStep(a));
        acc := acc + [(date, day)];
      }
      i := i + 1;
    }
    assert apps[..|apps|] == apps;
  }

  /** The payment `reduce`, with its nested per-method counter. */
  method AggregatePayments(payments: seq<Payment>, isoDay: Date -> string) returns (acc: Table<string, DayPayments>)
    ensures acc == PaymentDays(payments, isoDay)
  {
    acc := [];
    var i := 0;
    while i < |payments|
      invariant 0 <= i <= |payments|
      invariant acc == PaymentDays(payments[..i], isoDay)
    {
      var p := payments[i];
      var date := isoDay(p.createdAt);
      var at := IndexOf(acc, date);
      var day := if at.Some? then acc[at.value].1 else NO_PAYMENTS;
      day := day.(revenue := day.revenue + p.amount);
      day := day.(methods := Bump(day.methods, p.paymentMethod, 1));
      assert day == PaymentStep(p)(if at.Some? then acc[at.value].1 else NO_PAYMENTS);
      GroupByPrefix(payments, i, PaymentDay(isoDay), NO_PAYMENTS, PaymentStep);
      if at.Some? {
        UpsertFound(acc, date, NO_PAYMENTS, PaymentStep(p));
        acc := acc[at.value := (date, day)];
      } else {
        UpsertNew(acc, date, NO_PAYMENTS, PaymentStep(p));
        acc := acc + [(date, day)];
      }
      i := i + 1;
    }
    assert payments[..|payments|] == payments;
  }

  /** The review `reduce`. */
  method AggregateReviews(reviews: seq<Review>, isoDay: Date -> string) returns (acc: Table<string, DayReviews>)
    ensures acc == ReviewDays(reviews, isoDay)
  {
    acc := [];
    var i := 0;
    while i < |reviews|
      invariant 0 <= i <= |reviews|
      invariant acc == ReviewDays(reviews[..i], isoDay)
    {
      var v := reviews[i];
      var date := isoDay(v.createdAt);
      var at := IndexOf(acc, date);
      var day := if at.Some? then acc[at.value].1 else NO_REVIEWS;
      day := day.(total := day.total + 1);
      day := day.(rating := day.rating + v.rating);
      assert day == ReviewStep(v)(if at.Some? then acc[at.value].1 else NO_REVIEWS);
      GroupByPrefix(reviews, i, ReviewDay(isoDay), NO_REVIEWS, ReviewStep);
      if at.Some? {
        UpsertFound(acc, date, NO_REVIEWS, ReviewStep(v));
        acc := acc[at.value := (date, day)];
      } else {
        UpsertNew(acc, date, NO_REVIEWS, ReviewStep(v));
        acc := acc + [(date, day)];
      }
      i := i + 1;
    }
    assert reviews[..|reviews|] == reviews;
  }

  // ---------------------------------------------------------------------
  // What the per-day records add up to

  function TotalOf(d: DayAppointments): int { d.total }
  function CompletedOf(d: DayAppointments): int { d.completed }
  function CancelledOf(d: DayAppointments): int { d.cancelled }
  function RevenueOf(d: DayPayments): int { d.revenue }
  function ReviewCountOf(d: DayReviews): int { d.total }

  function Amount(p: Payment): int { p.amount }

  /** 1 for an appointment with the given status, else 0. */
  function Has(status: string): Appointment -> int {
    (a: Appointment) => if a.status == status then 1 else 0
  }

  /** `reviews.reduce((sum, r) => sum + r.rating, 0)`. */
  function RatingSum(reviews: seq<Review>): int {
    if reviews == [] then 0 else RatingSum(reviews[..|reviews| - 1]) + reviews[|reviews| - 1].rating
  }

  lemma {:induction false} WeighedStatus<K>(apps: seq<Appointment>, key: Appointment -> K, status: string)
    ensures Weights(Weighed(apps, key, Has(status))) == CountWithStatus(apps, status)
  {
    if apps != [] {
      var n := |apps| - 1;
      WeighedStatus(apps[..n], key, status);
      assert Weighed(apps, key, Has(status))[..n] == Weighed(apps[..n], key, Has(status));
    }
  }

  lemma {:induction false} WeighedAmount<K>(payments: seq<Payment>, key: Payment -> K)
    ensures Weights(Weighed(payments, key, Amount)) == TotalAmount(payments)
  {
    if payments != [] {
      var n := |payments| - 1;
      WeighedAmount(payments[..n], key);
      assert Weighed(payments, key, Amount)[..n] == Weighed(payments[..n], key, Amount);
    }
  }

  // ---------------------------------------------------------------------
  // Patient metrics

  /** One entry of `patientAppointmentCount`. */
  datatype PatientRow = PatientRow(name: Option<string>, email: Option<string>, totalAppointments: int, totalRevenue: int)

  const NEW_PATIENT := PatientRow(None, None, 0, 0)

  function PatientOf(a: Appointment): Id { a.patientId }

  /** The step as written. The appointments are not populated, so the
      patient's name and email are read off a bare id and are undefined,
      and `payment.appointmentId === appointment._id` compares two distinct
      id objects, so no payment is ever found and the revenue grows by 0. */
  function PatientStepAsWritten(a: Appointment): PatientRow -> PatientRow {
    (v: PatientRow) => v.(totalAppointments := v.totalAppointments + 1)
  }

  function PatientsAsWritten(apps: seq<Appointment>): Table<Id, PatientRow> {
    GroupBy(apps, PatientOf, NEW_PATIENT, PatientStepAsWritten)
  }

  /** The amount of the first payment for the appointment, ids compared by
      value, or 0. */
  function PaidFor(payments: seq<Payment>, appointmentId: Id): int {
    match FirstWhere(payments, (p: Payment) => p.appointmentId == appointmentId)
    case None => 0
    case Some(j) => payments[j].amount
  }

  function PatientEmail(users: seq<User>, id: Id): Option<string> {
    match FindUser(users, id)
    case None => None
    case Some(i) => Some(users[i].email)
  }

  /** The step with the patient populated and ids compared by value. */
  function PatientStep(users: seq<User>, payments: seq<Payment>): Appointment -> PatientRow -> PatientRow {
    (a: Appointment) => (v: PatientRow) =>
      PatientRow(DocRoutes.PatientName(users, a.patientId), PatientEmail(users, a.patientId),
                 v.totalAppointments + 1, v.totalRevenue + PaidFor(payments, a.id))
  }

  function Patients(apps: seq<Appointment>, users: seq<User>, payments: seq<Payment>): Table<Id, PatientRow> {
    GroupBy(apps, PatientOf, NEW_PATIENT, PatientStep(users, payments))
  }

  function NegRevenue(v: PatientRow): int { -v.totalRevenue }

  /** `.sort((a, b) => b.totalRevenue - a.totalRevenue).slice(0, 5)`: the
      five highest revenues, highest first; every row left out has no more
      revenue than any row kept. */
  function TopByRevenue(rows: seq<PatientRow>): (top: seq<PatientRow>)
    ensures |top| == if |rows| < TOP then |rows| else TOP
    ensures forall i, j :: 0 <= i < j < |top| ==> top[j].totalRevenue <= top[i].totalRevenue
    ensures multiset(top) <= multiset(rows)
  {
    var sorted := SortBy(rows, NegRevenue);
    var n := if |sorted| < TOP then |sorted| else TOP;
    var top := sorted[..n];
    SortedPrefix(sorted, NegRevenue, n);
    assert forall i, j :: 0 <= i < j < |top| ==> top[j].totalRevenue <= top[i].totalRevenue by {
      forall i, j | 0 <= i < j < |top| ensures top[j].totalRevenue <= top[i].totalRevenue {
        assert NegRevenue(top[i]) <= NegRevenue(top[j]);
      }
    }
    top
  }

  /** Every row left out of the top five has no more revenue than any
      row kept. */
  lemma TopIsTop(rows: seq<PatientRow>, y: PatientRow, x: PatientRow)
    requires y in multiset(rows) - multiset(TopByRevenue(rows)) && x in TopByRevenue(rows)
    ensures y.totalRevenue <= x.totalRevenue
  {
    var sorted := SortBy(rows, NegRevenue);
    var n := if |sorted| < TOP then |sorted| else TOP;
    PrefixIsLeast(sorted, NegRevenue, n);
    assert NegRevenue(x) <= NegRevenue(y);
  }

  /** As written, every patient row has no name, no email and no revenue. */
  lemma {:induction false} PatientRowsAsWritten(apps: seq<Appointment>)
    ensures var rows := PatientsAsWritten(apps);
      forall i :: 0 <= i < |rows| ==> rows[i].1.totalRevenue == 0 && rows[i].1.name.None? && rows[i].1.email.None?
  {
    var P := (v: PatientRow) => v.totalRevenue == 0 && v.name.None? && v.email.None?;
    GroupByKeeps(apps, PatientOf, NEW_PATIENT, PatientStepAsWritten, P);
  }

  /** Hence, as written, the "top patients by revenue" are the first five
      patients to appear, in the date order of their first appointment. */
  lemma TopPatientsAsWrittenInOrder(apps: seq<Appointment>)
    ensures var rows := TableValues(PatientsAsWritten(apps));
      TopByRevenue(rows) == if |rows| < TOP then rows else rows[..TOP]
  {
    var rows := TableValues(PatientsAsWritten(apps));
    PatientRowsAsWritten(apps);
    assert SortedBy(rows, NegRevenue);
    SortSorted(rows, NegRevenue);
  }

  /** With ids compared by value, the rows count every appointment and the
      revenue of every appointment's payment. */
  lemma PatientTotals(apps: seq<Appointment>, users: seq<User>, payments: seq<Payment>)
    ensures Sum(Project(Patients(apps, users, payments), (v: PatientRow) => v.totalAppointments)) == |apps|
    ensures Sum(Project(Patients(apps, users, payments), (v: PatientRow) => v.totalRevenue)) ==
            Weights(Weighed(apps, PatientOf, (a: Appointment) => PaidFor(payments, a.id)))
  {
    var step := PatientStep(users, payments);
    GroupByProject(apps, PatientOf, NEW_PATIENT, step, (v: PatientRow) => v.totalAppointments, One);
    AccumulateSum(Weighed(apps, PatientOf, One));
    WeighedOnes(apps, PatientOf);
    var paid := (a: Appointment) => PaidFor(payments, a.id);
    GroupByProject(apps, PatientOf, NEW_PATIENT, step, (v: PatientRow) => v.totalRevenue, paid);
    AccumulateSum(Weighed(apps, PatientOf, paid));
  }

  /** `new Set(appointments.map(a => a.patientId._id))` as written holds
      one id object per appointment, as no two are the same object. */
  function UniquePatientsAsWritten(apps: seq<Appointment>): nat {
    |apps|
  }

  /** One per patient, ids compared by value: the rows of the patient table. */
  function UniquePatients(apps: seq<Appointment>): (n: nat)
    ensures n <= |apps|
  {
    GroupBySize(apps, PatientOf, NEW_PATIENT, PatientStepAsWritten);
    |PatientsAsWritten(apps)|
  }

  /** The corrected count is the number of distinct patients: its rows are
      keyed by distinct ids, and those ids are the appointments' patients. */
  lemma UniquePatientsAreDistinct(apps: seq<Appointment>, id: Id)
    ensures var keys := TableKeys(PatientsAsWritten(apps));
      && |keys| == UniquePatients(apps)
      && (forall i, j :: 0 <= i < j < |keys| ==> keys[i] != keys[j])
      && (id in keys <==> exists a :: a in apps && a.patientId == id)
  {
    GroupByKeys(apps, PatientOf, NEW_PATIENT, PatientStepAsWritten, id);
    var keys := TableKeys(PatientsAsWritten(apps));
    if id in keys {
      var i :| 0 <= i < |apps| && PatientOf(apps[i]) == id;
      assert apps[i] in apps;
    }
    if exists a :: a in apps && a.patientId == id {
      var a :| a in apps && a.patientId == id;
      var i :| 0 <= i < |apps| && apps[i] == a;
      assert PatientOf(apps[i]) == id;
    }
  }

  /** Two appointments of one patient, paid 100 for the first: as written
      the report counts two patients and no revenue; corrected, one patient
      with 100. */
  lemma PatientMetricsExample()
    ensures var a1 := Appointment(1, 7, 3, 0, "10:00", COMPLETED, PAID, 0);
      var a2 := Appointment(2, 7, 3, 1, "11:00", PENDING, PENDING, 1);
      var p := Payment(4, 1, 3, 7, 100, "tx", "card", SUCCESS, 0);
      && UniquePatientsAsWritten([a1, a2]) == 2
      && UniquePatients([a1, a2]) == 1
      && TableValues(PatientsAsWritten([a1, a2])) == [PatientRow(None, None, 2, 0)]
      && Patients([a1, a2], [], [p]) == [(3, PatientRow(None, None, 2, 100))]
  {
    var a1 := Appointment(1, 7, 3, 0, "10:00", COMPLETED, PAID, 0);
    var a2 := Appointment(2, 7, 3, 1, "11:00", PENDING, PENDING, 1);
    var p := Payment(4, 1, 3, 7, 100, "tx", "card", SUCCESS, 0);
    assert [a1, a2][..1] == [a1];
    assert [a1][..0] == [];
    assert GroupBy([a1][..0], PatientOf, NEW_PATIENT, PatientStepAsWritten) == [];
    assert PatientStepAsWritten(a1)(NEW_PATIENT) == PatientRow(None, None, 1, 0);
    assert PatientsAsWritten([a1]) == Upsert([], 3, NEW_PATIENT, PatientStepAsWritten(a1));
    assert PatientsAsWritten([a1]) == [(3, PatientRow(None, None, 1, 0))];
    assert PatientsAsWritten([a1, a2]) == [(3, PatientRow(None, None, 2, 0))];
    assert PaidFor([p], 1) == 100;
    assert PaidFor([p], 2) == 0;
    assert PatientStep([], [p])(a1)(NEW_PATIENT) == PatientRow(None, None, 1, 100);
    assert GroupBy([a1][..0], PatientOf, NEW_PATIENT, PatientStep([], [p])) == [];
    assert Patients([a1], [], [p]) == [(3, PatientRow(None, None, 1, 100))];
  }

  // ---------------------------------------------------------------------
  // The response

  /** `Object.keys({ ...appointmentDays, ...paymentDays, ...reviewDays })`. */
  function Labels(ad: Table<string, DayAppointments>, pd: Table<string, DayPayments>,
                  rd: Table<string, DayReviews>): seq<string> {
    MergeKeys(MergeKeys(TableKeys(ad), TableKeys(pd)), TableKeys(rd))
  }

  /** `labels.map(d => paymentDays[d]?.paymentMethods || {})`. */
  function MethodsColumn(pd: Table<string, DayPayments>, labels: seq<string>): (r: seq<Assoc<string>>)
    ensures |r| == |labels|
  {
    seq(|labels|, i requires 0 <= i < |labels| =>
      match IndexOf(pd, labels[i])
      case None => []
      case Some(j) => pd[j].1.methods)
  }

  /** `labels.map(d => rd[d]?.totalRating / rd[d]?.totalReviews || 0)`:
      a day without reviews divides undefined by undefined, and NaN || 0
      is 0. */
  function AverageColumn(rd: Table<string, DayReviews>, labels: seq<string>): (r: seq<real>)
    ensures |r| == |labels|
  {
    seq(|labels|, i requires 0 <= i < |labels| =>
      match IndexOf(rd, labels[i])
      case None => 0.0
      case Some(j) => DocRoutes.Average(rd[j].1.rating, rd[j].1.total))
  }

  function Methods(payments: seq<Payment>): (ms: seq<string>)
    ensures |ms| == |payments|
  {
    seq(|payments|, i requires 0 <= i < |payments| => payments[i].paymentMethod)
  }

  datatype Report = Report(
    doctorId: Id,
    period: string,
    window: Window,
    labels: seq<string>,
    appointmentsTotal: seq<int>,
    appointmentsCompleted: seq<int>,
    appointmentsCancelled: seq<int>,
    revenueData: seq<int>,
    paymentMethodsData: seq<Assoc<string>>,
    reviewsTotal: seq<int>,
    reviewsAverageRating: seq<real>,
    totalAppointments: nat,
    totalCompletedAppointments: nat,
    totalCancelledAppointments: nat,
    totalRevenue: int,
    averageRevenuePerAppointment: real,
    paymentMethodDistribution: Assoc<string>,
    uniquePatients: nat,
    topPatientsByRevenue: seq<PatientRow>,
    totalReviews: nat,
    averageRating: real)

  /** The report body over the selected records, patient metrics as
      written. */
  function Summarise(doctorId: Id, period: string, w: Window, s: Selection, isoDay: Date -> string): Report {
    var ad := AppointmentDays(s.apps, isoDay);
    var pd := PaymentDays(s.payments, isoDay);
    var rd := ReviewDays(s.reviews, isoDay);
    var labels := Labels(ad, pd, rd);
    var totalRevenue := TotalAmount(s.payments);
    Report(doctorId, period, w, labels,
           Column(Project(ad, TotalOf), labels),
           Column(Project(ad, CompletedOf), labels),
           Column(Project(ad, CancelledOf), labels),
           Column(Project(pd, RevenueOf), labels),
           MethodsColumn(pd, labels),
           Column(Project(rd, ReviewCountOf), labels),
           AverageColumn(rd, labels),
           |s.apps|, CountWithStatus(s.apps, COMPLETED), CountWithStatus(s.apps, CANCELLED),
           totalRevenue, DocRoutes.Average(totalRevenue, |s.apps|),
           Count(Methods(s.payments)),
           UniquePatientsAsWritten(s.apps),
           TopByRevenue(TableValues(PatientsAsWritten(s.apps))),
           |s.reviews|, DocRoutes.Average(RatingSum(s.reviews), |s.reviews|))
  }

  datatype Response = Generated(report: Report) | Error(status: nat, message: string)

  /** GET /report. */
  function GenerateReport(t: Tables, userId: Id, period: string, startDate: Option<Date>, endDate: Option<Date>,
                          cal: Calendar, isoDay: Date -> string): Response
  {
    match DocRoutes.DoctorOfUser(t, userId)
    case None => Error(404, DocRoutes.DOCTOR_NOT_FOUND)
    case Some(doctorId) =>
      match ReportWindow(period, startDate, endDate, cal)
      case Bad(message) => Error(400, message)
      case Good(w) => Generated(Summarise(doctorId, period, w, Select(t, doctorId, w), isoDay))
  }

  /** 404 without a doctor profile, 400 exactly when the period is refused,
      and otherwise the totals count the doctor's records in the window. */
  lemma ReportResponses(t: Tables, userId: Id, period: string, startDate: Option<Date>, endDate: Option<Date>,
                        cal: Calendar, isoDay: Date -> string)
    ensures var r := GenerateReport(t, userId, period, startDate, endDate, cal, isoDay);
      var w := ReportWindow(period, startDate, endDate, cal);
      && (r == Error(404, DocRoutes.DOCTOR_NOT_FOUND) <==> DocRoutes.DoctorOfUser(t, userId).None?)
      && (DocRoutes.DoctorOfUser(t, userId).Some? ==>
            && (r.Error? <==> w.Bad?)
            && (w.Bad? ==> r == Error(400, w.message))
            && (r.Generated? ==>
                  var doctorId := DocRoutes.DoctorOfUser(t, userId).value;
                  && r.report.window == w.window
                  && r.report.totalAppointments == |AppointmentsIn(t.appointments, doctorId, w.window)|
                  && r.report.totalReviews == |ReviewsIn(t.reviews, doctorId, w.window)|))
  {
  }

  /** The labels are the days on which something happened, each once. */
  lemma LabelsAreTheDays(s: Selection, isoDay: Date -> string, day: string)
    ensures var labels := Summarise(0, "", Window(0, 0), s, isoDay).labels;
      && Distinct(labels)
      && (day in labels <==>
            || (exists i :: 0 <= i < |s.apps| && isoDay(s.apps[i].date) == day)
            || (exists i :: 0 <= i < |s.payments| && isoDay(s.payments[i].createdAt) == day)
            || (exists i :: 0 <= i < |s.reviews| && isoDay(s.reviews[i].createdAt) == day))
  {
    var ad := AppointmentDays(s.apps, isoDay);
    var pd := PaymentDays(s.payments, isoDay);
    var rd := ReviewDays(s.reviews, isoDay);
    GroupByKeys(s.apps, AppointmentDay(isoDay), NO_APPOINTMENTS, AppointmentStep, day);
    GroupByKeys(s.payments, PaymentDay(isoDay), NO_PAYMENTS, PaymentStep, day);
    GroupByKeys(s.reviews, ReviewDay(isoDay), NO_REVIEWS, ReviewStep, day);
    var inner := MergeKeys(TableKeys(ad), TableKeys(pd));
    assert day in TableKeys(ad) ==> day in inner by {
      assert inner[..|TableKeys(ad)|] == TableKeys(ad);
    }
    assert day in inner ==> day in Labels(ad, pd, rd) by {
      assert Labels(ad, pd, rd)[..|inner|] == inner;
    }
  }

  lemma LabelsCover(s: Selection, isoDay: Date -> string)
    ensures var ad := AppointmentDays(s.apps, isoDay);
      var pd := PaymentDays(s.payments, isoDay);
      var rd := ReviewDays(s.reviews, isoDay);
      var labels := Labels(ad, pd, rd);
      Distinct(labels) && Covers(ad, labels) && Covers(pd, labels) && Covers(rd, labels)
  {
    var ad := AppointmentDays(s.apps, isoDay);
    var pd := PaymentDays(s.payments, isoDay);
    var rd := ReviewDays(s.reviews, isoDay);
    GroupByDistinct(s.apps, AppointmentDay(isoDay), NO_APPOINTMENTS, AppointmentStep);
    MergeCovers(ad, pd, rd);
  }

  /** Each labelled series adds up to its total: no day is lost or counted
      twice when the three groupings are merged. */
  lemma ReportConservation(doctorId: Id, period: string, w: Window, s: Selection, isoDay: Date -> string)
    ensures var r := Summarise(doctorId, period, w, s, isoDay);
      && Total(r.appointmentsTotal) == r.totalAppointments
      && Total(r.appointmentsCompleted) == r.totalCompletedAppointments
      && Total(r.appointmentsCancelled) == r.totalCancelledAppointments
      && Total(r.revenueData) == r.totalRevenue
      && Total(r.reviewsTotal) == r.totalReviews
      && Sum(r.paymentMethodDistribution) == |s.payments|
  {
    var labels := Labels(AppointmentDays(s.apps, isoDay), PaymentDays(s.payments, isoDay), ReviewDays(s.reviews, isoDay));
    LabelsCover(s, isoDay);
    AppointmentSeries(s.apps, isoDay, labels);
    SeriesTotal(s.payments, PaymentDay(isoDay), NO_PAYMENTS, PaymentStep, RevenueOf, Amount, labels);
    WeighedAmount(s.payments, PaymentDay(isoDay));
    SeriesTotal(s.reviews, ReviewDay(isoDay), NO_REVIEWS, ReviewStep, ReviewCountOf, One, labels);
    WeighedOnes(s.reviews, ReviewDay(isoDay));
    CountSum(Methods(s.payments));
  }

  lemma AppointmentSeries(apps: seq<Appointment>, isoDay: Date -> string, labels: seq<string>)
    requires Distinct(labels) && Covers(AppointmentDays(apps, isoDay), labels)
    ensures Total(Column(Project(AppointmentDays(apps, isoDay), TotalOf), labels)) == |apps|
    ensures Total(Column(Project(AppointmentDays(apps, isoDay), CompletedOf), labels)) == CountWithStatus(apps, COMPLETED)
    ensures Total(Column(Project(AppointmentDays(apps, isoDay), CancelledOf), labels)) == CountWithStatus(apps, CANCELLED)
  {
    SeriesTotal(apps, AppointmentDay(isoDay), NO_APPOINTMENTS, AppointmentStep, TotalOf, One, labels);
    WeighedOnes(apps, AppointmentDay(isoDay));
    SeriesTotal(apps, AppointmentDay(isoDay), NO_APPOINTMENTS, AppointmentStep, CompletedOf, Has(COMPLETED), labels);
    WeighedStatus(apps, AppointmentDay(isoDay), COMPLETED);
    SeriesTotal(apps, AppointmentDay(isoDay), NO_APPOINTMENTS, AppointmentStep, CancelledOf, Has(CANCELLED), labels);
    WeighedStatus(apps, AppointmentDay(isoDay), CANCELLED);
  }
}
