/** The doctor's payment dashboard, client/src/pages/DocDashboard/Payment.jsx:
    when it fetches, the URL it asks, the CSV export of the payments and the
    payment-status chart drawn from the server's `graphData.byStatus`. */
module PaymentDashboard {
  import opened Wrappers
  import opened Models
  import opened Tally
  import opened Strings
  import opened AppointmentCharts
  import Store
  import DocRoutes

  const PAYMENTS_URL := "http://localhost:5000/api/doctors/payments"
  const PAYMENT_HEADER: seq<string> := ["Patient", "Date", "Amount", "Status", "Payment Method"]
  const NOT_AVAILABLE := "N/A"

  // ---------------------------------------------------------------------
  // Fetching

  /** The effect's guard: a custom period waits for both dates; the other
      periods always fetch. */
  function ShouldFetch(period: string, startDate: string, endDate: string): (b: bool)
    ensures period == DocRoutes.CUSTOM ==> (b <==> startDate != "" && endDate != "")
    ensures period != DocRoutes.CUSTOM ==> b
  {
    if period == DocRoutes.CUSTOM then startDate != "" && endDate != "" else true
  }

  /** The URL fetched, if any. */
  function Fetch(period: string, startDate: string, endDate: string): Option<string> {
    if ShouldFetch(period, startDate, endDate) then Some(PeriodUrl(PAYMENTS_URL, period, startDate, endDate)) else None
  }

  /** Every fetch of a custom period carries both dates, so the server's
      400 for a custom range without dates cannot be reached from here. */
  lemma CustomFetchCarriesRange(period: string, startDate: string, endDate: string)
    requires '&' !in period && '&' !in startDate && '&' !in endDate
    requires period == DocRoutes.CUSTOM
    ensures Fetch(period, startDate, endDate).Some? <==> startDate != "" && endDate != ""
    ensures Fetch(period, startDate, endDate).Some? ==>
      Split(Query(period, startDate, endDate), '&') == ["period=" + period, "startDate=" + startDate, "endDate=" + endDate]
  {
    QueryParams(period, startDate, endDate);
  }

  /** Any other period fetches at once, and its query carries the period
      alone: dates left in the pickers are not sent. */
  lemma OtherPeriodsFetchAtOnce(period: string, startDate: string, endDate: string)
    requires '&' !in period
    requires period != DocRoutes.CUSTOM
    ensures Fetch(period, startDate, endDate).Some?
    ensures Split(Query(period, startDate, endDate), '&') == ["period=" + period]
  {
    assert Query(period, startDate, endDate) == "period=" + period;
    assert '&' !in "period=";
    SplitWithoutSeparator("period=" + period, '&');
  }

  // ---------------------------------------------------------------------
  // CSV export

  /** A payment as the dashboard receives it, the patient populated to its
      name. */
  datatype ClientPayment = ClientPayment(patientName: Option<string>, payment: Payment)

  /** The payments of a listing, as sent with their patients' names. */
  function Served(payments: seq<Payment>, users: seq<User>): (r: seq<ClientPayment>)
    ensures |r| == |payments|
    ensures forall i :: 0 <= i < |payments| ==>
      r[i] == ClientPayment(DocRoutes.PatientName(users, payments[i].patientId), payments[i])
  {
    seq(|payments|, i requires 0 <= i < |payments| =>
      ClientPayment(DocRoutes.PatientName(users, payments[i].patientId), payments[i]))
  }

  /** `populate("patientId", "name")`: each listed payment is sent as it is
      stored, named after the user its patientId refers to, and without a
      name exactly when no stored user has that id. */
  lemma ServedNames(payments: seq<Payment>, users: seq<User>, i: nat)
    requires i < |payments|
    ensures var c := Served(payments, users)[i];
      && |Served(payments, users)| == |payments|
      && c.payment == payments[i]
      && (c.patientName.None? <==> forall k :: 0 <= k < |users| ==> users[k].id != payments[i].patientId)
      && (c.patientName.Some? ==>
            exists k :: 0 <= k < |users| && users[k].id == payments[i].patientId && users[k].name == c.patientName.value)
  {
    var f := Store.FindUser(users, payments[i].patientId);
    if f.Some? {
      assert users[f.value].id == payments[i].patientId;
    }
  }

  /** Reading a string field of a payment document by name: the schema's
      string fields are there, any other name is undefined. */
  function PaymentField(p: Payment, name: string): (r: Option<string>)
    ensures r.Some? <==> name in {"transactionId", "paymentMethod", "paymentStatus"}
  {
    if name == "transactionId" then Some(p.transactionId)
    else if name == "paymentMethod" then Some(p.paymentMethod)
    else if name == "paymentStatus" then Some(p.paymentStatus)
    else None
  }

  function AmountText(amount: int): string {
    "$" + IntToString(amount)
  }

  /** The export's row as written: its status column reads `payment.status`. */
  function PaymentRowAsWritten(c: ClientPayment, dayLabel: Date -> string): (row: seq<string>)
    ensures |row| == |PAYMENT_HEADER|
  {
    [OrElse(c.patientName, UNKNOWN), dayLabel(c.payment.createdAt), AmountText(c.payment.amount),
     OrElse(PaymentField(c.payment, "status"), NOT_AVAILABLE),
     OrElse(PaymentField(c.payment, "paymentMethod"), NOT_AVAILABLE)]
  }

  /** The row meant: the status column reads `payment.paymentStatus`. */
  function PaymentRow(c: ClientPayment, dayLabel: Date -> string): (row: seq<string>)
    ensures |row| == |PAYMENT_HEADER|
  {
    [OrElse(c.patientName, UNKNOWN), dayLabel(c.payment.createdAt), AmountText(c.payment.amount),
     OrElse(PaymentField(c.payment, "paymentStatus"), NOT_AVAILABLE),
     OrElse(PaymentField(c.payment, "paymentMethod"), NOT_AVAILABLE)]
  }

  function PaymentCsvAsWritten(ps: seq<ClientPayment>, dayLabel: Date -> string): string {
    Csv([PAYMENT_HEADER] + seq(|ps|, i requires 0 <= i < |ps| => PaymentRowAsWritten(ps[i], dayLabel)))
  }

  function PaymentRows(ps: seq<ClientPayment>, dayLabel: Date -> string): (rows: seq<seq<string>>)
    ensures |rows| == |ps|
    ensures forall i :: 0 <= i < |ps| ==> rows[i] == PaymentRow(ps[i], dayLabel)
  {
    seq(|ps|, i requires 0 <= i < |ps| => PaymentRow(ps[i], dayLabel))
  }

  function PaymentCsv(ps: seq<ClientPayment>, dayLabel: Date -> string): string {
    Csv([PAYMENT_HEADER] + PaymentRows(ps, dayLabel))
  }

  /** As written, every payment's status prints as "N/A". */
  lemma StatusColumnAlwaysNA(c: ClientPayment, dayLabel: Date -> string)
    ensures PaymentRowAsWritten(c, dayLabel)[3] == NOT_AVAILABLE
    ensures PaymentRowAsWritten(c, dayLabel)[3] != c.payment.paymentStatus || c.payment.paymentStatus == NOT_AVAILABLE
  {
  }

  /** The corrected row: the patient's name (or "Unknown" when missing or
      empty), the day, "$" and the amount, the recorded status (or "N/A"
      when empty), and the method (or "N/A" when empty). */
  lemma PaymentRowColumns(c: ClientPayment, dayLabel: Date -> string)
    ensures var row := PaymentRow(c, dayLabel);
      && (c.patientName.Some? && c.patientName.value != "" ==> row[0] == c.patientName.value)
      && (c.patientName.None? || c.patientName.value == "" ==> row[0] == UNKNOWN)
      && row[1] == dayLabel(c.payment.createdAt)
      && row[2][0] == '$' && row[2][1..] == IntToString(c.payment.amount)
      && (c.payment.paymentStatus != "" ==> row[3] == c.payment.paymentStatus)
      && (c.payment.paymentStatus == "" ==> row[3] == NOT_AVAILABLE)
      && (c.payment.paymentMethod != "" ==> row[4] == c.payment.paymentMethod)
      && (row[4] == NOT_AVAILABLE <==> c.payment.paymentMethod == "" || c.payment.paymentMethod == NOT_AVAILABLE)
  {
  }

  lemma AmountTextPlain(amount: int)
    ensures Plain(AmountText(amount))
  {
    var digits := NatToString(if amount < 0 then -amount else amount);
    assert forall i :: 0 <= i < |digits| ==> IsDigit(digits[i]);
    assert !IsDigit(',') && !IsDigit('\n');
  }

  lemma PaymentRowPlain(c: ClientPayment, dayLabel: Date -> string)
    requires var row := PaymentRow(c, dayLabel);
      Plain(row[0]) && Plain(row[1]) && Plain(row[3]) && Plain(row[4])
    ensures PlainRow(PaymentRow(c, dayLabel))
  {
    AmountTextPlain(c.payment.amount);
  }

  /** The export is a five-column header line and one five-field line per
      payment, when no name, date, status or method holds a comma or line
      break. */
  lemma PaymentCsvShape(ps: seq<ClientPayment>, dayLabel: Date -> string)
    requires forall i :: 0 <= i < |ps| ==>
      var row := PaymentRow(ps[i], dayLabel);
      Plain(row[0]) && Plain(row[1]) && Plain(row[3]) && Plain(row[4])
    ensures |Split(PaymentCsv(ps, dayLabel), '\n')| == |ps| + 1
    ensures forall i :: 0 <= i < |ps| ==>
      Split(Split(PaymentCsv(ps, dayLabel), '\n')[i + 1], ',') == PaymentRow(ps[i], dayLabel)
  {
    var body := PaymentRows(ps, dayLabel);
    assert PlainRow(PAYMENT_HEADER);
    forall i | 0 <= i < |body| ensures PlainRow(body[i]) {
      PaymentRowPlain(ps[i], dayLabel);
    }
    CsvWithHeader(PAYMENT_HEADER, body);
  }

  // ---------------------------------------------------------------------
  // The payment-status chart

  /** `Object.entries(graphData.byStatus || {})` as chart points. */
  function StatusData(byStatus: Option<Assoc<string>>): seq<Bar> {
    Entries(byStatus.GetOr([]))
  }

  /** Fed by the server as written, the status chart is always empty. */
  lemma StatusChartEmptyAsServed(t: Store.Tables, userId: Id, period: string, startDate: Option<Date>, endDate: Option<Date>,
                                 window: string -> (Date, Date), endOfDay: Date -> Date, dateKey: Date -> string)
    ensures var r := DocRoutes.ListPayments(t, userId, period, startDate, endDate, window, endOfDay, dateKey);
      r.Payments? ==> StatusData(Some(r.paymentGraph.byStatus)) == []
  {
    var r := DocRoutes.ListPayments(t, userId, period, startDate, endDate, window, endOfDay, dateKey);
    if r.Payments? {
      var doctorId := DocRoutes.DoctorOfUser(t, userId).value;
      var w := DocRoutes.PaymentWindow(period, startDate, endDate, window, endOfDay).value;
      var payments := DocRoutes.DoctorsPayments(t.payments, doctorId, w);
      DocRoutes.PaymentStatusNeverGrouped(payments, t.users, dateKey);
    }
  }

  /** Fed the grouping by `paymentStatus`, the chart has one point per
      status among the payments, and the points add up to their total. */
  lemma StatusChartCorrected(payments: seq<Payment>, status: string)
    ensures var bars := StatusData(Some(DocRoutes.ByPaymentStatus(payments)));
      && (forall i, j :: 0 <= i < j < |bars| ==> bars[i].name != bars[j].name)
      && ((exists i :: 0 <= i < |bars| && bars[i].name == status) <==>
          exists k :: 0 <= k < |payments| && payments[k].paymentStatus == status)
      && BarTotal(bars) == Store.TotalAmount(payments)
  {
    var t := DocRoutes.ByPaymentStatus(payments);
    var bars := StatusData(Some(t));
    DocRoutes.ByPaymentStatusConserves(payments, status);
    if status in Keys(t) {
      var i :| 0 <= i < |t| && Keys(t)[i] == status;
      assert bars[i].name == status;
    }
    if exists i :: 0 <= i < |bars| && bars[i].name == status {
      var i :| 0 <= i < |bars| && bars[i].name == status;
      assert Keys(t)[i] == status;
    }
    BarTotalIsSum(t);
  }

  function BarTotal(bars: seq<Bar>): int {
    if bars == [] then 0 else bars[0].value + BarTotal(bars[1..])
  }

  lemma {:induction false} BarTotalIsSum(t: Assoc<string>)
    ensures BarTotal(Entries(t)) == Sum(t)
  {
    if t != [] {
      BarTotalIsSum(t[1..]);
      assert Entries(t)[1..] == Entries(t[1..]);
    }
  }
}
