/** The doctor's appointment dashboard, client/src/pages/DocDashboard/Dashboard.jsx,
    and the report panel client/src/pages/DoctorReports.jsx, which derive the
    same chart series from the fetched appointments: counts per status, per
    time slot, and a revenue point per completed appointment. The dashboard
    also builds the request URL, the CSV export and the Accept/Reject
    actions. How a date prints (`toLocaleDateString`) is a parameter. */
module AppointmentCharts {
  import opened Wrappers
  import opened Models
  import opened Tally
  import opened Strings
  import Store
  import DocRoutes

  /** An appointment as the dashboard receives it, the patient populated to
      its name (None when the patient is gone). */
  datatype ClientAppointment = ClientAppointment(
    id: string, patientName: Option<string>, date: Date, timeSlot: string, status: string)

  /** A chart point `{ name, value }`. */
  datatype Bar = Bar(name: string, value: int)

  datatype RevenuePoint = RevenuePoint(date: string, revenue: int)

  const STATUS_ORDER: seq<string> := [COMPLETED, CANCELLED, PENDING]
  const REVENUE_PER_APPOINTMENT := 100
  const UNKNOWN := "Unknown"
  const APPOINTMENTS_URL := "https://snap-hire.onrender.com/api/doctors/appointments"
  const APPOINTMENT_HEADER: seq<string> := ["Patient", "Date", "Time", "Status"]

  /** `x || fallback` for a string that may be missing. */
  function OrElse(o: Option<string>, fallback: string): (r: string)
    ensures o.Some? && o.value != "" ==> r == o.value
    ensures o.None? || o.value == "" ==> r == fallback
  {
    if o.Some? && o.value != "" then o.value else fallback
  }

  function Statuses(apps: seq<ClientAppointment>): (r: seq<string>)
    ensures |r| == |apps|
    ensures forall i :: 0 <= i < |apps| ==> r[i] == apps[i].status
  {
    seq(|apps|, i requires 0 <= i < |apps| => apps[i].status)
  }

  function Slots(apps: seq<ClientAppointment>): (r: seq<string>)
    ensures |r| == |apps|
    ensures forall i :: 0 <= i < |apps| ==> r[i] == apps[i].timeSlot
  {
    seq(|apps|, i requires 0 <= i < |apps| => apps[i].timeSlot)
  }

  /** `appointments.filter(a => a.status === status).length`. */
  function CountStatus(apps: seq<ClientAppointment>, status: string): nat {
    if apps == [] then 0
    else CountStatus(apps[..|apps| - 1], status) + (if apps[|apps| - 1].status == status then 1 else 0)
  }

  /** The count of a status is how often it occurs. */
  lemma {:induction false} CountStatusOccurrences(apps: seq<ClientAppointment>, status: string)
    ensures CountStatus(apps, status) == multiset(Statuses(apps))[status]
  {
    if apps != [] {
      var n := |apps| - 1;
      CountStatusOccurrences(apps[..n], status);
      assert Statuses(apps) == Statuses(apps[..n]) + [apps[n].status];
    }
  }

  /** `statusData`: one bar per status, in the order Completed, Cancelled,
      Pending. */
  function StatusData(apps: seq<ClientAppointment>): seq<Bar> {
    seq(3, i requires 0 <= i < 3 => Bar(STATUS_ORDER[i], CountStatus(apps, STATUS_ORDER[i])))
  }

  /** The status bars name the three statuses in order, each counting the
      appointments with it; when every appointment has one of them, the
      bars add up to the number of appointments. */
  lemma StatusDataCounts(apps: seq<ClientAppointment>)
    ensures |StatusData(apps)| == 3
    ensures StatusData(apps)[0] == Bar(COMPLETED, multiset(Statuses(apps))[COMPLETED])
    ensures StatusData(apps)[1] == Bar(CANCELLED, multiset(Statuses(apps))[CANCELLED])
    ensures StatusData(apps)[2] == Bar(PENDING, multiset(Statuses(apps))[PENDING])
    ensures (forall i :: 0 <= i < |apps| ==> IsAppointmentStatus(apps[i].status)) ==>
      StatusData(apps)[0].value + StatusData(apps)[1].value + StatusData(apps)[2].value == |apps|
  {
    CountStatusOccurrences(apps, COMPLETED);
    CountStatusOccurrences(apps, CANCELLED);
    CountStatusOccurrences(apps, PENDING);
    if forall i :: 0 <= i < |apps| ==> IsAppointmentStatus(apps[i].status) {
      ThreeStatuses(apps);
    }
  }

  lemma {:induction false} ThreeStatuses(apps: seq<ClientAppointment>)
    requires forall i :: 0 <= i < |apps| ==> IsAppointmentStatus(apps[i].status)
    ensures CountStatus(apps, COMPLETED) + CountStatus(apps, CANCELLED) + CountStatus(apps, PENDING) == |apps|
  {
    if apps != [] {
      ThreeStatuses(apps[..|apps| - 1]);
    }
  }

  /** `timeSlotData`: the reduce into a count per time slot. */
  function TimeSlotData(apps: seq<ClientAppointment>): Assoc<string> {
    Count(Slots(apps))
  }

  /** Every appointment is counted once, under its own slot. */
  lemma TimeSlotTotals(apps: seq<ClientAppointment>, slot: string)
    ensures Sum(TimeSlotData(apps)) == |apps|
    ensures Get(TimeSlotData(apps), slot) == multiset(Slots(apps))[slot]
    ensures DistinctKeys(TimeSlotData(apps))
    ensures slot in Keys(TimeSlotData(apps)) <==> exists i :: 0 <= i < |apps| && apps[i].timeSlot == slot
  {
    CountSum(Slots(apps));
    CountGet(Slots(apps), slot);
    CountKeys(Slots(apps), slot);
    if slot in Slots(apps) {
      var i :| 0 <= i < |apps| && Slots(apps)[i] == slot;
    }
  }

  /** `Object.entries(t).map(([name, value]) => ({ name, value }))`. */
  function Entries(t: Assoc<string>): (r: seq<Bar>)
    ensures |r| == |t|
    ensures forall i :: 0 <= i < |t| ==> r[i] == Bar(t[i].0, t[i].1)
  {
    seq(|t|, i requires 0 <= i < |t| => Bar(t[i].0, t[i].1))
  }

  function PieData(apps: seq<ClientAppointment>): seq<Bar> {
    Entries(TimeSlotData(apps))
  }

  /** The pie has one slice per distinct time slot, sized by its count. */
  lemma PieDataSlices(apps: seq<ClientAppointment>, slot: string)
    ensures forall i, j :: 0 <= i < j < |PieData(apps)| ==> PieData(apps)[i].name != PieData(apps)[j].name
    ensures (exists i :: 0 <= i < |PieData(apps)| && PieData(apps)[i].name == slot) <==> slot in Slots(apps)
    ensures forall i :: 0 <= i < |PieData(apps)| && PieData(apps)[i].name == slot ==>
      PieData(apps)[i].value == multiset(Slots(apps))[slot]
  {
    var t := TimeSlotData(apps);
    CountKeys(Slots(apps), slot);
    CountGet(Slots(apps), slot);
    if slot in Keys(t) {
      var i :| 0 <= i < |t| && Keys(t)[i] == slot;
      assert PieData(apps)[i].name == slot;
    }
    forall i | 0 <= i < |t| && t[i].0 == slot
      ensures t[i].1 == Get(t, slot)
    {
      GetAt(t, i);
    }
  }

  /** In a table whose keys are distinct, `Get` reads the entry holding the key. */
  lemma {:induction false} GetAt(t: Assoc<string>, i: nat)
    requires DistinctKeys(t) && i < |t|
    ensures Get(t, t[i].0) == t[i].1
  {
    if i > 0 {
      assert DistinctKeys(t[1..]) by {
        forall a, b | 0 <= a < b < |t[1..]| ensures t[1..][a].0 != t[1..][b].0 {
          assert t[1..][a] == t[a + 1] && t[1..][b] == t[b + 1];
        }
      }
      GetAt(t[1..], i - 1);
      assert t[1..][i - 1] == t[i];
    }
  }

  /** The completed appointments, in list order. */
  function CompletedOnes(apps: seq<ClientAppointment>): (r: seq<ClientAppointment>)
    ensures |r| == CountStatus(apps, COMPLETED)
    ensures forall a :: a in r <==> a in apps && a.status == COMPLETED
  {
    if apps == [] then []
    else
      var n := |apps| - 1;
      CompletedOnes(apps[..n]) + (if apps[n].status == COMPLETED then [apps[n]] else [])
  }

  /** `revenueData`: a point of 100 per completed appointment, dated by it. */
  function RevenueData(apps: seq<ClientAppointment>, dayLabel: Date -> string): seq<RevenuePoint> {
    var done := CompletedOnes(apps);
    seq(|done|, i requires 0 <= i < |done| => RevenuePoint(dayLabel(done[i].date), REVENUE_PER_APPOINTMENT))
  }

  function Revenues(points: seq<RevenuePoint>): int {
    if points == [] then 0 else Revenues(points[..|points| - 1]) + points[|points| - 1].revenue
  }

  /** One point per completed appointment, in list order, adding up to 100
      per completed appointment. */
  lemma RevenueDataPoints(apps: seq<ClientAppointment>, dayLabel: Date -> string)
    ensures |RevenueData(apps, dayLabel)| == CountStatus(apps, COMPLETED)
    ensures forall i :: 0 <= i < |RevenueData(apps, dayLabel)| ==>
      RevenueData(apps, dayLabel)[i].date == dayLabel(CompletedOnes(apps)[i].date)
    ensures Revenues(RevenueData(apps, dayLabel)) == REVENUE_PER_APPOINTMENT * CountStatus(apps, COMPLETED)
  {
    FlatRevenues(RevenueData(apps, dayLabel));
  }

  lemma {:induction false} FlatRevenues(points: seq<RevenuePoint>)
    requires forall i :: 0 <= i < |points| ==> points[i].revenue == REVENUE_PER_APPOINTMENT
    ensures Revenues(points) == REVENUE_PER_APPOINTMENT * |points|
  {
    if points != [] {
      FlatRevenues(points[..|points| - 1]);
    }
  }

  // ---------------------------------------------------------------------
  // Accept / Reject

  datatype Action = Action(caption: string, status: string)

  /** The buttons of an appointment's row. */
  function Actions(a: ClientAppointment): (r: seq<Action>)
    ensures r != [] <==> a.status == PENDING
    ensures forall i :: 0 <= i < |r| ==> r[i].status == COMPLETED || r[i].status == CANCELLED
  {
    if a.status == PENDING then [Action("Accept", COMPLETED), Action("Reject", CANCELLED)] else []
  }

  /** Every action sends a status the server's status route accepts: the
      update gets past the 400 check for any doctor it reaches. */
  lemma ActionsPassStatusCheck(t: Store.Tables, userId: Id, appointmentId: Id, a: ClientAppointment, k: nat)
    requires k < |Actions(a)|
    ensures DocRoutes.UpdateStatus(t, userId, appointmentId, Actions(a)[k].status).0
            != DocRoutes.Error(400, DocRoutes.INVALID_STATUS)
  {
  }

  // ---------------------------------------------------------------------
  // The request URL

  /** The query string: the period, then the custom range when it applies. */
  function Query(period: string, startDate: string, endDate: string): string {
    "period=" + period
      + (if period == DocRoutes.CUSTOM && startDate != "" && endDate != "" then
           "&startDate=" + startDate + "&endDate=" + endDate
         else "")
  }

  function PeriodUrl(base: string, period: string, startDate: string, endDate: string): string {
    base + "?" + Query(period, startDate, endDate)
  }

  /** Read back, the query holds the period, and the two dates exactly when
      the period is custom and both are set. */
  lemma QueryParams(period: string, startDate: string, endDate: string)
    requires '&' !in period && '&' !in startDate && '&' !in endDate
    ensures Split(Query(period, startDate, endDate), '&') ==
      ["period=" + period]
      + (if period == DocRoutes.CUSTOM && startDate != "" && endDate != "" then
           ["startDate=" + startDate, "endDate=" + endDate]
         else [])
  {
    if period == DocRoutes.CUSTOM && startDate != "" && endDate != "" {
      CustomQuerySplit(period, startDate, endDate);
    } else {
      var p := "period=" + period;
      assert '&' !in p;
      assert Query(period, startDate, endDate) == p;
      SplitWithoutSeparator(p, '&');
    }
  }

  lemma CustomQuerySplit(period: string, startDate: string, endDate: string)
    requires '&' !in period && '&' !in startDate && '&' !in endDate
    requires period == DocRoutes.CUSTOM && startDate != "" && endDate != ""
    ensures Split(Query(period, startDate, endDate), '&') ==
      ["period=" + period, "startDate=" + startDate, "endDate=" + endDate]
  {
    var p, s, e := "period=" + period, "startDate=" + startDate, "endDate=" + endDate;
    assert '&' !in p && '&' !in s && '&' !in e;
    var tail := "&startDate=" + startDate + "&endDate=" + endDate;
    assert Query(period, startDate, endDate) == p + tail;
    assert "&startDate=" + startDate == ['&'] + s;
    assert "&endDate=" + endDate == ['&'] + e;
    assert tail == (['&'] + s) + (['&'] + e);
    assert tail == ['&'] + (s + ['&'] + e);
    assert p + tail == p + ['&'] + (s + ['&'] + e);
    SplitWithoutSeparator(e, '&');
    SplitAfterPiece(s, '&', e);
    SplitAfterPiece(p, '&', s + ['&'] + e);
  }

  // ---------------------------------------------------------------------
  // CSV export

  /** `row.join(",")` for every row, the lines joined by "\n"; nothing is
      quoted. */
  function Lines(rows: seq<seq<string>>): (r: seq<string>)
    ensures |r| == |rows|
    ensures forall i :: 0 <= i < |rows| ==> r[i] == Join(rows[i], ',')
  {
    seq(|rows|, i requires 0 <= i < |rows| => Join(rows[i], ','))
  }

  function Csv(rows: seq<seq<string>>): string {
    Join(Lines(rows), '\n')
  }

  predicate Plain(field: string) {
    ',' !in field && '\n' !in field
  }

  /** A row with at least one field, none holding a comma or line break. */
  predicate PlainRow(row: seq<string>) {
    |row| >= 1 && forall j :: 0 <= j < |row| ==> Plain(row[j])
  }

  /** When no field holds a comma or a line break, the CSV reads back as its
      rows: one line per row, one field per column. */
  lemma CsvRoundTrip(rows: seq<seq<string>>)
    requires |rows| >= 1
    requires forall i :: 0 <= i < |rows| ==> PlainRow(rows[i])
    ensures Split(Csv(rows), '\n') == Lines(rows)
    ensures forall i :: 0 <= i < |rows| ==> Split(Lines(rows)[i], ',') == rows[i]
  {
    forall i | 0 <= i < |rows|
      ensures '\n' !in Lines(rows)[i]
      ensures Split(Lines(rows)[i], ',') == rows[i]
    {
      JoinKeepsOut(rows[i], ',', '\n');
      SplitJoin(rows[i], ',');
    }
    SplitJoin(Lines(rows), '\n');
  }

  /** A header line followed by one line per row: the CSV splits into the
      header's line and then the rows, each back into its fields. */
  lemma CsvWithHeader(header: seq<string>, body: seq<seq<string>>)
    requires PlainRow(header)
    requires forall i :: 0 <= i < |body| ==> PlainRow(body[i])
    ensures |Split(Csv([header] + body), '\n')| == |body| + 1
    ensures Split(Csv([header] + body), '\n')[0] == Join(header, ',')
    ensures forall i :: 0 <= i < |body| ==> Split(Split(Csv([header] + body), '\n')[i + 1], ',') == body[i]
  {
    var rows := [header] + body;
    assert rows[0] == header;
    assert forall i :: 0 <= i < |body| ==> rows[i + 1] == body[i];
    forall i | 0 <= i < |rows| ensures PlainRow(rows[i]) {
      if i > 0 {
        assert rows[(i - 1) + 1] == body[i - 1];
      }
    }
    CsvRoundTrip(rows);
    var lines := Lines(rows);
    assert lines[0] == Join(header, ',');
    forall i | 0 <= i < |body|
      ensures Split(lines[i + 1], ',') == body[i]
    {
      assert Split(lines[i + 1], ',') == rows[i + 1];
    }
  }

  /** A dashboard CSV line: patient (or "Unknown"), date, slot, status. */
  function AppointmentRow(a: ClientAppointment, dayLabel: Date -> string): (row: seq<string>)
    ensures |row| == |APPOINTMENT_HEADER|
    ensures a.patientName.Some? && a.patientName.value != "" ==> row[0] == a.patientName.value
    ensures a.patientName.None? || a.patientName.value == "" ==> row[0] == UNKNOWN
    ensures row[1] == dayLabel(a.date) && row[2] == a.timeSlot && row[3] == a.status
  {
    [OrElse(a.patientName, UNKNOWN), dayLabel(a.date), a.timeSlot, a.status]
  }

  function AppointmentRows(apps: seq<ClientAppointment>, dayLabel: Date -> string): (rows: seq<seq<string>>)
    ensures |rows| == |apps|
    ensures forall i :: 0 <= i < |apps| ==> rows[i] == AppointmentRow(apps[i], dayLabel)
  {
    seq(|apps|, i requires 0 <= i < |apps| => AppointmentRow(apps[i], dayLabel))
  }

  function AppointmentCsv(apps: seq<ClientAppointment>, dayLabel: Date -> string): string {
    Csv([APPOINTMENT_HEADER] + AppointmentRows(apps, dayLabel))
  }

  /** The export is the header line and one four-field line per
      appointment, when no field holds a comma or line break. */
  lemma AppointmentCsvShape(apps: seq<ClientAppointment>, dayLabel: Date -> string)
    requires forall i :: 0 <= i < |apps| ==> PlainRow(AppointmentRow(apps[i], dayLabel))
    ensures |Split(AppointmentCsv(apps, dayLabel), '\n')| == |apps| + 1
    ensures Split(AppointmentCsv(apps, dayLabel), '\n')[0] == "Patient,Date,Time,Status"
    ensures forall i :: 0 <= i < |apps| ==>
      Split(Split(AppointmentCsv(apps, dayLabel), '\n')[i + 1], ',') == AppointmentRow(apps[i], dayLabel)
  {
    var body := AppointmentRows(apps, dayLabel);
    assert PlainRow(APPOINTMENT_HEADER);
    CsvWithHeader(APPOINTMENT_HEADER, body);
    HeaderLine();
  }

  lemma HeaderLine()
    ensures Join(APPOINTMENT_HEADER, ',') == "Patient,Date,Time,Status"
  {
    assert Join(APPOINTMENT_HEADER[3..], ',') == "Status";
    assert Join(APPOINTMENT_HEADER[2..], ',') == "Time,Status";
    assert Join(APPOINTMENT_HEADER[1..], ',') == "Date,Time,Status";
  }

  /** Without quoting, a comma in a patient's name shifts the columns: the
      line reads back as five fields. */
  lemma CommaInNameShiftsColumns(a: ClientAppointment, dayLabel: Date -> string, first: string, last: string)
    requires a.patientName == Some(first + "," + last)
    requires Plain(first) && Plain(last) && Plain(dayLabel(a.date)) && Plain(a.timeSlot) && Plain(a.status)
    ensures |Split(Join(AppointmentRow(a, dayLabel), ','), ',')| == 5
  {
    var row := AppointmentRow(a, dayLabel);
    var five := [first, last, dayLabel(a.date), a.timeSlot, a.status];
    assert row[0] == first + [','] + last;
    assert Join(row, ',') == Join(five, ',');
    SplitJoin(five, ',');
  }
}
