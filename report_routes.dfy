/** The site-wide report, server/routes/reportRoutes.js: the appointments,
    payments and reviews created in an optional date range, counted per
    day, per month and per week of their creation. `groupData` reads only
    an item's `createdAt`, so the items are given by their creation times.
    The calendar readings of an instant are a `Clock`. */
module ReportRoutes {
  import opened Wrappers
  import opened Models
  import opened Store
  import opened Tally
  import opened Strings

  const INVALID_DATE := "Invalid date format. Please use YYYY-MM-DD."

  /** `toISOString().split("T")[0]`, `getFullYear()`, `getMonth()` (0 for
      January) and `getWeekNumber`, read off an instant. */
  datatype Clock = Clock(isoDay: Date -> string, year: Date -> int, month: Date -> int, week: Date -> int)

  /** `${year}-${month + 1}`. */
  function MonthKey(c: Clock, d: Date): string {
    IntToString(c.year(d)) + "-" + IntToString(c.month(d) + 1)
  }

  /** `${year}-${getWeekNumber(date)}`. */
  function WeekKey(c: Clock, d: Date): string {
    IntToString(c.year(d)) + "-" + IntToString(c.week(d))
  }

  /** The three distributions; each map is created on the first counted
      item, so a report that counts nothing is the empty object. */
  datatype Grouped = Grouped(dateWise: Option<Assoc<string>>, monthWise: Option<Assoc<string>>, weekWise: Option<Assoc<string>>)

  const EMPTY := Grouped(None, None, None)

  /** The instants with `lo <= d <= hi`, in order. */
  function Counted(dates: seq<Date>, lo: int, hi: int): (r: seq<Date>)
    ensures forall d :: d in r <==> d in dates && lo <= d <= hi
    ensures |r| <= |dates|
  {
    if dates == [] then []
    else
      var d := dates[|dates| - 1];
      Counted(dates[..|dates| - 1], lo, hi) + (if lo <= d <= hi then [d] else [])
  }

  function DayKeys(c: Clock, ds: seq<Date>): (ks: seq<string>)
    ensures |ks| == |ds| && forall i :: 0 <= i < |ds| ==> ks[i] == c.isoDay(ds[i])
  {
    seq(|ds|, i requires 0 <= i < |ds| => c.isoDay(ds[i]))
  }

  function MonthKeys(c: Clock, ds: seq<Date>): (ks: seq<string>)
    ensures |ks| == |ds| && forall i :: 0 <= i < |ds| ==> ks[i] == MonthKey(c, ds[i])
  {
    seq(|ds|, i requires 0 <= i < |ds| => MonthKey(c, ds[i]))
  }

  function WeekKeys(c: Clock, ds: seq<Date>): (ks: seq<string>)
    ensures |ks| == |ds| && forall i :: 0 <= i < |ds| ==> ks[i] == WeekKey(c, ds[i])
  {
    seq(|ds|, i requires 0 <= i < |ds| => WeekKey(c, ds[i]))
  }

  /** The distributions of a list of counted instants. */
  function Tallies(ds: seq<Date>, c: Clock): Grouped {
    if ds == [] then EMPTY
    else Grouped(Some(Count(DayKeys(c, ds))), Some(Count(MonthKeys(c, ds))), Some(Count(WeekKeys(c, ds))))
  }

  /** What `groupData(data, startDate, endDate)` returns. A null bound
      compares as 0. */
  function GroupDataOf(dates: seq<Date>, start: Option<Date>, end: Option<Date>, c: Clock): Grouped {
    Tallies(Counted(dates, start.GetOr(0), end.GetOr(0)), c)
  }

  /** The `reduce` of `groupData`, updating the accumulator's maps in place. */
  method GroupData(dates: seq<Date>, start: Option<Date>, end: Option<Date>, c: Clock) returns (acc: Grouped)
    ensures acc == GroupDataOf(dates, start, end, c)
  {
    acc := EMPTY;
    var i := 0;
    while i < |dates|
      invariant 0 <= i <= |dates|
      invariant acc == GroupDataOf(dates[..i], start, end, c)
    {
      var date := dates[i];
      GroupDataStep(dates, i, start, end, c);
      if !(date < start.GetOr(0) || date > end.GetOr(0)) {
        var dateKey := c.isoDay(date);
        var monthKey := MonthKey(c, date);
        var weekKey := WeekKey(c, date);
        if acc.dateWise.None? {
          acc := acc.(dateWise := Some([]));
        }
        acc := acc.(dateWise := Some(Bump(acc.dateWise.value, dateKey, 1)));
        if acc.monthWise.None? {
          acc := acc.(monthWise := Some([]));
        }
        acc := acc.(monthWise := Some(Bump(acc.monthWise.value, monthKey, 1)));
        if acc.weekWise.None? {
          acc := acc.(weekWise := Some([]));
        }
        acc := acc.(weekWise := Some(Bump(acc.weekWise.value, weekKey, 1)));
      }
      i := i + 1;
    }
    assert dates[..|dates|] == dates;
  }

  lemma GroupDataStep(dates: seq<Date>, i: nat, start: Option<Date>, end: Option<Date>, c: Clock)
    requires i < |dates|
    ensures var d := dates[i];
      var g := GroupDataOf(dates[..i], start, end, c);
      GroupDataOf(dates[..i + 1], start, end, c) ==
        if d < start.GetOr(0) || d > end.GetOr(0) then g
        else Grouped(Some(Bump(g.dateWise.GetOr([]), c.isoDay(d), 1)),
                     Some(Bump(g.monthWise.GetOr([]), MonthKey(c, d), 1)),
                     Some(Bump(g.weekWise.GetOr([]), WeekKey(c, d), 1)))
  {
    var d, lo, hi := dates[i], start.GetOr(0), end.GetOr(0);
    assert dates[..i + 1] == dates[..i] + [d];
    CountedSnoc(dates[..i], d, lo, hi);
    if lo <= d <= hi {
      TalliesSnoc(Counted(dates[..i], lo, hi), d, c);
    } else {
      var before := Counted(dates[..i], lo, hi);
      assert before + [] == before;
      assert Counted(dates[..i + 1], lo, hi) == before;
    }
  }

  lemma CountedSnoc(dates: seq<Date>, d: Date, lo: int, hi: int)
    ensures Counted(dates + [d], lo, hi) == Counted(dates, lo, hi) + (if lo <= d <= hi then [d] else [])
  {
    assert (dates + [d])[..|dates|] == dates;
  }

  lemma TalliesSnoc(ds: seq<Date>, d: Date, c: Clock)
    ensures var g := Tallies(ds, c);
      Tallies(ds + [d], c) ==
        Grouped(Some(Bump(g.dateWise.GetOr([]), c.isoDay(d), 1)),
                Some(Bump(g.monthWise.GetOr([]), MonthKey(c, d), 1)),
                Some(Bump(g.weekWise.GetOr([]), WeekKey(c, d), 1)))
  {
    assert DayKeys(c, ds + [d]) == DayKeys(c, ds) + [c.isoDay(d)];
    assert MonthKeys(c, ds + [d]) == MonthKeys(c, ds) + [MonthKey(c, d)];
    assert WeekKeys(c, ds + [d]) == WeekKeys(c, ds) + [WeekKey(c, d)];
    CountSnoc(DayKeys(c, ds), c.isoDay(d));
    CountSnoc(MonthKeys(c, ds), MonthKey(c, d));
    CountSnoc(WeekKeys(c, ds), WeekKey(c, d));
  }

  /** A report counts nothing exactly when it is the empty object, and
      otherwise each of its three maps adds up to the number of counted
      items, every counted item lying inside both bounds. */
  lemma TalliesConserve(ds: seq<Date>, c: Clock)
    ensures var g := Tallies(ds, c);
      && (g == EMPTY <==> ds == [])
      && (g.dateWise.Some? ==> Sum(g.dateWise.value) == |ds|)
      && (g.monthWise.Some? ==> Sum(g.monthWise.value) == |ds|)
      && (g.weekWise.Some? ==> Sum(g.weekWise.value) == |ds|)
  {
    CountSum(DayKeys(c, ds));
    CountSum(MonthKeys(c, ds));
    CountSum(WeekKeys(c, ds));
  }

  /** A day key is in the date-wise map exactly when some counted item
      falls on that day; bounds are inclusive at both ends. */
  lemma GroupDataKeys(dates: seq<Date>, start: Date, end: Date, c: Clock, day: string)
    ensures var g := GroupDataOf(dates, Some(start), Some(end), c);
      g.dateWise.Some? ==>
        (day in Keys(g.dateWise.value) <==> exists d :: d in dates && start <= d <= end && c.isoDay(d) == day)
  {
    var ds := Counted(dates, start, end);
    var ks := DayKeys(c, ds);
    CountKeys(ks, day);
    DayKeysCover(c, ds, day);
    if exists d :: d in dates && start <= d <= end && c.isoDay(d) == day {
      var d :| d in dates && start <= d <= end && c.isoDay(d) == day;
      assert d in ds;
    }
  }

  /** A day is among the day keys exactly when one of the instants falls on it. */
  lemma DayKeysCover(c: Clock, ds: seq<Date>, day: string)
    ensures day in DayKeys(c, ds) <==> exists d :: d in ds && c.isoDay(d) == day
  {
    var ks := DayKeys(c, ds);
    if day in ks {
      var i :| 0 <= i < |ks| && ks[i] == day;
      assert ds[i] in ds;
    }
    if exists d :: d in ds && c.isoDay(d) == day {
      var d :| d in ds && c.isoDay(d) == day;
      var i :| 0 <= i < |ds| && ds[i] == d;
      assert ks[i] == day;
    }
  }

  /** For a year from 0 on and a month from `getMonth`, the month key is the
      year's digits, a dash and the month number 1 to 12 without padding. */
  lemma MonthKeyShape(c: Clock, d: Date)
    requires c.year(d) >= 0 && 0 <= c.month(d) <= 11
    ensures var parts := Split(MonthKey(c, d), '-');
      && parts == [NatToString(c.year(d)), NatToString(c.month(d) + 1)]
      && ParseNat(parts[1]) == Some(c.month(d) + 1)
      && (c.month(d) < 9 ==> |parts[1]| == 1)
  {
    var y, m := NatToString(c.year(d)), NatToString(c.month(d) + 1);
    assert MonthKey(c, d) == Join([y, m], '-');
    assert '-' !in y && '-' !in m by {
      assert !IsDigit('-');
    }
    SplitJoin([y, m], '-');
    ParseNatToString(c.month(d) + 1);
  }

  // ---------------------------------------------------------------------
  // The route

  datatype Response =
    | Report(totalAppointments: nat, totalPayments: nat, totalReviews: nat,
             appointments: Grouped, payments: Grouped, reviews: Grouped)
    | Error(status: nat, message: string)

  /** A query value that is present and not empty. */
  predicate Given(s: Option<string>) {
    s.Some? && s.value != ""
  }

  function AppointmentTimes(apps: seq<Appointment>): (r: seq<Date>)
    ensures |r| == |apps| && forall i :: 0 <= i < |apps| ==> r[i] == apps[i].createdAt
  {
    seq(|apps|, i requires 0 <= i < |apps| => apps[i].createdAt)
  }

  function PaymentTimes(payments: seq<Payment>): (r: seq<Date>)
    ensures |r| == |payments| && forall i :: 0 <= i < |payments| ==> r[i] == payments[i].createdAt
  {
    seq(|payments|, i requires 0 <= i < |payments| => payments[i].createdAt)
  }

  function ReviewTimes(reviews: seq<Review>): (r: seq<Date>)
    ensures |r| == |reviews| && forall i :: 0 <= i < |reviews| ==> r[i] == reviews[i].createdAt
  {
    seq(|reviews|, i requires 0 <= i < |reviews| => reviews[i].createdAt)
  }

  /** `Model.find(start && end ? { createdAt: { $gte: start, $lte: end } } : {})`. */
  function Fetch(dates: seq<Date>, start: Option<Date>, end: Option<Date>): seq<Date> {
    if start.Some? && end.Some? then Counted(dates, start.value, end.value) else dates
  }

  function Build(t: Tables, start: Option<Date>, end: Option<Date>, c: Clock): Response {
    var apps := Fetch(AppointmentTimes(t.appointments), start, end);
    var payments := Fetch(PaymentTimes(t.payments), start, end);
    var reviews := Fetch(ReviewTimes(t.reviews), start, end);
    Report(|apps|, |payments|, |reviews|,
           GroupDataOf(apps, start, end, c), GroupDataOf(payments, start, end, c), GroupDataOf(reviews, start, end, c))
  }

  /** GET /: without both dates both bounds are null; with both, each must
      parse (`parse` is `new Date(s)`, None for an invalid date). */
  function GenerateReport(t: Tables, startDate: Option<string>, endDate: Option<string>,
                          parse: string -> Option<Date>, c: Clock): Response
  {
    if !Given(startDate) || !Given(endDate) then Build(t, None, None, c)
    else
      match (parse(startDate.value), parse(endDate.value))
      case (Some(s), Some(e)) => Build(t, Some(s), Some(e), c)
      case _ => Error(400, INVALID_DATE)
  }

  lemma {:induction false} CountedTwice(dates: seq<Date>, lo: int, hi: int)
    ensures Counted(Counted(dates, lo, hi), lo, hi) == Counted(dates, lo, hi)
  {
    if dates != [] {
      var n := |dates| - 1;
      var d := dates[n];
      var once := Counted(dates[..n], lo, hi);
      CountedTwice(dates[..n], lo, hi);
      assert dates == dates[..n] + [d];
      CountedSnoc(dates[..n], d, lo, hi);
      if lo <= d <= hi {
        CountedSnoc(once, d, lo, hi);
        assert Counted(dates, lo, hi) == once + [d];
      } else {
        assert once + [] == once;
        assert Counted(dates, lo, hi) == once;
      }
    }
  }

  lemma {:induction false} CountedNone(dates: seq<Date>, lo: int, hi: int)
    requires forall i :: 0 <= i < |dates| ==> !(lo <= dates[i] <= hi)
    ensures Counted(dates, lo, hi) == []
  {
    if dates != [] {
      CountedNone(dates[..|dates| - 1], lo, hi);
    }
  }

  /** 400 exactly when both dates are given and one does not parse; with a
      parsed range each total counts the records created inside it, and
      each map of the detailed report adds up to that total. */
  lemma RangedReport(t: Tables, startDate: Option<string>, endDate: Option<string>,
                     parse: string -> Option<Date>, c: Clock)
    ensures var r := GenerateReport(t, startDate, endDate, parse, c);
      && (r.Error? <==> Given(startDate) && Given(endDate) &&
                        (parse(startDate.value).None? || parse(endDate.value).None?))
      && (r.Error? ==> r == Error(400, INVALID_DATE))
      && (r.Report? && Given(startDate) && Given(endDate) ==>
            var s, e := parse(startDate.value).value, parse(endDate.value).value;
            && r.totalAppointments == |Counted(AppointmentTimes(t.appointments), s, e)|
            && r.totalReviews == |Counted(ReviewTimes(t.reviews), s, e)|
            && (r.appointments == EMPTY <==> r.totalAppointments == 0)
            && (r.appointments.dateWise.Some? ==> Sum(r.appointments.dateWise.value) == r.totalAppointments)
            && (r.payments.dateWise.Some? ==> Sum(r.payments.dateWise.value) == r.totalPayments)
            && (r.reviews.dateWise.Some? ==> Sum(r.reviews.dateWise.value) == r.totalReviews))
  {
    if Given(startDate) && Given(endDate) && parse(startDate.value).Some? && parse(endDate.value).Some? {
      var s, e := parse(startDate.value).value, parse(endDate.value).value;
      var apps := Counted(AppointmentTimes(t.appointments), s, e);
      var payments := Counted(PaymentTimes(t.payments), s, e);
      var reviews := Counted(ReviewTimes(t.reviews), s, e);
      CountedTwice(AppointmentTimes(t.appointments), s, e);
      CountedTwice(PaymentTimes(t.payments), s, e);
      CountedTwice(ReviewTimes(t.reviews), s, e);
      TalliesConserve(apps, c);
      TalliesConserve(payments, c);
      TalliesConserve(reviews, c);
    }
  }

  /** As written, a report without dates counts every record in its summary
      but compares each creation time with null bounds, which read as 0, so
      only a record created at the epoch itself reaches the detailed report. */
  lemma LifetimeDetailIsEmpty(t: Tables, startDate: Option<string>, endDate: Option<string>,
                              parse: string -> Option<Date>, c: Clock)
    requires !Given(startDate) || !Given(endDate)
    requires forall i :: 0 <= i < |t.appointments| ==> t.appointments[i].createdAt != 0
    requires forall i :: 0 <= i < |t.payments| ==> t.payments[i].createdAt != 0
    requires forall i :: 0 <= i < |t.reviews| ==> t.reviews[i].createdAt != 0
    ensures GenerateReport(t, startDate, endDate, parse, c) ==
      Report(|t.appointments|, |t.payments|, |t.reviews|, EMPTY, EMPTY, EMPTY)
  {
    CountedNone(AppointmentTimes(t.appointments), 0, 0);
    CountedNone(PaymentTimes(t.payments), 0, 0);
    CountedNone(ReviewTimes(t.reviews), 0, 0);
  }

  /** The detail as the "lifetime report" comment intends it: without both
      bounds nothing is skipped. */
  function GroupDataCorrected(dates: seq<Date>, start: Option<Date>, end: Option<Date>, c: Clock): Grouped {
    if start.Some? && end.Some? then GroupDataOf(dates, start, end, c) else Tallies(dates, c)
  }

  /** Corrected, a lifetime report's maps each add up to the number of
      records, like its summary. */
  lemma LifetimeDetailCorrected(dates: seq<Date>, c: Clock)
    ensures var g := GroupDataCorrected(dates, None, None, c);
      && (g == EMPTY <==> dates == [])
      && (g.dateWise.Some? ==> Sum(g.dateWise.value) == |dates|)
      && (g.monthWise.Some? ==> Sum(g.monthWise.value) == |dates|)
      && (g.weekWise.Some? ==> Sum(g.weekWise.value) == |dates|)
  {
    TalliesConserve(dates, c);
  }
}
