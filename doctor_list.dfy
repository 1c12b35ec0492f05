/** The photographer directory's filter and sort pipeline,
    client/src/pages/DoctorList.jsx: the fetched doctors, narrowed by an
    optional specialization, weekday and fee range, then ordered by
    experience (high to low) or fee (low to high). An empty selection
    ("") switches a filter off. */
module DoctorList {
  import opened Wrappers
  import opened Models
  import opened Tally
  import opened Strings
  import opened Sorting

  const BY_EXPERIENCE := "experience"
  const BY_FEES := "fees"

  /** The four selects of the page. */
  datatype Filters = Filters(specialization: string, availability: string, feesRange: string, sortBy: string)

  /** `s.filter(p)`. */
  function Filter<T(!new)>(s: seq<T>, p: T -> bool): (r: seq<T>)
    ensures |r| <= |s|
    ensures forall x :: x in r <==> x in s && p(x)
  {
    if s == [] then []
    else (if p(s[0]) then [s[0]] else []) + Filter(s[1..], p)
  }

  /** Two filters in a row keep what their conjunction keeps, in order. */
  lemma {:induction false} FilterTwice<T(!new)>(s: seq<T>, p: T -> bool, q: T -> bool, both: T -> bool)
    requires forall x :: both(x) == (p(x) && q(x))
    ensures Filter(Filter(s, p), q) == Filter(s, both)
  {
    if s != [] {
      FilterTwice(s[1..], p, q, both);
      if p(s[0]) {
        assert Filter(s, p) == [s[0]] + Filter(s[1..], p);
        assert Filter(s, p)[1..] == Filter(s[1..], p);
      } else {
        assert Filter(s, p) == Filter(s[1..], p);
      }
    }
  }

  /** Filters by predicates that agree everywhere keep the same elements. */
  lemma {:induction false} FilterSame<T(!new)>(s: seq<T>, p: T -> bool, q: T -> bool)
    requires forall x :: p(x) == q(x)
    ensures Filter(s, p) == Filter(s, q)
  {
    if s != [] {
      FilterSame(s[1..], p, q);
    }
  }

  /** A filter that keeps everything changes nothing. */
  lemma {:induction false} FilterAll<T(!new)>(s: seq<T>, p: T -> bool)
    requires forall x :: p(x)
    ensures Filter(s, p) == s
  {
    if s != [] {
      FilterAll(s[1..], p);
      assert s == [s[0]] + s[1..];
    }
  }

  /** `feesRange.split("-").map(Number)`: the two bounds, or None when
      either is not a number (NaN, which no fee compares within). */
  function FeeBounds(range: string): Option<(int, int)> {
    var parts := Split(range, '-');
    if |parts| < 2 then None
    else
      match (ParseNat(parts[0]), ParseNat(parts[1]))
      case (Some(lo), Some(hi)) => Some((lo, hi))
      case _ => None
  }

  /** The options of the fee select read back as the bounds they print. */
  lemma FeeBoundsRoundTrip(lo: nat, hi: nat)
    ensures FeeBounds(NatToString(lo) + "-" + NatToString(hi)) == Some((lo, hi))
  {
    var a, b := NatToString(lo), NatToString(hi);
    assert !IsDigit('-');
    SplitAfterPiece(a, '-', b);
    SplitWithoutSeparator(b, '-');
    assert a + "-" + b == a + ['-'] + b;
    ParseNatToString(lo);
    ParseNatToString(hi);
  }

  function InFeeRange(bounds: Option<(int, int)>, d: Doctor): bool {
    bounds.Some? && bounds.value.0 <= d.feesPerSession <= bounds.value.1
  }

  predicate OffersDay(d: Doctor, day: string) {
    exists i :: 0 <= i < |d.availability| && d.availability[i].day == day
  }

  /** Whether a doctor passes every active filter. */
  predicate Passes(f: Filters, d: Doctor) {
    && (f.specialization == "" || d.specialization == f.specialization)
    && (f.availability == "" || OffersDay(d, f.availability))
    && (f.feesRange == "" || InFeeRange(FeeBounds(f.feesRange), d))
  }

  function BySpecialization(ds: seq<Doctor>, spec: string): seq<Doctor> {
    if spec == "" then ds else Filter(ds, (d: Doctor) => d.specialization == spec)
  }

  function ByDay(ds: seq<Doctor>, day: string): seq<Doctor> {
    if day == "" then ds else Filter(ds, (d: Doctor) => OffersDay(d, day))
  }

  function ByFees(ds: seq<Doctor>, range: string): seq<Doctor> {
    if range == "" then ds
    else
      var bounds := FeeBounds(range);
      Filter(ds, (d: Doctor) => InFeeRange(bounds, d))
  }

  function NegExperience(d: Doctor): int { -d.experience }
  function Fee(d: Doctor): int { d.feesPerSession }

  /** `sort((a, b) => b.experience - a.experience)` or
      `sort((a, b) => a.feesPerSession - b.feesPerSession)`; any other key
      leaves the order alone. */
  function Order(ds: seq<Doctor>, sortBy: string): seq<Doctor> {
    if sortBy == BY_EXPERIENCE then SortBy(ds, NegExperience)
    else if sortBy == BY_FEES then SortBy(ds, Fee)
    else ds
  }

  /** The list the page shows (the effect at lines 41-70). */
  function Visible(doctors: seq<Doctor>, f: Filters): seq<Doctor> {
    Order(ByFees(ByDay(BySpecialization(doctors, f.specialization), f.availability), f.feesRange), f.sortBy)
  }

  /** The three filter steps keep, in order, exactly the doctors that pass
      all active filters. */
  lemma FilterSteps(doctors: seq<Doctor>, f: Filters)
    ensures ByFees(ByDay(BySpecialization(doctors, f.specialization), f.availability), f.feesRange)
            == Filter(doctors, (d: Doctor) => Passes(f, d))
  {
    var bounds := FeeBounds(f.feesRange);
    var p1 := (d: Doctor) => f.specialization == "" || d.specialization == f.specialization;
    var p2 := (d: Doctor) => f.availability == "" || OffersDay(d, f.availability);
    var p3 := (d: Doctor) => f.feesRange == "" || InFeeRange(bounds, d);
    var p12 := (d: Doctor) => p1(d) && p2(d);
    var all := (d: Doctor) => Passes(f, d);
    var s1 := BySpecialization(doctors, f.specialization);
    var s2 := ByDay(s1, f.availability);
    var s3 := ByFees(s2, f.feesRange);
    if f.specialization == "" {
      FilterAll(doctors, p1);
    } else {
      FilterSame(doctors, (d: Doctor) => d.specialization == f.specialization, p1);
    }
    if f.availability == "" {
      FilterAll(s1, p2);
    } else {
      FilterSame(s1, (d: Doctor) => OffersDay(d, f.availability), p2);
    }
    if f.feesRange == "" {
      FilterAll(s2, p3);
    } else {
      FilterSame(s2, (d: Doctor) => InFeeRange(bounds, d), p3);
    }
    FilterTwice(doctors, p1, p2, p12);
    FilterTwice(doctors, p12, p3, all);
  }

  /** The list shown is a permutation of exactly the doctors passing every
      active filter: each of them, as often as fetched, and no other. */
  lemma VisibleIsTheMatches(doctors: seq<Doctor>, f: Filters)
    ensures multiset(Visible(doctors, f)) == multiset(Filter(doctors, (d: Doctor) => Passes(f, d)))
    ensures forall d :: d in Visible(doctors, f) <==> d in doctors && Passes(f, d)
  {
    FilterSteps(doctors, f);
    var m := Filter(doctors, (d: Doctor) => Passes(f, d));
    assert forall d :: d in Visible(doctors, f) <==> d in multiset(Visible(doctors, f));
    assert forall d :: d in m <==> d in multiset(m);
  }

  /** With no filter and no sort key the fetched list is shown as it came. */
  lemma NoSelectionShowsAll(doctors: seq<Doctor>, sortBy: string)
    requires sortBy != BY_EXPERIENCE && sortBy != BY_FEES
    ensures Visible(doctors, Filters("", "", "", sortBy)) == doctors
  {
  }

  /** Sorting by experience puts the most experienced first; sorting by fee
      puts the cheapest first. */
  lemma VisibleOrder(doctors: seq<Doctor>, f: Filters)
    ensures f.sortBy == BY_EXPERIENCE ==>
      forall i, j :: 0 <= i < j < |Visible(doctors, f)| ==>
        Visible(doctors, f)[i].experience >= Visible(doctors, f)[j].experience
    ensures f.sortBy == BY_FEES ==>
      forall i, j :: 0 <= i < j < |Visible(doctors, f)| ==>
        Visible(doctors, f)[i].feesPerSession <= Visible(doctors, f)[j].feesPerSession
  {
    var v := Visible(doctors, f);
    if f.sortBy == BY_EXPERIENCE {
      assert SortedBy(v, NegExperience);
      forall i, j | 0 <= i < j < |v| ensures v[i].experience >= v[j].experience {
        assert NegExperience(v[i]) <= NegExperience(v[j]);
      }
    } else if f.sortBy == BY_FEES {
      assert SortedBy(v, Fee);
      forall i, j | 0 <= i < j < |v| ensures v[i].feesPerSession <= v[j].feesPerSession {
        assert Fee(v[i]) <= Fee(v[j]);
      }
    }
  }

  /** A fee option "lo-hi" keeps fees from lo to hi, both ends included. */
  lemma FeeRangeInclusive(doctors: seq<Doctor>, spec: string, day: string, sortBy: string, lo: nat, hi: nat, d: Doctor)
    requires d in doctors && (spec == "" || d.specialization == spec) && (day == "" || OffersDay(d, day))
    ensures d in Visible(doctors, Filters(spec, day, NatToString(lo) + "-" + NatToString(hi), sortBy))
            <==> lo <= d.feesPerSession <= hi
  {
    var f := Filters(spec, day, NatToString(lo) + "-" + NatToString(hi), sortBy);
    FeeBoundsRoundTrip(lo, hi);
    VisibleIsTheMatches(doctors, f);
  }

  /** `[...new Set(doctors.map(d => d.specialization))]`: each
      specialization once, in order of first appearance. */
  function Specializations(doctors: seq<Doctor>): (r: seq<string>)
    ensures Distinct(r)
    ensures forall s :: s in r <==> exists i :: 0 <= i < |doctors| && doctors[i].specialization == s
  {
    if doctors == [] then []
    else
      var n := |doctors| - 1;
      var rest := Specializations(doctors[..n]);
      assert forall i :: 0 <= i < n ==> doctors[..n][i] == doctors[i];
      if doctors[n].specialization in rest then rest
      else
        SnocDistinct(rest, doctors[n].specialization);
        rest + [doctors[n].specialization]
  }

  lemma SnocDistinct(r: seq<string>, x: string)
    requires Distinct(r) && x !in r
    ensures Distinct(r + [x])
  {
  }
}
