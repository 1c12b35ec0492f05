/** The booking page, client/src/pages/BookAppointment.jsx: which weekdays
    and slots it offers for a doctor, and when its payment form tokenises
    the card and posts the booking. The weekday of a chosen date (a
    locale lookup) and the card tokeniser's answer are parameters. */
module BookAppointment {
  import opened Wrappers
  import opened Models
  import Store
  import Booking

  const API := "https://snap-hire.onrender.com/api"
  const NOT_AVAILABLE := "Photographer is not available on this day. Please select another date."
  const FILL_ALL_FIELDS := "Please fill all fields before proceeding."
  const BOOKING_FAILED := "Booking failed."

  /** `availability.map(slot => slot.day)`. */
  function AvailableDays(av: seq<DayAvailability>): (days: seq<string>)
    ensures |days| == |av|
    ensures forall i :: 0 <= i < |av| ==> days[i] == av[i].day
  {
    if av == [] then [] else [av[0].day] + AvailableDays(av[1..])
  }

  /** The page's date and slot choice after a date is picked. */
  datatype DateChoice = DateChoice(date: string, slots: seq<string>, alerted: bool)

  function DayOf(weekday: string): DayAvailability -> bool {
    (e: DayAvailability) => e.day == weekday
  }

  /** `handleDateChange`: `weekday` is the picked date's long weekday name. */
  function DateChange(availableDays: seq<string>, av: seq<DayAvailability>, picked: string, weekday: string): (c: DateChoice)
    ensures weekday !in availableDays <==> c.alerted
    ensures c.alerted ==> c.date == "" && c.slots == []
    ensures !c.alerted ==> c.date == picked
  {
    if weekday !in availableDays then DateChoice("", [], true)
    else
      match Store.FirstWhere(av, DayOf(weekday))
      case Some(i) => DateChoice(picked, av[i].timeSlots, false)
      case None => DateChoice(picked, [], false)
  }

  /** For the fetched doctor, a weekday it works gets the slots of its first
      entry for that day; the empty fallback is never taken. */
  lemma DateChangeOffersTheDaysSlots(av: seq<DayAvailability>, picked: string, weekday: string)
    ensures var c := DateChange(AvailableDays(av), av, picked, weekday);
      && (!c.alerted <==> exists i :: 0 <= i < |av| && av[i].day == weekday)
      && (!c.alerted ==> exists i :: 0 <= i < |av| && av[i].day == weekday && c.slots == av[i].timeSlots
                            && forall j :: 0 <= j < i ==> av[j].day != weekday)
  {
    var days := AvailableDays(av);
    var c := DateChange(days, av, picked, weekday);
    if weekday in days {
      var k :| 0 <= k < |days| && days[k] == weekday;
      assert DayOf(weekday)(av[k]);
      var i := Store.FirstWhere(av, DayOf(weekday)).value;
      assert DayOf(weekday)(av[i]);
      assert c.slots == av[i].timeSlots;
      forall j | 0 <= j < i ensures av[j].day != weekday {
        assert !DayOf(weekday)(av[j]);
      }
    } else {
      forall i | 0 <= i < |av| ensures av[i].day != weekday {
        assert days[i] == av[i].day;
      }
    }
  }

  /** Every slot the page offers passes the server's slot check. */
  lemma OfferedSlotsAreAccepted(av: seq<DayAvailability>, picked: string, weekday: string, slot: string)
    requires slot in DateChange(AvailableDays(av), av, picked, weekday).slots
    ensures Booking.SlotOffered(av, slot)
  {
    DateChangeOffersTheDaysSlots(av, picked, weekday);
  }

  /** `disabled={!date || availableTimeSlots.length === 0}`. */
  function SelectorDisabled(c: DateChoice): (b: bool)
    ensures b <==> c.date == "" || c.slots == []
  {
    c.date == "" || |c.slots| == 0
  }

  // ---------------------------------------------------------------------
  // The payment form

  /** What the card tokeniser answers. */
  datatype Tokenised = CardError(message: string) | PaymentMethod(id: string)

  /** `{ date, timeSlot, paymentMethodId }`. */
  datatype BookingBody = BookingBody(date: string, timeSlot: string, paymentMethodId: string)

  /** How `handlePayment` ends before the server answers. */
  datatype Submission =
    | Incomplete(error: string)                 // no card tokenised
    | Declined(error: string)                   // the tokeniser refused the card
    | Posted(url: string, body: BookingBody)

  /** The payment form's fields; the two booleans say whether the card
      library and its elements have loaded. */
  datatype PaymentForm = PaymentForm(stripeLoaded: bool, elementsLoaded: bool, doctorId: string,
                                     date: string, timeSlot: string, cardholderName: string)

  predicate Complete(f: PaymentForm) {
    f.stripeLoaded && f.elementsLoaded && f.date != "" && f.timeSlot != "" && f.cardholderName != ""
  }

  /** `handlePayment` up to the post; `card` is consulted only once the
      guard has passed, as the tokeniser is only called then. */
  function HandlePayment(f: PaymentForm, card: Tokenised): (s: Submission)
    ensures s.Incomplete? <==> !Complete(f)
    ensures s.Incomplete? ==> s.error == FILL_ALL_FIELDS
    ensures s.Declined? <==> Complete(f) && card.CardError?
    ensures s.Declined? ==> s.error == card.message
    ensures s.Posted? <==> Complete(f) && card.PaymentMethod?
    ensures s.Posted? ==> s.body.date == f.date && s.body.timeSlot == f.timeSlot
                          && s.body.paymentMethodId == card.id
                          && s.url == API + "/booking/book/" + f.doctorId
  {
    if !f.stripeLoaded || !f.elementsLoaded || f.date == "" || f.timeSlot == "" || f.cardholderName == "" then
      Incomplete(FILL_ALL_FIELDS)
    else match card
      case CardError(message) => Declined(message)
      case PaymentMethod(id) => Posted(API + "/booking/book/" + f.doctorId, BookingBody(f.date, f.timeSlot, id))
  }

  /** The server's answer as the page sees it. */
  datatype Reply = Booked(appointmentId: string) | Failed(message: Option<string>)

  datatype Screen = Navigate(path: string) | ShowError(error: string)

  /** The page after the post: the new appointment's page, or the server's
      message (`|| "Booking failed."`, so an empty one falls back too). */
  function AfterReply(r: Reply): (s: Screen)
    ensures r.Booked? <==> s.Navigate?
    ensures r.Booked? ==> s.path == "/appointment/" + r.appointmentId
    ensures r.Failed? ==> s.error == if r.message.Some? && r.message.value != "" then r.message.value else BOOKING_FAILED
    ensures s.ShowError? ==> s.error != ""
  {
    match r
    case Booked(id) => Navigate("/appointment/" + id)
    case Failed(m) => ShowError(if m.Some? && m.value != "" then m.value else BOOKING_FAILED)
  }
}
