/** The registration form's availability editor and submit check,
    client/src/pages/RegistrationPage.jsx. A doctor picks (day, slot) pairs;
    the form keeps them as a list of {day, timeSlots} entries, the shape
    the Doctor schema stores. The form's state is a class whose methods are
    the handlers. */
module Registration {
  import opened Wrappers
  import opened Models
  import opened Tally

  const DEFAULT_SLOTS: seq<string> := ["10:00 AM - 12:00 PM", "3:00 PM - 5:00 PM", "6:00 PM - 8:00 PM"]
  const PASSWORDS_DIFFER := "Passwords do not match"

  /** `findIndex(item => item.day === day)`. */
  function FindDay(av: seq<DayAvailability>, day: string): (r: int)
    ensures -1 <= r < |av|
    ensures r >= 0 ==> av[r].day == day && forall j :: 0 <= j < r ==> av[j].day != day
    ensures r == -1 ==> forall j :: 0 <= j < |av| ==> av[j].day != day
  {
    if av == [] then -1
    else if av[0].day == day then 0
    else
      var r := FindDay(av[1..], day);
      if r == -1 then -1 else r + 1
  }

  /** `slots.filter(s => s !== slot)`. */
  function Without(slots: seq<string>, slot: string): (r: seq<string>)
    ensures forall x :: x in r <==> x in slots && x != slot
    ensures Distinct(slots) ==> Distinct(r)
  {
    if slots == [] then []
    else
      var rest := Without(slots[1..], slot);
      if slots[0] == slot then rest
      else
        assert Distinct(slots) ==> slots[0] !in slots[1..];
        ConsDistinct(slots[0], rest);
        [slots[0]] + rest
  }

  lemma ConsDistinct(x: string, r: seq<string>)
    ensures Distinct(r) && x !in r ==> Distinct([x] + r)
  {
    if Distinct(r) && x !in r {
      forall i, j | 0 <= i < j < |[x] + r|
        ensures ([x] + r)[i] != ([x] + r)[j]
      {
        if i == 0 {
          assert r[j - 1] in r;
        }
      }
    }
  }

  /** The availability after `handleAvailabilityChange(day, slot)`. */
  function Toggle(av: seq<DayAvailability>, day: string, slot: string): seq<DayAvailability> {
    var i := FindDay(av, day);
    if i == -1 then av + [DayAvailability(day, [slot])]
    else if slot in av[i].timeSlots then
      var rest := Without(av[i].timeSlots, slot);
      if rest == [] then av[..i] + av[i + 1..] else av[i := av[i].(timeSlots := rest)]
    else av[i := av[i].(timeSlots := av[i].timeSlots + [slot])]
  }

  /** Each day has at most one entry, and no entry is empty or repeats a
      slot: what the editor keeps, starting from no entries. */
  predicate WellFormed(av: seq<DayAvailability>) {
    && (forall i, j :: 0 <= i < j < |av| ==> av[i].day != av[j].day)
    && (forall i :: 0 <= i < |av| ==> av[i].timeSlots != [] && Distinct(av[i].timeSlots))
  }

  predicate Offers(e: DayAvailability, day: string, slot: string) {
    e.day == day && slot in e.timeSlots
  }

  /** Whether `slot` is selected for `day`. */
  predicate Selected(av: seq<DayAvailability>, day: string, slot: string) {
    exists i :: 0 <= i < |av| && Offers(av[i], day, slot)
  }

  class RegistrationForm {
    var availability: seq<DayAvailability>
    var timeSlots: seq<string>

    constructor()
      ensures availability == [] && timeSlots == DEFAULT_SLOTS
    {
      availability := [];
      timeSlots := DEFAULT_SLOTS;
    }

    /** `handleAvailabilityChange`: a copy of the list, edited in place. */
    method ToggleAvailability(day: string, slot: string)
      modifies this
      ensures availability == Toggle(old(availability), day, slot)
      ensures timeSlots == old(timeSlots)
    {
      var updated := availability;
      var existing := -1;
      var k := 0;
      while k < |updated|
        invariant 0 <= k <= |updated|
        invariant forall j :: 0 <= j < k ==> updated[j].day != day
      {
        if updated[k].day == day {
          existing := k;
          break;
        }
        k := k + 1;
      }
      assert existing == FindDay(updated, day);
      if existing != -1 {
        if slot in updated[existing].timeSlots {
          updated := updated[existing := updated[existing].(timeSlots := Without(updated[existing].timeSlots, slot))];
          if |updated[existing].timeSlots| == 0 {
            updated := updated[..existing] + updated[existing + 1..];
          }
        } else {
          updated := updated[existing := updated[existing].(timeSlots := updated[existing].timeSlots + [slot])];
        }
      } else {
        updated := updated + [DayAvailability(day, [slot])];
      }
      availability := updated;
    }

    /** `removeTimeSlot`: the slot leaves the list of choices and every day. */
    method RemoveTimeSlot(slot: string)
      modifies this
      ensures timeSlots == Without(old(timeSlots), slot)
      ensures availability == RemoveSlot(old(availability), slot)
    {
      timeSlots := Without(timeSlots, slot);
      availability := RemoveSlot(availability, slot);
    }

    /** `addTimeSlot`, given what `prompt` returned (None when cancelled). */
    method AddTimeSlot(newSlot: Option<string>)
      modifies this
      ensures timeSlots == AddSlot(old(timeSlots), newSlot)
      ensures availability == old(availability)
    {
      if newSlot.Some? && newSlot.value != "" && newSlot.value !in timeSlots {
        timeSlots := timeSlots + [newSlot.value];
      }
    }
  }

  /** `availability.map(a => ({ ...a, timeSlots: a.timeSlots.filter(s => s !== slot) }))`. */
  function RemoveSlot(av: seq<DayAvailability>, slot: string): (r: seq<DayAvailability>)
    ensures |r| == |av|
    ensures forall i :: 0 <= i < |av| ==> r[i] == av[i].(timeSlots := Without(av[i].timeSlots, slot))
  {
    seq(|av|, i requires 0 <= i < |av| => av[i].(timeSlots := Without(av[i].timeSlots, slot)))
  }

  /** The list of choices never gains an empty slot or a duplicate, and a
      new non-empty slot ends up in it. */
  function AddSlot(slots: seq<string>, newSlot: Option<string>): (r: seq<string>)
    ensures Distinct(slots) && "" !in slots ==> Distinct(r) && "" !in r
    ensures newSlot.Some? && newSlot.value != "" ==> newSlot.value in r
    ensures forall x :: x in slots ==> x in r
    ensures |r| <= |slots| + 1
  {
    if newSlot.Some? && newSlot.value != "" && newSlot.value !in slots then slots + [newSlot.value] else slots
  }

  // ---------------------------------------------------------------------
  // What toggling does

  lemma WithoutEmpty(slots: seq<string>, slot: string)
    ensures Without(slots, slot) == [] <==> forall x :: x in slots ==> x == slot
  {
    if Without(slots, slot) != [] {
      assert Without(slots, slot)[0] in Without(slots, slot);
    }
  }

  /** A day without an entry gets a new one at the end; any other toggle
      keeps the days in place, except that an entry emptied of its last
      slot is removed. */
  lemma ToggleShapes(av: seq<DayAvailability>, day: string, slot: string)
    ensures var r := Toggle(av, day, slot);
      var i := FindDay(av, day);
      && (i == -1 ==> r[..|av|] == av && r[|av|] == DayAvailability(day, [slot]))
      && (i != -1 && slot !in av[i].timeSlots ==>
            |r| == |av| && r[i].timeSlots == av[i].timeSlots + [slot])
      && (i != -1 && slot in av[i].timeSlots && (forall x :: x in av[i].timeSlots ==> x == slot) ==>
            r == av[..i] + av[i + 1..])
  {
    var i := FindDay(av, day);
    if i != -1 {
      WithoutEmpty(av[i].timeSlots, slot);
    }
  }

  /** Toggling keeps the editor's invariant. */
  lemma ToggleKeepsWellFormed(av: seq<DayAvailability>, day: string, slot: string)
    requires WellFormed(av)
    ensures WellFormed(Toggle(av, day, slot))
  {
    var i := FindDay(av, day);
    if i == -1 {
      AppendEntryKeeps(av, DayAvailability(day, [slot]));
    } else if slot in av[i].timeSlots {
      var rest := Without(av[i].timeSlots, slot);
      if rest == [] {
        DropEntryKeeps(av, i);
      } else {
        ReplaceEntryKeeps(av, i, av[i].(timeSlots := rest));
      }
    } else {
      var ts := av[i].timeSlots;
      forall a, b | 0 <= a < b < |ts + [slot]| ensures (ts + [slot])[a] != (ts + [slot])[b] {
        if b == |ts| {
          assert (ts + [slot])[a] == ts[a] && ts[a] in ts;
        } else {
          assert (ts + [slot])[a] == ts[a] && (ts + [slot])[b] == ts[b];
        }
      }
      ReplaceEntryKeeps(av, i, av[i].(timeSlots := ts + [slot]));
    }
  }

  lemma AppendEntryKeeps(av: seq<DayAvailability>, e: DayAvailability)
    requires WellFormed(av)
    requires forall j :: 0 <= j < |av| ==> av[j].day != e.day
    requires e.timeSlots != [] && Distinct(e.timeSlots)
    ensures WellFormed(av + [e])
  {
    var r := av + [e];
    assert forall j :: 0 <= j < |av| ==> r[j] == av[j];
  }

  lemma DropEntryKeeps(av: seq<DayAvailability>, i: nat)
    requires WellFormed(av) && i < |av|
    ensures WellFormed(av[..i] + av[i + 1..])
  {
    var r := av[..i] + av[i + 1..];
    assert forall j :: 0 <= j < |r| ==> r[j] == if j < i then av[j] else av[j + 1];
  }

  lemma ReplaceEntryKeeps(av: seq<DayAvailability>, i: nat, e: DayAvailability)
    requires WellFormed(av) && i < |av|
    requires e.day == av[i].day && e.timeSlots != [] && Distinct(e.timeSlots)
    ensures WellFormed(av[i := e])
  {
  }

  /** Toggling flips whether `slot` is selected for `day` and changes no
      other (day, slot) pair. */
  lemma ToggleFlips(av: seq<DayAvailability>, day: string, slot: string, d: string, s: string)
    requires WellFormed(av)
    ensures Selected(Toggle(av, day, slot), d, s) ==
            if d == day && s == slot then !Selected(av, d, s) else Selected(av, d, s)
  {
    var i := FindDay(av, day);
    if i == -1 {
      FlipsNewDay(av, day, slot, d, s);
    } else if slot in av[i].timeSlots && Without(av[i].timeSlots, slot) == [] {
      FlipsEmptiedDay(av, day, slot, d, s);
    } else {
      FlipsEditedDay(av, day, slot, d, s);
    }
  }

  lemma FlipsNewDay(av: seq<DayAvailability>, day: string, slot: string, d: string, s: string)
    requires FindDay(av, day) == -1
    ensures Selected(Toggle(av, day, slot), d, s) ==
            if d == day && s == slot then !Selected(av, d, s) else Selected(av, d, s)
  {
    var r := Toggle(av, day, slot);
    assert r == av + [DayAvailability(day, [slot])];
    if Selected(av, d, s) {
      var k :| 0 <= k < |av| && Offers(av[k], d, s);
      assert Offers(r[k], d, s);
    }
    if Selected(r, d, s) && !(d == day && s == slot) {
      var k :| 0 <= k < |r| && Offers(r[k], d, s);
      assert k < |av|;
      assert Offers(av[k], d, s);
    }
    assert Offers(r[|av|], day, slot);
  }

  lemma FlipsEmptiedDay(av: seq<DayAvailability>, day: string, slot: string, d: string, s: string)
    requires WellFormed(av)
    requires FindDay(av, day) != -1
    requires slot in av[FindDay(av, day)].timeSlots && Without(av[FindDay(av, day)].timeSlots, slot) == []
    ensures Selected(Toggle(av, day, slot), d, s) ==
            if d == day && s == slot then !Selected(av, d, s) else Selected(av, d, s)
  {
    var i := FindDay(av, day);
    WithoutEmpty(av[i].timeSlots, slot);
    assert Toggle(av, day, slot) == av[..i] + av[i + 1..];
    DroppedSelection(av, i, d, s);
    assert Offers(av[i], day, slot);
  }

  /** Dropping the entry at `i` keeps exactly the selections of the other
      entries. */
  lemma DroppedSelection(av: seq<DayAvailability>, i: nat, d: string, s: string)
    requires i < |av|
    ensures Selected(av[..i] + av[i + 1..], d, s) <==>
            exists k :: 0 <= k < |av| && k != i && Offers(av[k], d, s)
  {
    var r := av[..i] + av[i + 1..];
    assert forall j :: 0 <= j < |r| ==> r[j] == if j < i then av[j] else av[j + 1];
    if exists k :: 0 <= k < |av| && k != i && Offers(av[k], d, s) {
      var k :| 0 <= k < |av| && k != i && Offers(av[k], d, s);
      assert Offers(r[if k < i then k else k - 1], d, s);
    }
    if Selected(r, d, s) {
      var k :| 0 <= k < |r| && Offers(r[k], d, s);
      assert Offers(av[if k < i then k else k + 1], d, s);
    }
  }

  lemma FlipsEditedDay(av: seq<DayAvailability>, day: string, slot: string, d: string, s: string)
    requires WellFormed(av)
    requires FindDay(av, day) != -1
    requires !(slot in av[FindDay(av, day)].timeSlots && Without(av[FindDay(av, day)].timeSlots, slot) == [])
    ensures Selected(Toggle(av, day, slot), d, s) ==
            if d == day && s == slot then !Selected(av, d, s) else Selected(av, d, s)
  {
    var i := FindDay(av, day);
    var r := Toggle(av, day, slot);
    assert |r| == |av| && forall j :: 0 <= j < |r| && j != i ==> r[j] == av[j];
    assert r[i].day == day;
    assert forall x :: x != slot ==> (x in r[i].timeSlots <==> x in av[i].timeSlots);
    if Selected(av, d, s) && !(d == day && s == slot) {
      var k :| 0 <= k < |av| && Offers(av[k], d, s);
      assert Offers(r[k], d, s);
    }
    if Selected(r, d, s) && !(d == day && s == slot) {
      var k :| 0 <= k < |r| && Offers(r[k], d, s);
      assert Offers(av[k], d, s);
    }
    if slot in av[i].timeSlots {
      assert slot !in r[i].timeSlots;
      assert forall k :: 0 <= k < |r| && k != i ==> av[k].day != day;
      assert forall k :: 0 <= k < |r| ==> !Offers(r[k], day, slot);
    } else {
      assert Offers(r[i], day, slot);
    }
  }

  /** Toggling the same pair twice restores every selection. */
  lemma ToggleTwice(av: seq<DayAvailability>, day: string, slot: string, d: string, s: string)
    requires WellFormed(av)
    ensures Selected(Toggle(Toggle(av, day, slot), day, slot), d, s) == Selected(av, d, s)
  {
    ToggleKeepsWellFormed(av, day, slot);
    ToggleFlips(av, day, slot, d, s);
    ToggleFlips(Toggle(av, day, slot), day, slot, d, s);
  }

  /** Entries of other days are neither changed nor lost. */
  lemma ToggleLeavesOtherDays(av: seq<DayAvailability>, day: string, slot: string, e: DayAvailability)
    requires e.day != day
    ensures e in Toggle(av, day, slot) <==> e in av
  {
    var r := Toggle(av, day, slot);
    var i := FindDay(av, day);
    if i != -1 && slot in av[i].timeSlots && Without(av[i].timeSlots, slot) == [] {
      assert av == av[..i] + [av[i]] + av[i + 1..];
    } else if i != -1 {
      if e in av {
        var k :| 0 <= k < |av| && av[k] == e;
        assert r[k] == e;
      }
      if e in r {
        var k :| 0 <= k < |r| && r[k] == e;
        assert av[k] == e;
      }
    }
  }

  /** Removing a slot takes it out of every day and keeps each day's other
      slots; a day left without slots keeps its (now empty) entry. */
  lemma RemoveSlotEffect(av: seq<DayAvailability>, slot: string, i: nat, x: string)
    requires i < |av|
    ensures var r := RemoveSlot(av, slot);
      && r[i].day == av[i].day
      && slot !in r[i].timeSlots
      && (x != slot ==> (x in r[i].timeSlots <==> x in av[i].timeSlots))
      && (av[i].timeSlots == [slot] ==> r[i].timeSlots == [])
  {
    if av[i].timeSlots == [slot] {
      WithoutEmpty([slot], slot);
    }
  }

  // ---------------------------------------------------------------------
  // Submit

  datatype FormData = FormData(
    name: string, email: string, password: string, confirmPassword: string,
    role: string, contact: string, specialization: string, experience: string,
    feesPerSession: string, availability: seq<DayAvailability>, status: string)

  /** The body sent to the register endpoint: the form without
      `confirmPassword`. */
  datatype SubmitData = SubmitData(
    name: string, email: string, password: string,
    role: string, contact: string, specialization: string, experience: string,
    feesPerSession: string, availability: seq<DayAvailability>, status: string)

  datatype Outcome = Rejected(error: string) | Send(body: SubmitData)

  /** Nothing is sent when the two passwords differ; otherwise every field
      but the confirmation is sent as entered. */
  function Submit(f: FormData): (o: Outcome)
    ensures o.Send? <==> f.password == f.confirmPassword
    ensures o.Rejected? ==> o.error == PASSWORDS_DIFFER
    ensures o.Send? ==>
      && o.body.password == f.confirmPassword && o.body.email == f.email && o.body.name == f.name
      && o.body.availability == f.availability && o.body.role == f.role
      && o.body.contact == f.contact && o.body.specialization == f.specialization
      && o.body.experience == f.experience && o.body.feesPerSession == f.feesPerSession
      && o.body.status == f.status
  {
    if f.password != f.confirmPassword then Rejected(PASSWORDS_DIFFER)
    else Send(SubmitData(f.name, f.email, f.password, f.role, f.contact, f.specialization,
                         f.experience, f.feesPerSession, f.availability, f.status))
  }
}
