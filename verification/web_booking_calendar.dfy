/**
 * The web booking calendar: the fetched time slots split into a morning
 * and an afternoon list, the slots it offers (only enabled ones), the
 * stadiums of the chosen sport, and the checks and request body of "book
 * now". Network replies are parameters.
 */
module WebBookingCalendar {
  import opened Common
  import opened Validation
  import opened Store
  import Bookings
  import TimeSlots

  /** The slots whose `period` is "morning", in order. */
  function Morning(slots: seq<TimeSlot>): (r: seq<TimeSlot>)
    ensures forall t :: t in r <==> t in slots && t.period == Some("morning")
    ensures |r| <= |slots|
  {
    if slots == [] then []
    else if slots[0].period == Some("morning") then [slots[0]] + Morning(slots[1..])
    else Morning(slots[1..])
  }

  /** The slots of every other period (or none), in order. */
  function Afternoon(slots: seq<TimeSlot>): (r: seq<TimeSlot>)
    ensures forall t :: t in r <==> t in slots && t.period != Some("morning")
    ensures |r| <= |slots|
  {
    if slots == [] then []
    else if slots[0].period != Some("morning") then [slots[0]] + Afternoon(slots[1..])
    else Afternoon(slots[1..])
  }

  /** Each list keeps the input's order: splitting a concatenation is
      splitting each part. */
  lemma {:induction false} MorningKeepsOrder(a: seq<TimeSlot>, b: seq<TimeSlot>)
    ensures Morning(a + b) == Morning(a) + Morning(b)
  {
    if a == [] {
      assert a + b == b;
    } else {
      var ab := a + b;
      assert ab[0] == a[0] && ab[1..] == a[1..] + b;
      MorningKeepsOrder(a[1..], b);
      if a[0].period == Some("morning") {
        assert Morning(ab) == [a[0]] + (Morning(a[1..]) + Morning(b));
      } else {
        assert Morning(ab) == Morning(a[1..]) + Morning(b);
      }
    }
  }

  lemma {:induction false} AfternoonKeepsOrder(a: seq<TimeSlot>, b: seq<TimeSlot>)
    ensures Afternoon(a + b) == Afternoon(a) + Afternoon(b)
  {
    if a == [] {
      assert a + b == b;
    } else {
      var ab := a + b;
      assert ab[0] == a[0] && ab[1..] == a[1..] + b;
      AfternoonKeepsOrder(a[1..], b);
      if a[0].period != Some("morning") {
        assert Afternoon(ab) == [a[0]] + (Afternoon(a[1..]) + Afternoon(b));
      } else {
        assert Afternoon(ab) == Afternoon(a[1..]) + Afternoon(b);
      }
    }
  }

  /** One more slot lands at the end of the list of its period. */
  lemma SplitStep(s: seq<TimeSlot>, x: TimeSlot)
    ensures Morning(s + [x]) == Morning(s) + (if x.period == Some("morning") then [x] else [])
    ensures Afternoon(s + [x]) == Afternoon(s) + (if x.period == Some("morning") then [] else [x])
  {
    MorningKeepsOrder(s, [x]);
    AfternoonKeepsOrder(s, [x]);
    assert [x][1..] == [];
  }

  /** Together the two lists hold every fetched slot, each exactly as often
      as the input does. */
  lemma {:induction false} SplitIsPermutation(slots: seq<TimeSlot>)
    ensures multiset(Morning(slots)) + multiset(Afternoon(slots)) == multiset(slots)
  {
    if slots != [] {
      var x, tail := slots[0], slots[1..];
      SplitIsPermutation(tail);
      if x.period == Some("morning") {
        assert multiset(Morning(slots)) == multiset{x} + multiset(Morning(tail));
        assert Afternoon(slots) == Afternoon(tail);
      } else {
        assert Morning(slots) == Morning(tail);
        assert multiset(Afternoon(slots)) == multiset{x} + multiset(Afternoon(tail));
      }
      assert slots == [x] + tail;
    }
  }

  /** The slots shown as buttons: those whose `enabled` is true. */
  function Offered(slots: seq<TimeSlot>): (r: seq<TimeSlot>)
    ensures forall t :: t in r <==> t in slots && t.enabled == Some(true)
    ensures |r| <= |slots|
  {
    if slots == [] then []
    else if slots[0].enabled == Some(true) then [slots[0]] + Offered(slots[1..])
    else Offered(slots[1..])
  }

  /** A slot created through POST /api/time-slots stores no `enabled`
      field, so the calendar never offers it. */
  lemma PostedSlotNeverOffered(data: map<string, Json>, id: string, slots: seq<TimeSlot>)
    ensures TimeSlots.NewSlot(data, id) !in Offered(slots)
  {
  }

  /** The body the calendar sends, as written: no `time` field. */
  function BodyAsWritten(userId: string, stadiumId: string, date: string, slotId: string): map<string, Json> {
    map["userId" := JStr(userId), "stadiumId" := JStr(stadiumId), "date" := JStr(date), "timeSlotId" := JStr(slotId)]
  }

  /** The booking schema refuses every body without `time`. */
  lemma NoTimeInvalid(m: map<string, Json>)
    requires "time" !in m
    ensures ValidateData(Parse(BookingShape(), JObj(m))).Invalid?
  {
    BookingShapeAccepts(m);
  }

  /** The server refuses every booking sent with that body, whatever the
      selections: 400 "Validation failed", and nothing is stored. */
  lemma BodyAsWrittenAlwaysRefused(userId: string, stadiumId: string, date: string, slotId: string,
                                   bookings: seq<Booking>, freshId: string)
    ensures var r := Bookings.PostBookingResult(bookings, Some(JObj(BodyAsWritten(userId, stadiumId, date, slotId))),
                                                freshId);
            r.Fail? && r.status == 400 && r.error == "Validation failed"
  {
    var m := BodyAsWritten(userId, stadiumId, date, slotId);
    assert "time" !in m;
    NoTimeInvalid(m);
  }

  /** The body with the chosen slot's time added, as the booking schema
      expects. */
  function Body(userId: string, stadiumId: string, date: string, slotId: string, time: string): map<string, Json> {
    BodyAsWritten(userId, stadiumId, date, slotId)["time" := JStr(time)]
  }

  /** The server's schema accepts that body exactly when the ids are not
      empty and the date and time have their formats. */
  lemma BodyAccepted(userId: string, stadiumId: string, date: string, slotId: string, time: string)
    ensures ValidateData(Parse(BookingShape(), JObj(Body(userId, stadiumId, date, slotId, time)))).Valid? <==>
      userId != "" && stadiumId != "" && slotId != "" && IsDateText(date) && IsTimeText(time)
  {
    var m := Body(userId, stadiumId, date, slotId, time);
    BookingShapeAccepts(m);
    assert m["userId"] == JStr(userId) && m["stadiumId"] == JStr(stadiumId) && m["date"] == JStr(date);
    assert m["timeSlotId"] == JStr(slotId) && m["time"] == JStr(time);
  }

  /** What "book now" does: a toast and no POST when a selection is
      missing, or the POST with its body and the toast its reply leads to
      (a success, or a failure with the error's message). */
  datatype Booked = Incomplete | Sent(body: map<string, Json>, succeeded: bool, message: string)

  /** The message of the failure toast. */
  function FailureMessage(reply: BookingReply): string {
    match reply
    case BookingRaised(message) => message
    case BookingRefused(e) => TextOr(e, "Failed to create booking")
    case BookingCreated(_) => ""
  }

  /** The calendar's state: the selections, the two slot lists, the
      stadiums of the chosen sport and the busy flag. */
  class BookingCalendar {
    var selectedSport: Option<string>
    var selectedDate: Option<string>
    var selectedTime: Option<string>
    var selectedTimeSlotId: Option<string>
    var selectedStadium: Option<string>
    var morning: seq<TimeSlot>
    var afternoon: seq<TimeSlot>
    var availableStadiums: seq<Stadium>
    var isLoading: bool

    /** A slot id is only ever chosen together with its time. */
    predicate Valid()
      reads this
    {
      selectedTimeSlotId.Some? ==> selectedTime.Some?
    }

    constructor()
      ensures Valid()
      ensures selectedSport.None? && selectedDate.None? && selectedTime.None?
      ensures selectedTimeSlotId.None? && selectedStadium.None?
      ensures morning == [] && afternoon == [] && availableStadiums == [] && !isLoading
    {
      selectedSport := None;
      selectedDate := None;
      selectedTime := None;
      selectedTimeSlotId := None;
      selectedStadium := None;
      morning := [];
      afternoon := [];
      availableStadiums := [];
      isLoading := false;
    }

    /** The `forEach` that pushes each fetched slot onto the morning or the
        afternoon list. */
    method Split(data: seq<TimeSlot>)
      modifies this
      ensures morning == Morning(data) && afternoon == Afternoon(data)
      ensures selectedSport == old(selectedSport) && selectedDate == old(selectedDate)
      ensures selectedTime == old(selectedTime) && selectedTimeSlotId == old(selectedTimeSlotId)
      ensures selectedStadium == old(selectedStadium)
      ensures availableStadiums == old(availableStadiums) && isLoading == old(isLoading)
    {
      var m: seq<TimeSlot> := [];
      var a: seq<TimeSlot> := [];
      var i := 0;
      while i < |data|
        invariant 0 <= i <= |data|
        invariant m == Morning(data[..i]) && a == Afternoon(data[..i])
        invariant unchanged(this)
      {
        assert data[..i + 1] == data[..i] + [data[i]];
        SplitStep(data[..i], data[i]);
        if data[i].period == Some("morning") {
          m := m + [data[i]];
        } else {
          a := a + [data[i]];
        }
        i := i + 1;
      }
      assert data[..i] == data;
      morning := m;
      afternoon := a;
    }

    /** `fetchTimeSlots`: runs only with a sport and a date chosen; an ok
        reply replaces both lists, anything else leaves them (and shows
        an error toast, reported as `failed`). */
    method FetchTimeSlots(reply: Reply<TimeSlot>) returns (failed: bool)
      modifies this
      ensures Given(selectedSport) && Given(selectedDate) && reply.Listed? ==>
        morning == Morning(reply.items) && afternoon == Afternoon(reply.items)
      ensures !(Given(selectedSport) && Given(selectedDate) && reply.Listed?) ==>
        morning == old(morning) && afternoon == old(afternoon)
      ensures failed <==> Given(selectedSport) && Given(selectedDate) && !reply.Listed?
      ensures selectedSport == old(selectedSport) && selectedDate == old(selectedDate)
      ensures selectedTime == old(selectedTime) && selectedTimeSlotId == old(selectedTimeSlotId)
      ensures selectedStadium == old(selectedStadium)
      ensures availableStadiums == old(availableStadiums) && isLoading == old(isLoading)
    {
      if !Given(selectedSport) || !Given(selectedDate) {
        return false;
      }
      if reply.Listed? {
        Split(reply.items);
        failed := false;
      } else {
        failed := true;
      }
    }

    /** `fetchStadiums`: runs only with a sport and a date chosen; an ok
        reply is narrowed to the chosen sport. */
    method FetchStadiums(reply: Reply<Stadium>) returns (failed: bool)
      modifies this
      ensures Given(selectedSport) && Given(selectedDate) && reply.Listed? ==>
        availableStadiums == OfSport(reply.items, selectedSport.value)
      ensures !(Given(selectedSport) && Given(selectedDate) && reply.Listed?) ==>
        availableStadiums == old(availableStadiums)
      ensures failed <==> Given(selectedSport) && Given(selectedDate) && !reply.Listed?
      ensures selectedSport == old(selectedSport) && selectedDate == old(selectedDate)
      ensures selectedTime == old(selectedTime) && selectedTimeSlotId == old(selectedTimeSlotId)
      ensures selectedStadium == old(selectedStadium)
      ensures morning == old(morning) && afternoon == old(afternoon) && isLoading == old(isLoading)
    {
      if !Given(selectedSport) || !Given(selectedDate) {
        return false;
      }
      if reply.Listed? {
        availableStadiums := OfSport(reply.items, selectedSport.value);
        failed := false;
      } else {
        failed := true;
      }
    }

    /** Pressing a slot button chooses its time and its id together. */
    method PressSlot(slot: TimeSlot)
      requires Valid()
      modifies this
      ensures Valid()
      ensures selectedTime == Some(slot.time) && selectedTimeSlotId == Some(slot.id)
      ensures selectedSport == old(selectedSport) && selectedDate == old(selectedDate)
      ensures selectedStadium == old(selectedStadium)
      ensures morning == old(morning) && afternoon == old(afternoon)
      ensures availableStadiums == old(availableStadiums) && isLoading == old(isLoading)
    {
      selectedTime := Some(slot.time);
      selectedTimeSlotId := Some(slot.id);
    }

    /** `handleBooking`: a user, sport, date, slot id and stadium are
        needed; a created booking clears the time, the slot id and the
        stadium and keeps the sport and the date. The request sent is
        `Body`, which carries the `time` the booking schema requires; the
        component as written sends `BodyAsWritten`, without it, which the
        server always refuses (`BodyAsWrittenAlwaysRefused`). */
    method HandleBooking(user: Option<string>, reply: BookingReply) returns (outcome: Booked)
      requires Valid()
      modifies this
      ensures Valid()
      ensures outcome == Incomplete <==>
        !(user.Some? && Given(old(selectedSport)) && Given(old(selectedDate))
          && Given(old(selectedTimeSlotId)) && Given(old(selectedStadium)))
      ensures outcome.Sent? ==>
        outcome.body == Body(user.value, old(selectedStadium).value, old(selectedDate).value,
                             old(selectedTimeSlotId).value, old(selectedTime).value)
        && outcome.succeeded == reply.BookingCreated?
        && (!outcome.succeeded ==> outcome.message == FailureMessage(reply))
      ensures outcome.Sent? && reply.BookingCreated? ==>
        selectedTime.None? && selectedTimeSlotId.None? && selectedStadium.None?
      ensures !(outcome.Sent? && reply.BookingCreated?) ==>
        selectedTime == old(selectedTime) && selectedTimeSlotId == old(selectedTimeSlotId)
        && selectedStadium == old(selectedStadium)
      ensures selectedSport == old(selectedSport) && selectedDate == old(selectedDate)
      ensures morning == old(morning) && afternoon == old(afternoon)
      ensures availableStadiums == old(availableStadiums)
      ensures isLoading == (old(isLoading) && !outcome.Sent?)
    {
      if user.None? || !Given(selectedSport) || !Given(selectedDate) || !Given(selectedTimeSlotId)
         || !Given(selectedStadium) {
        return Incomplete;
      }
      isLoading := true;
      var body := Body(user.value, selectedStadium.value, selectedDate.value, selectedTimeSlotId.value,
                       selectedTime.value);
      if reply.BookingCreated? {
        outcome := Sent(body, true, "");
        selectedTime := None;
        selectedTimeSlotId := None;
        selectedStadium := None;
      } else {
        outcome := Sent(body, false, FailureMessage(reply));
      }
      isLoading := false;
    }
  }
}
