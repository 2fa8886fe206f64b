/**
 * The mobile booking screen: the four selections (sport, date, time,
 * stadium), the set of slot ids already booked for the chosen date and
 * stadium, the stadiums offered for a sport, the slot buttons it disables,
 * and the checks and request body of "book". Network replies are
 * parameters.
 */
module MobileBooking {
  import opened Common
  import opened Validation
  import opened Store
  import Bookings

  /** The slot ids of the listed bookings. */
  function BookedSlots(bs: seq<Booking>): (r: set<string>)
    ensures forall id :: id in r <==> exists i :: 0 <= i < |bs| && bs[i].timeSlotId == id
  {
    set i | 0 <= i < |bs| :: bs[i].timeSlotId
  }

  /** Fed with what the bookings endpoint answers for the date and the
      stadium, the booked set holds a slot id exactly when the server's
      create would refuse that slot as already booked. */
  lemma BookedSetAgreesWithServer(stadiumId: string, date: string, slotId: string, bookings: seq<Booking>,
                                  stadiums: seq<Stadium>, slots: seq<TimeSlot>, users: seq<User>)
    requires stadiumId != "" && date != ""
    requires Bookings.GetBookings(Bookings.BookingQuery(None, Some(date), Some(stadiumId)),
                                  bookings, stadiums, slots, users).Ok?
    ensures slotId in BookedSlots(Bookings.BookingsOf(Bookings.GetBookings(
              Bookings.BookingQuery(None, Some(date), Some(stadiumId)), bookings, stadiums, slots, users).body))
            <==> Bookings.SlotTaken(bookings, stadiumId, date, slotId)
  {
    var q := Bookings.BookingQuery(None, Some(date), Some(stadiumId));
    var reply := Bookings.GetBookings(q, bookings, stadiums, slots, users);
    BookedSlotsOfSelection(Bookings.BookingsOf(reply.body), q, bookings, slotId);
  }

  /** The booked set of exactly the bookings selected by stadium and date
      holds the slots those bookings take. */
  lemma BookedSlotsOfSelection(got: seq<Booking>, q: Bookings.BookingQuery, bookings: seq<Booking>, slotId: string)
    requires q.userId.None? && Given(q.date) && Given(q.stadium)
    requires forall b :: b in got <==> b in bookings && Bookings.Selects(q, b)
    ensures slotId in BookedSlots(got) <==> Bookings.SlotTaken(bookings, q.stadium.value, q.date.value, slotId)
  {
    if slotId in BookedSlots(got) {
      var i :| 0 <= i < |got| && got[i].timeSlotId == slotId;
      assert got[i] in got;
      var j :| 0 <= j < |bookings| && bookings[j] == got[i];
    }
    if Bookings.SlotTaken(bookings, q.stadium.value, q.date.value, slotId) {
      var j :| 0 <= j < |bookings| && bookings[j].stadiumId == q.stadium.value && bookings[j].date == q.date.value
               && bookings[j].timeSlotId == slotId;
      var b := bookings[j];
      assert b in bookings && Bookings.Selects(q, b);
      var i :| 0 <= i < |got| && got[i] == b;
    }
  }

  /** `filteredStadiums`: the stadiums of the chosen sport, none before a
      sport is chosen. */
  function FilteredStadiums(stadiums: seq<Stadium>, sport: Option<string>): (r: seq<Stadium>)
    ensures !Given(sport) ==> r == []
    ensures Given(sport) ==> forall s :: s in r <==> s in stadiums && s.sportId == sport.value
  {
    if Given(sport) then OfSport(stadiums, sport.value) else []
  }

  /** The first slot with that time (`timeSlots.find`). */
  function SlotWithTime(slots: seq<TimeSlot>, time: string): (r: Option<TimeSlot>)
    ensures r.Some? ==> r.value in slots && r.value.time == time
    ensures r.Some? ==> exists i :: 0 <= i < |slots| && slots[i] == r.value && forall j :: 0 <= j < i ==> slots[j].time != time
    ensures r.None? ==> forall t :: t in slots ==> t.time != time
  {
    if slots == [] then None
    else if slots[0].time == time then Some(slots[0])
    else
      var r := SlotWithTime(slots[1..], time);
      if r.Some? then
        var i :| 0 <= i < |slots[1..]| && slots[1..][i] == r.value && forall j :: 0 <= j < i ==> slots[1..][j].time != time;
        assert slots[i + 1] == r.value && forall j :: 0 <= j < i + 1 ==> slots[j].time != time;
        r
      else r
  }

  /** The body of the POST; `timeSlotId` is left out of the JSON when no
      slot has the chosen time. */
  datatype BookingBody = BookingBody(userId: string, stadiumId: string, date: string,
                                     timeSlotId: Option<string>, time: string)

  function BodyJson(b: BookingBody): map<string, Json> {
    var m := map["userId" := JStr(b.userId), "stadiumId" := JStr(b.stadiumId), "date" := JStr(b.date),
                 "time" := JStr(b.time)];
    if b.timeSlotId.Some? then m["timeSlotId" := JStr(b.timeSlotId.value)] else m
  }

  /** The server's schema accepts the body exactly when a slot was found
      for the time and its id is not empty, the ids are not empty and the
      date and time have their formats. */
  lemma BodyAccepted(b: BookingBody)
    ensures ValidateData(Parse(BookingShape(), JObj(BodyJson(b)))).Valid? <==>
      b.userId != "" && b.stadiumId != "" && b.timeSlotId.Some? && b.timeSlotId.value != ""
      && IsDateText(b.date) && IsTimeText(b.time)
  {
    var m := BodyJson(b);
    BookingShapeAccepts(m);
    assert m["userId"] == JStr(b.userId) && m["stadiumId"] == JStr(b.stadiumId);
    assert m["date"] == JStr(b.date) && m["time"] == JStr(b.time);
    assert b.timeSlotId.Some? ==> m["timeSlotId"] == JStr(b.timeSlotId.value);
    assert b.timeSlotId.None? ==> "timeSlotId" !in m;
  }

  /** What "book" does: an alert and no POST when a check fails, or the
      POST with its body and the alert its reply leads to. An alert is a
      title key (shown through the translator) and a message. */
  datatype Booked = Incomplete | AlreadyBooked | Sent(body: BookingBody, titleKey: string, message: string)

  /** The alert shown after a booking is created. */
  const BookedMessage := "Stadium booked successfully! You will receive confirmation and reminder notifications."

  /** The alert after the POST. */
  function ReplyAlert(reply: BookingReply): (string, string) {
    match reply
    case BookingCreated(_) =>
      ("common.success", BookedMessage)
    case BookingRefused(e) => ("common.error", TextOr(e, "Failed to create booking"))
    case BookingRaised(message) => ("common.error", message)
  }

  /** The screen's state: the selections, the fetched lists, the booked
      slot ids for the selected date and stadium, and the busy flag. */
  class BookingScreen {
    var selectedSport: Option<string>
    var selectedDate: Option<string>
    var selectedTime: Option<string>
    var selectedStadium: Option<string>
    var stadiums: seq<Stadium>
    var timeSlots: seq<TimeSlot>
    var bookedTimeSlots: set<string>
    var isLoading: bool

    constructor()
      ensures selectedSport.None? && selectedDate.None? && selectedTime.None? && selectedStadium.None?
      ensures stadiums == [] && timeSlots == [] && bookedTimeSlots == {} && !isLoading
    {
      selectedSport := None;
      selectedDate := None;
      selectedTime := None;
      selectedStadium := None;
      stadiums := [];
      timeSlots := [];
      bookedTimeSlots := {};
      isLoading := false;
    }

    /** A slot button is disabled exactly when its id is booked. */
    predicate SlotDisabled(slot: TimeSlot)
      reads this
    {
      slot.id in bookedTimeSlots
    }

    /** `fetchBookedTimeSlots`: only with a date and a stadium chosen; an
        ok reply replaces the set, anything else leaves it. */
    method FetchBookedTimeSlots(reply: Reply<Booking>)
      modifies this
      ensures bookedTimeSlots ==
        if Given(selectedDate) && Given(selectedStadium) && reply.Listed? then BookedSlots(reply.items)
        else old(bookedTimeSlots)
      ensures selectedSport == old(selectedSport) && selectedDate == old(selectedDate)
      ensures selectedTime == old(selectedTime) && selectedStadium == old(selectedStadium)
      ensures stadiums == old(stadiums) && timeSlots == old(timeSlots) && isLoading == old(isLoading)
    {
      if !Given(selectedDate) || !Given(selectedStadium) {
        return;
      }
      if reply.Listed? {
        bookedTimeSlots := BookedSlots(reply.items);
      }
    }

    /** Choosing a slot: a disabled button does nothing. */
    method PressSlot(slot: TimeSlot)
      modifies this
      ensures selectedTime == if SlotDisabled(slot) then old(selectedTime) else Some(slot.time)
      ensures selectedSport == old(selectedSport) && selectedDate == old(selectedDate)
      ensures selectedStadium == old(selectedStadium) && bookedTimeSlots == old(bookedTimeSlots)
      ensures stadiums == old(stadiums) && timeSlots == old(timeSlots) && isLoading == old(isLoading)
    {
      if slot.id !in bookedTimeSlots {
        selectedTime := Some(slot.time);
      }
    }

    /** `handleBooking`: every selection and a user are needed; the slot
        is found by its time and refused when its id is booked; after a
        created booking every selection and the booked set are cleared,
        otherwise nothing changes. */
    method HandleBooking(user: Option<string>, reply: BookingReply) returns (outcome: Booked)
      modifies this
      ensures outcome == Incomplete <==>
        !(Given(old(selectedSport)) && Given(old(selectedDate)) && Given(old(selectedTime))
          && Given(old(selectedStadium)) && user.Some?)
      ensures outcome == AlreadyBooked <==>
        outcome != Incomplete && SlotWithTime(timeSlots, old(selectedTime).value).Some?
        && SlotWithTime(timeSlots, old(selectedTime).value).value.id in old(bookedTimeSlots)
      ensures outcome.Sent? ==>
        var slot := SlotWithTime(timeSlots, old(selectedTime).value);
        outcome.body == BookingBody(user.value, old(selectedStadium).value, old(selectedDate).value,
                                    if slot.Some? then Some(slot.value.id) else None, old(selectedTime).value)
        && (outcome.titleKey, outcome.message) == ReplyAlert(reply)
      ensures outcome.Sent? && reply.BookingCreated? ==>
        selectedSport.None? && selectedDate.None? && selectedTime.None? && selectedStadium.None?
        && bookedTimeSlots == {}
      ensures !(outcome.Sent? && reply.BookingCreated?) ==>
        selectedSport == old(selectedSport) && selectedDate == old(selectedDate)
        && selectedTime == old(selectedTime) && selectedStadium == old(selectedStadium)
        && bookedTimeSlots == old(bookedTimeSlots)
      ensures stadiums == old(stadiums) && timeSlots == old(timeSlots)
      ensures isLoading == (old(isLoading) && !outcome.Sent?)
    {
      if !Given(selectedSport) || !Given(selectedDate) || !Given(selectedTime) || !Given(selectedStadium)
         || user.None? {
        return Incomplete;
      }
      var slot := SlotWithTime(timeSlots, selectedTime.value);
      if slot.Some? && slot.value.id in bookedTimeSlots {
        return AlreadyBooked;
      }
      var body := BookingBody(user.value, selectedStadium.value, selectedDate.value,
                              if slot.Some? then Some(slot.value.id) else None, selectedTime.value);
      outcome := Send(body, reply);
    }

    /** The POST and what follows it. */
    method Send(body: BookingBody, reply: BookingReply) returns (outcome: Booked)
      modifies this
      ensures outcome == Sent(body, ReplyAlert(reply).0, ReplyAlert(reply).1)
      ensures reply.BookingCreated? ==>
        selectedSport.None? && selectedDate.None? && selectedTime.None? && selectedStadium.None?
        && bookedTimeSlots == {}
      ensures !reply.BookingCreated? ==>
        selectedSport == old(selectedSport) && selectedDate == old(selectedDate)
        && selectedTime == old(selectedTime) && selectedStadium == old(selectedStadium)
        && bookedTimeSlots == old(bookedTimeSlots)
      ensures stadiums == old(stadiums) && timeSlots == old(timeSlots) && !isLoading
    {
      isLoading := true;
      outcome := Sent(body, ReplyAlert(reply).0, ReplyAlert(reply).1);
      if reply.BookingCreated? {
        selectedSport := None;
        selectedDate := None;
        selectedTime := None;
        selectedStadium := None;
        bookedTimeSlots := {};
      }
      isLoading := false;
    }
  }

  /** A booking sent from the screen is never refused by the server's
      conflict check when the booked set was fetched for the same date and
      stadium from the same ledger: its slot is not booked there. */
  lemma SentSlotIsFree(stadiumId: string, date: string, slot: TimeSlot, bookings: seq<Booking>,
                       stadiums: seq<Stadium>, slots: seq<TimeSlot>, users: seq<User>)
    requires stadiumId != "" && date != ""
    requires Bookings.GetBookings(Bookings.BookingQuery(None, Some(date), Some(stadiumId)),
                                  bookings, stadiums, slots, users).Ok?
    requires slot.id !in BookedSlots(Bookings.BookingsOf(Bookings.GetBookings(
               Bookings.BookingQuery(None, Some(date), Some(stadiumId)), bookings, stadiums, slots, users).body))
    ensures !Bookings.SlotTaken(bookings, stadiumId, date, slot.id)
  {
    BookedSetAgreesWithServer(stadiumId, date, slot.id, bookings, stadiums, slots, users);
  }
}
