/**
 * `/api/time-slots`: GET lists every slot; POST validates a slot and
 * inserts it unless a slot with the same `time` already exists.
 */
module TimeSlots {
  import opened Common
  import opened Validation
  import opened Store

  /** GET /api/time-slots: every stored slot, with its id, in store order. */
  function GetTimeSlots(slots: seq<TimeSlot>): (r: Response<seq<TimeSlot>>)
    ensures r.Ok?
    ensures SlotIds(r.body) == SlotIds(slots)
    ensures forall t :: t in r.body <==> t in slots
  {
    Ok(slots)
  }

  /** No two slots share a `time`. */
  predicate UniqueTimes(ts: seq<TimeSlot>) {
    forall i, j :: 0 <= i < j < |ts| ==> ts[i].time != ts[j].time
  }

  predicate TimeTaken(ts: seq<TimeSlot>, time: string) {
    exists i :: 0 <= i < |ts| && ts[i].time == time
  }

  /** The document a valid request stores: time, duration and isActive
      (zod's default fills in `true` when it is absent). */
  function NewSlot(data: map<string, Json>, id: string): TimeSlot {
    TimeSlot(id, TextAt(data, "time"), OptNumber(data, "duration"),
             Some(if "isActive" in data && data["isActive"].JBool? then data["isActive"].b else true),
             None, None)
  }

  /** POST /api/time-slots: the reply, given the body (None when it is not
      JSON) and the id the store assigns. */
  function PostSlotResult(slots: seq<TimeSlot>, body: Option<Json>, freshId: string): (r: Response<TimeSlot>)
    ensures body.None? ==> r == Fail(500, "Failed to create time slot", [])
    ensures body.Some? && ValidateData(Parse(TimeSlotShape(), body.value)).Invalid? ==>
      r == Fail(400, "Validation failed", ValidateData(Parse(TimeSlotShape(), body.value)).errors)
    ensures body.Some? && ValidateData(Parse(TimeSlotShape(), body.value)).Valid? ==>
      var x := NewSlot(Sanitized(ValidateData(Parse(TimeSlotShape(), body.value)).data), freshId);
      (r.Ok? <==> !TimeTaken(slots, x.time))
      && (TimeTaken(slots, x.time) ==> r == Fail(400, "Time slot already exists", []))
      && (r.Ok? ==> r.body == x)
    ensures r.Fail? && r.status == 400 && r.details == [] ==> r.error == "Time slot already exists"
    ensures r.Ok? ==> (r.body.id == freshId && !TimeTaken(slots, r.body.time))
  {
    if body.None? then Fail(500, "Failed to create time slot", [])
    else
      var v := ValidateData(Parse(TimeSlotShape(), body.value));
      if v.Invalid? then Fail(400, "Validation failed", v.errors)
      else
        var t := NewSlot(Sanitized(v.data), freshId);
        if TimeTaken(slots, t.time) then Fail(400, "Time slot already exists", [])
        else Ok(t)
  }

  /** Sequential creates keep slot times unique. */
  lemma PostKeepsUniqueTimes(slots: seq<TimeSlot>, body: Option<Json>, freshId: string)
    requires UniqueTimes(slots)
    requires PostSlotResult(slots, body, freshId).Ok?
    ensures UniqueTimes(slots + [PostSlotResult(slots, body, freshId).body])
  {
    var t := PostSlotResult(slots, body, freshId).body;
    var ts := slots + [t];
    forall i, j | 0 <= i < j < |ts| ensures ts[i].time != ts[j].time {
      if j == |slots| {
        assert ts[i] == slots[i];
      }
    }
  }

  /** A valid request is stored with its own time and duration, and with
      `isActive` as sent or `true` when it was left out. */
  lemma PostStoresSlot(slots: seq<TimeSlot>, m: map<string, Json>, freshId: string)
    requires ValidateData(Parse(TimeSlotShape(), JObj(m))).Valid?
    requires HasText(m, "time") && HasNumber(m, "duration") && ("isActive" in m ==> m["isActive"].JBool?)
    requires !TimeTaken(slots, m["time"].s)
    ensures PostSlotResult(slots, Some(JObj(m)), freshId)
      == Ok(TimeSlot(freshId, m["time"].s, Some(m["duration"].n),
                     Some(if "isActive" in m then m["isActive"].b else true), None, None))
  {
    var x := TimeSlot(freshId, m["time"].s, Some(m["duration"].n),
                      Some(if "isActive" in m then m["isActive"].b else true), None, None);
    assert IsTimeText(m["time"].s) by {
      TimeSlotShapeAccepts(m);
    }
    assert SanitizeString(m["time"].s) == m["time"].s by {
      SanitizeKeepsPatternText(m["time"].s);
    }
    SlotFieldsKept(m, freshId, x);
    SlotAccepted(slots, m, freshId, x);
  }

  lemma SlotFieldsKept(m: map<string, Json>, freshId: string, x: TimeSlot)
    requires ValidateData(Parse(TimeSlotShape(), JObj(m))).Valid?
    requires HasText(m, "time") && HasNumber(m, "duration") && SanitizeString(m["time"].s) == m["time"].s
    requires "isActive" in m ==> m["isActive"].JBool?
    requires x == TimeSlot(freshId, m["time"].s, Some(m["duration"].n),
                           Some(if "isActive" in m then m["isActive"].b else true), None, None)
    ensures NewSlot(Sanitized(ValidateData(Parse(TimeSlotShape(), JObj(m))).data), freshId) == x
  {
    SlotDataSanitized(m);
  }

  lemma SlotDataSanitized(m: map<string, Json>)
    requires ValidateData(Parse(TimeSlotShape(), JObj(m))).Valid?
    requires HasText(m, "time") && HasNumber(m, "duration") && SanitizeString(m["time"].s) == m["time"].s
    requires "isActive" in m ==> m["isActive"].JBool?
    ensures var d := Sanitized(ValidateData(Parse(TimeSlotShape(), JObj(m))).data);
      TextAt(d, "time") == m["time"].s && OptNumber(d, "duration") == Some(m["duration"].n)
      && "isActive" in d && d["isActive"].JBool?
      && d["isActive"].b == (if "isActive" in m then m["isActive"].b else true)
  {
    TimeSlotData(m);
    var d0 := ValidateData(Parse(TimeSlotShape(), JObj(m))).data;
    var d := Sanitized(d0);
    assert d["time"] == SanitizeValue(d0["time"]) == JStr(m["time"].s);
    assert d["duration"] == SanitizeValue(d0["duration"]) == d0["duration"];
    assert d["isActive"] == SanitizeValue(d0["isActive"]) == d0["isActive"];
  }

  lemma SlotAccepted(slots: seq<TimeSlot>, m: map<string, Json>, freshId: string, x: TimeSlot)
    requires ValidateData(Parse(TimeSlotShape(), JObj(m))).Valid?
    requires NewSlot(Sanitized(ValidateData(Parse(TimeSlotShape(), JObj(m))).data), freshId) == x
    requires !TimeTaken(slots, x.time)
    ensures PostSlotResult(slots, Some(JObj(m)), freshId) == Ok(x)
  {
  }

  /** The steps of POST /api/time-slots up to the insert: parse, validate,
      sanitise, look for a slot at the same time. */
  method HandleSlotPost(slots: seq<TimeSlot>, body: Option<Json>, freshId: string) returns (r: Response<TimeSlot>)
    ensures r == PostSlotResult(slots, body, freshId)
  {
    if body.None? {
      return Fail(500, "Failed to create time slot", []);
    }
    var validation := ValidateData(Parse(TimeSlotShape(), body.value));
    if validation.Invalid? {
      return Fail(400, "Validation failed", validation.errors);
    }
    var data := SanitizeObject(validation.data);
    var slot := NewSlot(data, freshId);
    if TimeTaken(slots, slot.time) {
      return Fail(400, "Time slot already exists", []);
    }
    return Ok(slot);
  }

  /** POST /api/time-slots against the database: `addDoc` on success. */
  method PostSlot(db: Db, body: Option<Json>, freshId: string) returns (r: Response<TimeSlot>)
    requires db.Valid() && freshId !in SlotIds(db.timeSlots)
    modifies db
    ensures db.Valid()
    ensures r == PostSlotResult(old(db.timeSlots), body, freshId)
    ensures r.Ok? ==> db.timeSlots == old(db.timeSlots) + [r.body]
    ensures r.Fail? ==> db.timeSlots == old(db.timeSlots)
    ensures UniqueTimes(old(db.timeSlots)) ==> UniqueTimes(db.timeSlots)
    ensures db.bookings == old(db.bookings) && db.stadiums == old(db.stadiums)
    ensures db.users == old(db.users) && db.matches == old(db.matches)
  {
    r := HandleSlotPost(db.timeSlots, body, freshId);
    if r.Ok? {
      if UniqueTimes(db.timeSlots) {
        PostKeepsUniqueTimes(db.timeSlots, body, freshId);
      }
      db.AddSlot(r.body);
    }
  }
}
