/**
 * The Firestore collections the routes read and write, as in-memory
 * sequences in insertion order. A document is a datatype value whose `id`
 * is its document id; optional document fields are `Option`s.
 */
module Store {
  import opened Common

  /** A `bookings` document: `user_id`, `stadium_id`, `date`, `time_slot_id`. */
  datatype Booking = Booking(id: string, userId: string, stadiumId: string, date: string, timeSlotId: string)

  /** A `stadiums` document: `name`, `sport_id`, `capacity`. */
  datatype Stadium = Stadium(id: string, name: string, sportId: string, capacity: Option<int>)

  /** A `timeSlots` document. */
  datatype TimeSlot = TimeSlot(id: string, time: string, duration: Option<int>, isActive: Option<bool>,
                               period: Option<string>, enabled: Option<bool>)

  /** A `users` document; an absent text field is stored here as "". */
  datatype User = User(id: string, username: string, fullName: string, clubName: string,
                       email: string, role: string, studentId: string)

  /** A `friendlyMatches` document. */
  datatype FriendlyMatch = FriendlyMatch(
    id: string, hostId: string, stadiumId: string, date: string, time: string,
    team1: string, team2: string, sportId: string,
    maxPlayers: Option<int>, currentPlayers: Option<int>, players: Option<seq<string>>,
    guestId: Option<string>, description: string, skillLevel: Option<string>,
    isPublic: Option<bool>, status: string)

  // ---------------------------------------------------------------------
  // Document references: `doc(db, collection, id)`

  /** The path segments of an id: its pieces between '/', empty pieces
      dropped, as `ResourcePath.fromString` keeps them. */
  function Segments(id: string): (r: seq<string>)
    ensures forall x :: x in r ==> x != "" && '/' !in x
  {
    NonEmptyParts(Split(id, '/'))
  }

  function NonEmptyParts(parts: seq<string>): (r: seq<string>)
    ensures forall x :: x in r <==> x in parts && x != ""
  {
    if parts == [] then []
    else if parts[0] == "" then NonEmptyParts(parts[1..])
    else [parts[0]] + NonEmptyParts(parts[1..])
  }

  predicate HasDoubleSlash(id: string) {
    exists i :: 0 <= i < |id| - 1 && id[i] == '/' && id[i + 1] == '/'
  }

  /** `doc(db, collection, id)` accepts the id: it holds no "//", and the
      collection name with the id's segments makes a path of even length
      (so "" and "a/b" are refused, "a/b/c" is accepted). */
  predicate DocRefOk(id: string) { !HasDoubleSlash(id) && |Segments(id)| % 2 == 1 }

  /** An id without '/' is its own only segment. */
  lemma PlainSegments(id: string)
    ensures id != "" && '/' !in id ==> Segments(id) == [id]
  {
    if id != "" && '/' !in id {
      SplitWithout(id, '/');
      assert NonEmptyParts([id]) == [id] + NonEmptyParts([]);
    }
  }

  /** The id, within the collection itself, of the document an accepted
      reference names: its only segment. None for a refused reference and
      for one with three or more segments, which names a document of a
      sub-collection (none of the modelled collections has one). */
  function DocKey(ref: string): (r: Option<string>)
    ensures r.Some? ==> DocRefOk(ref) && r.value != "" && '/' !in r.value
    ensures ref != "" && '/' !in ref ==> r == Some(ref)
  {
    PlainSegments(ref);
    var segments := Segments(ref);
    if !HasDoubleSlash(ref) && |segments| == 1 then
      assert segments[0] in segments;
      Some(segments[0])
    else None
  }

  /** A '/' at either end is dropped: "s1/" and "/s1" name document "s1". */
  lemma EdgeSlashesDropped(id: string)
    requires id != "" && '/' !in id
    ensures DocKey(id + "/") == Some(id) && DocKey("/" + id) == Some(id)
  {
    SplitCons(id, '/', "");
    assert id + ['/'] + "" == id + "/";
    assert Split("", '/') == [""];
    assert NonEmptyParts([id, ""]) == [id] + NonEmptyParts([""]);
    assert Segments(id + "/") == [id];
    assert !HasDoubleSlash(id + "/") by {
      forall i | 0 <= i < |id + "/"| - 1 ensures (id + "/")[i] != '/' {
        assert (id + "/")[i] == id[i];
      }
    }
    SplitCons("", '/', id);
    assert [] + ['/'] + id == "/" + id;
    SplitWithout(id, '/');
    assert NonEmptyParts(["", id]) == NonEmptyParts([id]);
    assert NonEmptyParts([id]) == [id] + NonEmptyParts([]);
    assert Segments("/" + id) == [id];
    var front := "/" + id;
    assert !HasDoubleSlash(front) by {
      forall i | 1 <= i < |front| ensures front[i] != '/' {
        assert front[i] == id[i - 1];
      }
    }
  }

  /** Plain ids joined by one '/' are the path's segments, in order. */
  lemma {:induction false} JoinedSegments(ids: seq<string>)
    requires ids != [] && forall k :: 0 <= k < |ids| ==> ids[k] != "" && '/' !in ids[k]
    ensures Segments(Join(ids, "/")) == ids && !HasDoubleSlash(Join(ids, "/"))
  {
    if |ids| == 1 {
      PlainSegments(ids[0]);
    } else {
      var rest := Join(ids[1..], "/");
      JoinedSegments(ids[1..]);
      SplitCons(ids[0], '/', rest);
      var s := Join(ids, "/");
      assert s == ids[0] + ['/'] + rest;
      assert NonEmptyParts([ids[0]] + Split(rest, '/')) == [ids[0]] + NonEmptyParts(Split(rest, '/'));
      assert ids == [ids[0]] + ids[1..];
      JoinHead(ids[1..]);
      NoDoubleSlashJoin(ids[0], rest);
    }
  }

  /** A plain id, '/', then a text that neither starts with '/' nor holds
      "//", holds no "//". */
  lemma NoDoubleSlashJoin(a: string, rest: string)
    requires '/' !in a && rest != [] && rest[0] != '/' && !HasDoubleSlash(rest)
    ensures !HasDoubleSlash(a + ['/'] + rest)
  {
    var s := a + ['/'] + rest;
    forall i | 0 <= i < |s| - 1 && s[i] == '/' ensures s[i + 1] != '/' {
      if i == |a| {
        assert s[i + 1] == rest[0];
      } else {
        assert i > |a|;
        assert s[i] == rest[i - |a| - 1] && s[i + 1] == rest[i - |a|];
      }
    }
  }

  /** The joined text starts with the first id. */
  lemma JoinHead(ids: seq<string>)
    requires ids != [] && ids[0] != ""
    ensures Join(ids, "/") != [] && Join(ids, "/")[0] == ids[0][0]
  {
  }

  /** An id holding "//" is refused, and so are "" and "a/b" for plain
      ids "a" and "b" (an odd path length). */
  lemma RefusedRefs(a: string, b: string)
    ensures !DocRefOk("") && !DocRefOk(a + "//" + b)
    ensures a != "" && '/' !in a && b != "" && '/' !in b ==> !DocRefOk(a + "/" + b)
  {
    assert Segments("") == [];
    var s := a + "//" + b;
    assert s[|a|] == '/' && s[|a| + 1] == '/';
    if a != "" && '/' !in a && b != "" && '/' !in b {
      JoinedSegments([a, b]);
      assert Join([a, b], "/") == a + "/" + Join([b], "/");
    }
  }

  /** "a/b/c" for plain ids is accepted, and names a document of a
      sub-collection, not one of the collection itself. */
  lemma SubCollectionRef(a: string, b: string, c: string)
    requires a != "" && '/' !in a && b != "" && '/' !in b && c != "" && '/' !in c
    ensures DocRefOk(a + "/" + b + "/" + c) && DocKey(a + "/" + b + "/" + c).None?
  {
    JoinedSegments([a, b, c]);
    JoinThree(a, b, c);
  }

  lemma JoinThree(a: string, b: string, c: string)
    ensures Join([a, b, c], "/") == a + "/" + b + "/" + c
  {
    assert [a, b, c][1..] == [b, c] && [b, c][1..] == [c];
    assert Join([b, c], "/") == b + "/" + c;
  }

  /** The document ids of a collection never repeat. */
  predicate Distinct(ids: seq<string>) {
    forall i, j :: 0 <= i < j < |ids| ==> ids[i] != ids[j]
  }

  function BookingIds(bs: seq<Booking>): (r: seq<string>)
    ensures |r| == |bs| && forall i :: 0 <= i < |bs| ==> r[i] == bs[i].id
  {
    seq(|bs|, i requires 0 <= i < |bs| => bs[i].id)
  }

  function SlotIds(ts: seq<TimeSlot>): (r: seq<string>)
    ensures |r| == |ts| && forall i :: 0 <= i < |ts| ==> r[i] == ts[i].id
  {
    seq(|ts|, i requires 0 <= i < |ts| => ts[i].id)
  }

  function MatchIds(ms: seq<FriendlyMatch>): (r: seq<string>)
    ensures |r| == |ms| && forall i :: 0 <= i < |ms| ==> r[i] == ms[i].id
  {
    seq(|ms|, i requires 0 <= i < |ms| => ms[i].id)
  }

  /** Adding a document under an unused id keeps the ids distinct. */
  lemma AppendBookingKeepsDistinct(bs: seq<Booking>, b: Booking)
    requires Distinct(BookingIds(bs)) && b.id !in BookingIds(bs)
    ensures Distinct(BookingIds(bs + [b]))
  {
    var ids := BookingIds(bs + [b]);
    assert forall i :: 0 <= i < |bs| ==> ids[i] == BookingIds(bs)[i];
  }

  lemma AppendSlotKeepsDistinct(ts: seq<TimeSlot>, t: TimeSlot)
    requires Distinct(SlotIds(ts)) && t.id !in SlotIds(ts)
    ensures Distinct(SlotIds(ts + [t]))
  {
    var ids := SlotIds(ts + [t]);
    assert forall i :: 0 <= i < |ts| ==> ids[i] == SlotIds(ts)[i];
  }

  lemma AppendMatchKeepsDistinct(ms: seq<FriendlyMatch>, m: FriendlyMatch)
    requires Distinct(MatchIds(ms)) && m.id !in MatchIds(ms)
    ensures Distinct(MatchIds(ms + [m]))
  {
    var ids := MatchIds(ms + [m]);
    assert forall i :: 0 <= i < |ms| ==> ids[i] == MatchIds(ms)[i];
  }

  /** The stadiums of a sport (`sport_id === sport`), in store order. */
  function OfSport(ss: seq<Stadium>, sport: string): (r: seq<Stadium>)
    ensures forall s :: s in r <==> s in ss && s.sportId == sport
    ensures |r| <= |ss|
  {
    if ss == [] then []
    else if ss[0].sportId == sport then [ss[0]] + OfSport(ss[1..], sport)
    else OfSport(ss[1..], sport)
  }

  // ---------------------------------------------------------------------
  // Lookups by document id, and by reference

  function FindStadium(ss: seq<Stadium>, id: string): (r: Option<Stadium>)
    ensures r.Some? ==> r.value in ss && r.value.id == id
    ensures r.None? ==> forall s :: s in ss ==> s.id != id
  {
    if ss == [] then None else if ss[0].id == id then Some(ss[0]) else FindStadium(ss[1..], id)
  }

  function FindSlot(ts: seq<TimeSlot>, id: string): (r: Option<TimeSlot>)
    ensures r.Some? ==> r.value in ts && r.value.id == id
    ensures r.None? ==> forall t :: t in ts ==> t.id != id
  {
    if ts == [] then None else if ts[0].id == id then Some(ts[0]) else FindSlot(ts[1..], id)
  }

  function FindUser(us: seq<User>, id: string): (r: Option<User>)
    ensures r.Some? ==> r.value in us && r.value.id == id
    ensures r.None? ==> forall u :: u in us ==> u.id != id
  {
    if us == [] then None else if us[0].id == id then Some(us[0]) else FindUser(us[1..], id)
  }

  /** `getDoc(doc(db, 'stadiums', ref))`: the stadium the reference names,
      if it is stored. */
  function GetStadium(ss: seq<Stadium>, ref: string): (r: Option<Stadium>)
    ensures r.Some? ==> r.value in ss && DocKey(ref) == Some(r.value.id)
    ensures r.None? ==> forall s :: s in ss ==> DocKey(ref) != Some(s.id)
  {
    if DocKey(ref).Some? then FindStadium(ss, DocKey(ref).value) else None
  }

  /** `getDoc(doc(db, 'timeSlots', ref))`. */
  function GetSlot(ts: seq<TimeSlot>, ref: string): (r: Option<TimeSlot>)
    ensures r.Some? ==> r.value in ts && DocKey(ref) == Some(r.value.id)
    ensures r.None? ==> forall t :: t in ts ==> DocKey(ref) != Some(t.id)
  {
    if DocKey(ref).Some? then FindSlot(ts, DocKey(ref).value) else None
  }

  /** `getDoc(doc(db, 'users', ref))`. */
  function GetUser(us: seq<User>, ref: string): (r: Option<User>)
    ensures r.Some? ==> r.value in us && DocKey(ref) == Some(r.value.id)
    ensures r.None? ==> forall u :: u in us ==> DocKey(ref) != Some(u.id)
  {
    if DocKey(ref).Some? then FindUser(us, DocKey(ref).value) else None
  }

  /** `getDoc(doc(db, 'friendlyMatches', ref))`: the position of the match
      the reference names, if it is stored. */
  function MatchIndex(ms: seq<FriendlyMatch>, ref: string): (r: Option<nat>)
    ensures r.Some? ==> r.value < |ms| && DocKey(ref) == Some(ms[r.value].id)
    ensures r.None? ==> forall i :: 0 <= i < |ms| ==> DocKey(ref) != Some(ms[i].id)
  {
    if ms == [] then None
    else if DocKey(ref) == Some(ms[0].id) then Some(0)
    else
      var k := MatchIndex(ms[1..], ref);
      if k.None? then None
      else
        assert ms[1..][k.value] == ms[k.value + 1];
        Some(k.value + 1)
  }

  /** `deleteDoc(doc(db, 'bookings', id))`. */
  function DeleteId(bs: seq<Booking>, id: string): (r: seq<Booking>)
    ensures forall b :: b in r <==> b in bs && b.id != id
  {
    if bs == [] then []
    else if bs[0].id == id then DeleteId(bs[1..], id)
    else [bs[0]] + DeleteId(bs[1..], id)
  }

  /** The database: one sequence per collection, in insertion order. */
  class Db {
    var bookings: seq<Booking>
    var stadiums: seq<Stadium>
    var timeSlots: seq<TimeSlot>
    var users: seq<User>
    var matches: seq<FriendlyMatch>

    /** Document ids are unique within each collection that is written. */
    predicate Valid()
      reads this
    {
      Distinct(BookingIds(bookings)) && Distinct(SlotIds(timeSlots)) && Distinct(MatchIds(matches))
    }

    constructor(stadiums: seq<Stadium>, users: seq<User>)
      ensures Valid()
      ensures this.bookings == [] && this.timeSlots == [] && this.matches == []
      ensures this.stadiums == stadiums && this.users == users
    {
      this.bookings := [];
      this.stadiums := stadiums;
      this.timeSlots := [];
      this.users := users;
      this.matches := [];
    }

    /** `addDoc` on the bookings collection. */
    method AddBooking(b: Booking)
      requires Valid() && b.id !in BookingIds(bookings)
      modifies this
      ensures Valid() && bookings == old(bookings) + [b]
      ensures stadiums == old(stadiums) && timeSlots == old(timeSlots)
      ensures users == old(users) && matches == old(matches)
    {
      AppendBookingKeepsDistinct(bookings, b);
      bookings := bookings + [b];
    }

    /** `addDoc` on the time slots collection. */
    method AddSlot(t: TimeSlot)
      requires Valid() && t.id !in SlotIds(timeSlots)
      modifies this
      ensures Valid() && timeSlots == old(timeSlots) + [t]
      ensures bookings == old(bookings) && stadiums == old(stadiums)
      ensures users == old(users) && matches == old(matches)
    {
      AppendSlotKeepsDistinct(timeSlots, t);
      timeSlots := timeSlots + [t];
    }

    /** `addDoc` on the friendly matches collection. */
    method AddMatch(m: FriendlyMatch)
      requires Valid() && m.id !in MatchIds(matches)
      modifies this
      ensures Valid() && matches == old(matches) + [m]
      ensures bookings == old(bookings) && stadiums == old(stadiums)
      ensures timeSlots == old(timeSlots) && users == old(users)
    {
      AppendMatchKeepsDistinct(matches, m);
      matches := matches + [m];
    }

    /** `deleteDoc` on the bookings collection. */
    method DeleteBooking(id: string)
      modifies this
      ensures bookings == DeleteId(old(bookings), id)
      ensures stadiums == old(stadiums) && timeSlots == old(timeSlots)
      ensures users == old(users) && matches == old(matches)
    {
      bookings := DeleteId(bookings, id);
    }

    /** `updateDoc` on the friendly match at position `i`: the document
        keeps its id. */
    method UpdateMatch(i: nat, m: FriendlyMatch)
      requires Valid() && i < |matches| && m.id == matches[i].id
      modifies this
      ensures Valid() && matches == old(matches)[i := m]
      ensures bookings == old(bookings) && stadiums == old(stadiums)
      ensures timeSlots == old(timeSlots) && users == old(users)
    {
      assert MatchIds(matches[i := m]) == MatchIds(matches);
      matches := matches[i := m];
    }
  }
}
