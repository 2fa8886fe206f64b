/**
 * The expiry sweeper: query the bookings dated before today (a
 * `date < today` comparison on the yyyy-mm-dd strings), delete each one,
 * and report how many matched. Today's date string is a parameter.
 */
module ExpiredReservations {
  import opened Common
  import opened Validation
  import opened Store

  /** The bookings the `date < today` query returns, in store order. */
  function Expired(bs: seq<Booking>, today: string): (r: seq<Booking>)
    ensures forall b :: b in r <==> b in bs && StrLess(b.date, today)
  {
    if bs == [] then []
    else if StrLess(bs[0].date, today) then [bs[0]] + Expired(bs[1..], today)
    else Expired(bs[1..], today)
  }

  /** The bookings a sweep leaves: dated today or later. */
  function Current(bs: seq<Booking>, today: string): (r: seq<Booking>)
    ensures forall b :: b in r <==> b in bs && !StrLess(b.date, today)
  {
    if bs == [] then []
    else if !StrLess(bs[0].date, today) then [bs[0]] + Current(bs[1..], today)
    else Current(bs[1..], today)
  }

  /** Every booking is either expired or current. */
  lemma {:induction false} ExpiredAndCurrentSplit(bs: seq<Booking>, today: string)
    ensures |Expired(bs, today)| + |Current(bs, today)| == |bs|
    ensures multiset(Expired(bs, today)) + multiset(Current(bs, today)) == multiset(bs)
  {
    if bs != [] {
      ExpiredAndCurrentSplit(bs[1..], today);
      assert bs == [bs[0]] + bs[1..];
    }
  }

  /** A sweep keeps the ids of what is left distinct. */
  lemma {:induction false} CurrentKeepsDistinct(bs: seq<Booking>, today: string)
    requires Distinct(BookingIds(bs))
    ensures Distinct(BookingIds(Current(bs, today)))
  {
    if bs != [] {
      DistinctTail(bs);
      CurrentKeepsDistinct(bs[1..], today);
      if !StrLess(bs[0].date, today) {
        forall y | y in Current(bs[1..], today) ensures y.id != bs[0].id {
          var k :| 0 <= k < |bs[1..]| && bs[1..][k] == y;
          assert BookingIds(bs)[0] != BookingIds(bs)[k + 1];
        }
        DistinctCons(bs[0], Current(bs[1..], today));
      }
    }
  }

  lemma DistinctTail(bs: seq<Booking>)
    requires bs != [] && Distinct(BookingIds(bs))
    ensures Distinct(BookingIds(bs[1..]))
  {
    forall i, j | 0 <= i < j < |bs[1..]| ensures BookingIds(bs[1..])[i] != BookingIds(bs[1..])[j] {
      assert BookingIds(bs[1..])[i] == BookingIds(bs)[i + 1] && BookingIds(bs[1..])[j] == BookingIds(bs)[j + 1];
    }
  }

  lemma DistinctCons(x: Booking, rest: seq<Booking>)
    requires Distinct(BookingIds(rest)) && forall y :: y in rest ==> y.id != x.id
    ensures Distinct(BookingIds([x] + rest))
  {
    var r := [x] + rest;
    forall i, j | 0 <= i < j < |r| ensures BookingIds(r)[i] != BookingIds(r)[j] {
      assert r[j] == rest[j - 1];
      if i > 0 {
        assert BookingIds(rest)[i - 1] != BookingIds(rest)[j - 1];
      }
    }
  }

  // ---------------------------------------------------------------------
  // Deleting documents by id

  /** The bookings whose id is not in `ids`, in store order. */
  function WithoutIds(bs: seq<Booking>, ids: set<string>): seq<Booking> {
    if bs == [] then []
    else if bs[0].id in ids then WithoutIds(bs[1..], ids)
    else [bs[0]] + WithoutIds(bs[1..], ids)
  }

  function IdsOf(bs: seq<Booking>): set<string> {
    set b | b in bs :: b.id
  }

  lemma {:induction false} WithoutNothing(bs: seq<Booking>)
    ensures WithoutIds(bs, {}) == bs
  {
    if bs != [] {
      WithoutNothing(bs[1..]);
      assert bs == [bs[0]] + bs[1..];
    }
  }

  lemma {:induction false} DeleteOneMore(bs: seq<Booking>, ids: set<string>, id: string)
    ensures DeleteId(WithoutIds(bs, ids), id) == WithoutIds(bs, ids + {id})
  {
    if bs != [] {
      DeleteOneMore(bs[1..], ids, id);
    }
  }

  /** Removing the ids of exactly the expired bookings leaves the current ones. */
  lemma {:induction false} WithoutExpiredIds(bs: seq<Booking>, ids: set<string>, today: string)
    requires forall b :: b in bs ==> (b.id in ids <==> StrLess(b.date, today))
    ensures WithoutIds(bs, ids) == Current(bs, today)
  {
    if bs != [] {
      assert bs[0] in bs;
      WithoutExpiredIds(bs[1..], ids, today);
    }
  }

  /** With distinct ids, an id belongs to an expired booking exactly when
      the booking carrying it is expired. */
  lemma ExpiredIdsAreExpired(bs: seq<Booking>, today: string)
    requires Distinct(BookingIds(bs))
    ensures forall b :: b in bs ==> (b.id in IdsOf(Expired(bs, today)) <==> StrLess(b.date, today))
  {
    var ex := Expired(bs, today);
    forall b | b in bs ensures b.id in IdsOf(ex) <==> StrLess(b.date, today) {
      if b.id in IdsOf(ex) {
        var e :| e in ex && e.id == b.id;
        SameIdSameBooking(bs, b, e);
      }
    }
  }

  /** With distinct ids, two bookings of the collection with one id are
      the same booking. */
  lemma SameIdSameBooking(bs: seq<Booking>, b: Booking, e: Booking)
    requires Distinct(BookingIds(bs)) && b in bs && e in bs && b.id == e.id
    ensures b == e
  {
    var i :| 0 <= i < |bs| && bs[i] == b;
    var j :| 0 <= j < |bs| && bs[j] == e;
    assert BookingIds(bs)[i] == BookingIds(bs)[j];
  }

  // ---------------------------------------------------------------------
  // The sweep

  /** The ids among the first `n` documents the query found whose
      `deleteDoc` completes: all of them are issued before any is awaited,
      so each one completes unless it rejects itself (its position is in
      `failing`). */
  function DeletedIds(expired: seq<Booking>, failing: set<nat>, n: nat): (r: set<string>)
    requires n <= |expired|
    ensures forall id :: id in r <==> exists i :: 0 <= i < n && i !in failing && expired[i].id == id
  {
    set i: nat | i < n && i !in failing :: expired[i].id
  }

  /** No delete among the first `n` rejects. */
  predicate NoneFailing(failing: set<nat>, n: nat) {
    forall i: nat :: i < n ==> i !in failing
  }

  /** `removeExpiredReservations`: the query (`queryFails`: `getDocs`
      rejects), then one `deleteDoc` per match under `Promise.all`. With
      no rejection every match is deleted and the answer is their number;
      a rejection is caught and answers 0, while the deletes that did not
      reject stay done. */
  method RemoveExpiredReservations(db: Db, today: string, queryFails: bool, failing: set<nat>)
    returns (count: int)
    requires db.Valid()
    modifies db
    ensures db.Valid()
    ensures queryFails ==> count == 0 && db.bookings == old(db.bookings)
    ensures !queryFails ==> var expired := Expired(old(db.bookings), today);
      db.bookings == WithoutIds(old(db.bookings), DeletedIds(expired, failing, |expired|))
    ensures !queryFails && NoneFailing(failing, |Expired(old(db.bookings), today)|) ==>
      db.bookings == Current(old(db.bookings), today) && count == |Expired(old(db.bookings), today)|
    ensures !NoneFailing(failing, |Expired(old(db.bookings), today)|) ==> count == 0
    ensures count == 0 || count == |old(db.bookings)| - |db.bookings|
    ensures db.stadiums == old(db.stadiums) && db.timeSlots == old(db.timeSlots)
    ensures db.users == old(db.users) && db.matches == old(db.matches)
  {
    if queryFails {
      return 0;
    }
    var expired := Expired(db.bookings, today);
    ghost var start := db.bookings;
    var rejected := DeleteEach(db, expired, failing);
    WithoutIdsKeepsDistinct(start, DeletedIds(expired, failing, |expired|));
    if rejected {
      return 0;
    }
    AllDeleted(expired, failing);
    SweepLeavesCurrent(start, today);
    count := |expired|;
  }

  /** `Promise.all` over one `deleteDoc` per document found: every delete
      whose position is not in `failing` completes, and the result says
      whether any rejected. */
  method DeleteEach(db: Db, expired: seq<Booking>, failing: set<nat>) returns (rejected: bool)
    modifies db
    ensures db.bookings == WithoutIds(old(db.bookings), DeletedIds(expired, failing, |expired|))
    ensures rejected <==> !NoneFailing(failing, |expired|)
    ensures db.stadiums == old(db.stadiums) && db.timeSlots == old(db.timeSlots)
    ensures db.users == old(db.users) && db.matches == old(db.matches)
  {
    ghost var start := db.bookings;
    var i := 0;
    rejected := false;
    WithoutNothing(start);
    assert DeletedIds(expired, failing, 0) == {};
    while i < |expired|
      invariant 0 <= i <= |expired|
      invariant db.bookings == WithoutIds(start, DeletedIds(expired, failing, i))
      invariant rejected <==> !NoneFailing(failing, i)
      invariant unchanged(db`stadiums, db`timeSlots, db`users, db`matches)
    {
      DeleteStep(start, expired, failing, i);
      NoneFailingStep(failing, i);
      if i in failing {
        rejected := true;
      } else {
        db.DeleteBooking(expired[i].id);
      }
      i := i + 1;
    }
  }

  /** One more position: its delete either rejects, or removes its id. */
  lemma DeleteStep(start: seq<Booking>, expired: seq<Booking>, failing: set<nat>, i: nat)
    requires i < |expired|
    ensures i in failing ==>
      WithoutIds(start, DeletedIds(expired, failing, i + 1)) == WithoutIds(start, DeletedIds(expired, failing, i))
    ensures i !in failing ==>
      WithoutIds(start, DeletedIds(expired, failing, i + 1))
        == DeleteId(WithoutIds(start, DeletedIds(expired, failing, i)), expired[i].id)
  {
    DeletedIdsStep(expired, failing, i);
    if i in failing {
      assert DeletedIds(expired, failing, i + 1) == DeletedIds(expired, failing, i);
    } else {
      assert DeletedIds(expired, failing, i + 1) == DeletedIds(expired, failing, i) + {expired[i].id};
      DeleteOneMore(start, DeletedIds(expired, failing, i), expired[i].id);
    }
  }

  lemma DeletedIdsStep(expired: seq<Booking>, failing: set<nat>, i: nat)
    requires i < |expired|
    ensures DeletedIds(expired, failing, i + 1)
      == DeletedIds(expired, failing, i) + (if i in failing then {} else {expired[i].id})
  {
  }

  lemma NoneFailingStep(failing: set<nat>, i: nat)
    ensures NoneFailing(failing, i + 1) <==> NoneFailing(failing, i) && i !in failing
  {
    if NoneFailing(failing, i) && i !in failing {
      forall j: nat | j < i + 1 ensures j !in failing {
        if j < i {
          assert j !in failing;
        }
      }
    }
  }

  /** Without a rejection the deleted ids are those of every match. */
  lemma AllDeleted(expired: seq<Booking>, failing: set<nat>)
    requires NoneFailing(failing, |expired|)
    ensures DeletedIds(expired, failing, |expired|) == IdsOf(expired)
  {
    forall id | id in IdsOf(expired) ensures id in DeletedIds(expired, failing, |expired|) {
      var b :| b in expired && b.id == id;
      var i :| 0 <= i < |expired| && expired[i] == b;
    }
  }

  /** Deleting any set of ids keeps the remaining ids distinct. */
  lemma {:induction false} WithoutIdsKeepsDistinct(bs: seq<Booking>, ids: set<string>)
    requires Distinct(BookingIds(bs))
    ensures Distinct(BookingIds(WithoutIds(bs, ids)))
  {
    if bs != [] {
      DistinctTail(bs);
      WithoutIdsKeepsDistinct(bs[1..], ids);
      if bs[0].id !in ids {
        forall y | y in WithoutIds(bs[1..], ids) ensures y.id != bs[0].id {
          WithoutIdsIn(bs[1..], ids, y);
          var k :| 0 <= k < |bs[1..]| && bs[1..][k] == y;
          assert BookingIds(bs)[0] != BookingIds(bs)[k + 1];
        }
        DistinctCons(bs[0], WithoutIds(bs[1..], ids));
      }
    }
  }

  lemma {:induction false} WithoutIdsIn(bs: seq<Booking>, ids: set<string>, y: Booking)
    requires y in WithoutIds(bs, ids)
    ensures y in bs && y.id !in ids
  {
    if bs[0].id in ids || y != bs[0] {
      WithoutIdsIn(bs[1..], ids, y);
    }
  }

  /** A delete that completes beside a rejected one leaves a smaller
      collection, while the sweep answers 0. */
  lemma {:induction false} DeletedIdShrinks(bs: seq<Booking>, ids: set<string>, b: Booking)
    requires b in bs && b.id in ids
    ensures |WithoutIds(bs, ids)| < |bs|
  {
    WithoutIdsLength(bs[1..], ids);
    if bs[0] != b {
      DeletedIdShrinks(bs[1..], ids, b);
    }
  }

  lemma {:induction false} WithoutIdsLength(bs: seq<Booking>, ids: set<string>)
    ensures |WithoutIds(bs, ids)| <= |bs|
  {
    if bs != [] {
      WithoutIdsLength(bs[1..], ids);
    }
  }

  /** Deleting the ids the query found leaves the current bookings, ids
      still distinct, and removes as many documents as it matched. */
  lemma SweepLeavesCurrent(bs: seq<Booking>, today: string)
    requires Distinct(BookingIds(bs))
    ensures WithoutIds(bs, IdsOf(Expired(bs, today))) == Current(bs, today)
    ensures |Expired(bs, today)| == |bs| - |Current(bs, today)|
    ensures Distinct(BookingIds(Current(bs, today)))
  {
    ExpiredIdsAreExpired(bs, today);
    WithoutExpiredIds(bs, IdsOf(Expired(bs, today)), today);
    ExpiredAndCurrentSplit(bs, today);
    CurrentKeepsDistinct(bs, today);
  }

  /** A second sweep with the same date finds nothing and changes nothing. */
  lemma {:induction false} SweepIdempotent(bs: seq<Booking>, today: string)
    ensures Expired(Current(bs, today), today) == []
    ensures Current(Current(bs, today), today) == Current(bs, today)
  {
    if bs != [] {
      SweepIdempotent(bs[1..], today);
    }
  }

  // ---------------------------------------------------------------------
  // Text order and calendar order

  function Year(d: string): nat
    requires IsDateText(d)
  {
    DigitsValue(d[..4])
  }

  function Month(d: string): nat
    requires IsDateText(d)
  {
    DigitsValue(d[5..7])
  }

  function Day(d: string): nat
    requires IsDateText(d)
  {
    DigitsValue(d[8..])
  }

  /** `a` is an earlier calendar day than `b`: by year, then month, then day. */
  predicate CalendarBefore(a: string, b: string)
    requires IsDateText(a) && IsDateText(b)
  {
    Year(a) < Year(b)
    || (Year(a) == Year(b) && (Month(a) < Month(b) || (Month(a) == Month(b) && Day(a) < Day(b))))
  }

  /** Two digit blocks of equal length compare as the numbers they spell. */
  lemma DigitBlock(x: string, y: string)
    requires |x| == |y|
    requires forall c :: c in x ==> IsDigit(c)
    requires forall c :: c in y ==> IsDigit(c)
    ensures StrLess(x, y) <==> DigitsValue(x) < DigitsValue(y)
    ensures x == y <==> DigitsValue(x) == DigitsValue(y)
  {
    StrLessDigits(x, y);
    StrLessDigits(y, x);
    StrLessTotal(x, y);
  }

  /** Comparing behind an equal separator compares what follows it. */
  lemma SameSeparator(c: char, x: string, y: string)
    ensures StrLess([c] + x, [c] + y) <==> StrLess(x, y)
    ensures [c] + x == [c] + y <==> x == y
  {
    StrLessConcat([c], x, [c], y);
    StrLessIrreflexive([c]);
    if [c] + x == [c] + y {
      assert x == ([c] + x)[1..];
    }
  }

  lemma DigitsOf(d: string, lo: int, hi: int)
    requires IsDateText(d) && (lo, hi) in {(0, 4), (5, 7), (8, 10)}
    ensures forall c :: c in d[lo..hi] ==> IsDigit(c)
  {
    forall c | c in d[lo..hi] ensures IsDigit(c) {
      var k :| 0 <= k < hi - lo && d[lo..hi][k] == c;
      assert d[lo + k] == c;
    }
  }

  /** For well-formed yyyy-mm-dd strings, `<` on the text is calendar order. */
  lemma DateTextOrder(a: string, b: string)
    requires IsDateText(a) && IsDateText(b)
    ensures StrLess(a, b) <==> CalendarBefore(a, b)
  {
    DigitsOf(a, 0, 4);
    DigitsOf(b, 0, 4);
    DigitBlock(a[..4], b[..4]);
    assert a == a[..4] + a[4..] && b == b[..4] + b[4..];
    StrLessConcat(a[..4], a[4..], b[..4], b[4..]);
    assert a[4..] == ['-'] + a[5..] && b[4..] == ['-'] + b[5..];
    SameSeparator('-', a[5..], b[5..]);
    MonthDayOrder(a, b);
  }

  /** After the year, the text `<` is the order of month, then day. */
  lemma MonthDayOrder(a: string, b: string)
    requires IsDateText(a) && IsDateText(b)
    ensures StrLess(a[5..], b[5..]) <==> Month(a) < Month(b) || (Month(a) == Month(b) && Day(a) < Day(b))
  {
    DigitsOf(a, 5, 7);
    DigitsOf(b, 5, 7);
    DigitsOf(a, 8, 10);
    DigitsOf(b, 8, 10);
    DigitBlock(a[5..7], b[5..7]);
    DigitBlock(a[8..], b[8..]);
    assert a[5..] == a[5..7] + a[7..] && b[5..] == b[5..7] + b[7..];
    StrLessConcat(a[5..7], a[7..], b[5..7], b[7..]);
    assert a[7..] == ['-'] + a[8..] && b[7..] == ['-'] + b[8..];
    SameSeparator('-', a[8..], b[8..]);
  }

  /** Over well-formed dates, the sweep deletes exactly the bookings of
      earlier calendar days. */
  lemma SweepRemovesPastDays(bs: seq<Booking>, today: string)
    requires IsDateText(today)
    requires forall b :: b in bs ==> IsDateText(b.date)
    ensures forall b :: b in bs ==> (b in Current(bs, today) <==> !CalendarBefore(b.date, today))
  {
    forall b | b in bs ensures b in Current(bs, today) <==> !CalendarBefore(b.date, today) {
      DateTextOrder(b.date, today);
    }
  }
}
