/**
 * Values and string primitives shared by every module of the stadium
 * reservation model: optional values, HTTP-style replies, and the parts of
 * JavaScript's string library the application relies on (trim, split,
 * ASCII case mapping, decimal rendering, and `<` on strings).
 */
module Common {

  datatype Option<+T> = None | Some(value: T)

  /** The reply of a route handler: a 200 with a body, or an error status
      with the `error` text and the `details` list of the JSON error body
      (empty when the body carries no details). */
  datatype Response<+T> = Ok(body: T) | Fail(status: int, error: string, details: seq<string>)

  /** What a client's fetch produced: an exception, a response that is
      not ok, or the JSON list of an ok response. */
  datatype Reply<+T> = Raised | NotOk | Listed(items: seq<T>)

  /** What a client's POST to `/api/bookings` produced: an exception (with
      its message), a response that is not ok (with the `error` of its
      JSON body, if any), or the created booking's id. */
  datatype BookingReply = BookingRaised(message: string) | BookingRefused(error: Option<string>)
                        | BookingCreated(id: string)

  /** An optional text that is present and not "" (JavaScript truthiness). */
  predicate Given(p: Option<string>) { p.Some? && p.value != "" }

  /** `x || d` for a stored number: a missing value and 0 are falsy. */
  function NumOr(x: Option<int>, d: int): (r: int)
    ensures x.Some? && x.value != 0 ==> r == x.value
    ensures x.None? || x.value == 0 ==> r == d
  {
    if x.Some? && x.value != 0 then x.value else d
  }

  /** `x || d` for a stored string: a missing value and "" are falsy. */
  function TextOr(x: Option<string>, d: string): (r: string)
    ensures x.Some? && x.value != "" ==> r == x.value
    ensures x.None? || x.value == "" ==> r == d
  {
    if x.Some? && x.value != "" then x.value else d
  }

  /** A code point that String.prototype.trim removes and `\s` matches:
      the ECMAScript WhiteSpace and LineTerminator characters. */
  predicate IsJsSpace(c: char) {
    c == '\t' || c == '\n' || c == '\U{B}' || c == '\U{C}' || c == '\r' || c == ' '
    || c == '\U{A0}' || c == '\U{1680}' || ('\U{2000}' <= c <= '\U{200A}')
    || c == '\U{2028}' || c == '\U{2029}' || c == '\U{202F}' || c == '\U{205F}'
    || c == '\U{3000}' || c == '\U{FEFF}'
  }

  /** `String.prototype.length`: UTF-16 code units, two for a code point
      outside the Basic Multilingual Plane. */
  function Utf16Length(s: string): (n: nat)
    ensures |s| <= n <= 2 * |s|
    ensures (forall i :: 0 <= i < |s| ==> s[i] < '\U{10000}') ==> n == |s|
  {
    if s == [] then 0 else (if s[0] < '\U{10000}' then 1 else 2) + Utf16Length(s[1..])
  }

  predicate IsDigit(c: char) { '0' <= c <= '9' }

  predicate IsUpperAscii(c: char) { 'A' <= c <= 'Z' }

  predicate IsLowerAscii(c: char) { 'a' <= c <= 'z' }

  function ToUpperAscii(c: char): (r: char)
    ensures IsLowerAscii(c) ==> IsUpperAscii(r)
    ensures !IsLowerAscii(c) ==> r == c
  {
    if IsLowerAscii(c) then (c as int - 32) as char else c
  }

  function ToLowerAscii(c: char): (r: char)
    ensures IsUpperAscii(c) ==> IsLowerAscii(r)
    ensures !IsUpperAscii(c) ==> r == c
  {
    if IsUpperAscii(c) then (c as int + 32) as char else c
  }

  function LowerAscii(s: string): (r: string)
    ensures |r| == |s|
    ensures forall i :: 0 <= i < |s| ==> r[i] == ToLowerAscii(s[i])
  {
    if s == [] then [] else [ToLowerAscii(s[0])] + LowerAscii(s[1..])
  }

  /** String.prototype.trimStart. */
  function TrimStart(s: string): (r: string)
    ensures |r| <= |s| && r == s[|s| - |r|..]
    ensures r == [] || !IsJsSpace(r[0])
    ensures forall i :: 0 <= i < |s| - |r| ==> IsJsSpace(s[i])
  {
    if |s| > 0 && IsJsSpace(s[0]) then TrimStart(s[1..]) else s
  }

  /** String.prototype.trimEnd. */
  function TrimEnd(s: string): (r: string)
    ensures |r| <= |s| && r == s[..|r|]
    ensures r == [] || !IsJsSpace(r[|r| - 1])
    ensures forall i :: |r| <= i < |s| ==> IsJsSpace(s[i])
  {
    if |s| > 0 && IsJsSpace(s[|s| - 1]) then TrimEnd(s[..|s| - 1]) else s
  }

  /** String.prototype.trim: no whitespace at either end of the result
      (`TrimCutsOnlySpace` says what is cut). */
  function Trim(s: string): (r: string)
    ensures |r| <= |s|
    ensures r == s || |r| < |s|
    ensures r == [] || (!IsJsSpace(r[0]) && !IsJsSpace(r[|r| - 1]))
    ensures forall c :: c in r ==> c in s
  {
    TrimEnd(TrimStart(s))
  }

  /** Trimming keeps a slice of the text and cuts only whitespace on either
      side of it; with the ends of the slice not whitespace, this pins the
      result. */
  lemma TrimCutsOnlySpace(s: string)
    ensures exists a, b :: (0 <= a <= b <= |s| && Trim(s) == s[a..b]
                            && (forall i :: 0 <= i < a ==> IsJsSpace(s[i]))
                            && (forall i :: b <= i < |s| ==> IsJsSpace(s[i])))
  {
    var t := TrimStart(s);
    var a := |s| - |t|;
    assert Trim(s) == s[a..a + |Trim(s)|];
  }

  /** Trimming a string with no whitespace at its ends changes nothing. */
  lemma TrimNoop(s: string)
    requires s == [] || (!IsJsSpace(s[0]) && !IsJsSpace(s[|s| - 1]))
    ensures Trim(s) == s
  {
  }

  /** `.replace(/[<>]/g, '')`: no bracket is left (`RemoveAnglesKeepsOthers`
      and `RemoveAnglesConcat` say which characters stay, and in what
      order). */
  function RemoveAngles(s: string): (r: string)
    ensures '<' !in r && '>' !in r
    ensures |r| <= |s|
    ensures r == s || |r| < |s|
    ensures forall c :: c in r ==> c in s
    ensures '<' !in s && '>' !in s ==> r == s
  {
    if s == [] then []
    else if s[0] == '<' || s[0] == '>' then RemoveAngles(s[1..])
    else
      assert s == [s[0]] + s[1..];
      [s[0]] + RemoveAngles(s[1..])
  }

  /** Every character other than a bracket is kept as often as it occurs. */
  lemma {:induction false} RemoveAnglesKeepsOthers(s: string, c: char)
    requires c != '<' && c != '>'
    ensures Count(RemoveAngles(s), c) == Count(s, c)
  {
    if s != [] {
      RemoveAnglesKeepsOthers(s[1..], c);
      if s[0] != '<' && s[0] != '>' {
        assert ([s[0]] + RemoveAngles(s[1..]))[1..] == RemoveAngles(s[1..]);
      }
    }
  }

  /** The removal works piece by piece, so the kept characters stay in
      their order. */
  lemma {:induction false} RemoveAnglesConcat(a: string, b: string)
    ensures RemoveAngles(a + b) == RemoveAngles(a) + RemoveAngles(b)
  {
    if a == [] {
      assert a + b == b;
    } else {
      var c, rest := a[0], a[1..];
      assert a == [c] + rest && a + b == [c] + (rest + b);
      RemoveAnglesConcat(rest, b);
      RemoveAnglesHead(c, rest);
      RemoveAnglesHead(c, rest + b);
      ConcatAssoc(if c == '<' || c == '>' then [] else [c], RemoveAngles(rest), RemoveAngles(b));
    }
  }

  lemma ConcatAssoc(x: string, y: string, z: string)
    ensures x + (y + z) == (x + y) + z
  {
  }

  /** One removal step: the head is dropped when it is a bracket. */
  lemma RemoveAnglesHead(c: char, s: string)
    ensures RemoveAngles([c] + s) == (if c == '<' || c == '>' then [] else [c]) + RemoveAngles(s)
  {
    assert ([c] + s)[1..] == s;
  }

  /** Number of occurrences of `c` in `s`. */
  function Count(s: string, c: char): (n: nat)
    ensures n <= |s|
    ensures n == 0 <==> c !in s
  {
    if s == [] then 0 else (if s[0] == c then 1 else 0) + Count(s[1..], c)
  }

  /** String.prototype.split with a one-character separator. */
  function Split(s: string, sep: char): (parts: seq<string>)
    ensures |parts| == Count(s, sep) + 1
    ensures forall p :: p in parts ==> sep !in p
  {
    if s == [] then [""]
    else
      var rest := Split(s[1..], sep);
      if s[0] == sep then [""] + rest else [[s[0]] + rest[0]] + rest[1..]
  }

  /** Array.prototype.join with a one-character separator. */
  function Join(parts: seq<string>, sep: string): string
  {
    if parts == [] then ""
    else if |parts| == 1 then parts[0]
    else parts[0] + sep + Join(parts[1..], sep)
  }

  /** A string without the separator splits into itself alone. */
  lemma {:induction false} SplitWithout(s: string, sep: char)
    requires sep !in s
    ensures Split(s, sep) == [s]
  {
    if s != [] {
      SplitWithout(s[1..], sep);
      assert [s[0]] + s[1..] == s;
    }
  }

  /** Splitting `a + sep + b` where `a` holds no separator peels `a` off. */
  lemma {:induction false} SplitCons(a: string, sep: char, b: string)
    requires sep !in a
    ensures Split(a + [sep] + b, sep) == [a] + Split(b, sep)
  {
    var s := a + [sep] + b;
    if a == [] {
      assert s == [sep] + b;
      assert s[1..] == b;
    } else {
      assert s[0] == a[0] && s[0] != sep;
      assert s[1..] == a[1..] + [sep] + b;
      SplitCons(a[1..], sep, b);
      var rest := Split(s[1..], sep);
      assert rest == [a[1..]] + Split(b, sep);
      assert rest[0] == a[1..] && rest[1..] == Split(b, sep);
      assert [a[0]] + a[1..] == a;
      assert Split(s, sep) == [[s[0]] + rest[0]] + rest[1..];
    }
  }

  /** Joining the pieces of a split restores the string. */
  lemma {:induction false} JoinSplit(s: string, sep: char)
    ensures Join(Split(s, sep), [sep]) == s
  {
    if s != [] {
      JoinSplit(s[1..], sep);
      if s[0] == sep {
        JoinSplitAtSeparator(s, sep);
      } else {
        JoinSplitInsidePiece(s, sep);
      }
    }
  }

  /** The step of `JoinSplit` for a string that starts with the separator. */
  lemma JoinSplitAtSeparator(s: string, sep: char)
    requires s != [] && s[0] == sep && Join(Split(s[1..], sep), [sep]) == s[1..]
    ensures Join(Split(s, sep), [sep]) == s
  {
    var rest := Split(s[1..], sep);
    assert Split(s, sep) == [""] + rest;
    JoinEmptyHead(rest, [sep]);
    assert [s[0]] + s[1..] == s;
  }

  /** The step of `JoinSplit` for a string that starts inside a piece. */
  lemma JoinSplitInsidePiece(s: string, sep: char)
    requires s != [] && s[0] != sep && Join(Split(s[1..], sep), [sep]) == s[1..]
    ensures Join(Split(s, sep), [sep]) == s
  {
    var rest := Split(s[1..], sep);
    assert Split(s, sep) == [[s[0]] + rest[0]] + rest[1..];
    JoinExtendHead(s[0], rest, [sep]);
    assert [s[0]] + s[1..] == s;
  }

  /** An empty first piece contributes only its separator. */
  lemma JoinEmptyHead(rest: seq<string>, sep: string)
    requires rest != []
    ensures Join([""] + rest, sep) == sep + Join(rest, sep)
  {
    assert ([""] + rest)[1..] == rest;
  }

  /** A character put in front of the first piece comes first in the join. */
  lemma JoinExtendHead(c: char, rest: seq<string>, sep: string)
    requires rest != []
    ensures Join([[c] + rest[0]] + rest[1..], sep) == [c] + Join(rest, sep)
  {
    var parts := [[c] + rest[0]] + rest[1..];
    if |rest| == 1 {
      assert parts == [[c] + rest[0]];
    } else {
      assert parts[0] == [c] + rest[0] && parts[1..] == rest[1..];
      assert Join(parts, sep) == ([c] + rest[0]) + sep + Join(rest[1..], sep);
    }
  }

  /** Last element of `key.split('.')`, as `Array.prototype.pop` returns it. */
  function LastSegment(s: string, sep: char): (r: string)
    ensures sep !in r
    ensures sep !in s ==> r == s
  {
    var parts := Split(s, sep);
    assert sep !in s ==> parts == [s] by {
      if sep !in s {
        SplitWithout(s, sep);
      }
    }
    parts[|parts| - 1]
  }

  function DigitChar(d: nat): (c: char)
    requires d < 10
    ensures IsDigit(c)
  {
    ('0' as int + d) as char
  }

  /** Decimal rendering of a natural number, as JavaScript prints it. */
  function NatToString(n: nat): (r: string)
    ensures |r| >= 1
    ensures forall c :: c in r ==> IsDigit(c)
  {
    if n < 10 then [DigitChar(n)] else NatToString(n / 10) + [DigitChar(n % 10)]
  }

  /** Decimal rendering of an integer, with a leading '-' when negative. */
  function IntToString(i: int): (r: string)
    ensures i >= 0 ==> r == NatToString(i)
    ensures i < 0 ==> r == "-" + NatToString(-i)
  {
    if i >= 0 then NatToString(i) else "-" + NatToString(-i)
  }

  function DigitValue(c: char): (d: nat)
    requires IsDigit(c)
    ensures d < 10
  {
    c as int - '0' as int
  }

  /** The value of a string of decimal digits. */
  function DigitsValue(s: string): (v: nat)
    requires forall c :: c in s ==> IsDigit(c)
  {
    if s == [] then 0 else DigitsValue(s[..|s| - 1]) * 10 + DigitValue(s[|s| - 1])
  }

  /** `a < b` on JavaScript strings and Firestore string fields:
      lexicographic order of the characters, a proper prefix first. */
  predicate StrLess(a: string, b: string) {
    if a == [] then b != []
    else if b == [] then false
    else if a[0] != b[0] then a[0] < b[0]
    else StrLess(a[1..], b[1..])
  }

  lemma {:induction false} StrLessIrreflexive(a: string)
    ensures !StrLess(a, a)
  {
    if a != [] {
      StrLessIrreflexive(a[1..]);
    }
  }

  lemma {:induction false} StrLessTransitive(a: string, b: string, c: string)
    requires StrLess(a, b) && StrLess(b, c)
    ensures StrLess(a, c)
  {
    if a != [] && b != [] && c != [] && a[0] == b[0] && b[0] == c[0] {
      StrLessTransitive(a[1..], b[1..], c[1..]);
    }
  }

  lemma {:induction false} StrLessTotal(a: string, b: string)
    ensures a == b || StrLess(a, b) || StrLess(b, a)
  {
    if a != [] && b != [] && a[0] == b[0] {
      StrLessTotal(a[1..], b[1..]);
      if a[1..] == b[1..] {
        assert a == [a[0]] + a[1..] && b == [b[0]] + b[1..];
      }
    }
  }

  lemma {:induction false} StrLessAsymmetric(a: string, b: string)
    requires StrLess(a, b)
    ensures !StrLess(b, a)
  {
    if StrLess(b, a) {
      StrLessTransitive(a, b, a);
      StrLessIrreflexive(a);
    }
  }

  /** Comparing two strings made of blocks of equal length compares the
      first blocks, then the rest. */
  lemma {:induction false} StrLessConcat(a1: string, a2: string, b1: string, b2: string)
    requires |a1| == |b1|
    ensures StrLess(a1 + a2, b1 + b2) <==> StrLess(a1, b1) || (a1 == b1 && StrLess(a2, b2))
  {
    if a1 != [] {
      assert (a1 + a2)[0] == a1[0] && (b1 + b2)[0] == b1[0];
      assert (a1 + a2)[1..] == a1[1..] + a2;
      assert (b1 + b2)[1..] == b1[1..] + b2;
      StrLessConcat(a1[1..], a2, b1[1..], b2);
      if a1[0] == b1[0] && a1[1..] == b1[1..] {
        assert a1 == [a1[0]] + a1[1..] && b1 == [b1[0]] + b1[1..];
      }
    } else {
      assert a1 + a2 == a2 && b1 + b2 == b2;
    }
  }

  /** The value of a digit string is below 10 to the power of its length. */
  function Pow10(n: nat): (p: nat)
    ensures p >= 1
  {
    if n == 0 then 1 else 10 * Pow10(n - 1)
  }

  lemma {:induction false} DigitsValueBound(s: string)
    requires forall c :: c in s ==> IsDigit(c)
    ensures DigitsValue(s) < Pow10(|s|)
  {
    if s != [] {
      var t := s[..|s| - 1];
      DigitsValueBound(t);
      var p := Pow10(|t|);
      assert DigitsValue(t) + 1 <= p;
      assert DigitsValue(t) * 10 + 10 <= p * 10;
    }
  }

  /** A digit string's value: its first digit, then the rest. */
  lemma {:induction false} DigitsValueFront(s: string)
    requires s != [] && forall c :: c in s ==> IsDigit(c)
    ensures DigitsValue(s) == DigitValue(s[0]) * Pow10(|s| - 1) + DigitsValue(s[1..])
  {
    if |s| == 1 {
      assert s[..0] == [] && s[1..] == [];
    } else {
      var t := s[..|s| - 1];
      assert t[0] == s[0];
      assert t[1..] == s[1..][..|s[1..]| - 1];
      DigitsValueFront(t);
      assert s[1..][|s[1..]| - 1] == s[|s| - 1];
      var d := DigitValue(s[0]);
      var q := Pow10(|t| - 1);
      assert DigitsValue(s) == (d * q + DigitsValue(t[1..])) * 10 + DigitValue(s[|s| - 1]);
      ShiftDigit(d, q, DigitsValue(t[1..]), DigitValue(s[|s| - 1]));
    }
  }

  lemma ShiftDigit(d: int, q: int, rest: int, last: int)
    ensures (d * q + rest) * 10 + last == d * (q * 10) + (rest * 10 + last)
  {
  }

  /** `da * p + x < db * p + y` when `da < db` and `x, y` are below `p`. */
  lemma LeadingDigitDecides(da: nat, db: nat, p: nat, x: nat, y: nat)
    requires da < db && x < p && y < p
    ensures da * p + x < db * p + y
  {
    var k := db - da;
    assert db * p == da * p + k * p;
    assert k * p == (k - 1) * p + p;
    assert (k - 1) * p >= 0;
  }

  /** For digit strings of equal length, `<` on the text is `<` on the
      numbers they denote. */
  lemma {:induction false} StrLessDigits(a: string, b: string)
    requires |a| == |b|
    requires forall c :: c in a ==> IsDigit(c)
    requires forall c :: c in b ==> IsDigit(c)
    ensures StrLess(a, b) <==> DigitsValue(a) < DigitsValue(b)
  {
    if a != [] {
      DigitsValueFront(a);
      DigitsValueFront(b);
      DigitsValueBound(a[1..]);
      DigitsValueBound(b[1..]);
      var p := Pow10(|a| - 1);
      var da := DigitValue(a[0]);
      var db := DigitValue(b[0]);
      if a[0] == b[0] {
        StrLessDigits(a[1..], b[1..]);
      } else if a[0] < b[0] {
        LeadingDigitDecides(da, db, p, DigitsValue(a[1..]), DigitsValue(b[1..]));
      } else {
        LeadingDigitDecides(db, da, p, DigitsValue(b[1..]), DigitsValue(a[1..]));
      }
    }
  }

  /** "Not before" is transitive too: `!(a < b)` and `!(b < c)` give `!(a < c)`. */
  lemma NotLessTransitive(a: string, b: string, c: string)
    requires !StrLess(a, b) && !StrLess(b, c)
    ensures !StrLess(a, c)
  {
    StrLessTotal(a, b);
    if StrLess(a, c) && a != b {
      StrLessTransitive(b, a, c);
    }
  }

  // ---------------------------------------------------------------------
  // Stable descending sort by a string key (`Array.prototype.sort` is
  // stable; the comparators of the application order by date, newest first)

  predicate SortedDesc<T>(xs: seq<T>, key: T -> string) {
    forall i, j :: 0 <= i < j < |xs| ==> !StrLess(key(xs[i]), key(xs[j]))
  }

  /** Insert `x` before the first element whose key is not after its own. */
  function InsertDesc<T>(x: T, ys: seq<T>, key: T -> string): (r: seq<T>)
    ensures multiset(r) == multiset(ys) + multiset{x}
    ensures |r| == |ys| + 1
  {
    if ys == [] || !StrLess(key(x), key(ys[0])) then [x] + ys
    else
      assert ys == [ys[0]] + ys[1..];
      [ys[0]] + InsertDesc(x, ys[1..], key)
  }

  /** Insertion sort, newest first; equal keys keep their order. */
  function SortDesc<T>(xs: seq<T>, key: T -> string): (r: seq<T>)
    ensures multiset(r) == multiset(xs)
    ensures |r| == |xs|
  {
    if xs == [] then []
    else
      assert xs == [xs[0]] + xs[1..];
      InsertDesc(xs[0], SortDesc(xs[1..], key), key)
  }

  lemma {:induction false} InsertDescSorted<T>(x: T, ys: seq<T>, key: T -> string)
    requires SortedDesc(ys, key)
    ensures SortedDesc(InsertDesc(x, ys, key), key)
  {
    if ys == [] || !StrLess(key(x), key(ys[0])) {
      forall j | 0 <= j < |ys| ensures !StrLess(key(x), key(ys[j])) {
        if j > 0 {
          NotLessTransitive(key(x), key(ys[0]), key(ys[j]));
        }
      }
      ConsSorted(x, ys, key);
    } else {
      var tail := InsertDesc(x, ys[1..], key);
      InsertDescSorted(x, ys[1..], key);
      forall j | 0 <= j < |tail| ensures !StrLess(key(ys[0]), key(tail[j])) {
        assert tail[j] in multiset(ys[1..]) + multiset{x};
        if tail[j] == x {
          StrLessAsymmetric(key(x), key(ys[0]));
        } else {
          assert tail[j] in ys[1..];
          var k :| 0 <= k < |ys[1..]| && ys[1..][k] == tail[j];
          assert ys[k + 1] == tail[j];
        }
      }
      ConsSorted(ys[0], tail, key);
    }
  }

  /** An element whose key is not before any key of a sorted list can go
      in front of it. */
  lemma ConsSorted<T>(y: T, tail: seq<T>, key: T -> string)
    requires SortedDesc(tail, key)
    requires forall j :: 0 <= j < |tail| ==> !StrLess(key(y), key(tail[j]))
    ensures SortedDesc([y] + tail, key)
  {
    var r := [y] + tail;
    forall i, j | 0 <= i < j < |r| ensures !StrLess(key(r[i]), key(r[j])) {
      assert r[j] == tail[j - 1];
      if i > 0 {
        assert r[i] == tail[i - 1];
      }
    }
  }


  /** The sort yields a newest-first ordering of the same elements. */
  lemma {:induction false} SortDescSorted<T>(xs: seq<T>, key: T -> string)
    ensures SortedDesc(SortDesc(xs, key), key)
  {
    if xs != [] {
      SortDescSorted(xs[1..], key);
      InsertDescSorted(xs[0], SortDesc(xs[1..], key), key);
    }
  }

  /** A list already newest first is left as it is. */
  lemma {:induction false} SortDescKeepsSorted<T>(xs: seq<T>, key: T -> string)
    requires SortedDesc(xs, key)
    ensures SortDesc(xs, key) == xs
  {
    if xs != [] {
      assert SortedDesc(xs[1..], key) by {
        forall i, j | 0 <= i < j < |xs[1..]| ensures !StrLess(key(xs[1..][i]), key(xs[1..][j])) {
          assert xs[1..][i] == xs[i + 1] && xs[1..][j] == xs[j + 1];
        }
      }
      SortDescKeepsSorted(xs[1..], key);
      assert xs == [xs[0]] + xs[1..];
    }
  }
}
