/**
 * Request validation and sanitisation (lib/validation.ts).
 *
 * A request body is a JSON value. A zod object schema is a list of fields,
 * each with a type, the refinements zod runs on a value of that type, and
 * whether the field may be absent or has a default. Parsing collects one
 * issue per failed rule, field by field in declaration order; `ValidateData`
 * turns them into the "path: message" strings the routes send back.
 */
module Validation {
  import opened Common

  datatype Json =
    | JNull
    | JBool(b: bool)
    | JNum(n: int)
    | JStr(s: string)
    | JArr(items: seq<Json>)
    | JObj(fields: map<string, Json>)

  datatype Pattern = DatePattern | TimePattern

  /** A refinement zod runs on a value of the right type, with its message. */
  datatype Check =
    | MinLength(n: nat, message: string)
    | MaxLength(n: nat, message: string)
    | Matches(pattern: Pattern, message: string)
    | AtLeast(bound: int, message: string)
    | AtMost(bound: int, message: string)

  datatype Kind = StringKind | NumberKind | BooleanKind | EnumKind(options: seq<string>) | StringArrayKind

  datatype Field = Field(name: string, kind: Kind, checks: seq<Check>, optional: bool, default: Option<Json>)

  datatype Issue = Issue(path: seq<string>, message: string)

  /** What `schema.parse` does: return the parsed object, throw a ZodError
      carrying its issues, or throw anything else. */
  datatype ParseResult = Parsed(data: map<string, Json>) | Rejected(issues: seq<Issue>) | Threw

  /** The result object of `validateData(schema)(data)`. */
  datatype Validated = Valid(data: map<string, Json>) | Invalid(errors: seq<string>)

  // ---------------------------------------------------------------------
  // The two regular expressions of the schemas

  /** `^\d{4}-\d{2}-\d{2}$`; `\d` is an ASCII digit (no `u` flag). */
  predicate IsDateText(s: string) {
    |s| == 10 && s[4] == '-' && s[7] == '-'
    && forall i :: 0 <= i < 10 && i != 4 && i != 7 ==> IsDigit(s[i])
  }

  /** The `:[0-5][0-9]$` tail of the time pattern. */
  predicate IsMinutesTail(t: string) {
    |t| == 3 && t[0] == ':' && '0' <= t[1] <= '5' && IsDigit(t[2])
  }

  /** `^([0-1]?[0-9]|2[0-3]):[0-5][0-9]$`: the first alternative takes a
      one-digit hour or a two-digit hour starting with 0 or 1, the second
      an hour from 20 to 23. */
  predicate IsTimeText(s: string) {
    (|s| == 4 && IsDigit(s[0]) && IsMinutesTail(s[1..]))
    || (|s| == 5
        && (('0' <= s[0] <= '1' && IsDigit(s[1])) || (s[0] == '2' && '0' <= s[1] <= '3'))
        && IsMinutesTail(s[2..]))
  }

  predicate MatchesPattern(p: Pattern, s: string) {
    match p
    case DatePattern => IsDateText(s)
    case TimePattern => IsTimeText(s)
  }

  lemma OneDigitValue(t: string)
    requires |t| == 1 && IsDigit(t[0])
    ensures DigitsValue(t) == DigitValue(t[0])
  {
    assert t[..0] == [];
  }

  lemma TwoDigitsValue(t: string)
    requires |t| == 2 && IsDigit(t[0]) && IsDigit(t[1])
    ensures DigitsValue(t) == DigitValue(t[0]) * 10 + DigitValue(t[1])
  {
    assert t[..1] == [t[0]];
    OneDigitValue(t[..1]);
  }

  /** The time pattern accepts exactly a one- or two-digit hour below 24,
      a colon and two-digit minutes below 60. */
  lemma TimeTextMeaning(s: string)
    ensures IsTimeText(s) <==>
      (|s| == 4 || |s| == 5)
      && s[|s| - 3] == ':'
      && (forall i :: 0 <= i < |s| && i != |s| - 3 ==> IsDigit(s[i]))
      && DigitsValue(s[..|s| - 3]) < 24
      && DigitsValue(s[|s| - 2..]) < 60
  {
    if (|s| == 4 || |s| == 5) && s[|s| - 3] == ':'
       && (forall i :: 0 <= i < |s| && i != |s| - 3 ==> IsDigit(s[i])) {
      var h := s[..|s| - 3];
      var mm := s[|s| - 2..];
      TwoDigitsValue(mm);
      if |s| == 5 {
        TwoDigitsValue(h);
      } else {
        OneDigitValue(h);
      }
    }
  }

  /** The date pattern checks the shape only: month 13, day 45 passes. */
  lemma DateTextHasNoRangeCheck()
    ensures IsDateText("2025-13-45")
  {
  }

  /** A one-digit hour passes and hour 24 does not. */
  lemma TimeTextExamples()
    ensures IsTimeText("7:05") && IsTimeText("23:59")
    ensures !IsTimeText("24:00") && !IsTimeText("12:60") && !IsTimeText("07:5")
  {
  }

  // ---------------------------------------------------------------------
  // Parsing against a schema

  /** zod's name for the type of a received value. */
  function ReceivedType(v: Json): string {
    match v
    case JNull => "null"
    case JBool(_) => "boolean"
    case JNum(_) => "number"
    case JStr(_) => "string"
    case JArr(_) => "array"
    case JObj(_) => "object"
  }

  /** zod's `joinValues`: each option quoted, separated by " | ". */
  function OptionsText(options: seq<string>): string {
    if options == [] then ""
    else if |options| == 1 then "'" + options[0] + "'"
    else "'" + options[0] + "' | " + OptionsText(options[1..])
  }

  function ExpectedType(k: Kind): string {
    match k
    case StringKind => "string"
    case NumberKind => "number"
    case BooleanKind => "boolean"
    case EnumKind(options) => OptionsText(options)
    case StringArrayKind => "array"
  }

  predicate HasKind(k: Kind, v: Json) {
    match k
    case StringKind => v.JStr?
    case NumberKind => v.JNum?
    case BooleanKind => v.JBool?
    case EnumKind(_) => v.JStr?
    case StringArrayKind => v.JArr?
  }

  predicate Holds(c: Check, v: Json) {
    match c
    case MinLength(n, _) => v.JStr? && Utf16Length(v.s) >= n
    case MaxLength(n, _) => v.JStr? && Utf16Length(v.s) <= n
    case Matches(p, _) => v.JStr? && MatchesPattern(p, v.s)
    case AtLeast(b, _) => v.JNum? && v.n >= b
    case AtMost(b, _) => v.JNum? && v.n <= b
  }

  predicate ChecksHold(checks: seq<Check>, v: Json) {
    checks == [] || (Holds(checks[0], v) && ChecksHold(checks[1..], v))
  }

  /** One issue per failed refinement, in the order they are declared. */
  function CheckIssues(path: seq<string>, checks: seq<Check>, v: Json): (r: seq<Issue>)
    ensures r == [] <==> ChecksHold(checks, v)
    ensures forall i :: i in r ==> i.path == path
  {
    if checks == [] then []
    else
      (if Holds(checks[0], v) then [] else [Issue(path, checks[0].message)])
      + CheckIssues(path, checks[1..], v)
  }

  /** The issues of the elements of a `z.array(z.string())` value, each at
      path `[name, index]`; `from` is the index of `items[0]`. */
  function ElementIssues(name: string, items: seq<Json>, from: nat): (r: seq<Issue>)
    ensures r == [] <==> forall j :: 0 <= j < |items| ==> items[j].JStr?
    ensures forall i :: i in r ==> |i.path| == 2 && i.path[0] == name
  {
    if items == [] then []
    else
      (if items[0].JStr? then []
       else [Issue([name, NatToString(from)], "Expected string, received " + ReceivedType(items[0]))])
      + ElementIssues(name, items[1..], from + 1)
  }

  /** The issues of a value that is present. */
  function ValueIssues(f: Field, v: Json): (r: seq<Issue>)
    ensures forall i :: i in r ==> |i.path| >= 1 && i.path[0] == f.name
  {
    if !HasKind(f.kind, v) then
      [Issue([f.name], "Expected " + ExpectedType(f.kind) + ", received " + ReceivedType(v))]
    else
      match f.kind
      case EnumKind(options) =>
        if v.s in options then []
        else [Issue([f.name], "Invalid enum value. Expected " + OptionsText(options) + ", received '" + v.s + "'")]
      case StringArrayKind => ElementIssues(f.name, v.items, 0)
      case _ => CheckIssues([f.name], f.checks, v)
  }

  /** The issues of one field; `v` is None when the key is absent. */
  function FieldIssues(f: Field, v: Option<Json>): (r: seq<Issue>)
    ensures forall i :: i in r ==> |i.path| >= 1 && i.path[0] == f.name
  {
    match v
    case None => if f.optional || f.default.Some? then [] else [Issue([f.name], "Required")]
    case Some(x) => ValueIssues(f, x)
  }

  /** A field passes when it is absent and may be, or present with the
      right type, an allowed enum value, string elements, and every
      refinement holding. */
  predicate FieldAccepts(f: Field, v: Option<Json>) {
    match v
    case None => f.optional || f.default.Some?
    case Some(x) =>
      HasKind(f.kind, x)
      && (f.kind.EnumKind? ==> x.s in f.kind.options)
      && (f.kind.StringArrayKind? ==> forall j :: 0 <= j < |x.items| ==> x.items[j].JStr?)
      && (!f.kind.EnumKind? && !f.kind.StringArrayKind? ==> ChecksHold(f.checks, x))
  }

  lemma FieldIssuesMeaning(f: Field, v: Option<Json>)
    ensures FieldIssues(f, v) == [] <==> FieldAccepts(f, v)
  {
  }

  function Lookup(m: map<string, Json>, k: string): Option<Json> {
    if k in m then Some(m[k]) else None
  }

  /** The value a field contributes to the parsed object, if any. */
  function FieldOutput(f: Field, v: Option<Json>): Option<Json> {
    if v.Some? then v else f.default
  }

  function ShapeIssues(shape: seq<Field>, m: map<string, Json>): seq<Issue> {
    if shape == [] then []
    else FieldIssues(shape[0], Lookup(m, shape[0].name)) + ShapeIssues(shape[1..], m)
  }

  predicate AllAccept(shape: seq<Field>, m: map<string, Json>) {
    shape == [] || (FieldAccepts(shape[0], Lookup(m, shape[0].name)) && AllAccept(shape[1..], m))
  }

  function NamesOf(shape: seq<Field>): set<string> {
    set f | f in shape :: f.name
  }

  predicate DistinctNames(shape: seq<Field>) {
    forall i, j :: 0 <= i < j < |shape| ==> shape[i].name != shape[j].name
  }

  function FieldNamed(shape: seq<Field>, k: string): (f: Field)
    requires k in NamesOf(shape)
    ensures f in shape && f.name == k
  {
    if shape[0].name == k then shape[0] else FieldNamed(shape[1..], k)
  }

  /** The object zod returns: unknown keys dropped, defaults filled in,
      absent optional keys left out. */
  function ShapeData(shape: seq<Field>, m: map<string, Json>): map<string, Json> {
    map k | k in NamesOf(shape) && FieldOutput(FieldNamed(shape, k), Lookup(m, k)).Some?
      :: FieldOutput(FieldNamed(shape, k), Lookup(m, k)).value
  }

  /** `schema.parse(input)` for an object schema. */
  function Parse(shape: seq<Field>, input: Json): ParseResult {
    if !input.JObj? then Rejected([Issue([], "Expected object, received " + ReceivedType(input))])
    else
      var issues := ShapeIssues(shape, input.fields);
      if issues == [] then Parsed(ShapeData(shape, input.fields)) else Rejected(issues)
  }

  /** An object parses exactly when every field of the schema passes. */
  lemma {:induction false} ShapeIssuesEmpty(shape: seq<Field>, m: map<string, Json>)
    ensures ShapeIssues(shape, m) == [] <==> AllAccept(shape, m)
  {
    if shape != [] {
      FieldIssuesMeaning(shape[0], Lookup(m, shape[0].name));
      ShapeIssuesEmpty(shape[1..], m);
    }
  }

  /** Every issue of a rejected object names a field of the schema first,
      and every field that fails contributes at least one issue. */
  lemma {:induction false} ShapeIssuesNameFields(shape: seq<Field>, m: map<string, Json>)
    ensures forall i :: i in ShapeIssues(shape, m) ==> |i.path| >= 1 && i.path[0] in NamesOf(shape)
    ensures forall f :: f in shape && !FieldAccepts(f, Lookup(m, f.name)) ==>
      exists i :: i in ShapeIssues(shape, m) && i.path[0] == f.name
  {
    if shape != [] {
      ShapeIssuesNameFields(shape[1..], m);
      var head := FieldIssues(shape[0], Lookup(m, shape[0].name));
      var tail := ShapeIssues(shape[1..], m);
      assert ShapeIssues(shape, m) == head + tail;
      assert NamesOf(shape[1..]) <= NamesOf(shape) by {
        forall f | f in shape[1..] ensures f in shape { }
      }
      forall f | f in shape && !FieldAccepts(f, Lookup(m, f.name))
        ensures exists i :: i in ShapeIssues(shape, m) && i.path[0] == f.name
      {
        if f == shape[0] {
          FieldIssuesMeaning(f, Lookup(m, f.name));
          assert head[0] in ShapeIssues(shape, m);
        } else {
          assert f in shape[1..];
          var i :| i in tail && i.path[0] == f.name;
          assert i in ShapeIssues(shape, m);
        }
      }
    }
  }

  /** The parsed object keeps each present field's value unchanged, takes
      the default of an absent field that has one, and holds nothing else. */
  lemma ShapeDataMeaning(shape: seq<Field>, m: map<string, Json>, f: Field)
    requires DistinctNames(shape) && f in shape
    ensures f.name in m ==> f.name in ShapeData(shape, m) && ShapeData(shape, m)[f.name] == m[f.name]
    ensures f.name !in m && f.default.Some? ==>
      f.name in ShapeData(shape, m) && ShapeData(shape, m)[f.name] == f.default.value
    ensures f.name !in m && f.default.None? ==> f.name !in ShapeData(shape, m)
  {
    assert f.name in NamesOf(shape);
    var g := FieldNamed(shape, f.name);
    var i :| 0 <= i < |shape| && shape[i] == f;
    var j :| 0 <= j < |shape| && shape[j] == g;
    assert i == j;
  }

  /** The text `validateData` reports for an issue: "path.join('.'): message". */
  function IssueText(i: Issue): string {
    Join(i.path, ".") + ": " + i.message
  }

  /** `validateData(schema)(data)`, given what `schema.parse(data)` does. */
  function ValidateData(p: ParseResult): (r: Validated)
    ensures r.Valid? <==> p.Parsed?
    ensures p.Parsed? ==> r.data == p.data
    ensures p.Rejected? ==> r.Invalid? && |r.errors| == |p.issues|
    ensures p.Rejected? ==> forall k :: 0 <= k < |p.issues| ==>
      r.errors[k] == Join(p.issues[k].path, ".") + ": " + p.issues[k].message
    ensures p.Threw? ==> r.Invalid? && r.errors == ["Invalid data format"]
  {
    match p
    case Parsed(data) => Valid(data)
    case Rejected(issues) => Invalid(seq(|issues|, k requires 0 <= k < |issues| => IssueText(issues[k])))
    case Threw => Invalid(["Invalid data format"])
  }

  /** An issue whose path starts with a field name is reported under that
      name: the error text begins with it. */
  lemma IssueTextStartsWithField(i: Issue)
    requires |i.path| >= 1
    ensures |IssueText(i)| >= |i.path[0]| && IssueText(i)[..|i.path[0]|] == i.path[0]
  {
    if |i.path| > 1 {
      assert Join(i.path, ".") == i.path[0] + "." + Join(i.path[1..], ".");
    }
  }

  /** Validating an object: accepted exactly when every field passes; when
      rejected, every failing field is named at the head of some error. */
  lemma ValidateObject(shape: seq<Field>, m: map<string, Json>)
    ensures ValidateData(Parse(shape, JObj(m))).Valid? <==> AllAccept(shape, m)
    ensures forall f :: f in shape && !FieldAccepts(f, Lookup(m, f.name)) ==>
      ValidateData(Parse(shape, JObj(m))).Invalid?
      && (exists e :: e in ValidateData(Parse(shape, JObj(m))).errors
            && |e| >= |f.name| && e[..|f.name|] == f.name)
  {
    ShapeIssuesEmpty(shape, m);
    ShapeIssuesNameFields(shape, m);
    var issues := ShapeIssues(shape, m);
    forall f | f in shape && !FieldAccepts(f, Lookup(m, f.name))
      ensures ValidateData(Parse(shape, JObj(m))).Invalid?
      ensures exists e :: (e in ValidateData(Parse(shape, JObj(m))).errors
                           && |e| >= |f.name| && e[..|f.name|] == f.name)
    {
      var i :| i in issues && i.path[0] == f.name;
      var k :| 0 <= k < |issues| && issues[k] == i;
      IssueTextStartsWithField(i);
      assert ValidateData(Parse(shape, JObj(m))).errors[k] == IssueText(i);
    }
  }

  // ---------------------------------------------------------------------
  // The schemas

  const DateMessage := "Date must be in YYYY-MM-DD format"
  const TimeMessage := "Time must be in HH:MM format"

  function RequiredText(name: string, message: string): Field {
    Field(name, StringKind, [MinLength(1, message)], false, None)
  }

  function DateField(): Field { Field("date", StringKind, [Matches(DatePattern, DateMessage)], false, None) }

  function TimeField(): Field { Field("time", StringKind, [Matches(TimePattern, TimeMessage)], false, None) }

  /** `bookingSchema`. */
  function BookingShape(): seq<Field> {
    [ RequiredText("userId", "User ID is required"),
      RequiredText("stadiumId", "Stadium ID is required"),
      RequiredText("timeSlotId", "Time slot ID is required"),
      DateField(),
      TimeField() ]
  }

  const SkillLevels: seq<string> := ["beginner", "intermediate", "advanced", "any"]

  function Team2Field(): Field { Field("team2", StringKind, [], true, None) }

  function MaxPlayersField(): Field {
    Field("maxPlayers", NumberKind,
          [AtLeast(2, "Maximum players must be at least 2"), AtMost(50, "Maximum players cannot exceed 50")],
          false, None)
  }

  function CurrentPlayersField(): Field {
    Field("currentPlayers", NumberKind, [AtLeast(1, "Current players must be at least 1")], true, None)
  }

  function DescriptionField(): Field {
    Field("description", StringKind, [MaxLength(500, "Description cannot exceed 500 characters")], true, None)
  }

  function SkillLevelField(): Field { Field("skillLevel", EnumKind(SkillLevels), [], true, None) }

  function IsPublicField(): Field { Field("isPublic", BooleanKind, [], true, None) }

  /** `friendlyMatchSchema`, in two halves. */
  function FriendlyMatchShape(): seq<Field> {
    MatchHeadFields() + MatchTailFields()
  }

  function MatchHeadFields(): seq<Field> {
    [ RequiredText("hostId", "Host ID is required"),
      RequiredText("stadiumId", "Stadium ID is required"),
      DateField(),
      TimeField(),
      RequiredText("team1", "Team 1 name is required"),
      Team2Field() ]
  }

  function MatchTailFields(): seq<Field> {
    [ RequiredText("sportId", "Sport ID is required"),
      MaxPlayersField(),
      CurrentPlayersField(),
      DescriptionField(),
      SkillLevelField(),
      IsPublicField() ]
  }

  function CapacityField(): Field {
    Field("capacity", NumberKind, [AtLeast(1, "Capacity must be at least 1")], false, None)
  }

  function FacilitiesField(): Field { Field("facilities", StringArrayKind, [], true, None) }

  /** `stadiumSchema`. */
  function StadiumShape(): seq<Field> {
    [ RequiredText("name", "Stadium name is required"),
      RequiredText("location", "Location is required"),
      CapacityField(),
      FacilitiesField() ]
  }

  function DurationField(): Field {
    Field("duration", NumberKind, [AtLeast(30, "Duration must be at least 30 minutes")], false, None)
  }

  function IsActiveField(): Field { Field("isActive", BooleanKind, [], true, Some(JBool(true))) }

  /** `timeSlotSchema`; `isActive` defaults to true. */
  function TimeSlotShape(): seq<Field> {
    [ TimeField(), DurationField(), IsActiveField() ]
  }

  predicate HasText(m: map<string, Json>, k: string) { k in m && m[k].JStr? }

  predicate HasNonEmptyText(m: map<string, Json>, k: string) { HasText(m, k) && |m[k].s| >= 1 }

  predicate HasNumber(m: map<string, Json>, k: string) { k in m && m[k].JNum? }

  lemma RequiredTextAccepts(name: string, message: string, m: map<string, Json>)
    ensures FieldAccepts(RequiredText(name, message), Lookup(m, name)) <==> HasNonEmptyText(m, name)
  {
    if name in m {
      ChecksHoldOne(MinLength(1, message), m[name]);
    }
  }

  lemma ChecksHoldOne(c: Check, v: Json)
    ensures ChecksHold([c], v) <==> Holds(c, v)
  {
    assert [c][1..] == [];
  }

  lemma ChecksHoldTwo(c: Check, d: Check, v: Json)
    ensures ChecksHold([c, d], v) <==> Holds(c, v) && Holds(d, v)
  {
    assert [c, d][1..] == [d];
    ChecksHoldOne(d, v);
  }

  lemma PatternFieldsAccept(m: map<string, Json>)
    ensures FieldAccepts(DateField(), Lookup(m, "date")) <==> HasText(m, "date") && IsDateText(m["date"].s)
    ensures FieldAccepts(TimeField(), Lookup(m, "time")) <==> HasText(m, "time") && IsTimeText(m["time"].s)
  {
    if "date" in m {
      ChecksHoldOne(Matches(DatePattern, DateMessage), m["date"]);
    }
    if "time" in m {
      ChecksHoldOne(Matches(TimePattern, TimeMessage), m["time"]);
    }
  }

  lemma MatchFieldsAccept(m: map<string, Json>)
    ensures FieldAccepts(Team2Field(), Lookup(m, "team2")) <==> ("team2" in m ==> m["team2"].JStr?)
    ensures FieldAccepts(MaxPlayersField(), Lookup(m, "maxPlayers")) <==>
      HasNumber(m, "maxPlayers") && 2 <= m["maxPlayers"].n <= 50
    ensures FieldAccepts(CurrentPlayersField(), Lookup(m, "currentPlayers")) <==>
      ("currentPlayers" in m ==> m["currentPlayers"].JNum? && m["currentPlayers"].n >= 1)
    ensures FieldAccepts(DescriptionField(), Lookup(m, "description")) <==>
      ("description" in m ==> m["description"].JStr? && Utf16Length(m["description"].s) <= 500)
    ensures FieldAccepts(SkillLevelField(), Lookup(m, "skillLevel")) <==>
      ("skillLevel" in m ==> m["skillLevel"].JStr? && m["skillLevel"].s in SkillLevels)
    ensures FieldAccepts(IsPublicField(), Lookup(m, "isPublic")) <==> ("isPublic" in m ==> m["isPublic"].JBool?)
  {
    if "maxPlayers" in m {
      ChecksHoldTwo(MaxPlayersField().checks[0], MaxPlayersField().checks[1], m["maxPlayers"]);
    }
    if "currentPlayers" in m {
      ChecksHoldOne(CurrentPlayersField().checks[0], m["currentPlayers"]);
    }
    if "description" in m {
      ChecksHoldOne(DescriptionField().checks[0], m["description"]);
    }
  }

  lemma SlotAndStadiumFieldsAccept(m: map<string, Json>)
    ensures FieldAccepts(DurationField(), Lookup(m, "duration")) <==> HasNumber(m, "duration") && m["duration"].n >= 30
    ensures FieldAccepts(IsActiveField(), Lookup(m, "isActive")) <==> ("isActive" in m ==> m["isActive"].JBool?)
    ensures FieldAccepts(CapacityField(), Lookup(m, "capacity")) <==> HasNumber(m, "capacity") && m["capacity"].n >= 1
    ensures FieldAccepts(FacilitiesField(), Lookup(m, "facilities")) <==>
      ("facilities" in m ==>
         m["facilities"].JArr? && forall j :: 0 <= j < |m["facilities"].items| ==> m["facilities"].items[j].JStr?)
  {
    if "duration" in m {
      ChecksHoldOne(DurationField().checks[0], m["duration"]);
    }
    if "capacity" in m {
      ChecksHoldOne(CapacityField().checks[0], m["capacity"]);
    }
  }

  /** `AllAccept` over a schema written out field by field is the
      conjunction of the fields' acceptance. */
  lemma AllAccept1(a: Field, m: map<string, Json>)
    ensures AllAccept([a], m) <==> FieldAccepts(a, Lookup(m, a.name))
  {
    assert [a][1..] == [];
  }

  lemma AllAccept2(a: Field, b: Field, m: map<string, Json>)
    ensures AllAccept([a, b], m) <==> FieldAccepts(a, Lookup(m, a.name)) && AllAccept([b], m)
  {
    assert [a, b][1..] == [b];
  }

  lemma AllAccept3(a: Field, b: Field, c: Field, m: map<string, Json>)
    ensures AllAccept([a, b, c], m) <==> FieldAccepts(a, Lookup(m, a.name)) && AllAccept([b, c], m)
  {
    assert [a, b, c][1..] == [b, c];
  }

  lemma AllAccept4(a: Field, b: Field, c: Field, d: Field, m: map<string, Json>)
    ensures AllAccept([a, b, c, d], m) <==> FieldAccepts(a, Lookup(m, a.name)) && AllAccept([b, c, d], m)
  {
    assert [a, b, c, d][1..] == [b, c, d];
  }

  lemma AllAccept5(a: Field, b: Field, c: Field, d: Field, e: Field, m: map<string, Json>)
    ensures AllAccept([a, b, c, d, e], m) <==> FieldAccepts(a, Lookup(m, a.name)) && AllAccept([b, c, d, e], m)
  {
    assert [a, b, c, d, e][1..] == [b, c, d, e];
  }

  lemma AllAccept6(a: Field, b: Field, c: Field, d: Field, e: Field, f: Field, m: map<string, Json>)
    ensures AllAccept([a, b, c, d, e, f], m) <==> FieldAccepts(a, Lookup(m, a.name)) && AllAccept([b, c, d, e, f], m)
  {
    assert [a, b, c, d, e, f][1..] == [b, c, d, e, f];
  }

  /** Every field of a list of three to six accepts. */
  lemma AllAcceptThree(a: Field, b: Field, c: Field, m: map<string, Json>)
    ensures AllAccept([a, b, c], m) <==>
      FieldAccepts(a, Lookup(m, a.name)) && FieldAccepts(b, Lookup(m, b.name)) && FieldAccepts(c, Lookup(m, c.name))
  {
    AllAccept3(a, b, c, m);
    AllAccept2(b, c, m);
    AllAccept1(c, m);
  }

  lemma AllAcceptFour(a: Field, b: Field, c: Field, d: Field, m: map<string, Json>)
    ensures AllAccept([a, b, c, d], m) <==>
      FieldAccepts(a, Lookup(m, a.name)) && FieldAccepts(b, Lookup(m, b.name))
      && FieldAccepts(c, Lookup(m, c.name)) && FieldAccepts(d, Lookup(m, d.name))
  {
    AllAccept4(a, b, c, d, m);
    AllAcceptThree(b, c, d, m);
  }

  lemma AllAcceptFive(a: Field, b: Field, c: Field, d: Field, e: Field, m: map<string, Json>)
    ensures AllAccept([a, b, c, d, e], m) <==>
      FieldAccepts(a, Lookup(m, a.name)) && FieldAccepts(b, Lookup(m, b.name))
      && FieldAccepts(c, Lookup(m, c.name)) && FieldAccepts(d, Lookup(m, d.name))
      && FieldAccepts(e, Lookup(m, e.name))
  {
    AllAccept5(a, b, c, d, e, m);
    AllAcceptFour(b, c, d, e, m);
  }

  lemma AllAcceptSix(a: Field, b: Field, c: Field, d: Field, e: Field, f: Field, m: map<string, Json>)
    ensures AllAccept([a, b, c, d, e, f], m) <==>
      FieldAccepts(a, Lookup(m, a.name)) && FieldAccepts(b, Lookup(m, b.name))
      && FieldAccepts(c, Lookup(m, c.name)) && FieldAccepts(d, Lookup(m, d.name))
      && FieldAccepts(e, Lookup(m, e.name)) && FieldAccepts(f, Lookup(m, f.name))
  {
    AllAccept6(a, b, c, d, e, f, m);
    AllAcceptFive(b, c, d, e, f, m);
  }

  /** The names of `bookingSchema` are distinct. */
  lemma BookingShapeDistinct()
    ensures DistinctNames(BookingShape())
  {
    var s := BookingShape();
    assert s[0].name == "userId" && s[1].name == "stadiumId" && s[2].name == "timeSlotId";
    assert s[3].name == "date" && s[4].name == "time";
  }

  /** A validated object hands back the data zod builds from it. */
  lemma ValidatedData(shape: seq<Field>, m: map<string, Json>)
    requires ValidateData(Parse(shape, JObj(m))).Valid?
    ensures ValidateData(Parse(shape, JObj(m))).data == ShapeData(shape, m)
  {
  }

  /** A booking request that validates comes back with its five fields as
      they were sent. */
  lemma BookingData(m: map<string, Json>)
    requires ValidateData(Parse(BookingShape(), JObj(m))).Valid?
    ensures var d := ValidateData(Parse(BookingShape(), JObj(m))).data;
      "userId" in m && "userId" in d && d["userId"] == m["userId"]
      && "stadiumId" in m && "stadiumId" in d && d["stadiumId"] == m["stadiumId"]
      && "timeSlotId" in m && "timeSlotId" in d && d["timeSlotId"] == m["timeSlotId"]
      && "date" in m && "date" in d && d["date"] == m["date"]
  {
    var s := BookingShape();
    BookingShapeAccepts(m);
    BookingShapeDistinct();
    ValidatedData(s, m);
    ShapeDataMeaning(s, m, s[0]);
    ShapeDataMeaning(s, m, s[1]);
    ShapeDataMeaning(s, m, s[2]);
    ShapeDataMeaning(s, m, s[3]);
  }

  /** `bookingSchema` accepts an object exactly when the three ids are
      non-empty strings and date and time match their patterns. */
  lemma BookingShapeAccepts(m: map<string, Json>)
    ensures ValidateData(Parse(BookingShape(), JObj(m))).Valid? <==>
      HasNonEmptyText(m, "userId") && HasNonEmptyText(m, "stadiumId") && HasNonEmptyText(m, "timeSlotId")
      && HasText(m, "date") && IsDateText(m["date"].s)
      && HasText(m, "time") && IsTimeText(m["time"].s)
  {
    ValidateObject(BookingShape(), m);
    AllAcceptFive(RequiredText("userId", "User ID is required"), RequiredText("stadiumId", "Stadium ID is required"),
                  RequiredText("timeSlotId", "Time slot ID is required"), DateField(), TimeField(), m);
    RequiredTextAccepts("userId", "User ID is required", m);
    RequiredTextAccepts("stadiumId", "Stadium ID is required", m);
    RequiredTextAccepts("timeSlotId", "Time slot ID is required", m);
    PatternFieldsAccept(m);
  }

  /** The optional part of `friendlyMatchSchema`: every optional field
      that is present has its type and bounds. */
  predicate MatchExtrasAccepted(m: map<string, Json>) {
    ("team2" in m ==> m["team2"].JStr?)
    && ("currentPlayers" in m ==> m["currentPlayers"].JNum? && m["currentPlayers"].n >= 1)
    && ("description" in m ==> m["description"].JStr? && Utf16Length(m["description"].s) <= 500)
    && ("skillLevel" in m ==> m["skillLevel"].JStr? && m["skillLevel"].s in SkillLevels)
    && ("isPublic" in m ==> m["isPublic"].JBool?)
  }

  lemma {:induction false} AllAcceptConcat(a: seq<Field>, b: seq<Field>, m: map<string, Json>)
    ensures AllAccept(a + b, m) <==> AllAccept(a, m) && AllAccept(b, m)
  {
    if a != [] {
      assert (a + b)[1..] == a[1..] + b;
      AllAcceptConcat(a[1..], b, m);
    } else {
      assert a + b == b;
    }
  }

  lemma MatchHeadAccepts(m: map<string, Json>)
    ensures AllAccept(MatchHeadFields(), m) <==>
      HasNonEmptyText(m, "hostId") && HasNonEmptyText(m, "stadiumId")
      && HasText(m, "date") && IsDateText(m["date"].s)
      && HasText(m, "time") && IsTimeText(m["time"].s)
      && HasNonEmptyText(m, "team1") && ("team2" in m ==> m["team2"].JStr?)
  {
    AllAcceptSix(RequiredText("hostId", "Host ID is required"), RequiredText("stadiumId", "Stadium ID is required"),
                 DateField(), TimeField(), RequiredText("team1", "Team 1 name is required"), Team2Field(), m);
    RequiredTextAccepts("hostId", "Host ID is required", m);
    RequiredTextAccepts("stadiumId", "Stadium ID is required", m);
    RequiredTextAccepts("team1", "Team 1 name is required", m);
    PatternFieldsAccept(m);
    MatchFieldsAccept(m);
  }

  lemma MatchTailAccepts(m: map<string, Json>)
    ensures AllAccept(MatchTailFields(), m) <==>
      HasNonEmptyText(m, "sportId") && HasNumber(m, "maxPlayers") && 2 <= m["maxPlayers"].n <= 50
      && ("currentPlayers" in m ==> m["currentPlayers"].JNum? && m["currentPlayers"].n >= 1)
      && ("description" in m ==> m["description"].JStr? && Utf16Length(m["description"].s) <= 500)
      && ("skillLevel" in m ==> m["skillLevel"].JStr? && m["skillLevel"].s in SkillLevels)
      && ("isPublic" in m ==> m["isPublic"].JBool?)
  {
    AllAcceptSix(RequiredText("sportId", "Sport ID is required"), MaxPlayersField(), CurrentPlayersField(),
                 DescriptionField(), SkillLevelField(), IsPublicField(), m);
    RequiredTextAccepts("sportId", "Sport ID is required", m);
    MatchFieldsAccept(m);
  }

  /** `friendlyMatchSchema` accepts an object exactly when the required
      strings are present and non-empty, date and time match, maxPlayers
      lies in 2..50, and every optional field present has its type and
      bounds. */
  lemma FriendlyMatchShapeAccepts(m: map<string, Json>)
    ensures ValidateData(Parse(FriendlyMatchShape(), JObj(m))).Valid? <==>
      HasNonEmptyText(m, "hostId") && HasNonEmptyText(m, "stadiumId")
      && HasText(m, "date") && IsDateText(m["date"].s)
      && HasText(m, "time") && IsTimeText(m["time"].s)
      && HasNonEmptyText(m, "team1") && HasNonEmptyText(m, "sportId")
      && HasNumber(m, "maxPlayers") && 2 <= m["maxPlayers"].n <= 50
      && MatchExtrasAccepted(m)
  {
    ValidateObject(FriendlyMatchShape(), m);
    AllAcceptConcat(MatchHeadFields(), MatchTailFields(), m);
    MatchHeadAccepts(m);
    MatchTailAccepts(m);
  }

  lemma FriendlyMatchShapeDistinct()
    ensures DistinctNames(FriendlyMatchShape())
  {
    var s := FriendlyMatchShape();
    assert s[0].name == "hostId" && s[1].name == "stadiumId" && s[2].name == "date";
    assert s[3].name == "time" && s[4].name == "team1" && s[5].name == "team2";
    assert s[6].name == "sportId" && s[7].name == "maxPlayers" && s[8].name == "currentPlayers";
    assert s[9].name == "description" && s[10].name == "skillLevel" && s[11].name == "isPublic";
  }

  /** The parsed object holds field `k` exactly when the request did, with
      the same value. */
  predicate KeptAs(d: map<string, Json>, m: map<string, Json>, k: string) {
    (k in d <==> k in m) && (k in m ==> d[k] == m[k])
  }

  /** A friendly-match request that validates comes back with its host,
      its player bounds and its optional fields as they were sent; zod
      fills in no defaults for this schema. */
  lemma MatchData(m: map<string, Json>)
    requires ValidateData(Parse(FriendlyMatchShape(), JObj(m))).Valid?
    ensures var d := ValidateData(Parse(FriendlyMatchShape(), JObj(m))).data;
      KeptAs(d, m, "hostId") && KeptAs(d, m, "maxPlayers") && KeptAs(d, m, "team2")
      && KeptAs(d, m, "currentPlayers") && KeptAs(d, m, "description")
      && KeptAs(d, m, "skillLevel") && KeptAs(d, m, "isPublic")
  {
    var s := FriendlyMatchShape();
    FriendlyMatchShapeDistinct();
    ValidatedData(s, m);
    var h, t := MatchHeadFields(), MatchTailFields();
    assert s[0] == h[0] && s[5] == h[5];
    assert s[7] == t[1] && s[8] == t[2] && s[9] == t[3] && s[10] == t[4] && s[11] == t[5];
    FieldWithoutDefaultKept(s, m, 0);
    FieldWithoutDefaultKept(s, m, 5);
    FieldWithoutDefaultKept(s, m, 7);
    FieldWithoutDefaultKept(s, m, 8);
    FieldWithoutDefaultKept(s, m, 9);
    FieldWithoutDefaultKept(s, m, 10);
    FieldWithoutDefaultKept(s, m, 11);
  }

  /** A field without a default comes back exactly when it was sent, as
      it was sent. */
  lemma FieldWithoutDefaultKept(shape: seq<Field>, m: map<string, Json>, i: nat)
    requires DistinctNames(shape) && i < |shape| && shape[i].default.None?
    ensures KeptAs(ShapeData(shape, m), m, shape[i].name)
  {
    ShapeDataMeaning(shape, m, shape[i]);
  }

  /** `timeSlotSchema` accepts an object exactly when time matches,
      duration is a number of at least 30, and isActive, if present, is a
      boolean. */
  lemma TimeSlotShapeAccepts(m: map<string, Json>)
    ensures ValidateData(Parse(TimeSlotShape(), JObj(m))).Valid? <==>
      HasText(m, "time") && IsTimeText(m["time"].s)
      && HasNumber(m, "duration") && m["duration"].n >= 30
      && ("isActive" in m ==> m["isActive"].JBool?)
  {
    ValidateObject(TimeSlotShape(), m);
    AllAcceptThree(TimeField(), DurationField(), IsActiveField(), m);
    PatternFieldsAccept(m);
    SlotAndStadiumFieldsAccept(m);
  }

  /** The parsed time slot keeps time and duration as sent and fills in
      `isActive: true` when it is absent. */
  lemma TimeSlotData(m: map<string, Json>)
    requires ValidateData(Parse(TimeSlotShape(), JObj(m))).Valid?
    ensures var d := ValidateData(Parse(TimeSlotShape(), JObj(m))).data;
      "time" in m && "time" in d && d["time"] == m["time"]
      && "duration" in m && "duration" in d && d["duration"] == m["duration"]
      && "isActive" in d && d["isActive"] == (if "isActive" in m then m["isActive"] else JBool(true))
  {
    var s := TimeSlotShape();
    TimeSlotShapeAccepts(m);
    assert DistinctNames(s) by {
      assert s[0].name == "time" && s[1].name == "duration" && s[2].name == "isActive";
    }
    ValidatedData(s, m);
    ShapeDataMeaning(s, m, s[0]);
    ShapeDataMeaning(s, m, s[1]);
    ShapeDataMeaning(s, m, s[2]);
  }

  /** `stadiumSchema` demands a capacity of at least 1. */
  lemma StadiumShapeAccepts(m: map<string, Json>)
    ensures ValidateData(Parse(StadiumShape(), JObj(m))).Valid? <==>
      HasNonEmptyText(m, "name") && HasNonEmptyText(m, "location")
      && HasNumber(m, "capacity") && m["capacity"].n >= 1
      && ("facilities" in m ==>
            m["facilities"].JArr? && forall j :: 0 <= j < |m["facilities"].items| ==> m["facilities"].items[j].JStr?)
  {
    ValidateObject(StadiumShape(), m);
    AllAcceptFour(RequiredText("name", "Stadium name is required"), RequiredText("location", "Location is required"),
                  CapacityField(), FacilitiesField(), m);
    RequiredTextAccepts("name", "Stadium name is required", m);
    RequiredTextAccepts("location", "Location is required", m);
    SlotAndStadiumFieldsAccept(m);
  }

  // ---------------------------------------------------------------------
  // Sanitisation

  /** `sanitizeString`: trim, then delete every angle bracket. */
  function SanitizeString(s: string): (r: string)
    ensures '<' !in r && '>' !in r
    ensures |r| <= |s|
    ensures forall c :: c in r ==> c in s
  {
    RemoveAngles(Trim(s))
  }

  /** Text with no angle brackets and no whitespace at its ends passes
      through sanitisation unchanged. */
  lemma SanitizeKeepsPlainText(s: string)
    requires '<' !in s && '>' !in s
    requires s == [] || (!IsJsSpace(s[0]) && !IsJsSpace(s[|s| - 1]))
    ensures SanitizeString(s) == s
  {
    TrimNoop(s);
  }

  /** Every text the date or time pattern accepts is left unchanged. */
  lemma SanitizeKeepsPatternText(s: string)
    requires IsDateText(s) || IsTimeText(s)
    ensures SanitizeString(s) == s
  {
    forall i | 0 <= i < |s| ensures IsDigit(s[i]) || s[i] == '-' || s[i] == ':' {
      if !IsDateText(s) {
        if |s| == 5 && i >= 2 {
          assert s[i] == s[2..][i - 2];
        } else if |s| == 4 && i >= 1 {
          assert s[i] == s[1..][i - 1];
        }
      }
    }
    SanitizeKeepsPlainText(s);
  }

  /** Sanitisation is not idempotent: trimming runs before the brackets
      go, so a space they shielded survives the first pass only. */
  lemma SanitizeNotIdempotent()
    ensures SanitizeString("< a") == " a"
    ensures SanitizeString(SanitizeString("< a")) == "a"
  {
    var s: string := ['<', ' ', 'a'];
    assert "< a" == s;
    assert TrimStart(s) == s;
    assert TrimEnd(s) == s;
    assert s[1..] == [' ', 'a'];
    assert [' ', 'a'][1..] == ['a'];
    assert ['a'][1..] == [];
    assert RemoveAngles(['a']) == ['a'];
    assert RemoveAngles([' ', 'a']) == [' ', 'a'];
    assert RemoveAngles(s) == [' ', 'a'];
    var t: string := [' ', 'a'];
    assert " a" == t;
    assert TrimStart(t) == TrimStart(['a']);
    assert TrimStart(['a']) == ['a'];
    assert TrimEnd(['a']) == ['a'];
  }

  /** `sanitizeEmail`: trim, then lower-case. */
  function SanitizeEmail(s: string): (r: string)
    ensures |r| <= |s|
    ensures forall c :: c in r ==> !IsUpperAscii(c)
  {
    LowerAscii(Trim(s))
  }

  /** Sanitising an address twice gives what sanitising it once gives. */
  lemma SanitizeEmailIdempotent(s: string)
    ensures SanitizeEmail(SanitizeEmail(s)) == SanitizeEmail(s)
  {
    var once := SanitizeEmail(s);
    var t := Trim(s);
    assert once == LowerAscii(t);
    if once != [] {
      assert ToLowerAscii(t[0]) == once[0];
      assert !IsJsSpace(once[0]);
      assert !IsJsSpace(once[|once| - 1]);
    }
    TrimNoop(once);
    assert LowerAscii(once) == once;
  }

  /** The value `sanitizeObject` stores for one field: strings are
      sanitised, everything else is copied as it is. */
  function SanitizeValue(v: Json): (r: Json)
    ensures v.JStr? <==> r.JStr?
    ensures v.JStr? ==> r.s == SanitizeString(v.s)
    ensures !v.JStr? ==> r == v
  {
    if v.JStr? then JStr(SanitizeString(v.s)) else v
  }

  /** The object `sanitizeObject` returns. */
  function Sanitized(obj: map<string, Json>): map<string, Json> {
    map k | k in obj :: SanitizeValue(obj[k])
  }

  /** `sanitizeObject`: copy the object, then replace each string field
      by its sanitised text, one key at a time. */
  method SanitizeObject(obj: map<string, Json>) returns (sanitized: map<string, Json>)
    ensures sanitized == Sanitized(obj)
    ensures sanitized.Keys == obj.Keys
    ensures forall k :: k in obj && obj[k].JStr? ==> sanitized[k] == JStr(SanitizeString(obj[k].s))
    ensures forall k :: k in obj && !obj[k].JStr? ==> sanitized[k] == obj[k]
  {
    sanitized := obj;
    var pending := obj.Keys;
    while pending != {}
      invariant pending <= obj.Keys
      invariant sanitized.Keys == obj.Keys
      invariant forall k :: k in obj && k !in pending ==> sanitized[k] == SanitizeValue(obj[k])
      invariant forall k :: k in pending ==> sanitized[k] == obj[k]
      decreases pending
    {
      var key :| key in pending;
      if sanitized[key].JStr? {
        sanitized := sanitized[key := JStr(SanitizeString(sanitized[key].s))];
      }
      pending := pending - {key};
    }
    SanitizedEverywhere(obj, sanitized);
  }

  /** A map over the same keys holding the sanitised value at each key is
      the sanitised object. */
  lemma SanitizedEverywhere(obj: map<string, Json>, sanitized: map<string, Json>)
    requires sanitized.Keys == obj.Keys
    requires forall k :: k in obj ==> sanitized[k] == SanitizeValue(obj[k])
    ensures sanitized == Sanitized(obj)
  {
  }

  // ---------------------------------------------------------------------
  // Reading typed fields out of a parsed object

  function TextAt(m: map<string, Json>, k: string): string {
    if k in m && m[k].JStr? then m[k].s else ""
  }

  /** A text field reads, after sanitising, as its sanitised text. */
  lemma SanitizedTextAt(d: map<string, Json>, k: string)
    requires k in d && d[k].JStr?
    ensures TextAt(Sanitized(d), k) == SanitizeString(d[k].s)
  {
  }

  /** A field kept as sent is, after sanitising, present exactly when it
      was sent, and unchanged when it is not a string. */
  lemma SanitizedKept(d: map<string, Json>, m: map<string, Json>, k: string)
    requires KeptAs(d, m, k)
    ensures k in Sanitized(d) <==> k in m
    ensures k in m && !m[k].JStr? ==> Sanitized(d)[k] == m[k]
  {
  }

  function NumberAt(m: map<string, Json>, k: string): int {
    if k in m && m[k].JNum? then m[k].n else 0
  }

  function OptText(m: map<string, Json>, k: string): Option<string> {
    if k in m && m[k].JStr? then Some(m[k].s) else None
  }

  function OptNumber(m: map<string, Json>, k: string): Option<int> {
    if k in m && m[k].JNum? then Some(m[k].n) else None
  }

  function OptBool(m: map<string, Json>, k: string): Option<bool> {
    if k in m && m[k].JBool? then Some(m[k].b) else None
  }
}
