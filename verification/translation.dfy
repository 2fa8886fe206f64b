/**
 * The mobile app's translator and language setting. `t` walks the
 * dictionary of the current language one `.`-separated key part at a
 * time; when that finds no text it shows a cleaned-up form of the key's
 * last part. The dictionaries are flat maps from dotted keys to texts, so
 * the walk never finds one. The saved language comes from device storage,
 * whose replies are parameters.
 */
module Translation {
  import opened Common

  /** What the walk holds: a dictionary (the starting point), a text, or
      nothing (`undefined`). */
  datatype Value = Dict(entries: map<string, string>) | Text(s: string) | Missing

  /** `value?.[k]`: a dictionary looks the part up; a text or nothing has
      no such entry here (a JavaScript string's index and `length`
      properties are not modelled). */
  function Step(v: Value, k: string): (r: Value)
    ensures !r.Dict?
    ensures r.Text? ==> v.Dict? && k in v.entries && r.s == v.entries[k]
  {
    match v
    case Dict(entries) => if k in entries then Text(entries[k]) else Missing
    case Text(_) => Missing
    case Missing => Missing
  }

  /** The value after walking the given parts from `v`. */
  function Walk(v: Value, parts: seq<string>): (r: Value)
    ensures parts != [] ==> !r.Dict?
    decreases parts
  {
    if parts == [] then v else Walk(Step(v, parts[0]), parts[1..])
  }

  /** Once the walk has found nothing, it finds nothing. */
  lemma {:induction false} WalkMissing(parts: seq<string>)
    ensures Walk(Missing, parts) == Missing
  {
    if parts != [] {
      WalkMissing(parts[1..]);
    }
  }

  /** `.replace(/([A-Z])/g, ' $1')`: a space before each ASCII capital. */
  function SpaceBeforeCapitals(s: string): (r: string)
    ensures |r| >= |s|
    ensures r == [] <==> s == []
  {
    if s == [] then []
    else (if IsUpperAscii(s[0]) then [' ', s[0]] else [s[0]]) + SpaceBeforeCapitals(s[1..])
  }

  /** Spacing a concatenation spaces each part. */
  lemma {:induction false} SpaceBeforeCapitalsConcat(a: string, b: string)
    ensures SpaceBeforeCapitals(a + b) == SpaceBeforeCapitals(a) + SpaceBeforeCapitals(b)
  {
    if a == [] {
      assert a + b == b;
    } else {
      assert (a + b)[0] == a[0] && (a + b)[1..] == a[1..] + b;
      SpaceBeforeCapitalsConcat(a[1..], b);
    }
  }

  /** Text without capitals is left as it is. */
  lemma {:induction false} NoCapitalsUnchanged(s: string)
    requires forall c :: c in s ==> !IsUpperAscii(c)
    ensures SpaceBeforeCapitals(s) == s
  {
    if s != [] {
      assert s[0] in s;
      assert forall c :: c in s[1..] ==> c in s;
      NoCapitalsUnchanged(s[1..]);
    }
  }

  /** Every capital of the result follows a space, and dropping those
      spaces gives the input back. */
  lemma {:induction false} CapitalsFollowSpaces(s: string)
    ensures forall i :: 0 <= i < |SpaceBeforeCapitals(s)| && IsUpperAscii(SpaceBeforeCapitals(s)[i]) ==>
      i > 0 && SpaceBeforeCapitals(s)[i - 1] == ' '
    ensures DropSpacesBeforeCapitals(SpaceBeforeCapitals(s)) == s
  {
    if s != [] {
      CapitalsFollowSpaces(s[1..]);
      var head: string := if IsUpperAscii(s[0]) then [' ', s[0]] else [s[0]];
      var tail := SpaceBeforeCapitals(s[1..]);
      var r := head + tail;
      forall i | 0 <= i < |r| && IsUpperAscii(r[i]) ensures i > 0 && r[i - 1] == ' ' {
        if i >= |head| {
          assert r[i] == tail[i - |head|];
          if i - |head| > 0 {
            assert r[i - 1] == tail[i - |head| - 1];
          } else {
            assert false;
          }
        }
      }
      if IsUpperAscii(s[0]) {
        assert r == [' ', s[0]] + tail;
        assert r[2..] == tail;
      } else {
        assert r[1..] == tail;
      }
      assert s == [s[0]] + s[1..];
    }
  }

  /** Removes a space that stands right before a capital. */
  function DropSpacesBeforeCapitals(r: string): string {
    if r == [] then []
    else if |r| >= 2 && r[0] == ' ' && IsUpperAscii(r[1]) then [r[1]] + DropSpacesBeforeCapitals(r[2..])
    else [r[0]] + DropSpacesBeforeCapitals(r[1..])
  }

  /** `.replace(/^./, str => str.toUpperCase())`. */
  function CapitalizeFirst(s: string): (r: string)
    ensures |r| == |s| && (s != [] ==> r[1..] == s[1..])
    ensures s != [] && IsLowerAscii(s[0]) ==> IsUpperAscii(r[0])
  {
    if s == [] then [] else [ToUpperAscii(s[0])] + s[1..]
  }

  /** The text `t` shows for a key it cannot resolve: the last `.`-part,
      spaced before each capital and with its first letter upper-cased,
      or the key itself when that leaves nothing. */
  function Fallback(key: string): (r: string)
    ensures LastSegment(key, '.') == [] ==> r == key
    ensures LastSegment(key, '.') != [] ==> r == CapitalizeFirst(SpaceBeforeCapitals(LastSegment(key, '.')))
    ensures '.' !in key && key != [] ==> |r| >= |key|
  {
    var cleaned := CapitalizeFirst(SpaceBeforeCapitals(LastSegment(key, '.')));
    if cleaned == [] then key else cleaned
  }

  /** What `t` returns, given the dictionary of the current language. */
  function Translate(dict: map<string, string>, key: string): string {
    var v := Walk(Dict(dict), Split(key, '.'));
    if v.Text? && v.s != "" && v.s != key then v.s else Fallback(key)
  }

  /** A key without a dot that the dictionary holds as a non-empty text
      other than the key itself resolves to that text. */
  lemma PlainKeyResolves(dict: map<string, string>, key: string)
    requires '.' !in key && key in dict && dict[key] != "" && dict[key] != key
    ensures Translate(dict, key) == dict[key]
  {
    SplitWithout(key, '.');
    assert [key][1..] == [];
    assert Walk(Dict(dict), [key]) == Text(dict[key]);
  }

  /** With every dictionary key dotted, the first key part (which holds no
      dot) is never found, so `t` shows the fallback for every key. */
  lemma AlwaysFallsBack(dict: map<string, string>, key: string)
    requires forall k :: k in dict ==> '.' in k
    ensures Translate(dict, key) == Fallback(key)
  {
    var parts := Split(key, '.');
    assert parts[0] in parts;
    assert Step(Dict(dict), parts[0]) == Missing;
    WalkMissing(parts[1..]);
  }

  /** The last part of a key after its first dot is the last part of
      what follows that dot. */
  lemma LastSegmentAfterDot(a: string, b: string)
    requires '.' !in a
    ensures LastSegment(a + ['.'] + b, '.') == LastSegment(b, '.')
  {
    SplitCons(a, '.', b);
  }

  lemma NoAccountSegment()
    ensures LastSegment("login.noAccount", '.') == "noAccount"
  {
    assert '.' !in "login" && '.' !in "noAccount";
    assert "login.noAccount" == "login" + ['.'] + "noAccount";
    LastSegmentAfterDot("login", "noAccount");
  }

  /** A single capital between two capital-free texts gets one space
      before it. */
  lemma SpaceBeforeOneCapital(a: string, c: char, b: string)
    requires forall x :: x in a ==> !IsUpperAscii(x)
    requires forall x :: x in b ==> !IsUpperAscii(x)
    requires IsUpperAscii(c)
    ensures SpaceBeforeCapitals(a + [c] + b) == a + [' ', c] + b
  {
    assert SpaceBeforeCapitals([c]) == [' ', c] by {
      assert [c][0] == c && [c][1..] == [];
      assert SpaceBeforeCapitals([]) == [];
    }
    NoCapitalsUnchanged(a);
    NoCapitalsUnchanged(b);
    SpaceBeforeCapitalsConcat(a, [c]);
    assert SpaceBeforeCapitals(a + [c]) == a + [' ', c];
    SpaceBeforeCapitalsConcat(a + [c], b);
  }

  lemma NoAccountSpaced()
    ensures SpaceBeforeCapitals("noAccount") == "no Account"
  {
    assert "noAccount" == "no" + ['A'] + "ccount";
    assert "no Account" == "no" + [' ', 'A'] + "ccount";
    SpaceBeforeOneCapital("no", 'A', "ccount");
  }

  /** The dictionary entry `'login.noAccount'` is never shown: the key
      shows as "No Account". */
  lemma NoAccountExample(dict: map<string, string>)
    requires forall k :: k in dict ==> '.' in k
    ensures Translate(dict, "login.noAccount") == "No Account"
  {
    var key := "login.noAccount";
    AlwaysFallsBack(dict, key);
    NoAccountSegment();
    NoAccountSpaced();
    NoAccountCapitalized();
    assert Fallback(key) == CapitalizeFirst(SpaceBeforeCapitals(LastSegment(key, '.')));
  }

  lemma NoAccountCapitalized()
    ensures CapitalizeFirst("no Account") == "No Account"
  {
    assert ToUpperAscii('n') == 'N';
  }

  /** `t` with a direct look-up of the whole key, which the flat
      dictionaries call for. */
  function TranslateFlat(dict: map<string, string>, key: string): (r: string)
    ensures key in dict && dict[key] != "" && dict[key] != key ==> r == dict[key]
    ensures !(key in dict && dict[key] != "" && dict[key] != key) ==> r == Fallback(key)
  {
    if key in dict && dict[key] != "" && dict[key] != key then dict[key] else Fallback(key)
  }

  /** For an undotted key both agree; for a dotted key only the direct
      look-up reaches the dictionary. */
  lemma FlatAgreesOnPlainKeys(dict: map<string, string>, key: string)
    requires '.' !in key
    ensures Translate(dict, key) == TranslateFlat(dict, key)
  {
    SplitWithout(key, '.');
    assert [key][1..] == [];
    assert Walk(Dict(dict), [key]) == Step(Dict(dict), key);
  }

  /** A reply of device storage. */
  datatype Stored = StorageFailed | StoredValue(value: Option<string>)

  predicate Supported(lang: string) { lang == "en" || lang == "ar" }

  /** The language setting, with the dictionaries of both languages. */
  class LanguageProvider {
    var language: string
    const en: map<string, string>
    const ar: map<string, string>

    predicate Valid()
      reads this
    {
      Supported(language)
    }

    /** The provider starts in English. */
    constructor(en: map<string, string>, ar: map<string, string>)
      ensures Valid() && language == "en" && this.en == en && this.ar == ar
    {
      language := "en";
      this.en := en;
      this.ar := ar;
    }

    /** The dictionary of the current language. */
    function Dictionary(): map<string, string>
      reads this
    {
      if language == "ar" then ar else en
    }

    /** `loadLanguage`: a saved "en" or "ar" replaces the language;
        anything else, a missing value or a storage failure keeps it. */
    method LoadLanguage(saved: Stored)
      requires Valid()
      modifies this
      ensures Valid()
      ensures language == if saved.StoredValue? && saved.value.Some? && Supported(saved.value.value)
                          then saved.value.value else old(language)
    {
      if saved.StoredValue? && saved.value.Some? && saved.value.value != "" && Supported(saved.value.value) {
        language := saved.value.value;
      }
    }

    /** `handleSetLanguage`: the language changes only once storage took
        the new value. */
    method SetLanguage(lang: string, written: bool)
      requires Valid() && Supported(lang)
      modifies this
      ensures Valid()
      ensures language == if written then lang else old(language)
    {
      if written {
        language := lang;
      }
    }

    /** `t`: split the key, walk the current dictionary part by part, and
        show the text found or the fallback. */
    method T(key: string) returns (r: string)
      ensures r == Translate(Dictionary(), key)
    {
      var keys := Split(key, '.');
      var value := Dict(Dictionary());
      for i := 0 to |keys|
        invariant Walk(value, keys[i..]) == Walk(Dict(Dictionary()), keys)
      {
        assert keys[i..][1..] == keys[i + 1..];
        value := Step(value, keys[i]);
      }
      assert keys[|keys|..] == [];
      if value.Text? && value.s != "" && value.s != key {
        r := value.s;
      } else {
        r := Fallback(key);
      }
    }
  }
}
