/**
 * The string-level security helpers: hex rendering of random bytes, the
 * `iv:tag:ciphertext` and `salt:hash` formats and their split guards, the
 * XSS input sanitiser, the e-mail pattern, the password-strength rules and
 * the API-key format. The cipher, the key derivation function and the
 * random byte source are parameters of the model.
 */
module Security {
  import opened Common

  newtype byte = x: int | 0 <= x < 256

  // ---------------------------------------------------------------------
  // Hex rendering (`Buffer.prototype.toString('hex')`)

  predicate IsHexChar(c: char) { IsDigit(c) || 'a' <= c <= 'f' }

  function HexDigit(n: int): (c: char)
    requires 0 <= n < 16
    ensures IsHexChar(c)
  {
    if n < 10 then ('0' as int + n) as char else ('a' as int + n - 10) as char
  }

  lemma HexDigitInjective(m: int, n: int)
    requires 0 <= m < 16 && 0 <= n < 16
    requires HexDigit(m) == HexDigit(n)
    ensures m == n
  {
  }

  /** Two lower-case hex digits per byte, high nibble first. */
  function Hex(bytes: seq<byte>): (r: string)
    ensures |r| == 2 * |bytes|
    ensures forall i :: 0 <= i < |r| ==> IsHexChar(r[i])
  {
    if bytes == [] then ""
    else
      var b := bytes[0] as int;
      [HexDigit(b / 16), HexDigit(b % 16)] + Hex(bytes[1..])
  }

  lemma HexHasNoColon(bytes: seq<byte>)
    ensures ':' !in Hex(bytes)
  {
    var h := Hex(bytes);
    forall i | 0 <= i < |h| ensures h[i] != ':' {
      assert IsHexChar(h[i]);
    }
  }

  /** Distinct byte strings render as distinct hex text. */
  lemma {:induction false} HexInjective(a: seq<byte>, b: seq<byte>)
    requires Hex(a) == Hex(b)
    ensures a == b
  {
    if a != [] {
      var ha := Hex(a);
      var hb := Hex(b);
      assert |b| == |a|;
      var x := a[0] as int;
      var y := b[0] as int;
      assert ha[0] == HexDigit(x / 16) && hb[0] == HexDigit(y / 16);
      assert ha[1] == HexDigit(x % 16) && hb[1] == HexDigit(y % 16);
      HexDigitInjective(x / 16, y / 16);
      HexDigitInjective(x % 16, y % 16);
      assert x == y;
      assert ha[2..] == Hex(a[1..]) && hb[2..] == Hex(b[1..]);
      HexInjective(a[1..], b[1..]);
      assert a == [a[0]] + a[1..] && b == [b[0]] + b[1..];
    }
  }

  /** `generateSecureToken(length)`: `length` random bytes as hex. */
  function GenerateSecureToken(length: nat, random: seq<byte>): (token: string)
    requires |random| == length
    ensures |token| == 2 * length
    ensures forall i :: 0 <= i < |token| ==> IsHexChar(token[i])
  {
    Hex(random)
  }

  /** The default token: 32 random bytes, 64 hex characters. */
  const DefaultTokenLength := 32

  // ---------------------------------------------------------------------
  // Encrypted payloads: `iv:tag:ciphertext`

  /** The outcome of a helper that either returns a string or throws. */
  datatype Outcome = Returned(text: string) | Thrown(message: string)

  const EncryptFailure := "Failed to encrypt data"
  const DecryptFailure := "Failed to decrypt data"

  /** `encryptData`. `cipher` stands for the AES-GCM cipher under the
      module's key: it yields the authentication tag and the ciphertext
      bytes, or None when the cipher throws. The initialisation vector is
      written into the payload but never given to the cipher. */
  function EncryptData(data: string, iv: seq<byte>, cipher: string -> Option<(seq<byte>, seq<byte>)>): (r: Outcome)
    requires |iv| == 16
    ensures cipher(data).None? <==> r == Thrown(EncryptFailure)
    ensures r.Returned? ==> Count(r.text, ':') == 2
  {
    match cipher(data)
    case None => Thrown(EncryptFailure)
    case Some((tag, encrypted)) =>
      var text := Hex(iv) + ":" + Hex(tag) + ":" + Hex(encrypted);
      assert Count(text, ':') == 2 by { PayloadSplits(Hex(iv), Hex(tag), Hex(encrypted)); }
      Returned(text)
  }

  /** Splitting a payload at ':' gives back its three hex parts. */
  lemma PayloadSplits(iv: string, tag: string, encrypted: string)
    requires ':' !in iv && ':' !in tag && ':' !in encrypted
    ensures Split(iv + ":" + tag + ":" + encrypted, ':') == [iv, tag, encrypted]
    ensures Count(iv + ":" + tag + ":" + encrypted, ':') == 2
  {
    SplitWithout(encrypted, ':');
    SplitCons(tag, ':', encrypted);
    assert iv + ":" + tag + ":" + encrypted == iv + [':'] + (tag + [':'] + encrypted);
    SplitCons(iv, ':', tag + [':'] + encrypted);
  }

  /** `decryptData`. `decipher` stands for the AES-GCM decipher: it gets
      the tag text and the ciphertext text and yields the plain text, or
      None when decoding or authentication fails. A payload that does not
      split into exactly three parts is refused before the decipher runs;
      every failure surfaces as the same error. */
  function DecryptData(payload: string, decipher: (string, string) -> Option<string>): (r: Outcome)
    ensures Count(payload, ':') != 2 ==> r == Thrown(DecryptFailure)
    ensures r.Returned? ==> Count(payload, ':') == 2
    ensures r.Thrown? ==> r.message == DecryptFailure
  {
    var parts := Split(payload, ':');
    if |parts| != 3 then Thrown(DecryptFailure)
    else
      match decipher(parts[1], parts[2])
      case None => Thrown(DecryptFailure)
      case Some(text) => Returned(text)
  }

  /** Decrypting an encrypted payload returns the original text whenever
      the decipher inverts the cipher on it. */
  lemma DecryptEncrypt(data: string, iv: seq<byte>, cipher: string -> Option<(seq<byte>, seq<byte>)>,
                       decipher: (string, string) -> Option<string>)
    requires |iv| == 16
    requires cipher(data).Some?
    requires decipher(Hex(cipher(data).value.0), Hex(cipher(data).value.1)) == Some(data)
    ensures EncryptData(data, iv, cipher).Returned?
    ensures DecryptData(EncryptData(data, iv, cipher).text, decipher) == Returned(data)
  {
    var (tag, encrypted) := cipher(data).value;
    HexHasNoColon(iv);
    HexHasNoColon(tag);
    HexHasNoColon(encrypted);
    PayloadSplits(Hex(iv), Hex(tag), Hex(encrypted));
  }

  // ---------------------------------------------------------------------
  // Password hashes: `salt:hash`

  /** `hashPassword`. `kdf(password, salt)` stands for PBKDF2-SHA512 with
      10000 iterations and a 64-byte key; the salt is 16 random bytes. */
  function HashPassword(password: string, salt: seq<byte>, kdf: (string, string) -> seq<byte>): (stored: string)
    requires |salt| == 16
    ensures Count(stored, ':') == 1
    ensures Hex(salt) + ":" <= stored
  {
    var s := Hex(salt);
    var h := Hex(kdf(password, s));
    HexHasNoColon(salt);
    HexHasNoColon(kdf(password, s));
    SplitWithout(h, ':');
    SplitCons(s, ':', h);
    s + ":" + h
  }

  /** `verifyPassword`: a stored value that does not split into exactly
      two parts is refused; otherwise the hash is recomputed from the
      stored salt and compared. */
  function VerifyPassword(password: string, stored: string, kdf: (string, string) -> seq<byte>): (ok: bool)
    ensures Count(stored, ':') != 1 ==> !ok
  {
    var parts := Split(stored, ':');
    if |parts| != 2 then false
    else parts[1] == Hex(kdf(password, parts[0]))
  }

  /** A stored hash accepts exactly the passwords whose derived key matches
      the one it was made from; in particular the password it was made
      from. */
  lemma VerifyHashed(password: string, candidate: string, salt: seq<byte>, kdf: (string, string) -> seq<byte>)
    requires |salt| == 16
    ensures (VerifyPassword(candidate, HashPassword(password, salt, kdf), kdf)
             <==> kdf(candidate, Hex(salt)) == kdf(password, Hex(salt)))
  {
    var s := Hex(salt);
    var h := Hex(kdf(password, s));
    HexHasNoColon(salt);
    HexHasNoColon(kdf(password, s));
    SplitWithout(h, ':');
    SplitCons(s, ':', h);
    assert Split(HashPassword(password, salt, kdf), ':') == [s, h];
    if Hex(kdf(candidate, s)) == h {
      HexInjective(kdf(candidate, s), kdf(password, s));
    }
  }

  // ---------------------------------------------------------------------
  // `sanitizeInput`

  /** `\w` without the unicode flag: ASCII letters, digits and '_'. */
  predicate IsWordChar(c: char) { IsUpperAscii(c) || IsLowerAscii(c) || IsDigit(c) || c == '_' }

  const Scheme := "javascript:"

  /** `t` starts with the lower-case text `pat`, ignoring ASCII case. */
  predicate PrefixIgnoringCase(pat: string, t: string) {
    pat == [] || (t != [] && ToLowerAscii(t[0]) == pat[0] && PrefixIgnoringCase(pat[1..], t[1..]))
  }

  lemma {:induction false} PrefixIgnoringCaseMeaning(pat: string, t: string)
    ensures PrefixIgnoringCase(pat, t) <==>
      |pat| <= |t| && forall k :: 0 <= k < |pat| ==> ToLowerAscii(t[k]) == pat[k]
  {
    if pat != [] && t != [] {
      PrefixIgnoringCaseMeaning(pat[1..], t[1..]);
      if |pat| <= |t| && forall k :: 0 <= k < |pat| ==> ToLowerAscii(t[k]) == pat[k] {
        assert forall k :: 0 <= k < |pat[1..]| ==> ToLowerAscii(t[1..][k]) == pat[1..][k] by {
          forall k | 0 <= k < |pat[1..]| ensures ToLowerAscii(t[1..][k]) == pat[1..][k] {
            assert t[1..][k] == t[k + 1] && pat[1..][k] == pat[k + 1];
          }
        }
      }
      if PrefixIgnoringCase(pat, t) {
        forall k | 0 <= k < |pat| ensures ToLowerAscii(t[k]) == pat[k] {
          if k > 0 {
            assert t[1..][k - 1] == t[k] && pat[1..][k - 1] == pat[k];
          }
        }
      }
    }
  }

  /** `/javascript:/i` matches at position `i`. */
  predicate SchemeAt(s: string, i: int)
    requires 0 <= i
  {
    i + |Scheme| <= |s| && PrefixIgnoringCase(Scheme, s[i..])
  }

  predicate HasScheme(s: string) {
    exists i :: 0 <= i < |s| && SchemeAt(s, i)
  }

  /** `.replace(/javascript:/gi, '')`: scanning left to right, every match
      is deleted and the scan resumes after it. */
  function RemoveScheme(s: string): (r: string)
    ensures |r| <= |s|
    ensures r == s || |r| < |s|
    ensures '<' !in s && '>' !in s ==> '<' !in r && '>' !in r
    decreases |s|
  {
    if s == [] then []
    else if SchemeAt(s, 0) then RemoveScheme(s[|Scheme|..])
    else
      assert s == [s[0]] + s[1..];
      [s[0]] + RemoveScheme(s[1..])
  }

  /** Number of word characters at the front of `t`. */
  function WordRun(t: string): (n: nat)
    ensures n <= |t|
    ensures forall k :: 0 <= k < n ==> IsWordChar(t[k])
    ensures n < |t| ==> !IsWordChar(t[n])
  {
    if t != [] && IsWordChar(t[0]) then 1 + WordRun(t[1..]) else 0
  }

  /** `/on\w+=/i` matches at position `i`: "on" in either case, one or
      more word characters, then '='. As '=' is not a word character the
      run before it is the whole run, so the match has that length. */
  predicate HandlerAt(s: string, i: int)
    requires 0 <= i
  {
    i + 2 <= |s| && ToLowerAscii(s[i]) == 'o' && ToLowerAscii(s[i + 1]) == 'n'
    && var w := WordRun(s[i + 2..]); w >= 1 && i + 2 + w < |s| && s[i + 2 + w] == '='
  }

  function HandlerLength(s: string): (n: nat)
    requires HandlerAt(s, 0)
    ensures 4 <= n <= |s|
  {
    3 + WordRun(s[2..])
  }

  predicate HasHandler(s: string) {
    exists i :: 0 <= i < |s| && HandlerAt(s, i)
  }

  /** `.replace(/on\w+=/gi, '')`. */
  function RemoveHandlers(s: string): (r: string)
    ensures |r| <= |s|
    ensures r == s || |r| < |s|
    ensures '<' !in s && '>' !in s ==> '<' !in r && '>' !in r
    decreases |s|
  {
    if s == [] then []
    else if HandlerAt(s, 0) then RemoveHandlers(s[HandlerLength(s)..])
    else
      assert s == [s[0]] + s[1..];
      [s[0]] + RemoveHandlers(s[1..])
  }

  /** `sanitizeInput`: brackets, then the `javascript:` scheme, then event
      handler attributes are deleted in one pass each, then the result is
      trimmed. */
  function SanitizeInput(s: string): (r: string)
    ensures '<' !in r && '>' !in r
    ensures r == [] || (!IsJsSpace(r[0]) && !IsJsSpace(r[|r| - 1]))
    ensures r == s || |r| < |s|
  {
    Trim(RemoveHandlers(RemoveScheme(RemoveAngles(s))))
  }

  lemma SchemeAtShift(s: string, i: nat)
    requires s != []
    ensures SchemeAt(s[1..], i) <==> SchemeAt(s, i + 1)
  {
    if i + 1 <= |s| {
      assert s[1..][i..] == s[i + 1..];
    }
  }

  lemma HandlerAtShift(s: string, i: nat)
    requires s != []
    ensures HandlerAt(s[1..], i) <==> HandlerAt(s, i + 1)
  {
    if i + 3 <= |s| {
      assert s[1..][i + 2..] == s[i + 3..];
    }
  }

  /** When the scheme pass deletes nothing, the text holds no scheme. */
  lemma {:induction false} SchemeFreeWhenUnchanged(s: string)
    requires RemoveScheme(s) == s
    ensures !HasScheme(s)
  {
    if s != [] {
      assert !SchemeAt(s, 0);
      SchemeFreeWhenUnchanged(s[1..]);
      forall i | 0 <= i ensures !SchemeAt(s, i) {
        if i > 0 {
          SchemeAtShift(s, i - 1);
        }
      }
    }
  }

  /** When the handler pass deletes nothing, the text holds no handler. */
  lemma {:induction false} HandlerFreeWhenUnchanged(s: string)
    requires RemoveHandlers(s) == s
    ensures !HasHandler(s)
  {
    if s != [] {
      assert !HandlerAt(s, 0);
      HandlerFreeWhenUnchanged(s[1..]);
      forall i | 0 <= i ensures !HandlerAt(s, i) {
        if i > 0 {
          HandlerAtShift(s, i - 1);
        }
      }
    }
  }

  /** A text the sanitiser leaves as it is has no bracket, no scheme, no
      handler and no whitespace at its ends. */
  lemma {:induction false} UnchangedInputIsClean(s: string)
    requires SanitizeInput(s) == s
    ensures '<' !in s && '>' !in s
    ensures !HasScheme(s) && !HasHandler(s)
    ensures s == [] || (!IsJsSpace(s[0]) && !IsJsSpace(s[|s| - 1]))
  {
    var a := RemoveAngles(s);
    var b := RemoveScheme(a);
    var c := RemoveHandlers(b);
    assert |Trim(c)| <= |c| <= |b| <= |a| <= |s|;
    assert a == s && b == a && c == b;
    SchemeFreeWhenUnchanged(s);
    HandlerFreeWhenUnchanged(s);
  }

  lemma RemoveSchemeKeeps(s: string)
    requires s != [] && !SchemeAt(s, 0)
    ensures RemoveScheme(s) == [s[0]] + RemoveScheme(s[1..])
  {
  }

  lemma RemoveSchemeDrops(s: string)
    requires SchemeAt(s, 0)
    ensures RemoveScheme(s) == RemoveScheme(s[|Scheme|..])
  {
  }

  /** One differing character rules out a scheme at the front. */
  lemma SchemeNotAtFront(s: string, k: nat)
    requires k < |Scheme| <= |s| && ToLowerAscii(s[k]) != Scheme[k]
    ensures !SchemeAt(s, 0)
  {
    assert s[0..] == s;
    PrefixIgnoringCaseMeaning(Scheme, s);
  }

  lemma SchemeAtFront(s: string)
    requires |Scheme| <= |s| && s[..|Scheme|] == Scheme
    ensures SchemeAt(s, 0)
  {
    assert s[0..] == s;
    PrefixIgnoringCaseMeaning(Scheme, s);
    forall k | 0 <= k < |Scheme| ensures ToLowerAscii(s[k]) == Scheme[k] {
      assert s[k] == s[..|Scheme|][k];
    }
  }

  /** The first `n` characters are the first one and the next `n - 1`. */
  lemma SliceStep(s: string, n: nat)
    requires 0 < n <= |s|
    ensures s[..n] == [s[0]] + s[1..][..n - 1]
    ensures s[1..][n - 1..] == s[n..]
  {
  }

  /** One kept character in front of a copied stretch extends it. */
  lemma RemoveSchemeKeepsStep(s: string, n: nat)
    requires 0 < n <= |s| && !SchemeAt(s, 0)
    requires RemoveScheme(s[1..]) == s[1..][..n - 1] + RemoveScheme(s[1..][n - 1..])
    ensures RemoveScheme(s) == s[..n] + RemoveScheme(s[n..])
  {
    var t := s[1..];
    var a := t[..n - 1];
    var c := RemoveScheme(t[n - 1..]);
    RemoveSchemeKeeps(s);
    SliceStep(s, n);
    assert RemoveScheme(s) == [s[0]] + (a + c);
    assert [s[0]] + (a + c) == ([s[0]] + a) + c;
  }

  /** Positions where no scheme starts are copied as they are. */
  lemma {:induction false} RemoveSchemeKeepsPrefix(s: string, n: nat)
    requires n <= |s|
    requires forall i :: 0 <= i < n ==> !SchemeAt(s, i)
    ensures RemoveScheme(s) == s[..n] + RemoveScheme(s[n..])
  {
    if n > 0 {
      var t := s[1..];
      forall i | 0 <= i < n - 1 ensures !SchemeAt(t, i) {
        SchemeAtShift(s, i);
      }
      RemoveSchemeKeepsPrefix(t, n - 1);
      RemoveSchemeKeepsStep(s, n);
    } else {
      assert s[..0] == [] && s[0..] == s;
    }
  }

  /** Cutting the scheme into two non-empty halves and wrapping them
      around a whole scheme: the pass deletes the inner one, which joins
      the halves into a new scheme ("java" + "javascript:" + "script:"
      becomes "javascript:"). */
  lemma RemoveSchemeJoins(p: string, q: string)
    requires p + q == Scheme && p != [] && q != []
    ensures RemoveScheme(p + Scheme + q) == Scheme
  {
    var s := p + Scheme + q;
    NoSchemeBeforeInner(p, q);
    RemoveSchemeKeepsPrefix(s, |p|);
    SplitAfter(p, Scheme, q);
    RemoveSchemeOnce(q);
  }

  lemma SplitAfter(p: string, m: string, q: string)
    ensures (p + m + q)[..|p|] == p && (p + m + q)[|p|..] == m + q
  {
  }

  /** 'j' occurs in the scheme only at its start. */
  lemma SchemeOneJ()
    ensures forall k :: 1 <= k < |Scheme| ==> Scheme[k] != 'j'
  {
  }

  /** No scheme starts inside the first half: it would need a second 'j'
      where the inner scheme begins. */
  lemma NoSchemeBeforeInner(p: string, q: string)
    requires p + q == Scheme && p != [] && q != []
    ensures forall i :: 0 <= i < |p| ==> !SchemeAt(p + Scheme + q, i)
  {
    var s := p + Scheme + q;
    SchemeOneJ();
    forall i | 0 <= i < |p| ensures !SchemeAt(s, i) {
      assert s[i..][|p| - i] == s[|p|] == 'j';
      assert Scheme[|p| - i] != 'j';
      SchemeNotAtFront(s[i..], |p| - i);
    }
  }

  /** A scheme followed by less than a scheme's length loses the scheme. */
  lemma RemoveSchemeOnce(q: string)
    requires |q| < |Scheme|
    ensures RemoveScheme(Scheme + q) == q
  {
    SchemeAtFront(Scheme + q);
    RemoveSchemeDrops(Scheme + q);
    assert (Scheme + q)[|Scheme|..] == q;
    RemoveSchemeShort(q);
  }

  /** For text without brackets whose scheme and handler passes leave
      nothing to trim, the sanitiser returns what those passes leave. */
  lemma SanitizeInputOf(s: string, c: string)
    requires '<' !in s && '>' !in s
    requires RemoveHandlers(RemoveScheme(s)) == c
    requires c == [] || (!IsJsSpace(c[0]) && !IsJsSpace(c[|c| - 1]))
    ensures SanitizeInput(s) == c
  {
    TrimNoop(c);
  }

  /** A lower-case letter other than 'o', or ':'. */
  predicate SchemeChar(c: char) {
    (IsLowerAscii(c) && c != 'o') || c == ':'
  }

  /** Such text has no bracket and no handler and is its own lower case. */
  lemma {:induction false} SchemeCharsPlain(t: string)
    requires forall k :: 0 <= k < |t| ==> SchemeChar(t[k])
    ensures '<' !in t && '>' !in t
    ensures RemoveHandlers(t) == t
    ensures forall k :: 0 <= k < |t| ==> ToLowerAscii(t[k]) == t[k]
  {
    if t != [] {
      assert forall k :: 0 <= k < |t[1..]| ==> SchemeChar(t[1..][k]) by {
        forall k | 0 <= k < |t[1..]| ensures SchemeChar(t[1..][k]) {
          assert t[1..][k] == t[k + 1];
        }
      }
      SchemeCharsPlain(t[1..]);
      assert t == [t[0]] + t[1..];
      assert SchemeChar(t[0]) && !HandlerAt(t, 0);
      RemoveHandlersKeeps(t);
      forall k | 0 < k < |t| ensures ToLowerAscii(t[k]) == t[k] {
        assert t[k] == t[1..][k - 1];
      }
    }
  }

  lemma SchemeAtZero(t: string)
    ensures SchemeAt(t, 0) <==> |Scheme| <= |t| && PrefixIgnoringCase(Scheme, t)
  {
    assert t[0..] == t;
  }

  lemma SchemeIsSchemeChars()
    ensures forall k :: 0 <= k < |Scheme| ==> SchemeChar(Scheme[k])
  {
    forall k | 0 <= k < |Scheme| ensures SchemeChar(Scheme[k]) {
      assert k == 0 || k == 1 || k == 2 || k == 3 || k == 4 || k == 5
        || k == 6 || k == 7 || k == 8 || k == 9 || k == 10;
    }
  }

  /** `javascript:` is a scheme, holds no handler and no bracket, and has
      no whitespace at its ends. */
  lemma SchemeIsPlain()
    ensures SchemeAt(Scheme, 0) && HasScheme(Scheme)
    ensures RemoveHandlers(Scheme) == Scheme
    ensures '<' !in Scheme && '>' !in Scheme
    ensures !IsJsSpace(Scheme[0]) && !IsJsSpace(Scheme[|Scheme| - 1])
  {
    SchemeIsSchemeChars();
    SchemeCharsPlain(Scheme);
    SchemeAtZero(Scheme);
    PrefixIgnoringCaseMeaning(Scheme, Scheme);
  }

  /** The single pass can assemble a scheme out of the pieces around one it
      deletes: for every such input the output is `javascript:` itself. */
  lemma SanitizeInputLeavesScheme(p: string, q: string)
    requires p + q == Scheme && p != [] && q != []
    ensures SanitizeInput(p + Scheme + q) == Scheme
    ensures HasScheme(Scheme)
  {
    var s := p + Scheme + q;
    SchemeIsPlain();
    assert '<' !in s && '>' !in s by {
      assert forall c :: c in s ==> c in Scheme;
    }
    RemoveSchemeJoins(p, q);
    SanitizeInputOf(s, Scheme);
  }

  lemma {:induction false} RemoveSchemeShort(s: string)
    requires |s| < |Scheme|
    ensures RemoveScheme(s) == s
  {
    if s != [] {
      RemoveSchemeShort(s[1..]);
      assert s == [s[0]] + s[1..];
    }
  }

  lemma {:induction false} RemoveHandlersNoO(s: string)
    requires forall i :: 0 <= i < |s| ==> ToLowerAscii(s[i]) != 'o'
    ensures RemoveHandlers(s) == s
  {
    if s != [] {
      RemoveHandlersNoO(s[1..]);
      assert s == [s[0]] + s[1..];
    }
  }

  lemma RemoveHandlersKeeps(s: string)
    requires s != [] && !HandlerAt(s, 0)
    ensures RemoveHandlers(s) == [s[0]] + RemoveHandlers(s[1..])
  {
  }

  lemma RemoveHandlersDrops(s: string)
    requires HandlerAt(s, 0)
    ensures RemoveHandlers(s) == RemoveHandlers(s[HandlerLength(s)..])
  {
  }

  /** "on", one word character, then '=' is a handler of length 4. */
  lemma ShortHandlerAtFront(s: string)
    requires |s| >= 4 && ToLowerAscii(s[0]) == 'o' && ToLowerAscii(s[1]) == 'n'
    requires IsWordChar(s[2]) && s[3] == '='
    ensures HandlerAt(s, 0) && HandlerLength(s) == 4
  {
    var t := s[2..];
    assert t[0] == s[2] && t[1] == '=';
    assert t[1..][0] == '=';
    assert WordRun(t[1..]) == 0;
  }

  /** Deleting the handler from "o" + "onx=" + "nx=", for any word
      character x, joins the two halves around it into a new handler. */
  lemma RemoveHandlersJoins(x: char)
    requires IsWordChar(x)
    ensures RemoveHandlers(['o', 'o', 'n', x, '=', 'n', x, '=']) == ['o', 'n', x, '=']
  {
    var s := ['o', 'o', 'n', x, '=', 'n', x, '='];
    assert ToLowerAscii(s[1]) != 'n';
    RemoveHandlersKeeps(s);
    assert s[1..] == ['o', 'n', x, '=', 'n', x, '='];
    InnerHandlerDropped(x);
    TailKept(x);
  }

  /** "onx=nx=" loses its leading handler. */
  lemma InnerHandlerDropped(x: char)
    requires IsWordChar(x)
    ensures RemoveHandlers(['o', 'n', x, '=', 'n', x, '=']) == RemoveHandlers(['n', x, '='])
  {
    var t := ['o', 'n', x, '=', 'n', x, '='];
    ShortHandlerAtFront(t);
    RemoveHandlersDrops(t);
    assert t[4..] == ['n', x, '='];
  }

  /** "nx=" holds no handler. */
  lemma TailKept(x: char)
    ensures RemoveHandlers(['n', x, '=']) == ['n', x, '=']
  {
    var tail := ['n', x, '='];
    RemoveHandlersKeeps(tail);
    assert tail[1..] == [x, '='];
    RemoveHandlersKeeps(tail[1..]);
    assert tail[1..][1..] == ['='];
    RemoveHandlersNoO(['=']);
  }

  /** Likewise for handlers: for every word character x the output of
      "oonx=nx=" is the handler "onx=". */
  lemma SanitizeInputLeavesHandler(x: char)
    requires IsWordChar(x)
    ensures SanitizeInput(['o', 'o', 'n', x, '=', 'n', x, '=']) == ['o', 'n', x, '=']
    ensures HasHandler(['o', 'n', x, '='])
  {
    var s := ['o', 'o', 'n', x, '=', 'n', x, '='];
    var t := ['o', 'n', x, '='];
    assert '<' !in s && '>' !in s;
    RemoveSchemeShort(s);
    RemoveHandlersJoins(x);
    SanitizeInputOf(s, t);
    ShortHandlerAtFront(t);
  }

  /** The sanitiser applied until it changes nothing: the evident intent
      of `sanitizeInput`. */
  function SanitizeInputStable(s: string): (r: string)
    ensures SanitizeInput(r) == r
    ensures |r| <= |s|
    decreases |s|
  {
    var t := SanitizeInput(s);
    if t == s then s else SanitizeInputStable(t)
  }

  /** The stable sanitiser's output carries no bracket, no scheme, no
      handler and no whitespace at its ends. */
  lemma SanitizeInputStableClean(s: string, r: string)
    requires r == SanitizeInputStable(s)
    ensures '<' !in r && '>' !in r
    ensures !HasScheme(r) && !HasHandler(r)
    ensures r == [] || (!IsJsSpace(r[0]) && !IsJsSpace(r[|r| - 1]))
  {
    UnchangedInputIsClean(r);
  }

  // ---------------------------------------------------------------------
  // `isValidEmail`: /^[^\s@]+@[^\s@]+\.[^\s@]+$/

  /** One or more characters, none of them whitespace or '@'. */
  predicate Plain(t: string) {
    |t| >= 1 && forall k :: 0 <= k < |t| ==> !IsJsSpace(t[k]) && t[k] != '@'
  }

  /** The pattern read as a concatenation: local part, '@', domain label,
      '.', and a last part; any '.' in the domain may be the one matched. */
  predicate IsValidEmail(s: string) {
    exists i, j :: 0 < i < j < |s| && s[i] == '@' && s[j] == '.'
      && Plain(s[..i]) && Plain(s[i + 1..j]) && Plain(s[j + 1..])
  }

  predicate PlainChar(c: char) { !IsJsSpace(c) && c != '@' }

  /** A slice is plain iff it is non-empty and each of its characters is. */
  lemma PlainSlice(s: string, lo: nat, hi: nat)
    requires lo <= hi <= |s|
    ensures Plain(s[lo..hi]) <==> lo < hi && forall k :: lo <= k < hi ==> PlainChar(s[k])
  {
    var t := s[lo..hi];
    if lo < hi && forall k :: lo <= k < hi ==> PlainChar(s[k]) {
      forall k | 0 <= k < |t| ensures PlainChar(t[k]) {
        assert t[k] == s[lo + k];
      }
    }
    if Plain(t) {
      forall k | lo <= k < hi ensures PlainChar(s[k]) {
        assert s[k] == t[k - lo];
      }
    }
  }

  /** The right-hand side of `EmailMeaning`. */
  predicate EmailShape(s: string, a: nat)
    requires a < |s|
  {
    (forall k :: 0 <= k < |s| ==> !IsJsSpace(s[k]))
    && (forall k :: 0 <= k < |s| && k != a ==> s[k] != '@')
    && a > 0
    && (exists j :: a + 1 < j < |s| - 1 && s[j] == '.')
  }

  lemma EmailMatchHasShape(s: string, a: nat, i: nat, j: nat)
    requires a < |s| && s[a] == '@'
    requires 0 < i < j < |s| && s[i] == '@' && s[j] == '.'
    requires Plain(s[..i]) && Plain(s[i + 1..j]) && Plain(s[j + 1..])
    ensures EmailShape(s, a)
  {
    PlainSlice(s, 0, i);
    PlainSlice(s, i + 1, j);
    PlainSlice(s, j + 1, |s|);
    assert s[..i] == s[0..i] && s[j + 1..] == s[j + 1..|s|];
    assert forall k :: 0 <= k < |s| && k != i && k != j ==> PlainChar(s[k]);
    assert a == i;
  }

  lemma EmailShapeMatches(s: string, a: nat, j: nat)
    requires a < |s| && s[a] == '@' && EmailShape(s, a)
    requires a + 1 < j < |s| - 1 && s[j] == '.'
    ensures IsValidEmail(s)
  {
    assert forall k :: 0 <= k < |s| && k != a ==> PlainChar(s[k]);
    PlainSlice(s, 0, a);
    PlainSlice(s, a + 1, j);
    PlainSlice(s, j + 1, |s|);
    assert s[..a] == s[0..a] && s[j + 1..] == s[j + 1..|s|];
  }

  /** With `a` the position of an '@': the address is valid iff it has no
      whitespace, no other '@', a non-empty local part, and a '.' after
      the '@' with at least one character on each side of it. */
  lemma EmailMeaning(s: string, a: nat)
    requires a < |s| && s[a] == '@'
    ensures IsValidEmail(s) <==> EmailShape(s, a)
  {
    if IsValidEmail(s) {
      var i, j :| 0 < i < j < |s| && s[i] == '@' && s[j] == '.'
        && Plain(s[..i]) && Plain(s[i + 1..j]) && Plain(s[j + 1..]);
      EmailMatchHasShape(s, a, i, j);
    }
    if EmailShape(s, a) {
      var j :| a + 1 < j < |s| - 1 && s[j] == '.';
      EmailShapeMatches(s, a, j);
    }
  }

  /** An address with no '@' at all is invalid. */
  lemma EmailNeedsAt(s: string)
    requires '@' !in s
    ensures !IsValidEmail(s)
  {
  }

  // ---------------------------------------------------------------------
  // `validatePasswordStrength`

  datatype Strength = Strength(isValid: bool, errors: seq<string>)

  const TooShort := "Password must be at least 8 characters long"
  const NoUpper := "Password must contain at least one uppercase letter"
  const NoLower := "Password must contain at least one lowercase letter"
  const NoDigit := "Password must contain at least one number"
  const NoSpecial := "Password must contain at least one special character"

  /** The five rules' messages, in the order they are checked. */
  const StrengthMessages: seq<string> := [TooShort, NoUpper, NoLower, NoDigit, NoSpecial]

  /** `[!@#$%^&*(),.?":{}|<>]`. */
  predicate IsSpecialChar(c: char) { c in "!@#$%^&*(),.?\":{}|<>" }

  predicate HasUpper(p: string) { exists i :: 0 <= i < |p| && IsUpperAscii(p[i]) }
  predicate HasLower(p: string) { exists i :: 0 <= i < |p| && IsLowerAscii(p[i]) }
  predicate HasDigit(p: string) { exists i :: 0 <= i < |p| && IsDigit(p[i]) }
  predicate HasSpecial(p: string) { exists i :: 0 <= i < |p| && IsSpecialChar(p[i]) }

  /** Whether each of the five rules, in message order, fails for `p`. */
  function Failures(p: string): (f: seq<bool>)
    ensures |f| == 5
  {
    [Utf16Length(p) < 8, !HasUpper(p), !HasLower(p), !HasDigit(p), !HasSpecial(p)]
  }

  /** The numbers of the failing rules among rules `n` to 4, in order. */
  function FailedRules(f: seq<bool>, n: nat): (ks: seq<nat>)
    requires |f| == 5 && n <= 5
    ensures |ks| <= 5 - n
    ensures forall i :: 0 <= i < |ks| ==> n <= ks[i] < 5 && f[ks[i]]
    ensures forall m :: n <= m < 5 && f[m] ==> m in ks
    decreases 5 - n
  {
    if n == 5 then []
    else (if f[n] then [n] else []) + FailedRules(f, n + 1)
  }

  /** The rules are reported in the order they are checked. */
  lemma {:induction false} FailedRulesIncreasing(f: seq<bool>, n: nat)
    requires |f| == 5 && n <= 5
    ensures forall i, j :: 0 <= i < j < |FailedRules(f, n)| ==> FailedRules(f, n)[i] < FailedRules(f, n)[j]
    decreases 5 - n
  {
    if n < 5 {
      FailedRulesIncreasing(f, n + 1);
      var tail := FailedRules(f, n + 1);
      if f[n] {
        IncreasingCons(n, tail);
        assert FailedRules(f, n) == [n] + tail;
      } else {
        assert FailedRules(f, n) == tail;
      }
    }
  }

  /** A number below every element of an increasing list keeps it
      increasing when put in front. */
  lemma IncreasingCons(n: nat, tail: seq<nat>)
    requires forall i :: 0 <= i < |tail| ==> n < tail[i]
    requires forall i, j :: 0 <= i < j < |tail| ==> tail[i] < tail[j]
    ensures forall i, j :: 0 <= i < j < |[n] + tail| ==> ([n] + tail)[i] < ([n] + tail)[j]
  {
    var all := [n] + tail;
    forall i, j | 0 <= i < j < |all| ensures all[i] < all[j] {
      assert all[j] == tail[j - 1];
      if i > 0 {
        assert all[i] == tail[i - 1];
      }
    }
  }

  /** Position of a message among the rules. */
  function Rank(m: string): nat {
    if m == TooShort then 0 else if m == NoUpper then 1 else if m == NoLower then 2
    else if m == NoDigit then 3 else 4
  }

  /** Each message ranks at its rule's position, so no two rules share one. */
  lemma RankOfMessages()
    ensures forall k :: 0 <= k < 5 ==> Rank(StrengthMessages[k]) == k
  {
    assert Rank(TooShort) == 0 && Rank(NoUpper) == 1 && Rank(NoLower) == 2;
    assert Rank(NoDigit) == 3 && Rank(NoSpecial) == 4;
  }

  /** The messages of the given rules, in the same order. */
  function MessagesOf(ks: seq<nat>): (ms: seq<string>)
    requires forall i :: 0 <= i < |ks| ==> ks[i] < 5
    ensures |ms| == |ks|
    ensures forall i :: 0 <= i < |ks| ==> Rank(ms[i]) == ks[i]
    ensures forall k :: 0 <= k < 5 ==> (StrengthMessages[k] in ms <==> k in ks)
  {
    RankOfMessages();
    if ks == [] then []
    else [StrengthMessages[ks[0]]] + MessagesOf(ks[1..])
  }

  /** Rule `k`'s message is reported exactly when the rule fails. */
  lemma ErrorFor(f: seq<bool>, k: nat)
    requires |f| == 5 && k < 5
    ensures StrengthMessages[k] in MessagesOf(FailedRules(f, 0)) <==> f[k]
  {
  }

  /** The messages `validatePasswordStrength` reports for `p`. */
  function Errors(p: string): seq<string> {
    MessagesOf(FailedRules(Failures(p), 0))
  }

  /** Each message of `validatePasswordStrength` is reported exactly
      when its rule fails. */
  lemma TooShortMeaning(p: string)
    ensures TooShort in ValidatePasswordStrength(p).errors <==> Utf16Length(p) < 8
  {
    ErrorFor(Failures(p), 0);
    assert StrengthMessages[0] == TooShort;
  }

  lemma NoUpperMeaning(p: string)
    ensures NoUpper in ValidatePasswordStrength(p).errors <==> !HasUpper(p)
  {
    ErrorFor(Failures(p), 1);
    assert StrengthMessages[1] == NoUpper;
  }

  lemma NoLowerMeaning(p: string)
    ensures NoLower in ValidatePasswordStrength(p).errors <==> !HasLower(p)
  {
    ErrorFor(Failures(p), 2);
    assert StrengthMessages[2] == NoLower;
  }

  lemma NoDigitMeaning(p: string)
    ensures NoDigit in ValidatePasswordStrength(p).errors <==> !HasDigit(p)
  {
    ErrorFor(Failures(p), 3);
    assert StrengthMessages[3] == NoDigit;
  }

  lemma NoSpecialMeaning(p: string)
    ensures NoSpecial in ValidatePasswordStrength(p).errors <==> !HasSpecial(p)
  {
    ErrorFor(Failures(p), 4);
    assert StrengthMessages[4] == NoSpecial;
  }

  /** The messages come in the order of their rules. */
  lemma ErrorsInOrder(p: string)
    ensures forall i, j :: 0 <= i < j < |Errors(p)| ==> Rank(Errors(p)[i]) < Rank(Errors(p)[j])
  {
    FailedRulesIncreasing(Failures(p), 0);
  }

  /** `validatePasswordStrength`: the messages of the failing rules in
      the order of the rules; the password is valid iff there are none. */
  function ValidatePasswordStrength(p: string): (r: Strength)
    ensures r.isValid <==> r.errors == []
    ensures |r.errors| <= 5
    ensures forall i, j :: 0 <= i < j < |r.errors| ==> Rank(r.errors[i]) < Rank(r.errors[j])
  {
    var errors := Errors(p);
    ErrorsInOrder(p);
    Strength(|errors| == 0, errors)
  }

  // ---------------------------------------------------------------------
  // API keys

  const ApiKeyPrefix := "sk_stadiumbook_"

  /** `generateApiKey`: the prefix and 24 random bytes as hex. */
  function GenerateApiKey(random: seq<byte>): (key: string)
    requires |random| == 24
    ensures ApiKeyPrefix <= key
    ensures |key| == 63 && Utf16Length(key) == 63
  {
    var key := ApiKeyPrefix + Hex(random);
    assert forall i :: 0 <= i < |key| ==> key[i] < '\U{10000}' by {
      forall i | 0 <= i < |key| ensures key[i] < '\U{10000}' {
        if i >= |ApiKeyPrefix| {
          assert key[i] == Hex(random)[i - |ApiKeyPrefix|];
          assert IsHexChar(key[i]);
        }
      }
    }
    key
  }

  /** `isValidApiKey` as written: the prefix and a length of 56. */
  predicate IsValidApiKey(key: string) {
    ApiKeyPrefix <= key && Utf16Length(key) == 56
  }

  /** No key `generateApiKey` produces passes `isValidApiKey`. */
  lemma GeneratedKeyRejected(random: seq<byte>)
    requires |random| == 24
    ensures !IsValidApiKey(GenerateApiKey(random))
  {
  }

  /** The evidently intended check: the prefix followed by 48 lower-case
      hex characters, 63 in all. */
  predicate IsWellFormedApiKey(key: string) {
    ApiKeyPrefix <= key && Utf16Length(key) == 63
    && forall i :: |ApiKeyPrefix| <= i < |key| ==> IsHexChar(key[i])
  }

  /** Every generated key passes the corrected check. */
  lemma GeneratedKeyWellFormed(random: seq<byte>)
    requires |random| == 24
    ensures IsWellFormedApiKey(GenerateApiKey(random))
  {
    var key := GenerateApiKey(random);
    forall i | |ApiKeyPrefix| <= i < |key| ensures IsHexChar(key[i]) {
      assert key[i] == Hex(random)[i - |ApiKeyPrefix|];
    }
  }
}
