/** Export tokens: "expiry.hex(mac(id.expiry))", printed, parsed back and checked against the clock. Text is UTF-8
    bytes. */
module Presign {
  import opened Sequences

  type Byte = x: int | 0 <= x < 256

  const DOT: Byte := 46
  const PLUS: Byte := 43
  const DIGIT_0: Byte := 48
  const TAG_LEN := 32
  const U64_MAX: nat := 0xFFFF_FFFF_FFFF_FFFF

  // ----- hexadecimal -----

  /** `{:02x}` prints lower case. */
  function HexDigit(n: nat): Byte
    requires n < 16
  {
    if n < 10 then 48 + n else 87 + n
  }

  function HexNibble(c: Byte): (r: Option<nat>)
    ensures r.Some? ==> r.value < 16
  {
    if 48 <= c <= 57 then Some(c - 48)
    else if 97 <= c <= 102 then Some(c - 87)
    else if 65 <= c <= 70 then Some(c - 55)
    else None
  }

  function Encoded(bytes: seq<Byte>): seq<Byte> {
    if bytes == [] then []
    else Encoded(bytes[..|bytes| - 1]) + [HexDigit(bytes[|bytes| - 1] / 16), HexDigit(bytes[|bytes| - 1] % 16)]
  }

  /** The bytes whose digit pairs are the text, if its length is even and all of it is hexadecimal. */
  function Decoded(s: seq<Byte>): Option<seq<Byte>> {
    if s == [] then Some([])
    else if |s| < 2 then None
    else
      var front, hi, lo := Decoded(s[..|s| - 2]), HexNibble(s[|s| - 2]), HexNibble(s[|s| - 1]);
      if front.Some? && hi.Some? && lo.Some? then Some(front.value + [16 * hi.value + lo.value]) else None
  }

  /** `hex_encode`. */
  method HexEncode(bytes: seq<Byte>) returns (out: seq<Byte>)
    ensures out == Encoded(bytes) && |out| == 2 * |bytes|
  {
    out := [];
    for i := 0 to |bytes|
      invariant out == Encoded(bytes[..i]) && |out| == 2 * i
    {
      assert bytes[..i + 1][..i] == bytes[..i];
      out := out + [HexDigit(bytes[i] / 16), HexDigit(bytes[i] % 16)];
    }
    assert bytes[..|bytes|] == bytes;
  }

  /** `hex_decode`. */
  method HexDecode(s: seq<Byte>) returns (r: Option<seq<Byte>>)
    ensures r == Decoded(s)
  {
    if |s| % 2 != 0 {
      OddFails(s);
      return None;
    }
    var out: seq<Byte> := [];
    var i := 0;
    while i < |s|
      invariant 0 <= i <= |s| && i % 2 == 0
      invariant Decoded(s[..i]) == Some(out)
    {
      assert s[..i + 2][..i] == s[..i];
      var hi, lo := HexNibble(s[i]), HexNibble(s[i + 1]);
      if hi.None? || lo.None? {
        PrefixFails(s, i + 2);
        return None;
      }
      out := out + [16 * hi.value + lo.value];
      i := i + 2;
    }
    assert s[..|s|] == s;
    r := Some(out);
  }

  lemma {:induction false} OddFails(s: seq<Byte>)
    requires |s| % 2 != 0
    ensures Decoded(s) == None
  {
    if |s| >= 2 {
      OddFails(s[..|s| - 2]);
    }
  }

  lemma {:induction false} PrefixFails(s: seq<Byte>, n: nat)
    requires n <= |s| && |s| % 2 == n % 2 == 0 && Decoded(s[..n]) == None
    ensures Decoded(s) == None
  {
    if n < |s| {
      assert s[..|s| - 2][..n] == s[..n];
      PrefixFails(s[..|s| - 2], n);
    } else {
      assert s[..n] == s;
    }
  }

  function Lower(c: Byte): Byte {
    if 65 <= c <= 70 then c + 32 else c
  }

  function Lowered(s: seq<Byte>): seq<Byte> {
    if s == [] then [] else Lowered(s[..|s| - 1]) + [Lower(s[|s| - 1])]
  }

  lemma DigitOfNibble(c: Byte)
    requires HexNibble(c).Some?
    ensures HexDigit(HexNibble(c).value) == Lower(c)
  {
  }

  lemma Nibbles(hi: nat, lo: nat)
    requires hi < 16 && lo < 16
    ensures (16 * hi + lo) / 16 == hi && (16 * hi + lo) % 16 == lo
  {
  }

  lemma DecodedSnoc(s: seq<Byte>)
    requires s != [] && Decoded(s).Some?
    ensures |s| >= 2 && Decoded(s[..|s| - 2]).Some? && HexNibble(s[|s| - 2]).Some? && HexNibble(s[|s| - 1]).Some?
    ensures Decoded(s).value == Decoded(s[..|s| - 2]).value
            + [16 * HexNibble(s[|s| - 2]).value + HexNibble(s[|s| - 1]).value]
  {
    hide HexNibble;
  }

  lemma EncodedSnoc(bytes: seq<Byte>, b: Byte)
    ensures Encoded(bytes + [b]) == Encoded(bytes) + [HexDigit(b / 16), HexDigit(b % 16)]
  {
    assert (bytes + [b])[..|bytes|] == bytes;
  }

  lemma NibbleOfDigit(n: nat)
    requires n < 16
    ensures HexNibble(HexDigit(n)) == Some(n)
  {
  }

  lemma DecodedPair(s: seq<Byte>, a: Byte, b: Byte)
    requires Decoded(s).Some? && HexNibble(a).Some? && HexNibble(b).Some?
    ensures Decoded(s + [a, b]) == Some(Decoded(s).value + [16 * HexNibble(a).value + HexNibble(b).value])
  {
    assert (s + [a, b])[..|s|] == s;
    hide HexNibble;
  }

  /** Decoding undoes encoding. */
  lemma {:induction false} HexRoundTrip(bytes: seq<Byte>)
    ensures Decoded(Encoded(bytes)) == Some(bytes)
  {
    if bytes == [] {
      return;
    }
    hide *;
    var front, last := bytes[..|bytes| - 1], bytes[|bytes| - 1];
    HexRoundTrip(front);
    assert bytes == front + [last];
    EncodedSnoc(front, last);
    NibbleOfDigit(last / 16);
    NibbleOfDigit(last % 16);
    DecodedPair(Encoded(front), HexDigit(last / 16), HexDigit(last % 16));
  }

  lemma LoweredLast(s: seq<Byte>, c: Byte)
    ensures Lowered(s + [c]) == Lowered(s) + [Lower(c)]
  {
    assert (s + [c])[..|s|] == s;
    hide Lower;
  }

  lemma TwoMore<T>(s: seq<T>, c: T, d: T)
    ensures s + [c, d] == (s + [c]) + [d]
  {
  }

  lemma LoweredPair(s: seq<Byte>, c: Byte, d: Byte)
    ensures Lowered(s + [c, d]) == Lowered(s) + [Lower(c), Lower(d)]
  {
    hide *;
    TwoMore(s, c, d);
    LoweredLast(s, c);
    LoweredLast(s + [c], d);
    TwoMore(Lowered(s), Lower(c), Lower(d));
  }

  /** Encoding undoes decoding up to the case of the letters. */
  lemma {:induction false} HexRespelt(s: seq<Byte>)
    requires Decoded(s).Some?
    ensures Encoded(Decoded(s).value) == Lowered(s)
  {
    if s == [] {
      return;
    }
    hide *;
    DecodedSnoc(s);
    HexRespelt(s[..|s| - 2]);
    var hi, lo := HexNibble(s[|s| - 2]).value, HexNibble(s[|s| - 1]).value;
    DigitOfNibble(s[|s| - 2]);
    DigitOfNibble(s[|s| - 1]);
    Nibbles(hi, lo);
    EncodedSnoc(Decoded(s[..|s| - 2]).value, 16 * hi + lo);
    LoweredPair(s[..|s| - 2], s[|s| - 2], s[|s| - 1]);
    assert s == s[..|s| - 2] + [s[|s| - 2], s[|s| - 1]];
  }

  // ----- decimal -----

  function Decimal(n: nat): seq<Byte> {
    if n < 10 then [DIGIT_0 + n] else Decimal(n / 10) + [DIGIT_0 + n % 10]
  }

  predicate IsDigit(c: Byte) {
    DIGIT_0 <= c <= DIGIT_0 + 9
  }

  function DigitsValue(s: seq<Byte>): nat
    requires AllDigits(s)
  {
    if s == [] then 0
    else
      assert IsDigit(s[|s| - 1]);
      10 * DigitsValue(s[..|s| - 1]) + (s[|s| - 1] - DIGIT_0)
  }

  predicate AllDigits(s: seq<Byte>) {
    forall i :: 0 <= i < |s| ==> IsDigit(s[i])
  }

  function Unsigned(s: seq<Byte>): seq<Byte> {
    if s != [] && s[0] == PLUS then s[1..] else s
  }

  /** `parse::<u64>`: an optional plus sign, then one or more digits whose value fits. */
  function ParseU64(s: seq<Byte>): (r: Option<nat>)
    ensures r.Some? ==> r.value <= U64_MAX
  {
    var digits := Unsigned(s);
    if digits == [] || !AllDigits(digits) then None
    else if DigitsValue(digits) > U64_MAX then None
    else Some(DigitsValue(digits))
  }

  lemma {:induction false} DecimalIs(n: nat)
    ensures Decimal(n) != [] && AllDigits(Decimal(n))
    ensures DigitsValue(Decimal(n)) == n
  {
    if n >= 10 {
      DecimalIs(n / 10);
      assert Decimal(n)[..|Decimal(n)| - 1] == Decimal(n / 10);
    } else {
      assert Decimal(n)[..0] == [];
    }
  }

  lemma DecimalParses(n: nat)
    requires n <= U64_MAX
    ensures ParseU64(Decimal(n)) == Some(n)
  {
    DecimalIs(n);
    assert IsDigit(Decimal(n)[0]);
  }

  lemma DecimalInjective(m: nat, n: nat)
    requires Decimal(m) == Decimal(n)
    ensures m == n
  {
    DecimalIs(m);
    DecimalIs(n);
  }

  // ----- tokens -----

  /** A message authentication code under the server's key. */
  type Mac = seq<Byte> -> seq<Byte>

  ghost predicate TagSized(mac: Mac) {
    forall m :: |mac(m)| == TAG_LEN
  }

  /** What is authenticated: "id.expiry". */
  function Payload(id: seq<Byte>, expiry: nat): seq<Byte> {
    id + [DOT] + Decimal(expiry)
  }

  function Expiry(now: nat, ttl: nat): nat {
    if now + ttl > U64_MAX then U64_MAX else now + ttl
  }

  function TokenFor(mac: Mac, id: seq<Byte>, expiry: nat): seq<Byte> {
    Decimal(expiry) + [DOT] + Encoded(mac(Payload(id, expiry)))
  }

  method Sign(mac: Mac, id: seq<Byte>, now: nat, ttl: nat) returns (token: seq<Byte>)
    ensures token == TokenFor(mac, id, Expiry(now, ttl))
  {
    var expiry := if now + ttl > U64_MAX then U64_MAX else now + ttl;
    var tag := HexEncode(mac(Payload(id, expiry)));
    token := Decimal(expiry) + [DOT] + tag;
  }

  function FirstDot(s: seq<Byte>): (i: nat)
    ensures i <= |s| && (i < |s| ==> s[i] == DOT) && forall j :: 0 <= j < i ==> s[j] != DOT
  {
    if s == [] || s[0] == DOT then 0 else 1 + FirstDot(s[1..])
  }

  /** `split_once('.')`. */
  function SplitAtDot(s: seq<Byte>): Option<(seq<Byte>, seq<Byte>)> {
    var i := FirstDot(s);
    if i == |s| then None else Some((s[..i], s[i + 1..]))
  }

  /** A token, read back: its expiry and its tag. */
  function Read(token: seq<Byte>): Option<(nat, seq<Byte>)> {
    var parts := SplitAtDot(token);
    if parts.None? || ParseU64(parts.value.0).None? || Decoded(parts.value.1).None? then None
    else Some((ParseU64(parts.value.0).value, Decoded(parts.value.1).value))
  }

  /** `verify`. A token is accepted exactly when it reads back as an expiry still ahead and the tag of this id and
      expiry. */
  method Verify(mac: Mac, id: seq<Byte>, now: nat, token: seq<Byte>) returns (ok: bool)
    requires TagSized(mac)
    ensures ok <==> Read(token).Some? && now < Read(token).value.0
                    && Read(token).value.1 == mac(Payload(id, Read(token).value.0))
  {
    var parts := SplitAtDot(token);
    if parts.None? {
      return false;
    }
    var expiry := ParseU64(parts.value.0);
    if expiry.None? {
      return false;
    }
    if now >= expiry.value {
      return false;
    }
    var tag := HexDecode(parts.value.1);
    if tag.None? {
      return false;
    }
    if |tag.value| != TAG_LEN {
      return false;
    }
    ok := tag.value == mac(Payload(id, expiry.value));
  }

  lemma SplitJoined(a: seq<Byte>, b: seq<Byte>)
    requires DOT !in a
    ensures SplitAtDot(a + [DOT] + b) == Some((a, b))
  {
    var s := a + [DOT] + b;
    assert s[|a|] == DOT;
    assert forall j :: 0 <= j < |a| ==> s[j] == a[j];
    assert FirstDot(s) == |a|;
    assert s[..|a|] == a && s[|a| + 1..] == b;
  }

  lemma NoDotInDecimal(n: nat)
    ensures DOT !in Decimal(n)
  {
    DecimalIs(n);
    forall i | 0 <= i < |Decimal(n)|
      ensures Decimal(n)[i] != DOT
    {
      assert IsDigit(Decimal(n)[i]);
    }
  }

  /** A signed token reads back as what was signed. */
  lemma ReadSigned(mac: Mac, id: seq<Byte>, expiry: nat)
    requires expiry <= U64_MAX
    ensures Read(TokenFor(mac, id, expiry)) == Some((expiry, mac(Payload(id, expiry))))
  {
    NoDotInDecimal(expiry);
    DecimalParses(expiry);
    HexRoundTrip(mac(Payload(id, expiry)));
    SplitJoined(Decimal(expiry), Encoded(mac(Payload(id, expiry))));
    hide ParseU64, Decoded, Encoded, Decimal, SplitAtDot;
  }

  /** For any key, id, clock and lifetime, what was signed verifies exactly until its expiry. */
  method RoundTrip(mac: Mac, id: seq<Byte>, signedAt: nat, ttl: nat, now: nat) returns (ok: bool)
    requires TagSized(mac)
    ensures ok <==> now < Expiry(signedAt, ttl)
  {
    var token := Sign(mac, id, signedAt, ttl);
    ok := Verify(mac, id, now, token);
    ReadSigned(mac, id, Expiry(signedAt, ttl));
  }

  lemma LastDot(a: seq<Byte>, d: seq<Byte>, b: seq<Byte>, e: seq<Byte>)
    requires a + [DOT] + d == b + [DOT] + e
    ensures |d| < |e| ==> DOT in e
  {
    var p := a + [DOT] + d;
    assert p[|a|] == DOT;
    if |d| < |e| {
      assert (b + [DOT] + e)[|a|] == e[|e| - |d| - 1];
    }
  }

  /** Whatever bytes the id holds, dots included, id and expiry can be told apart in what is authenticated. */
  lemma PayloadInjective(id1: seq<Byte>, e1: nat, id2: seq<Byte>, e2: nat)
    requires Payload(id1, e1) == Payload(id2, e2)
    ensures id1 == id2 && e1 == e2
  {
    var p, d1, d2 := Payload(id1, e1), Decimal(e1), Decimal(e2);
    NoDotInDecimal(e1);
    NoDotInDecimal(e2);
    hide Decimal;
    LastDot(id1, d1, id2, d2);
    LastDot(id2, d2, id1, d1);
    assert p[|p| - |d1|..] == d1 && p[|p| - |d2|..] == d2;
    DecimalInjective(e1, e2);
    assert p[..|id1|] == id1 && p[..|id2|] == id2;
  }

  /** A token accepted for two ids means that two different payloads have one tag. */
  lemma OneTokenOneId(mac: Mac, id1: seq<Byte>, id2: seq<Byte>, token: seq<Byte>)
    requires Read(token).Some? && id1 != id2
    requires Read(token).value.1 == mac(Payload(id1, Read(token).value.0)) == mac(Payload(id2, Read(token).value.0))
    ensures exists p, q :: p != q && mac(p) == mac(q)
  {
    var e := Read(token).value.0;
    if Payload(id1, e) == Payload(id2, e) {
      PayloadInjective(id1, e, id2, e);
    }
  }

  // ----- every accepted spelling -----

  lemma {:induction false} EncodedSize(bytes: seq<Byte>)
    ensures |Encoded(bytes)| == 2 * |bytes|
  {
    if bytes != [] {
      EncodedSize(bytes[..|bytes| - 1]);
    }
  }

  lemma {:induction false} LoweredSize(s: seq<Byte>)
    ensures |Lowered(s)| == |s|
  {
    if s != [] {
      LoweredSize(s[..|s| - 1]);
    }
  }

  lemma NibbleOfLower(c: Byte, n: nat)
    requires n < 16 && Lower(c) == HexDigit(n)
    ensures HexNibble(c) == Some(n)
  {
  }

  /** A text decodes to given bytes exactly when it is their encoding but for the case of its letters. */
  lemma {:induction false} DecodesIff(s: seq<Byte>, bytes: seq<Byte>)
    ensures Decoded(s) == Some(bytes) <==> Lowered(s) == Encoded(bytes)
  {
    if Decoded(s) == Some(bytes) {
      HexRespelt(s);
    }
    if Lowered(s) == Encoded(bytes) {
      LoweredDecodes(s, bytes);
    }
  }

  lemma {:induction false} LoweredDecodes(s: seq<Byte>, bytes: seq<Byte>)
    requires Lowered(s) == Encoded(bytes)
    ensures Decoded(s) == Some(bytes)
    decreases |bytes|
  {
    LoweredSize(s);
    EncodedSize(bytes);
    if bytes == [] {
      return;
    }
    var front, last := bytes[..|bytes| - 1], bytes[|bytes| - 1];
    var head, c, d := s[..|s| - 2], s[|s| - 2], s[|s| - 1];
    assert s == head + [c, d] && bytes == front + [last];
    hide *;
    LoweredPair(head, c, d);
    EncodedSnoc(front, last);
    LoweredSize(head);
    EncodedSize(front);
    SameEnds(Lowered(head), Lower(c), Lower(d), Encoded(front), HexDigit(last / 16), HexDigit(last % 16));
    LoweredDecodes(head, front);
    NibbleOfLower(c, last / 16);
    NibbleOfLower(d, last % 16);
    DecodedPair(head, c, d);
  }

  lemma SameEnds(a: seq<Byte>, c: Byte, d: Byte, b: seq<Byte>, e: Byte, f: Byte)
    requires a + [c, d] == b + [e, f]
    ensures a == b && c == e && d == f
  {
    assert |a| == |b|;
    assert (a + [c, d])[..|a|] == a && (b + [e, f])[..|b|] == b;
    assert (a + [c, d])[|a|] == c && (a + [c, d])[|a| + 1] == d;
  }

  function Zeros(n: nat): seq<Byte> {
    if n == 0 then [] else Zeros(n - 1) + [DIGIT_0]
  }

  /** Digits are zeros and the decimal of their value. */
  lemma {:induction false} DigitsAre(s: seq<Byte>)
    requires s != [] && AllDigits(s)
    ensures |Decimal(DigitsValue(s))| <= |s| && s == Zeros(|s| - |Decimal(DigitsValue(s))|) + Decimal(DigitsValue(s))
  {
    var front, d := s[..|s| - 1], s[|s| - 1];
    assert s == front + [d] && IsDigit(d);
    assert AllDigits(front);
    var v, digit := DigitsValue(front), d - DIGIT_0;
    assert DigitsValue(s) == 10 * v + digit;
    if front == [] {
      assert s == [d] && Decimal(digit) == [d];
      assert Zeros(0) + [d] == [d];
      return;
    }
    DigitsAre(front);
    var n := |front| - |Decimal(v)|;
    if v == 0 {
      assert Decimal(0) == [DIGIT_0] && Decimal(digit) == [d];
      assert front == Zeros(n) + [DIGIT_0] == Zeros(n + 1);
      return;
    }
    assert (10 * v + digit) / 10 == v && (10 * v + digit) % 10 == digit;
    assert Decimal(10 * v + digit) == Decimal(v) + [d];
    Assoc(Zeros(n), Decimal(v), [d]);
  }

  lemma {:induction false} ZerosValue(n: nat, s: seq<Byte>)
    requires AllDigits(s)
    ensures AllDigits(Zeros(n)) && AllDigits(Zeros(n) + s) && DigitsValue(Zeros(n) + s) == DigitsValue(s)
    decreases n + |s|
  {
    if s != [] {
      assert (Zeros(n) + s)[..|Zeros(n) + s| - 1] == Zeros(n) + s[..|s| - 1];
      ZerosValue(n, s[..|s| - 1]);
    } else {
      assert Zeros(n) + s == Zeros(n);
      if n > 0 {
        ZerosValue(n - 1, []);
        assert Zeros(n - 1) + [] == Zeros(n - 1);
        assert Zeros(n)[..|Zeros(n)| - 1] == Zeros(n - 1);
      }
    }
  }

  /** An expiry as a token may write it: perhaps a plus sign, then zeros, then its decimal. */
  ghost predicate Spells(s: seq<Byte>, n: nat) {
    exists zeros: nat :: Unsigned(s) == Zeros(zeros) + Decimal(n)
  }

  lemma ParsesIff(s: seq<Byte>, n: nat)
    ensures ParseU64(s) == Some(n) <==> n <= U64_MAX && Spells(s, n)
  {
    var digits := Unsigned(s);
    if ParseU64(s) == Some(n) {
      DigitsAre(digits);
      assert digits == Zeros(|digits| - |Decimal(n)|) + Decimal(n);
    }
    if n <= U64_MAX && Spells(s, n) {
      var zeros: nat :| digits == Zeros(zeros) + Decimal(n);
      DecimalIs(n);
      ZerosValue(zeros, Decimal(n));
    }
  }

  lemma SplitIff(token: seq<Byte>, a: seq<Byte>, b: seq<Byte>)
    ensures SplitAtDot(token) == Some((a, b)) <==> DOT !in a && token == a + [DOT] + b
  {
    if SplitAtDot(token) == Some((a, b)) {
      var i := FirstDot(token);
      assert token == token[..i] + [token[i]] + token[i + 1..];
    }
    if DOT !in a && token == a + [DOT] + b {
      SplitJoined(a, b);
    }
  }

  /** The token is some spelling of the one signed for this id and an expiry: in its two parts, the expiry perhaps after
      a plus sign and zeros, and the tag in letters of either case. */
  ghost predicate Respells(mac: Mac, id: seq<Byte>, token: seq<Byte>, expiry: nat, a: seq<Byte>, b: seq<Byte>) {
    && DOT !in a && token == a + [DOT] + b
    && expiry <= U64_MAX && Spells(a, expiry)
    && Lowered(b) == Encoded(mac(Payload(id, expiry)))
  }

  /** Exactly the respellings of signed tokens read back as their expiry and tag, so `Verify` accepts exactly those
      whose expiry is still ahead. */
  lemma AcceptedIff(mac: Mac, id: seq<Byte>, token: seq<Byte>, expiry: nat)
    ensures Read(token) == Some((expiry, mac(Payload(id, expiry))))
            <==> exists a, b :: Respells(mac, id, token, expiry, a, b)
  {
    var tag := mac(Payload(id, expiry));
    hide ParseU64, Decoded, Encoded, Lowered, Spells, SplitAtDot, Decimal;
    if Read(token) == Some((expiry, tag)) {
      var (a, b) := SplitAtDot(token).value;
      SplitIff(token, a, b);
      ParsesIff(a, expiry);
      DecodesIff(b, tag);
      assert Respells(mac, id, token, expiry, a, b);
    }
    if a, b :| Respells(mac, id, token, expiry, a, b) {
      SplitIff(token, a, b);
      ParsesIff(a, expiry);
      DecodesIff(b, tag);
    }
  }

  /** A leading plus sign is one such spelling: the token with it is accepted whenever the token is. */
  lemma PlusReads(mac: Mac, id: seq<Byte>, expiry: nat)
    requires expiry <= U64_MAX
    ensures Read([PLUS] + TokenFor(mac, id, expiry)) == Read(TokenFor(mac, id, expiry))
  {
    var tag, d := Encoded(mac(Payload(id, expiry))), Decimal(expiry);
    NoDotInDecimal(expiry);
    DecimalIs(expiry);
    assert IsDigit(d[0]) && d[0] != PLUS;
    ParsePlus(d);
    assert TokenFor(mac, id, expiry) == d + [DOT] + tag;
    hide ParseU64, Decoded, Encoded, Decimal, SplitAtDot, TokenFor, AllDigits;
    SplitJoined(d, tag);
    SplitJoined([PLUS] + d, tag);
    PlusFirst(d, tag);
  }

  lemma PlusFirst(d: seq<Byte>, tag: seq<Byte>)
    ensures [PLUS] + (d + [DOT] + tag) == ([PLUS] + d) + [DOT] + tag
  {
  }

  lemma ParsePlus(d: seq<Byte>)
    requires d != [] && d[0] != PLUS
    ensures ParseU64([PLUS] + d) == ParseU64(d)
  {
    assert ([PLUS] + d)[1..] == d;
    hide DigitsValue;
  }
}
