/** Base64urlUInt, section 2 of RFC 7518: how the key set writes the RSA modulus and exponent. */
module Jwks {
  import opened Common

  type Octet = n: nat | n < 256
  type Sextet = n: nat | n < 64

  // ---- Encoding, as the service does it ---------------------------------------------------------

  /** `value.bit_length()`. */
  function BitLength(value: nat): nat {
    if value == 0 then 0 else 1 + BitLength(value / 2)
  }

  /** `value.to_bytes(length, byteorder="big")`. */
  function ToBytes(value: nat, length: nat): (octets: seq<Octet>)
    ensures |octets| == length
  {
    if length == 0 then [] else ToBytes(value / 256, length - 1) + [value % 256]
  }

  function Sextet0(a: Octet): Sextet { a / 4 }
  function Sextet1(a: Octet, b: Octet): Sextet { a % 4 * 16 + b / 16 }
  function Sextet2(b: Octet, c: Octet): Sextet { b % 16 * 4 + c / 64 }
  function Sextet3(c: Octet): Sextet { c % 64 }

  /** Three octets make four sextets; one or two left over, filled up with zero bits, make two or three. */
  function Sextets(octets: seq<Octet>): seq<Sextet> {
    if octets == [] then []
    else if |octets| == 1 then [Sextet0(octets[0]), Sextet1(octets[0], 0)]
    else if |octets| == 2 then [Sextet0(octets[0]), Sextet1(octets[0], octets[1]), Sextet2(octets[1], 0)]
    else
      [Sextet0(octets[0]), Sextet1(octets[0], octets[1]), Sextet2(octets[1], octets[2]), Sextet3(octets[2])]
      + Sextets(octets[3..])
  }

  /** The URL and filename safe alphabet, section 5 of RFC 4648. */
  function Letter(x: Sextet): char {
    if x < 26 then 'A' + x as char
    else if x < 52 then 'a' + (x - 26) as char
    else if x < 62 then '0' + (x - 52) as char
    else if x == 62 then '-'
    else '_'
  }

  function Letters(xs: seq<Sextet>): (s: string)
    ensures |s| == |xs|
  {
    if xs == [] then "" else [Letter(xs[0])] + Letters(xs[1..])
  }

  function Repeat(c: char, n: nat): string { seq(n, _ => c) }

  /** `base64.urlsafe_b64encode(octets)`, padded to a multiple of four. */
  function UrlsafeB64Encode(octets: seq<Octet>): string {
    Letters(Sextets(octets)) + Repeat('=', (3 - |octets| % 3) % 3)
  }

  /** `s.rstrip(c)`. */
  function StripRight(s: string, c: char): string {
    if s != "" && s[|s| - 1] == c then StripRight(s[..|s| - 1], c) else s
  }

  function Octets(value: nat): seq<Octet> {
    ToBytes(value, (BitLength(value) + 7) / 8)
  }

  function IntToBase64Url(value: nat): string {
    StripRight(UrlsafeB64Encode(Octets(value)), '=')
  }

  // ---- Decoding, as a verifier of the key set does it ---------------------------------------------

  function Value(c: char): Option<Sextet> {
    if 'A' <= c <= 'Z' then Some((c - 'A') as int)
    else if 'a' <= c <= 'z' then Some((c - 'a') as int + 26)
    else if '0' <= c <= '9' then Some((c - '0') as int + 52)
    else if c == '-' then Some(62)
    else if c == '_' then Some(63)
    else None
  }

  function Values(s: string): (xs: Option<seq<Sextet>>)
    ensures xs.Some? ==> |xs.value| == |s|
  {
    if s == "" then Some([])
    else
      var head, tail := Value(s[0]), Values(s[1..]);
      if head.Some? && tail.Some? then Some([head.value] + tail.value) else None
  }

  function First(a: Sextet, b: Sextet): Octet { a * 4 + b / 16 }
  function Second(b: Sextet, c: Sextet): Octet { b % 16 * 16 + c / 4 }
  function Third(c: Sextet, d: Sextet): Octet { c % 4 * 64 + d }

  function BytesOf(xs: seq<Sextet>): Option<seq<Octet>> {
    if |xs| == 0 then Some([])
    else if |xs| == 1 then None
    else if |xs| == 2 then Some([First(xs[0], xs[1])])
    else if |xs| == 3 then Some([First(xs[0], xs[1]), Second(xs[1], xs[2])])
    else
      var rest := BytesOf(xs[4..]);
      if rest.None? then None
      else Some([First(xs[0], xs[1]), Second(xs[1], xs[2]), Third(xs[2], xs[3])] + rest.value)
  }

  function FromBytes(octets: seq<Octet>): nat {
    if octets == [] then 0 else FromBytes(octets[..|octets| - 1]) * 256 + octets[|octets| - 1]
  }

  function Base64UrlToInt(s: string): Option<nat> {
    var xs := Values(s);
    if xs.None? then None
    else
      var octets := BytesOf(xs.value);
      if octets.None? then None else Some(FromBytes(octets.value))
  }

  // ---- Octets: exact and minimal -------------------------------------------------------------------

  lemma Halved(value: nat)
    ensures BitLength(value) == if value == 0 then 0 else 1 + BitLength(value / 2)
  {
  }

  lemma BitLengthOfOctet(value: nat)
    requires value > 0
    ensures BitLength(value) == if value < 256 then BitLength(value) else 8 + BitLength(value / 256)
    ensures value < 256 ==> 1 <= BitLength(value) <= 8
  {
    hide BitLength;
    var v1, v2, v3 := value / 2, value / 2 / 2, value / 2 / 2 / 2;
    var v4, v5, v6 := v3 / 2, v3 / 2 / 2, v3 / 2 / 2 / 2;
    var v7 := v6 / 2;
    assert v7 / 2 == value / 256;
    Halved(value);
    Halved(v1);
    Halved(v2);
    Halved(v3);
    Halved(v4);
    Halved(v5);
    Halved(v6);
    Halved(v7);
    Halved(v7 / 2);
  }

  /** The length taken from the bit length is one octet for every factor of 256. */
  lemma OctetCount(value: nat)
    requires value > 0
    ensures (BitLength(value) + 7) / 8 == 1 + (BitLength(value / 256) + 7) / 8
  {
    BitLengthOfOctet(value);
  }

  lemma OctetsGrow(value: nat)
    requires value > 0
    ensures Octets(value) == Octets(value / 256) + [value % 256]
  {
    OctetCount(value);
    hide BitLength;
  }

  lemma FromBytesGrow(front: seq<Octet>, last: Octet)
    ensures FromBytes(front + [last]) == FromBytes(front) * 256 + last
  {
    assert (front + [last])[..|front|] == front;
  }

  lemma {:induction false} OctetsAreExact(value: nat)
    ensures FromBytes(Octets(value)) == value
    ensures value > 0 ==> Octets(value) != [] && Octets(value)[0] != 0
  {
    assert Octets(0) == [];
    if value > 0 {
      hide Octets, FromBytes;
      var front := Octets(value / 256);
      OctetsAreExact(value / 256);
      OctetsGrow(value);
      FromBytesGrow(front, value % 256);
    }
  }

  // ---- Sextets and letters: reversible --------------------------------------------------------------

  lemma OctetsBack(a: Octet, b: Octet, c: Octet)
    ensures First(Sextet0(a), Sextet1(a, b)) == a
    ensures Second(Sextet1(a, b), Sextet2(b, c)) == b
    ensures Third(Sextet2(b, c), Sextet3(c)) == c
  {
  }

  lemma {:induction false} SextetsReverse(octets: seq<Octet>)
    ensures BytesOf(Sextets(octets)) == Some(octets)
    ensures |Sextets(octets)| == (4 * |octets| + 2) / 3
    decreases |octets|
  {
    hide First, Second, Third, Sextet0, Sextet1, Sextet2, Sextet3;
    if |octets| >= 3 {
      OctetsBack(octets[0], octets[1], octets[2]);
      SextetsReverse(octets[3..]);
      assert Sextets(octets)[4..] == Sextets(octets[3..]);
      assert octets == [octets[0], octets[1], octets[2]] + octets[3..];
    } else if |octets| == 2 {
      OctetsBack(octets[0], octets[1], 0);
      assert octets == [octets[0], octets[1]];
    } else if |octets| == 1 {
      OctetsBack(octets[0], 0, 0);
      assert octets == [octets[0]];
    }
  }

  lemma LetterBack(x: Sextet)
    ensures Value(Letter(x)) == Some(x) && Letter(x) != '='
  {
  }

  /** The URL and filename safe alphabet: capitals, small letters and digits, each in order, then '-' and '_'. */
  lemma Alphabet(x: Sextet, y: Sextet)
    ensures x < 26 <==> 'A' <= Letter(x) <= 'Z'
    ensures 26 <= x < 52 <==> 'a' <= Letter(x) <= 'z'
    ensures 52 <= x < 62 <==> '0' <= Letter(x) <= '9'
    ensures x == 62 <==> Letter(x) == '-'
    ensures x == 63 <==> Letter(x) == '_'
    ensures x < y && (y < 26 || 26 <= x < y < 52 || 52 <= x < y < 62) ==> Letter(x) < Letter(y)
  {
  }

  /** Zero bits fill up the last sextet of a partial group. */
  predicate FilledWithZeros(xs: seq<Sextet>) {
    |xs| > 0 ==>
      && (|xs| % 4 == 2 ==> xs[|xs| - 1] % 16 == 0)
      && (|xs| % 4 == 3 ==> xs[|xs| - 1] % 4 == 0)
  }

  lemma SextetsBack(w: Sextet, x: Sextet, y: Sextet, z: Sextet)
    ensures Sextet0(First(w, x)) == w
    ensures Sextet1(First(w, x), Second(x, y)) == x
    ensures Sextet2(Second(x, y), Third(y, z)) == y
    ensures Sextet3(Third(y, z)) == z
    ensures x % 16 == 0 ==> Sextet1(First(w, x), 0) == x
    ensures y % 4 == 0 ==> Sextet2(Second(x, y), 0) == y
  {
  }

  lemma PartialFilled(a: Octet, b: Octet)
    ensures Sextet1(a, 0) % 16 == 0 && Sextet2(b, 0) % 4 == 0
  {
  }

  lemma {:induction false} SextetsFilled(octets: seq<Octet>)
    ensures FilledWithZeros(Sextets(octets)) && |Sextets(octets)| % 4 != 1
    decreases |octets|
  {
    hide Sextet0, Sextet1, Sextet2, Sextet3;
    if octets == [] {
    } else if |octets| < 3 {
      PartialFilled(octets[0], octets[|octets| - 1]);
    } else {
      SextetsFilled(octets[3..]);
    }
  }

  lemma {:induction false} OnlySextets(xs: seq<Sextet>, octets: seq<Octet>)
    requires BytesOf(xs) == Some(octets) && FilledWithZeros(xs)
    ensures xs == Sextets(octets)
    decreases |xs|
  {
    hide First, Second, Third, Sextet0, Sextet1, Sextet2, Sextet3;
    if xs == [] {
    } else if |xs| == 2 {
      SextetsBack(xs[0], xs[1], 0, 0);
    } else if |xs| == 3 {
      SextetsBack(xs[0], xs[1], xs[2], 0);
    } else {
      SextetsBack(xs[0], xs[1], xs[2], xs[3]);
      var rest := BytesOf(xs[4..]).value;
      assert octets[3..] == rest;
      OnlySextets(xs[4..], rest);
      assert xs == [xs[0], xs[1], xs[2], xs[3]] + xs[4..];
    }
  }

  /** The sextets are the only ones that decode to the octets and fill the last group with zero bits. */
  lemma SextetsAreCanonical(xs: seq<Sextet>, octets: seq<Octet>)
    ensures xs == Sextets(octets) <==> BytesOf(xs) == Some(octets) && FilledWithZeros(xs)
  {
    SextetsReverse(octets);
    SextetsFilled(octets);
    if BytesOf(xs) == Some(octets) && FilledWithZeros(xs) {
      OnlySextets(xs, octets);
    }
    hide Sextets, BytesOf, FilledWithZeros;
  }

  lemma {:induction false} LettersReverse(xs: seq<Sextet>)
    ensures Values(Letters(xs)) == Some(xs)
    ensures '=' !in Letters(xs)
  {
    hide Letter, Value;
    if xs == [] {
    } else {
      LettersReverse(xs[1..]);
      assert Letters(xs)[1..] == Letters(xs[1..]);
      LetterBack(xs[0]);
      assert xs == [xs[0]] + xs[1..];
    }
  }

  lemma {:induction false} StripPadding(s: string, c: char, n: nat)
    requires c !in s
    ensures StripRight(s + Repeat(c, n), c) == s
  {
    if n == 0 {
      assert s + Repeat(c, 0) == s;
    } else {
      assert (s + Repeat(c, n))[..|s| + n - 1] == s + Repeat(c, n - 1);
      StripPadding(s, c, n - 1);
    }
  }

  /** Stripping takes exactly the padding and no data: k octets give ceil(4k/3) characters, none of them '='. */
  lemma StrippingIsPadding(value: nat)
    ensures var k := |Octets(value)|;
            && UrlsafeB64Encode(Octets(value)) == IntToBase64Url(value) + Repeat('=', (3 - k % 3) % 3)
            && '=' !in IntToBase64Url(value)
            && |IntToBase64Url(value)| == (4 * k + 2) / 3
  {
    hide Sextets, Octets, BytesOf, Letters, Values, StripRight, Repeat;
    var octets := Octets(value);
    SextetsReverse(octets);
    LettersReverse(Sextets(octets));
    StripPadding(Letters(Sextets(octets)), '=', (3 - |octets| % 3) % 3);
  }

  /** Decoding gives every value back. */
  lemma RoundTrip(value: nat)
    ensures Base64UrlToInt(IntToBase64Url(value)) == Some(value)
  {
    hide Sextets, Octets, BytesOf, FromBytes, Letters, Values, StripRight, Repeat;
    var octets := Octets(value);
    OctetsAreExact(value);
    SextetsReverse(octets);
    LettersReverse(Sextets(octets));
    StripPadding(Letters(Sextets(octets)), '=', (3 - |octets| % 3) % 3);
  }

  lemma Injective(a: nat, b: nat)
    requires IntToBase64Url(a) == IntToBase64Url(b)
    ensures a == b
  {
    RoundTrip(a);
    RoundTrip(b);
  }

  /** The encoding has no superfluous zero octet, and follows section 2 of RFC 7518 except that zero, which
      that section writes "AA", comes out empty. */
  lemma MinimalExceptZero(value: nat)
    ensures IntToBase64Url(value) == "" <==> value == 0
    ensures value > 0 ==> Octets(value)[0] != 0
  {
    OctetsAreExact(value);
    StrippingIsPadding(value);
  }
}
