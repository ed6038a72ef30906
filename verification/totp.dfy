/**
 Time-based one-time codes: base32 decoding of the secret, dynamic truncation, and the window search.
 HMAC-SHA-1 is a parameter. Bytes are numbers below 256, bit strings are strings over '0' and '1'.
 */
module Totp {
  import opened Common

  // ---------- numbers and bit strings ----------

  function Pow2(k: nat): (r: nat)
    ensures r > 0
  {
    if k == 0 then 1 else 2 * Pow2(k - 1)
  }

  /** The k-digit big-endian binary form. */
  function Bits(n: nat, k: nat): (s: string)
    ensures |s| == k
  {
    if k == 0 then "" else Bits(n / 2, k - 1) + [if n % 2 == 1 then '1' else '0']
  }

  /** parseInt(s, 2). */
  function Value(s: string): nat {
    if s == "" then 0 else 2 * Value(s[..|s| - 1]) + if s[|s| - 1] == '1' then 1 else 0
  }

  predicate Binary(s: string) {
    forall i :: 0 <= i < |s| ==> s[i] == '0' || s[i] == '1'
  }

  lemma {:induction false} ValueOfBits(n: nat, k: nat)
    requires n < Pow2(k)
    ensures Value(Bits(n, k)) == n && Binary(Bits(n, k))
  {
    if k > 0 {
      ValueOfBits(n / 2, k - 1);
      assert Bits(n, k)[..k - 1] == Bits(n / 2, k - 1);
    }
  }

  lemma {:induction false} BitsOfValue(s: string)
    requires Binary(s)
    ensures Bits(Value(s), |s|) == s && Value(s) < Pow2(|s|)
  {
    if s != "" {
      BitsOfValue(s[..|s| - 1]);
      assert s == s[..|s| - 1] + [s[|s| - 1]];
    }
  }

  /** val.toString(2). */
  function ToBinary(n: nat): string {
    if n < 2 then [if n == 1 then '1' else '0'] else ToBinary(n / 2) + [if n % 2 == 1 then '1' else '0']
  }

  function PadStart(s: string, width: nat): string {
    if |s| >= width then s else seq(width - |s|, i => '0') + s
  }

  lemma {:induction false} PaddedBinaryIsBits(n: nat, k: nat)
    requires n < Pow2(k) && k > 0
    ensures PadStart(ToBinary(n), k) == Bits(n, k) && |ToBinary(n)| <= k
  {
    if n < 2 {
      LeadingZeros(n, k);
    } else {
      PaddedBinaryIsBits(n / 2, k - 1);
    }
  }

  lemma {:induction false} LeadingZeros(n: nat, k: nat)
    requires n < 2 && k > 0
    ensures Bits(n, k) == seq(k - 1, i => '0') + [if n == 1 then '1' else '0']
  {
    if k > 1 {
      LeadingZeros(0, k - 1);
    }
  }

  // ---------- base32 ----------

  const ALPHABET := "ABCDEFGHIJKLMNOPQRSTUVWXYZ234567"

  /** base32Chars.indexOf(c). */
  function IndexOf(chars: string, c: char): (i: int)
    ensures -1 <= i < |chars| && (i >= 0 ==> chars[i] == c) && (i == -1 <==> c !in chars)
    ensures forall k :: 0 <= k < i ==> chars[k] != c
  {
    if chars == "" then -1
    else if chars[0] == c then 0
    else var rest := IndexOf(chars[1..], c); if rest < 0 then -1 else rest + 1
  }

  /** Upper-casing of ASCII letters. */
  function Upper(s: string): string {
    seq(|s|, i requires 0 <= i < |s| => if 'a' <= s[i] <= 'z' then (s[i] as int - 32) as char else s[i])
  }

  function StripPadding(s: string): string {
    if s != "" && s[|s| - 1] == '=' then StripPadding(s[..|s| - 1]) else s
  }

  /** Five bits for every alphabet character; anything else is skipped. */
  function SecretBits(s: string): string {
    if s == "" then ""
    else
      var val := IndexOf(ALPHABET, s[|s| - 1]);
      SecretBits(s[..|s| - 1]) + if val >= 0 then Bits(val, 5) else ""
  }

  /** Whole groups of eight bits; a shorter rest is dropped. */
  function Bytes(bits: string): seq<nat> {
    if |bits| < 8 then [] else [Value(bits[..8])] + Bytes(bits[8..])
  }

  function DecodedSecret(secret: string): seq<nat> {
    Bytes(SecretBits(StripPadding(Upper(secret))))
  }

  predicate IsBytes(bytes: seq<nat>) {
    forall i :: 0 <= i < |bytes| ==> bytes[i] < 256
  }

  // Base32 as section 6 of RFC 4648 defines it.

  function ByteBits(bytes: seq<nat>): string {
    if bytes == [] then "" else Bits(bytes[0], 8) + ByteBits(bytes[1..])
  }

  /** The next five bits, filled up with zeros at the end. */
  function NextGroup(bits: string): (group: string)
    requires Binary(bits) && bits != ""
    ensures |group| == 5 && Binary(group)
  {
    if |bits| >= 5 then bits[..5] else bits + seq(5 - |bits|, i => '0')
  }

  function RestAfterGroup(bits: string): (rest: string)
    requires Binary(bits) && bits != ""
    ensures Binary(rest) && |rest| < |bits|
  {
    if |bits| >= 5 then bits[5..] else ""
  }

  /** The character of a group of five bits. */
  function GroupChar(group: string): (c: char)
    requires Binary(group) && |group| == 5
    ensures c in ALPHABET
  {
    BitsOfValue(group);
    assert Pow2(5) == 32;
    ALPHABET[Value(group)]
  }

  /** Base32 of a bit string, without padding. */
  function Groups(bits: string): (chars: string)
    requires Binary(bits)
    ensures forall i :: 0 <= i < |chars| ==> chars[i] in ALPHABET
    decreases |bits|
  {
    if bits == "" then "" else [GroupChar(NextGroup(bits))] + Groups(RestAfterGroup(bits))
  }

  function Padding(n: nat): string {
    seq((8 - n % 8) % 8, i => '=')
  }

  function Base32(bytes: seq<nat>): string
    requires IsBytes(bytes)
  {
    ByteBitsBinary(bytes);
    var chars := Groups(ByteBits(bytes));
    chars + Padding(|chars|)
  }

  lemma {:induction false} ByteBitsBinary(bytes: seq<nat>)
    requires IsBytes(bytes)
    ensures Binary(ByteBits(bytes)) && |ByteBits(bytes)| == 8 * |bytes|
  {
    if bytes != [] {
      assert Pow2(8) == 256;
      ValueOfBits(bytes[0], 8);
      ByteBitsBinary(bytes[1..]);
    }
  }

  lemma {:induction false} SecretBitsConcat(a: string, b: string)
    ensures SecretBits(a + b) == SecretBits(a) + SecretBits(b)
  {
    if b == "" {
      assert a + b == a;
    } else {
      assert (a + b)[..|a + b| - 1] == a + b[..|b| - 1];
      SecretBitsConcat(a, b[..|b| - 1]);
    }
  }

  lemma AlphabetCodes(v: nat)
    requires v < 32
    ensures ALPHABET[v] as int == if v < 26 then 65 + v else 24 + v
  {
  }

  lemma AlphabetIsDistinct(v: nat)
    requires v < 32
    ensures IndexOf(ALPHABET, ALPHABET[v]) == v && ALPHABET[v] != '=' && !('a' <= ALPHABET[v] <= 'z')
  {
    hide IndexOf;
    var i := IndexOf(ALPHABET, ALPHABET[v]);
    AlphabetCodes(v);
    AlphabetCodes(i);
  }

  lemma CharReadsBack(group: string)
    requires Binary(group) && |group| == 5
    ensures SecretBits([GroupChar(group)]) == group
  {
    hide IndexOf, Bits, Value;
    BitsOfValue(group);
    assert Value(group) < 32 by { assert Pow2(5) == 32; }
    AlphabetIsDistinct(Value(group));
    var s := [GroupChar(group)];
    assert s[..0] == "" && SecretBits("") == "";
    assert SecretBits(s) == SecretBits(s[..0]) + Bits(Value(group), 5);
  }

  /** The zeros that fill up the last group. */
  function Fill(n: nat): (zeros: string)
    ensures |zeros| < 5 && Binary(zeros)
  {
    seq((5 - n % 5) % 5, i => '0')
  }

  lemma GroupsPartition(bits: string)
    requires Binary(bits) && bits != ""
    ensures NextGroup(bits) + (RestAfterGroup(bits) + Fill(|RestAfterGroup(bits)|)) == bits + Fill(|bits|)
  {
    var rest := RestAfterGroup(bits);
    if |bits| >= 5 {
      assert (|bits| - 5) % 5 == |bits| % 5;
      assert bits[..5] + rest == bits;
      assert bits[..5] + (rest + Fill(|bits|)) == (bits[..5] + rest) + Fill(|bits|);
    } else {
      assert Fill(0) == "";
      assert rest + Fill(0) == "";
    }
  }

  /** Reading the groups back gives the bits and fewer than five zeros. */
  lemma {:induction false} GroupsReadBack(bits: string)
    requires Binary(bits)
    ensures SecretBits(Groups(bits)) == bits + Fill(|bits|)
    decreases |bits|
  {
    if bits == "" {
      assert Fill(0) == "";
    } else {
      hide SecretBits, GroupChar, NextGroup, RestAfterGroup, Fill;
      CharReadsBack(NextGroup(bits));
      GroupsReadBack(RestAfterGroup(bits));
      SecretBitsConcat([GroupChar(NextGroup(bits))], Groups(RestAfterGroup(bits)));
      GroupsPartition(bits);
    }
  }

  lemma {:induction false} BytesReadBack(bytes: seq<nat>, fill: string)
    requires IsBytes(bytes) && |fill| < 8
    ensures Bytes(ByteBits(bytes) + fill) == bytes
  {
    if bytes == [] {
      assert ByteBits(bytes) + fill == fill;
    } else {
      hide Value, Bits;
      assert Pow2(8) == 256;
      ValueOfBits(bytes[0], 8);
      BytesReadBack(bytes[1..], fill);
      OneByteReadsBack(bytes[0], ByteBits(bytes[1..]), fill);
    }
  }

  lemma OneByteReadsBack(byte: nat, tail: string, fill: string)
    requires byte < 256
    ensures Bytes(Bits(byte, 8) + tail + fill) == [byte] + Bytes(tail + fill)
  {
    hide Value, Bits;
    assert Pow2(8) == 256;
    ValueOfBits(byte, 8);
    var bits := Bits(byte, 8) + tail + fill;
    assert bits == Bits(byte, 8) + (tail + fill);
    assert bits[..8] == Bits(byte, 8) && bits[8..] == tail + fill;
  }

  lemma {:induction false} StripsAllPadding(chars: string, n: nat)
    requires forall i :: 0 <= i < |chars| ==> chars[i] != '='
    ensures StripPadding(chars + seq(n, i => '=')) == chars
  {
    var s := chars + seq(n, i => '=');
    if n == 0 {
      assert s == chars;
    } else {
      assert s[..|s| - 1] == chars + seq(n - 1, i => '=');
      StripsAllPadding(chars, n - 1);
    }
  }

  lemma AlphabetIsUpper(c: char)
    requires c in ALPHABET
    ensures c != '=' && !('a' <= c <= 'z')
  {
    AlphabetIsDistinct(IndexOf(ALPHABET, c));
  }

  /** The decoder inverts base32 on every byte string. */
  lemma DecodingInvertsBase32(bytes: seq<nat>)
    requires IsBytes(bytes)
    ensures DecodedSecret(Base32(bytes)) == bytes
  {
    ByteBitsBinary(bytes);
    var bits := ByteBits(bytes);
    var chars := Groups(bits);
    GroupsReadBack(bits);
    forall i | 0 <= i < |chars|
      ensures chars[i] != '=' && !('a' <= chars[i] <= 'z')
    {
      AlphabetIsUpper(chars[i]);
    }
    assert Upper(Base32(bytes)) == Base32(bytes);
    StripsAllPadding(chars, (8 - |chars| % 8) % 8);
    BytesReadBack(bytes, Fill(|bits|));
  }

  lemma WholeGroupsSplit(bits: string)
    requires |bits| >= 8
    ensures bits[..|bits| - |bits| % 8] == bits[..8] + bits[8..][..|bits[8..]| - |bits[8..]| % 8]
    ensures |bits| / 8 == 1 + |bits[8..]| / 8
  {
    assert (|bits| - 8) % 8 == |bits| % 8;
  }

  lemma FirstByte(bits: string)
    requires Binary(bits) && |bits| >= 8
    ensures ByteBits(Bytes(bits)) == bits[..8] + ByteBits(Bytes(bits[8..]))
    ensures |Bytes(bits)| == 1 + |Bytes(bits[8..])|
  {
    BitsOfValue(bits[..8]);
    assert Bytes(bits)[1..] == Bytes(bits[8..]);
  }

  lemma {:induction false} BytesKeepWholeGroups(bits: string)
    requires Binary(bits)
    ensures ByteBits(Bytes(bits)) == bits[..|bits| - |bits| % 8] && |Bytes(bits)| == |bits| / 8
  {
    if |bits| >= 8 {
      BytesKeepWholeGroups(bits[8..]);
      FirstByte(bits);
      WholeGroupsSplit(bits);
    }
  }

  lemma {:induction false} FiveBitsPerChar(s: string)
    requires forall i :: 0 <= i < |s| ==> s[i] in ALPHABET
    ensures |SecretBits(s)| == 5 * |s| && Binary(SecretBits(s))
  {
    hide IndexOf;
    if s != "" {
      FiveBitsPerChar(s[..|s| - 1]);
      assert Pow2(5) == 32;
      ValueOfBits(IndexOf(ALPHABET, s[|s| - 1]), 5);
    }
  }

  /** A generated secret has twenty alphabet characters: ninety-six of its hundred bits reach the key. */
  lemma GeneratedSecretKeeps96Bits(s: string)
    requires |s| == 20 && forall i :: 0 <= i < |s| ==> s[i] in ALPHABET
    ensures |DecodedSecret(s)| == 12 && |SecretBits(s)| == 100 && ByteBits(DecodedSecret(s)) == SecretBits(s)[..96]
  {
    forall i | 0 <= i < |s|
      ensures s[i] != '=' && !('a' <= s[i] <= 'z')
    {
      AlphabetIsUpper(s[i]);
    }
    assert Upper(s) == s && StripPadding(s) == s;
    FiveBitsPerChar(s);
    BytesKeepWholeGroups(SecretBits(s));
  }

  /** Trailing padding carries no bits, so stripping it changes nothing. */
  lemma {:induction false} PaddingCarriesNoBits(s: string)
    ensures SecretBits(StripPadding(s)) == SecretBits(s)
  {
    if s != "" && s[|s| - 1] == '=' {
      PaddingCarriesNoBits(s[..|s| - 1]);
      NoCodeForPadding();
    }
  }

  lemma NoCodeForPadding()
    ensures '=' !in ALPHABET && IndexOf(ALPHABET, '=') == -1
  {
    if '=' in ALPHABET {
      AlphabetIsUpper('=');
    }
  }

  lemma DecodedIsBits(s: string)
    ensures DecodedSecret(s) == Bytes(SecretBits(Upper(s)))
  {
    PaddingCarriesNoBits(Upper(s));
  }

  lemma OtherCharacterHasNoBits(c: char)
    requires c !in ALPHABET
    ensures SecretBits([c]) == ""
  {
    assert [c][..0] == "" && SecretBits("") == "";
  }

  lemma UpperAround(a: string, c: char, b: string)
    requires !('a' <= c <= 'z')
    ensures Upper(a + [c] + b) == Upper(a) + [c] + Upper(b) && Upper(a + b) == Upper(a) + Upper(b)
  {
  }

  /** A character outside the alphabet, such as a space, a hyphen or padding, is skipped wherever it stands. */
  lemma OtherCharactersAreSkipped(a: string, c: char, b: string)
    requires c !in ALPHABET && !('a' <= c <= 'z')
    ensures DecodedSecret(a + [c] + b) == DecodedSecret(a + b)
  {
    hide *;
    DecodedIsBits(a + [c] + b);
    DecodedIsBits(a + b);
    UpperAround(a, c, b);
    SecretBitsConcat(Upper(a) + [c], Upper(b));
    SecretBitsConcat(Upper(a), [c]);
    SecretBitsConcat(Upper(a), Upper(b));
    OtherCharacterHasNoBits(c);
    assert SecretBits(Upper(a)) + "" == SecretBits(Upper(a));
  }

  /** Small letters read like capitals. */
  lemma SmallLettersReadAlike(s: string, t: string)
    requires |s| == |t| && forall i :: 0 <= i < |s| ==> t[i] == s[i] || ('a' <= t[i] <= 'z' && s[i] as int - 'A' as int == t[i] as int - 'a' as int)
    ensures DecodedSecret(s) == DecodedSecret(t)
  {
    assert Upper(s) == Upper(t);
  }

  // ---------- bitwise operators on 32-bit words ----------

  /** Bitwise and of non-negative numbers. */
  function And(a: nat, b: nat): (r: nat)
    ensures r <= a && r <= b
  {
    if a == 0 || b == 0 then 0 else 2 * And(a / 2, b / 2) + if a % 2 == 1 && b % 2 == 1 then 1 else 0
  }

  /** Bitwise or of non-negative numbers. */
  function Or(a: nat, b: nat): nat
    decreases a + b
  {
    if a == 0 && b == 0 then 0 else 2 * Or(a / 2, b / 2) + if a % 2 == 1 || b % 2 == 1 then 1 else 0
  }

  /** The signed 32-bit reading of a number, as a shift leaves it. */
  function ToInt32(n: int): int {
    var low := n % 0x1_0000_0000;
    if low < 0x8000_0000 then low else low - 0x1_0000_0000
  }

  function Shl(a: nat, k: nat): int {
    ToInt32(a * Pow2(k))
  }

  lemma AndWithOdd(a: nat, h: nat)
    ensures And(a, 2 * h + 1) == 2 * And(a / 2, h) + a % 2
  {
  }

  lemma {:induction false} MaskIsRemainder(a: nat, k: nat)
    ensures And(a, Pow2(k) - 1) == a % Pow2(k)
  {
    if k == 0 {
      assert a % 1 == 0;
    } else {
      var m := Pow2(k - 1);
      assert Pow2(k) == 2 * m;
      hide And, Pow2;
      MaskIsRemainder(a / 2, k - 1);
      AndWithOdd(a, m - 1);
      HalvesAndRemainder(a, m);
    }
  }

  lemma HalvesAndRemainder(a: nat, m: nat)
    requires m > 0
    ensures a % (2 * m) == 2 * (a / 2 % m) + a % 2
  {
    var h := a / 2;
    var q := h / m;
    assert h == m * q + h % m;
    assert a == 2 * h + a % 2;
    RemainderIs(a, 2 * m, q, 2 * (h % m) + a % 2);
  }

  lemma {:induction false} ProductIsAtLeast(d: nat, x: nat)
    requires x > 0
    ensures d * x >= d
  {
    if x > 1 {
      ProductIsAtLeast(d, x - 1);
      assert d * x == d * (x - 1) + d;
    }
  }

  lemma NoSmallMultiple(d: int, x: int)
    requires d > 0 && -d < d * x < d
    ensures x == 0
  {
    if x > 0 {
      ProductIsAtLeast(d, x);
    } else if x < 0 {
      assert d * -x == -(d * x);
      ProductIsAtLeast(d, -x);
    }
  }

  lemma RemainderIs(a: int, d: int, q: int, r: int)
    requires d > 0 && 0 <= r < d && a == d * q + r
    ensures a % d == r && a / d == q
  {
    var p, m := a / d, a % d;
    assert 0 <= m < d && a == d * p + m;
    assert d * (p - q) == d * p - d * q == r - m;
    NoSmallMultiple(d, p - q);
  }

  lemma OrOfEven(h: nat, b: nat)
    ensures Or(2 * h, b) == 2 * Or(h, b / 2) + b % 2
  {
  }

  lemma DoublePower(a: nat, k: nat)
    requires k > 0
    ensures a * Pow2(k) == 2 * (a * Pow2(k - 1))
  {
    var p := Pow2(k - 1);
    assert a * (2 * p) == 2 * (a * p);
  }

  /** Or adds numbers whose bits do not overlap. */
  lemma {:induction false} OrOfDisjointIsSum(a: nat, b: nat, k: nat)
    requires b < Pow2(k)
    ensures Or(a * Pow2(k), b) == a * Pow2(k) + b
  {
    if k == 0 {
      OrWithZero(a);
    } else {
      var half := a * Pow2(k - 1);
      DoublePower(a, k);
      assert b / 2 < Pow2(k - 1);
      hide Or, Pow2;
      OrOfDisjointIsSum(a, b / 2, k - 1);
      OrOfEven(half, b);
    }
  }

  lemma {:induction false} OrWithZero(a: nat)
    ensures Or(a, 0) == a
  {
    if a > 0 {
      OrWithZero(a / 2);
    }
  }

  // ---------- truncation and digits ----------

  /** The dynamic truncation the service computes from the digest. */
  function Truncated(hash: seq<nat>): (code: nat)
    requires |hash| == 20 && IsBytes(hash)
  {
    var offset := And(hash[|hash| - 1], 0xf);
    var b0 := Shl(And(hash[offset], 0x7f), 24);
    var b1 := Shl(And(hash[offset + 1], 0xff), 16);
    var b2 := Shl(And(hash[offset + 2], 0xff), 8);
    var b3 := And(hash[offset + 3], 0xff);
    ShiftsStayPositive(And(hash[offset], 0x7f), And(hash[offset + 1], 0xff), And(hash[offset + 2], 0xff));
    Or(Or(Or(b0, b1), b2), b3) % 1000000
  }

  lemma ShiftsStayPositive(a: nat, b: nat, c: nat)
    requires a <= 0x7f && b <= 0xff && c <= 0xff
    ensures Shl(a, 24) == a * 0x100_0000 && Shl(b, 16) == b * 0x1_0000 && Shl(c, 8) == c * 0x100
  {
    PowersOfTwo();
  }

  lemma PowersOfTwo()
    ensures Pow2(4) == 0x10 && Pow2(7) == 0x80 && Pow2(8) == 0x100 && Pow2(16) == 0x1_0000 && Pow2(24) == 0x100_0000
  {
    assert Pow2(4) == 0x10;
    assert Pow2(8) == 0x100;
    assert Pow2(12) == 0x1000;
    assert Pow2(16) == 0x1_0000;
    assert Pow2(20) == 0x10_0000;
  }

  function BigEndian(bytes: seq<nat>): nat {
    if bytes == [] then 0 else 256 * BigEndian(bytes[..|bytes| - 1]) + bytes[|bytes| - 1]
  }

  /** Section 5.3 of RFC 4226: the last thirty-one bits of four digest bytes, reduced to six digits. */
  function HotpValue(hash: seq<nat>): nat
    requires |hash| == 20 && IsBytes(hash)
  {
    var offset := hash[19] % 16;
    BigEndian(hash[offset..offset + 4]) % 0x8000_0000 % 1000000
  }

  lemma FourBytes(b: seq<nat>)
    requires |b| == 4
    ensures BigEndian(b) == 0x100_0000 * b[0] + 0x1_0000 * b[1] + 0x100 * b[2] + b[3]
  {
    assert b[..3][..2] == b[..2] && b[..2][..1] == b[..1] && b[..1][..0] == [];
    assert BigEndian(b[..1]) == b[0];
    assert BigEndian(b[..2]) == 256 * BigEndian(b[..1]) + b[1];
    assert BigEndian(b[..3]) == 256 * BigEndian(b[..2]) + b[2];
  }

  lemma OrOfFourBytes(a: nat, b: nat, c: nat, d: nat)
    requires a < 0x80 && b < 0x100 && c < 0x100 && d < 0x100
    ensures Or(Or(Or(a * 0x100_0000, b * 0x1_0000), c * 0x100), d) == a * 0x100_0000 + b * 0x1_0000 + c * 0x100 + d
  {
    hide Or, Pow2;
    PowersOfTwo();
    OrOfDisjointIsSum(a, b * 0x1_0000, 24);
    OrOfDisjointIsSum(a * 0x100 + b, c * 0x100, 16);
    OrOfDisjointIsSum(a * 0x1_0000 + b * 0x100 + c, d, 8);
  }

  /** The masks, shifts and ors compute the standard's value; no shift reaches the sign bit. */
  lemma TruncationIsHotp(hash: seq<nat>)
    requires |hash| == 20 && IsBytes(hash)
    ensures Truncated(hash) == HotpValue(hash)
  {
    hide And, Or, Shl, Pow2;
    PowersOfTwo();
    MaskIsRemainder(hash[19], 4);
    var offset := hash[19] % 16;
    MaskIsRemainder(hash[offset], 7);
    MaskIsRemainder(hash[offset + 1], 8);
    MaskIsRemainder(hash[offset + 2], 8);
    MaskIsRemainder(hash[offset + 3], 8);
    var a, b, c, d := hash[offset] % 0x80, hash[offset + 1], hash[offset + 2], hash[offset + 3];
    ShiftsStayPositive(a, b, c);
    OrOfFourBytes(a, b, c, d);
    FourBytes(hash[offset..offset + 4]);
    RemainderIs(BigEndian(hash[offset..offset + 4]), 0x8000_0000, hash[offset] / 0x80,
                a * 0x100_0000 + b * 0x1_0000 + c * 0x100 + d);
  }

  /** code.toString(). */
  function Decimal(n: nat): (s: string)
    ensures |s| > 0 && forall i :: 0 <= i < |s| ==> '0' <= s[i] <= '9'
  {
    (if n < 10 then "" else Decimal(n / 10)) + [(48 + n % 10) as char]
  }

  function DecimalValue(s: string): int {
    if s == "" then 0 else 10 * DecimalValue(s[..|s| - 1]) + (s[|s| - 1] as int - 48)
  }

  function Pow10(k: nat): (r: nat)
    ensures r > 0
  {
    if k == 0 then 1 else 10 * Pow10(k - 1)
  }

  /** Padded to the width, the text has the value and digits only. */
  predicate Shows(s: string, n: nat, width: nat) {
    |s| == width && DecimalValue(s) == n && forall i :: 0 <= i < |s| ==> '0' <= s[i] <= '9'
  }

  lemma ShowsOneMore(front: string, n: nat, width: nat, digit: nat)
    requires Shows(front, n, width) && digit < 10
    ensures Shows(front + [(48 + digit) as char], 10 * n + digit, width + 1)
  {
    assert (front + [(48 + digit) as char])[..width] == front;
  }

  lemma PadOneMore(n: nat, k: nat)
    requires n >= 10 && k > 1
    ensures PadStart(Decimal(n), k) == PadStart(Decimal(n / 10), k - 1) + [(48 + n % 10) as char]
  {
  }

  lemma OneDigit(n: nat, k: nat)
    requires n < 10 && k > 0
    ensures Shows(PadStart(Decimal(n), k), n, k)
  {
    ZerosAreZero(k - 1);
    var zeros := seq(k - 1, i => '0');
    assert Shows(zeros, 0, k - 1);
    ShowsOneMore(zeros, 0, k - 1, n);
    assert Decimal(n) == [(48 + n) as char] && (k == 1 ==> zeros == "");
  }

  lemma {:induction false} PaddedDecimal(n: nat, k: nat)
    requires n < Pow10(k) && k > 0
    ensures Shows(PadStart(Decimal(n), k), n, k)
  {
    if n < 10 {
      OneDigit(n, k);
    } else {
      hide Shows, PadStart, Decimal;
      PaddedDecimal(n / 10, k - 1);
      ShowsOneMore(PadStart(Decimal(n / 10), k - 1), n / 10, k - 1, n % 10);
      PadOneMore(n, k);
    }
  }

  lemma {:induction false} ZerosAreZero(k: nat)
    ensures DecimalValue(seq(k, i => '0')) == 0
  {
    if k > 0 {
      assert seq(k, i => '0')[..k - 1] == seq(k - 1, i => '0');
      ZerosAreZero(k - 1);
    }
  }

  // ---------- the counter and the code ----------

  function BytesOf(n: nat, k: nat): (bytes: seq<nat>)
    ensures |bytes| == k && IsBytes(bytes)
  {
    if k == 0 then [] else BytesOf(n / 256, k - 1) + [n % 256]
  }

  /** writeBigInt64BE into eight bytes: two's complement, most significant byte first. */
  function CounterBytes(counter: int): seq<nat> {
    BytesOf(counter % 0x1_0000_0000_0000_0000, 8)
  }

  lemma {:induction false} BigEndianBytesAreUnique(bytes: seq<nat>)
    requires IsBytes(bytes)
    ensures BytesOf(BigEndian(bytes), |bytes|) == bytes
  {
    if bytes != [] {
      BigEndianBytesAreUnique(bytes[..|bytes| - 1]);
      assert bytes == bytes[..|bytes| - 1] + [bytes[|bytes| - 1]];
    }
  }

  /** HMAC-SHA-1: any function of key and message with twenty-byte digests. */
  ghost predicate IsHmac(hmac: (seq<nat>, seq<nat>) -> seq<nat>) {
    forall key, message :: |hmac(key, message)| == 20 && IsBytes(hmac(key, message))
  }

  ghost function Code(hmac: (seq<nat>, seq<nat>) -> seq<nat>, secret: string, counter: int): string
    requires IsHmac(hmac)
  {
    PadStart(Decimal(Truncated(hmac(DecodedSecret(secret), CounterBytes(counter)))), 6)
  }

  /** For a base32 secret the code is RFC 4226's HOTP of the key and the eight-byte counter, as six digits. */
  lemma CodeIsHotp(hmac: (seq<nat>, seq<nat>) -> seq<nat>, key: seq<nat>, counter: nat, message: seq<nat>)
    requires IsHmac(hmac) && IsBytes(key)
    requires |message| == 8 && IsBytes(message) && BigEndian(message) == counter < 0x8000_0000_0000_0000
    ensures var code := Code(hmac, Base32(key), counter);
            && |code| == 6 && (forall i :: 0 <= i < 6 ==> '0' <= code[i] <= '9')
            && DecimalValue(code) == HotpValue(hmac(key, message))
  {
    hide DecodedSecret, Base32, Truncated, HotpValue, Decimal, DecimalValue, PadStart, BytesOf;
    DecodingInvertsBase32(key);
    BigEndianBytesAreUnique(message);
    var hash := hmac(key, message);
    TruncationIsHotp(hash);
    HotpValueIsSmall(hash);
    assert Pow10(6) == 1000000;
    PaddedDecimal(HotpValue(hash), 6);
  }

  lemma HotpValueIsSmall(hash: seq<nat>)
    requires |hash| == 20 && IsBytes(hash)
    ensures HotpValue(hash) < 1000000
  {
  }

  /** Decodes the secret, digests the counter and truncates. */
  method GenerateTOTP(hmac: (seq<nat>, seq<nat>) -> seq<nat>, secret: string, counter: int) returns (code: string)
    requires IsHmac(hmac)
    ensures code == Code(hmac, secret, counter)
  {
    hide IndexOf, Truncated, Decimal, BytesOf;
    var secretUpper := StripPadding(Upper(secret));
    var bits := "";
    for i := 0 to |secretUpper|
      invariant bits == SecretBits(secretUpper[..i])
    {
      var val := IndexOf(ALPHABET, secretUpper[i]);
      assert secretUpper[..i + 1][..i] == secretUpper[..i];
      if val >= 0 {
        assert Pow2(5) == 32;
        PaddedBinaryIsBits(val, 5);
        bits := bits + PadStart(ToBinary(val), 5);
      }
    }
    assert secretUpper[..|secretUpper|] == secretUpper;
    var bytes := [];
    var i := 0;
    while i + 8 <= |bits|
      invariant i <= |bits|
      invariant bytes + Bytes(bits[i..]) == Bytes(bits)
    {
      assert bits[i..][..8] == bits[i..i + 8] && bits[i..][8..] == bits[i + 8..];
      bytes := bytes + [Value(bits[i..i + 8])];
      i := i + 8;
    }
    assert bytes == Bytes(bits) by {
      assert Bytes(bits[i..]) == [];
    }
    assert bytes == DecodedSecret(secret);
    var hash := hmac(bytes, CounterBytes(counter));
    code := PadStart(Decimal(Truncated(hash)), 6);
  }

  /** Accepts exactly the codes of the counters within the window around now; an unreadable secret accepts none. */
  method VerifyTOTP(hmac: (seq<nat>, seq<nat>) -> seq<nat>, decrypted: Option<string>, token: string, window: int, nowMillis: int)
    returns (accepted: bool)
    requires IsHmac(hmac)
    ensures accepted <==> (decrypted.Some? && exists c ::
        nowMillis / 30000 - window <= c <= nowMillis / 30000 + window && token == Code(hmac, decrypted.value, c))
  {
    hide Code;
    if decrypted.None? {
      return false;
    }
    var currentTime := nowMillis / 1000 / 30;
    assert currentTime == nowMillis / 30000;
    var i := -window;
    while i <= window
      invariant -window <= i
      invariant i <= window + 1 || i == -window
      invariant forall c :: currentTime - window <= c < currentTime + i ==> token != Code(hmac, decrypted.value, c)
    {
      var expectedToken := GenerateTOTP(hmac, decrypted.value, currentTime + i);
      if expectedToken == token {
        assert token == Code(hmac, decrypted.value, currentTime + i);
        return true;
      }
      i := i + 1;
    }
    return false;
  }
}
