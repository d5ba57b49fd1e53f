/**
 Unpadded lower-case base32 (alphabet of section 6 of RFC 4648). `Encode` and `Decode` are stated on
 the unbounded bit string; the methods are the program's loops over 64- and 32-bit accumulators.
 */
module Base32 {
  import opened Common

  const WORD64: nat := 0x1_0000_0000_0000_0000
  const WORD32: nat := 0x1_0000_0000

  /** Bit `k` of `x`, counting from the least significant. */
  function Bit(x: nat, k: nat): (b: nat)
    ensures b < 2
  {
    if k == 0 then x % 2 else Bit(x / 2, k - 1)
  }

  /** The bit string of the bytes, most significant bit first. */
  function ByteBit(data: Bytes, j: nat): (b: nat)
    ensures b < 2
  {
    if j < 8 * |data| then Bit(data[j / 8], 7 - j % 8) else 0
  }

  function SymbolBit(symbols: seq<nat>, j: nat): nat
    requires j < 5 * |symbols|
  {
    Bit(symbols[j / 5], 4 - j % 5)
  }

  /** Five bits from position `5 * t`, with zeros past the end. */
  function Quintet(data: Bytes, t: nat): (q: nat)
    ensures q < 32
  {
    16 * ByteBit(data, 5 * t) + 8 * ByteBit(data, 5 * t + 1) + 4 * ByteBit(data, 5 * t + 2)
    + 2 * ByteBit(data, 5 * t + 3) + ByteBit(data, 5 * t + 4)
  }

  function Octet(symbols: seq<nat>, i: nat): (o: byte)
    requires 8 * i + 8 <= 5 * |symbols|
  {
    128 * SymbolBit(symbols, 8 * i) + 64 * SymbolBit(symbols, 8 * i + 1)
    + 32 * SymbolBit(symbols, 8 * i + 2) + 16 * SymbolBit(symbols, 8 * i + 3)
    + 8 * SymbolBit(symbols, 8 * i + 4) + 4 * SymbolBit(symbols, 8 * i + 5)
    + 2 * SymbolBit(symbols, 8 * i + 6) + SymbolBit(symbols, 8 * i + 7)
  }

  /** `a`..`z` for 0..25, then `2`..`7`. */
  function Letter(q: nat): byte
    requires q < 32
  {
    if q < 26 then 97 + q else 24 + q
  }

  predicate IsLetter(c: byte) {
    97 <= c <= 122 || 50 <= c <= 55
  }

  function LetterValue(c: byte): (q: nat)
    requires IsLetter(c)
    ensures q < 32 && Letter(q) == c
  {
    if c >= 97 then c - 97 else c - 24
  }

  function SymbolCount(bytes: nat): nat {
    (8 * bytes + 4) / 5
  }

  function Encode(data: Bytes): Bytes {
    seq(SymbolCount(|data|), t requires 0 <= t => Letter(Quintet(data, t)))
  }

  predicate AllLetters(text: Bytes) {
    forall i :: 0 <= i < |text| ==> IsLetter(text[i])
  }

  function Values(text: Bytes): (v: seq<nat>)
    requires AllLetters(text)
    ensures |v| == |text| && forall i :: 0 <= i < |v| ==> v[i] < 32
  {
    seq(|text|, i requires 0 <= i < |text| => LetterValue(text[i]))
  }

  function OctetsOf(symbols: seq<nat>): Bytes {
    seq(5 * |symbols| / 8, i requires 0 <= i < 5 * |symbols| / 8 => Octet(symbols, i))
  }

  /** Whole octets only; up to seven trailing bits are dropped. */
  function Decode(text: Bytes): Bytes
    requires AllLetters(text)
  {
    OctetsOf(Values(text))
  }

  // ---- bits of words ----

  lemma Halve(x: nat)
    ensures x == 2 * (x / 2) + Bit(x, 0)
    ensures forall k: nat :: k > 0 ==> Bit(x, k) == Bit(x / 2, k - 1)
  {
  }

  lemma LowFive(x: nat)
    ensures x % 32 == 16 * Bit(x, 4) + 8 * Bit(x, 3) + 4 * Bit(x, 2) + 2 * Bit(x, 1) + Bit(x, 0)
  {
    hide Bit;
    var x1 := x / 2; var x2 := x1 / 2; var x3 := x2 / 2; var x4 := x3 / 2;
    Halve(x); Halve(x1); Halve(x2); Halve(x3); Halve(x4);
    assert Bit(x, 3 + 1) == Bit(x1, 2 + 1) == Bit(x2, 1 + 1) == Bit(x3, 0 + 1) == Bit(x4, 0);
    assert Bit(x, 2 + 1) == Bit(x1, 1 + 1) == Bit(x2, 0 + 1) == Bit(x3, 0);
    assert Bit(x, 1 + 1) == Bit(x1, 0 + 1) == Bit(x2, 0);
    assert Bit(x, 0 + 1) == Bit(x1, 0);
    FiveHalves(x, x1, x2, x3, x4, Bit(x, 0), Bit(x1, 0), Bit(x2, 0), Bit(x3, 0), Bit(x4, 0));
  }

  lemma Doubling(x: nat, c: nat)
    requires c < 2
    ensures Bit(2 * x + c, 0) == c && forall k: nat :: Bit(2 * x + c, k + 1) == Bit(x, k)
  {
    Halve(2 * x + c);
    assert (2 * x + c) / 2 == x;
  }

  /** A byte written in binary. */
  function Binary(b7: nat, b6: nat, b5: nat, b4: nat, b3: nat, b2: nat, b1: nat, b0: nat): nat {
    2 * (2 * (2 * (2 * (2 * (2 * (2 * b7 + b6) + b5) + b4) + b3) + b2) + b1) + b0
  }

  lemma BinaryBits(b7: nat, b6: nat, b5: nat, b4: nat, b3: nat, b2: nat, b1: nat, b0: nat)
    requires b7 < 2 && b6 < 2 && b5 < 2 && b4 < 2 && b3 < 2 && b2 < 2 && b1 < 2 && b0 < 2
    ensures
      var b := Binary(b7, b6, b5, b4, b3, b2, b1, b0);
      && Bit(b, 7) == b7 && Bit(b, 6) == b6 && Bit(b, 5) == b5 && Bit(b, 4) == b4
      && Bit(b, 3) == b3 && Bit(b, 2) == b2 && Bit(b, 1) == b1 && Bit(b, 0) == b0
  {
    hide Bit;
    var x6 := 2 * b7 + b6; var x5 := 2 * x6 + b5; var x4 := 2 * x5 + b4; var x3 := 2 * x4 + b3;
    var x2 := 2 * x3 + b2; var x1 := 2 * x2 + b1; var x0 := 2 * x1 + b0;
    Doubling(0, b7); Doubling(b7, b6); Doubling(x6, b5); Doubling(x5, b4);
    Doubling(x4, b3); Doubling(x3, b2); Doubling(x2, b1); Doubling(x1, b0);
    assert Bit(x0, 1) == Bit(x1, 0) && Bit(x0, 2) == Bit(x1, 1) == Bit(x2, 0);
    assert Bit(x0, 3) == Bit(x1, 2) == Bit(x2, 1) == Bit(x3, 0);
    assert Bit(x0, 4) == Bit(x1, 3) == Bit(x2, 2) == Bit(x3, 1) == Bit(x4, 0);
    assert Bit(x0, 5) == Bit(x1, 4) == Bit(x2, 3) == Bit(x3, 2) == Bit(x4, 1) == Bit(x5, 0);
    assert Bit(x0, 6) == Bit(x1, 5) == Bit(x2, 4) == Bit(x3, 3) == Bit(x4, 2) == Bit(x5, 1) == Bit(x6, 0);
    assert Bit(x0, 7) == Bit(x1, 6) == Bit(x2, 5) == Bit(x3, 4) == Bit(x4, 3) == Bit(x5, 2) == Bit(x6, 1) == Bit(b7, 0);
  }

  lemma FirstSymbols(data: Bytes)
    requires data == [102, 111, 111, 98, 97]
    ensures Quintet(data, 0) == 12 && Quintet(data, 1) == 25 && Quintet(data, 2) == 23 && Quintet(data, 3) == 22
  {
    hide Bit;
    BinaryBits(0, 1, 1, 0, 0, 1, 1, 0);
    BinaryBits(0, 1, 1, 0, 1, 1, 1, 1);
  }

  lemma LastSymbols(data: Bytes)
    requires data == [102, 111, 111, 98, 97]
    ensures Quintet(data, 4) == 30 && Quintet(data, 5) == 24 && Quintet(data, 6) == 19 && Quintet(data, 7) == 1
  {
    hide Bit;
    BinaryBits(0, 1, 1, 0, 1, 1, 1, 1);
    BinaryBits(0, 1, 1, 0, 0, 0, 1, 0);
    BinaryBits(0, 1, 1, 0, 0, 0, 0, 1);
  }

  /** One of the examples of section 10 of RFC 4648, in lower case: `fooba` is `mzxw6ytb`. */
  lemma EncodeExample(data: Bytes)
    requires data == [102, 111, 111, 98, 97]
    ensures Encode(data) == [109, 122, 120, 119, 54, 121, 116, 98]
  {
    hide Quintet;
    FirstSymbols(data);
    LastSymbols(data);
  }

  lemma FiveHalves(x: nat, x1: nat, x2: nat, x3: nat, x4: nat, b0: nat, b1: nat, b2: nat, b3: nat, b4: nat)
    requires x == 2 * x1 + b0 && x1 == 2 * x2 + b1 && x2 == 2 * x3 + b2 && x3 == 2 * x4 + b3
    requires x4 == 2 * (x4 / 2) + b4 && b0 < 2 && b1 < 2 && b2 < 2 && b3 < 2 && b4 < 2
    ensures x % 32 == 16 * b4 + 8 * b3 + 4 * b2 + 2 * b1 + b0 && x / 32 == x4 / 2
  {
    RemainderUnique(x, 32, x4 / 2, 16 * b4 + 8 * b3 + 4 * b2 + 2 * b1 + b0);
  }

  lemma LowEight(x: nat)
    ensures x % 256 == 128 * Bit(x, 7) + 64 * Bit(x, 6) + 32 * Bit(x, 5)
                       + 16 * Bit(x, 4) + 8 * Bit(x, 3) + 4 * Bit(x, 2) + 2 * Bit(x, 1) + Bit(x, 0)
  {
    hide Bit;
    var x1 := x / 2; var x2 := x1 / 2; var h := x2 / 2;
    Halve(x); Halve(x1); Halve(x2);
    assert Bit(x, 0 + 1) == Bit(x1, 0);
    assert Bit(x, 1 + 1) == Bit(x1, 0 + 1) == Bit(x2, 0);
    assert Bit(x, 2 + 1) == Bit(x1, 1 + 1) == Bit(x2, 0 + 1) == Bit(h, 0);
    assert Bit(x, 3 + 1) == Bit(x1, 2 + 1) == Bit(x2, 1 + 1) == Bit(h, 1);
    assert Bit(x, 4 + 1) == Bit(x1, 3 + 1) == Bit(x2, 2 + 1) == Bit(h, 2);
    assert Bit(x, 5 + 1) == Bit(x1, 4 + 1) == Bit(x2, 3 + 1) == Bit(h, 3);
    assert Bit(x, 6 + 1) == Bit(x1, 5 + 1) == Bit(x2, 4 + 1) == Bit(h, 4);
    LowFive(h);
    EightHalves(x, x1, x2, h, Bit(x, 0), Bit(x1, 0), Bit(x2, 0));
  }

  lemma EightHalves(x: nat, x1: nat, x2: nat, h: nat, b0: nat, b1: nat, b2: nat)
    requires x == 2 * x1 + b0 && x1 == 2 * x2 + b1 && x2 == 2 * h + b2 && b0 < 2 && b1 < 2 && b2 < 2
    ensures x % 256 == 8 * (h % 32) + 4 * b2 + 2 * b1 + b0
  {
    var g, low := h / 32, h % 32;
    EightParts(x, g, low, 4 * b2 + 2 * b1 + b0);
  }

  lemma EightParts(x: nat, g: nat, low: nat, bits: nat)
    requires x == 8 * (32 * g + low) + bits && low < 32 && bits < 8
    ensures x % 256 == 8 * low + bits
  {
    RemainderUnique(x, 256, g, 8 * low + bits);
  }

  lemma FiveBits(a: nat, b: nat, c: nat, d: nat, e: nat)
    requires a < 2 && b < 2 && c < 2 && d < 2 && e < 2
    ensures
      var q := 16 * a + 8 * b + 4 * c + 2 * d + e;
      Bit(q, 4) == a && Bit(q, 3) == b && Bit(q, 2) == c && Bit(q, 1) == d && Bit(q, 0) == e
  {
    var q1 := 8 * a + 4 * b + 2 * c + d;
    var q2 := 4 * a + 2 * b + c;
    var q3 := 2 * a + b;
    var q := 2 * q1 + e;
    assert q / 2 == q1 && q1 / 2 == q2 && q2 / 2 == q3 && q3 / 2 == a;
    assert Bit(q, 1) == Bit(q1, 0);
    assert Bit(q, 2) == Bit(q1, 1) == Bit(q2, 0);
    assert Bit(q, 3) == Bit(q1, 2) == Bit(q2, 1) == Bit(q3, 0);
    assert Bit(q, 4) == Bit(q1, 3) == Bit(q2, 2) == Bit(q3, 1) == Bit(a, 0);
  }

  /** `x >> s`. */
  function Shr(x: nat, s: nat): nat {
    if s == 0 then x else Shr(x / 2, s - 1)
  }

  lemma {:induction false} Shifted(x: nat, s: nat, k: nat)
    ensures Bit(Shr(x, s), k) == Bit(x, s + k)
  {
    if s > 0 {
      Shifted(x / 2, s - 1, k);
    }
  }

  /** `x` with the low `n` bits of `y` appended. */
  function Append(x: nat, y: nat, n: nat): nat {
    if n == 0 then x else 2 * Append(x, y / 2, n - 1) + y % 2
  }

  lemma {:induction false} AppendBits(x: nat, y: nat, n: nat, k: nat)
    ensures Bit(Append(x, y, n), k) == if k < n then Bit(y, k) else Bit(x, k - n)
  {
    if n > 0 && k > 0 {
      assert Append(x, y, n) / 2 == Append(x, y / 2, n - 1);
      AppendBits(x, y / 2, n - 1, k - 1);
    }
  }

  function Pow2(n: nat): nat {
    if n == 0 then 1 else 2 * Pow2(n - 1)
  }

  lemma {:induction false} AppendIsSum(x: nat, y: nat, n: nat)
    requires y < Pow2(n)
    ensures Append(x, y, n) == x * Pow2(n) + y
  {
    if n > 0 {
      AppendIsSum(x, y / 2, n - 1);
      SumDoubled(x, Pow2(n - 1), y);
    }
  }

  lemma SumDoubled(x: nat, p: nat, y: nat)
    ensures 2 * (x * p + y / 2) + y % 2 == x * (2 * p) + y
  {
    assert x * (2 * p) == 2 * (x * p);
  }

  /** Dropping high bits of an accumulator leaves the low ones. */
  lemma {:induction false} Truncated(x: nat, n: nat, k: nat)
    requires k < n
    ensures Pow2(n) > 0 && Bit(x % Pow2(n), k) == Bit(x, k)
  {
    PowPositive(n);
    PowPositive(n - 1);
    var p := Pow2(n - 1);
    HalfOfRemainder(x, p, Pow2(n));
    if k > 0 {
      Truncated(x / 2, n - 1, k - 1);
    }
  }

  lemma {:induction false} PowPositive(n: nat)
    ensures Pow2(n) > 0
  {
    if n > 0 { PowPositive(n - 1); }
  }

  lemma HalfSum(x: nat, m: nat, r: nat)
    requires x == 2 * m + r
    ensures x / 2 == m + r / 2 && x % 2 == r % 2
  {
  }

  lemma {:induction false} Parts(x: nat, m: nat) returns (q: nat, r: nat)
    requires m > 0
    ensures x == q * m + r && r < m && r == x % m
    decreases x
  {
    if x < m {
      q, r := 0, x;
    } else {
      q, r := Parts(x - m, m);
      assert (q + 1) * m == q * m + m;
      q := q + 1;
    }
    RemainderUnique(x, m, q, r);
  }

  lemma Doubled(q: nat, p: nat)
    ensures q * (2 * p) == 2 * (q * p)
  {
  }

  lemma HalfParts(x: nat, p: nat, m: nat, q: nat, r: nat)
    requires p > 0 && m == 2 * p && r < m && x == q * m + r
    ensures (x / 2) % p == r / 2 && x % 2 == r % 2
  {
    Doubled(q, p);
    HalfSum(x, q * p, r);
    RemainderUnique(x / 2, p, q, r / 2);
  }

  lemma HalfOfRemainder(x: nat, p: nat, m: nat)
    requires p > 0 && m == 2 * p
    ensures (x % m) / 2 == (x / 2) % p && (x % m) % 2 == x % 2
  {
    var q, r := Parts(x, m);
    HalfParts(x, p, m, q, r);
  }

  lemma RemainderUnique(x: nat, p: nat, q: nat, r: nat)
    requires p > 0 && r < p && x == q * p + r
    ensures x % p == r && x / p == q
  {
    var q', r' := x / p, x % p;
    assert q' * p + r' == q * p + r;
    Apart(q, q', p);
    Apart(q', q, p);
  }

  lemma Apart(a: nat, b: nat, p: nat)
    ensures a < b ==> b * p >= a * p + p
  {
    if a < b {
      assert b * p == a * p + (b - a) * p;
      assert (b - a) * p == p + (b - a - 1) * p;
    }
  }

  /** Shifting a byte or symbol into a bounded accumulator. */
  lemma ShiftIn(buffer: nat, y: nat, n: nat, width: nat, k: nat)
    requires y < Pow2(n) && k < width && n <= width
    ensures Pow2(width) > 0
    ensures Bit((buffer * Pow2(n)) % Pow2(width) + y, k) == if k < n then Bit(y, k) else Bit(buffer, k - n)
  {
    PowPositive(width);
    AppendIsSum(buffer, y, n);
    AppendBits(buffer, y, n, k);
    Truncated(buffer * Pow2(n) + y, width, k);
    LowPartFree(buffer, y, n, width);
  }

  lemma {:induction false} PowSplit(a: nat, b: nat)
    ensures Pow2(a + b) == Pow2(a) * Pow2(b)
  {
    if a > 0 { PowSplit(a - 1, b); }
  }

  /** The vacated low bits take `y` whether the high bits are dropped before or after. */
  lemma LowPartFree(x: nat, y: nat, n: nat, width: nat)
    requires y < Pow2(n) && n <= width && Pow2(width) > 0
    ensures (x * Pow2(n)) % Pow2(width) + y == (x * Pow2(n) + y) % Pow2(width)
  {
    PowPositive(n);
    PowPositive(width - n);
    PowSplit(width - n, n);
    Repack(x, y, Pow2(n), Pow2(width - n));
  }

  lemma Repack(x: nat, y: nat, p: nat, m: nat)
    requires y < p && m > 0
    ensures (x * p) % (m * p) + y == (x * p + y) % (m * p)
  {
    var q, r := x / m, x % m;
    assert x == q * m + r;
    Distribute(q, m, r, p);
    Apart(r, m, p);
    RemainderUnique(x * p, m * p, q, r * p);
    RemainderUnique(x * p + y, m * p, q, r * p + y);
  }

  lemma Distribute(q: nat, m: nat, r: nat, p: nat)
    ensures (q * m + r) * p == q * (m * p) + r * p
  {
    assert (q * m + r) * p == (q * m) * p + r * p;
    assert (q * m) * p == q * (m * p);
  }

  // ---- round trips on the bit string ----

  lemma QuintetBit(data: Bytes, t: nat, r: nat)
    requires r < 5
    ensures Bit(Quintet(data, t), 4 - r) == ByteBit(data, 5 * t + r)
  {
    FiveBits(ByteBit(data, 5 * t), ByteBit(data, 5 * t + 1), ByteBit(data, 5 * t + 2),
             ByteBit(data, 5 * t + 3), ByteBit(data, 5 * t + 4));
    hide Bit, ByteBit;
  }

  lemma QuintetBits(data: Bytes, j: nat)
    ensures Bit(Quintet(data, j / 5), 4 - j % 5) == ByteBit(data, j)
  {
    hide Bit, ByteBit, Quintet;
    QuintetBit(data, j / 5, j % 5);
    assert 5 * (j / 5) + j % 5 == j;
  }

  lemma LetterRoundTrip(q: nat)
    requires q < 32
    ensures IsLetter(Letter(q)) && LetterValue(Letter(q)) == q
  {
  }

  lemma EncodeLetters(data: Bytes)
    ensures AllLetters(Encode(data))
    ensures forall t :: 0 <= t < |Encode(data)| ==> Values(Encode(data))[t] == Quintet(data, t)
  {
    forall t | 0 <= t < |Encode(data)| ensures IsLetter(Encode(data)[t]) {
      LetterRoundTrip(Quintet(data, t));
    }
    forall t | 0 <= t < |Encode(data)| ensures Values(Encode(data))[t] == Quintet(data, t) {
      LetterRoundTrip(Quintet(data, t));
    }
  }

  lemma SymbolBitOf(data: Bytes, j: nat)
    requires AllLetters(Encode(data)) && j < 8 * |data|
    ensures j < 5 * |Encode(data)| && SymbolBit(Values(Encode(data)), j) == ByteBit(data, j)
  {
    EncodeLetters(data);
    assert j / 5 < SymbolCount(|data|);
    QuintetBits(data, j);
  }

  lemma OctetBit(data: Bytes, i: nat, k: nat)
    requires AllLetters(Encode(data)) && i < |data| && k < 8 && 8 * |data| <= 5 * |Encode(data)|
    ensures SymbolBit(Values(Encode(data)), 8 * i + k) == Bit(data[i], 7 - k)
  {
    hide Bit, SymbolBit, Encode, Values, AllLetters;
    SymbolBitOf(data, 8 * i + k);
    assert (8 * i + k) / 8 == i && (8 * i + k) % 8 == k;
  }

  lemma OctetOf(data: Bytes, i: nat)
    requires AllLetters(Encode(data)) && i < |data| && 8 * |data| <= 5 * |Encode(data)|
    ensures Octet(Values(Encode(data)), i) == data[i]
  {
    hide SymbolBit, ByteBit, Bit;
    OctetBit(data, i, 0); OctetBit(data, i, 1); OctetBit(data, i, 2); OctetBit(data, i, 3);
    OctetBit(data, i, 4); OctetBit(data, i, 5); OctetBit(data, i, 6); OctetBit(data, i, 7);
    LowEight(data[i]);
  }

  /** Decoding inverts encoding, for every byte string. */
  lemma DecodeEncode(data: Bytes)
    ensures AllLetters(Encode(data)) && Decode(Encode(data)) == data
  {
    EncodeLetters(data);
    var n, m := |data|, SymbolCount(|data|);
    assert 8 * n <= 5 * m < 8 * n + 5;
    assert 5 * m / 8 == n;
    forall i | 0 <= i < n ensures Octet(Values(Encode(data)), i) == data[i] {
      OctetOf(data, i);
    }
    assert Decode(Encode(data)) == data;
  }

  /** Distinct byte strings have distinct encodings. */
  lemma EncodeInjective(x: Bytes, y: Bytes)
    requires Encode(x) == Encode(y)
    ensures x == y
  {
    DecodeEncode(x);
    DecodeEncode(y);
  }

  // ---- the accumulator loops ----

  /** The low `count` bits of the accumulator are the bits of the data that end at `end`. */
  ghost predicate Holds(buffer: nat, count: nat, data: Bytes, end: nat) {
    count <= end && forall k :: 0 <= k < count ==> Bit(buffer, k) == ByteBit(data, end - 1 - k)
  }

  lemma Words()
    ensures Pow2(5) == 32 && Pow2(8) == 256 && Pow2(32) == WORD32 && Pow2(64) == WORD64
  {
    assert Pow2(8) == 256;
    PowSplit(8, 8);
    PowSplit(16, 16);
    PowSplit(32, 32);
  }

  lemma HoldsNext(buffer: nat, count: nat, data: Bytes, i: nat)
    requires i < |data| && count < 5 && Holds(buffer, count, data, 8 * i)
    ensures Holds((buffer * 256) % WORD64 + data[i], count + 8, data, 8 * i + 8)
    ensures (buffer * 256) % WORD64 + data[i] < WORD64
  {
    var after := (buffer * 256) % WORD64 + data[i];
    Words();
    LowPartFree(buffer, data[i], 8, 64);
    forall k | 0 <= k < count + 8 ensures Bit(after, k) == ByteBit(data, 8 * i + 7 - k) {
      ShiftIn(buffer, data[i], 8, 64, k);
      if k < 8 {
        assert (8 * i + 7 - k) / 8 == i && (8 * i + 7 - k) % 8 == 7 - k;
      } else {
        assert Bit(buffer, k - 8) == ByteBit(data, 8 * i - 1 - (k - 8));
      }
    }
  }

  lemma FiveHeld(buffer: nat, rest: nat, data: Bytes, t: nat)
    requires Holds(buffer, rest + 5, data, 5 * t + 5 + rest)
    ensures Shr(buffer, rest) % 32 == Quintet(data, t)
    ensures Holds(buffer, rest, data, 5 * t + 5 + rest)
  {
    LowFive(Shr(buffer, rest));
    Shifted(buffer, rest, 0); Shifted(buffer, rest, 1); Shifted(buffer, rest, 2);
    Shifted(buffer, rest, 3); Shifted(buffer, rest, 4);
    hide Bit, ByteBit, Shr;
    assert Bit(buffer, rest + 0) == ByteBit(data, 5 * t + 4);
    assert Bit(buffer, rest + 1) == ByteBit(data, 5 * t + 3);
    assert Bit(buffer, rest + 2) == ByteBit(data, 5 * t + 2);
    assert Bit(buffer, rest + 3) == ByteBit(data, 5 * t + 1);
    assert Bit(buffer, rest + 4) == ByteBit(data, 5 * t);
  }

  lemma Padded(buffer: nat, pad: nat, k: nat)
    requires pad < 5 && k < 5
    ensures Bit((buffer * Pow2(pad)) % WORD64, k) == if k < pad then 0 else Bit(buffer, k - pad)
  {
    hide Bit;
    Words();
    PowPositive(pad);
    ZeroBits(k);
    ShiftIn(buffer, 0, pad, 64, k);
  }

  lemma PaddedBit(buffer: nat, count: nat, data: Bytes, t: nat, k: nat)
    requires 0 < count < 5 && 5 * t + count == 8 * |data| && Holds(buffer, count, data, 8 * |data|) && k < 5
    ensures Bit((buffer * Pow2(5 - count)) % WORD64, k) == ByteBit(data, 5 * t + 4 - k)
  {
    hide Bit, Pow2;
    Padded(buffer, 5 - count, k);
    if k >= 5 - count {
      assert Bit(buffer, k - (5 - count)) == ByteBit(data, 8 * |data| - 1 - (k - (5 - count)));
    }
  }

  lemma {:induction false} ZeroBits(k: nat)
    ensures Bit(0, k) == 0
  {
    if k > 0 { ZeroBits(k - 1); }
  }

  lemma LastHeld(buffer: nat, count: nat, data: Bytes, t: nat)
    requires 0 < count < 5 && 5 * t + count == 8 * |data| && Holds(buffer, count, data, 8 * |data|)
    ensures (buffer * Pow2(5 - count)) % WORD64 % 32 == Quintet(data, t)
  {
    PaddedBit(buffer, count, data, t, 0); PaddedBit(buffer, count, data, t, 1);
    PaddedBit(buffer, count, data, t, 2); PaddedBit(buffer, count, data, t, 3);
    PaddedBit(buffer, count, data, t, 4);
    LowFive((buffer * Pow2(5 - count)) % WORD64);
    hide Bit, ByteBit;
  }

  /** base32lower_encode: the 64-bit accumulator computes the encoding of the whole bit string. */
  method EncodeLower(data: Bytes) returns (out: Bytes)
    ensures out == Encode(data)
  {
    hide Bit, ByteBit, Quintet, Letter, Shr, Pow2;
    out := [];
    var buffer, bitsLeft := 0, 0;
    for i := 0 to |data|
      invariant 5 * |out| + bitsLeft == 8 * i && 0 <= bitsLeft < 5 && 0 <= buffer < WORD64
      invariant forall t :: 0 <= t < |out| ==> out[t] == Letter(Quintet(data, t))
      invariant Holds(buffer, bitsLeft, data, 8 * i)
    {
      HoldsNext(buffer, bitsLeft, data, i);
      buffer := (buffer * 256) % WORD64 + data[i];
      bitsLeft := bitsLeft + 8;
      while bitsLeft >= 5
        invariant 5 * |out| + bitsLeft == 8 * i + 8 && 0 <= bitsLeft
        invariant forall t :: 0 <= t < |out| ==> out[t] == Letter(Quintet(data, t))
        invariant Holds(buffer, bitsLeft, data, 8 * i + 8)
      {
        bitsLeft := bitsLeft - 5;
        FiveHeld(buffer, bitsLeft, data, |out|);
        out := out + [Letter(Shr(buffer, bitsLeft) % 32)];
      }
    }
    if bitsLeft > 0 {
      LastHeld(buffer, bitsLeft, data, |out|);
      out := out + [Letter((buffer * Pow2(5 - bitsLeft)) % WORD64 % 32)];
    }
  }

  /** The same for symbols, five bits each. */
  ghost predicate HoldsSymbols(buffer: nat, count: nat, symbols: seq<nat>, end: nat) {
    count <= end <= 5 * |symbols|
    && forall k :: 0 <= k < count ==> Bit(buffer, k) == SymbolBit(symbols, end - 1 - k)
  }

  lemma HoldsNextSymbol(buffer: nat, count: nat, symbols: seq<nat>, i: nat)
    requires i < |symbols| && symbols[i] < 32 && count < 8 && HoldsSymbols(buffer, count, symbols, 5 * i)
    ensures HoldsSymbols((buffer * 32) % WORD32 + symbols[i], count + 5, symbols, 5 * i + 5)
    ensures (buffer * 32) % WORD32 + symbols[i] < WORD32
  {
    var after := (buffer * 32) % WORD32 + symbols[i];
    Words();
    LowPartFree(buffer, symbols[i], 5, 32);
    forall k | 0 <= k < count + 5 ensures Bit(after, k) == SymbolBit(symbols, 5 * i + 4 - k) {
      ShiftIn(buffer, symbols[i], 5, 32, k);
      if k < 5 {
        assert (5 * i + 4 - k) / 5 == i && (5 * i + 4 - k) % 5 == 4 - k;
      } else {
        assert Bit(buffer, k - 5) == SymbolBit(symbols, 5 * i - 1 - (k - 5));
      }
    }
  }

  lemma EightHeld(buffer: nat, rest: nat, symbols: seq<nat>, t: nat)
    requires HoldsSymbols(buffer, rest + 8, symbols, 8 * t + 8 + rest)
    ensures Shr(buffer, rest) % 256 == Octet(symbols, t)
    ensures HoldsSymbols(buffer, rest, symbols, 8 * t + 8 + rest)
  {
    hide Bit, SymbolBit, Shr;
    LowEight(Shr(buffer, rest));
    Shifted(buffer, rest, 0); Shifted(buffer, rest, 1); Shifted(buffer, rest, 2); Shifted(buffer, rest, 3);
    Shifted(buffer, rest, 4); Shifted(buffer, rest, 5); Shifted(buffer, rest, 6); Shifted(buffer, rest, 7);
    assert Bit(buffer, rest + 0) == SymbolBit(symbols, 8 * t + 7);
    assert Bit(buffer, rest + 1) == SymbolBit(symbols, 8 * t + 6);
    assert Bit(buffer, rest + 2) == SymbolBit(symbols, 8 * t + 5);
    assert Bit(buffer, rest + 3) == SymbolBit(symbols, 8 * t + 4);
    assert Bit(buffer, rest + 4) == SymbolBit(symbols, 8 * t + 3);
    assert Bit(buffer, rest + 5) == SymbolBit(symbols, 8 * t + 2);
    assert Bit(buffer, rest + 6) == SymbolBit(symbols, 8 * t + 1);
    assert Bit(buffer, rest + 7) == SymbolBit(symbols, 8 * t);
  }

  lemma NextOctet(text: Bytes, decoded: Bytes)
    requires AllLetters(text) && decoded <= Decode(text) && 8 * |decoded| + 8 <= 5 * |text|
    ensures decoded + [Octet(Values(text), |decoded|)] <= Decode(text)
  {
  }

  /** The decoding loop of cid_codec: its 32-bit accumulator decodes texts of any length. */
  method DecodeLower(text: Bytes) returns (decoded: Bytes)
    requires AllLetters(text)
    ensures decoded == Decode(text)
  {
    hide Bit, SymbolBit, Octet, Shr, LetterValue;
    ghost var symbols := Values(text);
    decoded := [];
    var buffer, bits := 0, 0;
    for i := 0 to |text|
      invariant 8 * |decoded| + bits == 5 * i && 0 <= bits < 8 && 0 <= buffer < WORD32
      invariant decoded <= Decode(text)
      invariant HoldsSymbols(buffer, bits, symbols, 5 * i)
    {
      var value := LetterValue(text[i]);
      HoldsNextSymbol(buffer, bits, symbols, i);
      buffer := (buffer * 32) % WORD32 + value;
      bits := bits + 5;
      if bits >= 8 {
        bits := bits - 8;
        EightHeld(buffer, bits, symbols, |decoded|);
        NextOctet(text, decoded);
        decoded := decoded + [Shr(buffer, bits) % 256];
      }
    }
  }
}
