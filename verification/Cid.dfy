/** Content identifiers: base32 text of a CIDv1 envelope holding a codec and a SHA2-256 digest. */
module Cid {
  import opened Common
  import opened Base32

  const CID_VERSION := 1
  const MULTIHASH_SHA2_256 := 0x12
  const DIGEST_LEN := 32
  const MAX_CID_LEN := 128
  const MULTICODEC_RAW := 0x55
  const MULTICODEC_DAG_CBOR := 0x71

  // ---- unsigned varints ----

  function Varint(v: nat): Bytes {
    if v < 128 then [v] else [v % 128 + 128] + Varint(v / 128)
  }

  /**
   The varint library's decoder: seven bits a byte into a 64-bit word, at most ten bytes, no
   redundant zero byte at the end. The tenth byte is shifted by 63, so only its lowest bit survives.
   */
  function Scan(buf: Bytes, i: nat, n: nat): Option<(nat, Bytes)>
    decreases |buf|
  {
    if buf == [] then None
    else
      var b := buf[0];
      var next := n + (b % 128 * Pow2(7 * i)) % WORD64;
      if b < 128 then (if b == 0 && i > 0 then None else Some((next, buf[1..])))
      else if i == 9 then None
      else Scan(buf[1..], i + 1, next)
  }

  function VarintDecode(buf: Bytes): Option<(nat, Bytes)> {
    Scan(buf, 0, 0)
  }

  lemma NextPower(i: nat)
    ensures Pow2(7 * i + 7) == 128 * Pow2(7 * i)
  {
    PowSplit(7, 7 * i);
    assert Pow2(7) == 128;
  }

  lemma PowerTop()
    ensures Pow2(63) * 2 == WORD64
  {
    Words();
  }

  lemma ScanLast(b: byte, rest: Bytes, i: nat, n: nat)
    requires b < 128
    ensures Scan([b] + rest, i, n)
         == if b == 0 && i > 0 then None else Some((n + (b * Pow2(7 * i)) % WORD64, rest))
  {
    assert ([b] + rest)[1..] == rest;
  }

  lemma ScanMore(b: byte, tail: Bytes, i: nat, n: nat)
    requires b >= 128
    ensures Scan([b] + tail, i, n)
         == if i == 9 then None else Scan(tail, i + 1, n + (b % 128 * Pow2(7 * i)) % WORD64)
  {
    assert ([b] + tail)[1..] == tail;
  }

  /** The arithmetic of one continued byte of `v` at position `i`. */
  lemma VarintDigit(v: nat, i: nat)
    requires i <= 9 && 128 <= v && v * Pow2(7 * i) < WORD64
    ensures i < 9 && (v % 128 * Pow2(7 * i)) % WORD64 == v % 128 * Pow2(7 * i)
    ensures v * Pow2(7 * i) == v % 128 * Pow2(7 * i) + v / 128 * Pow2(7 * (i + 1))
    ensures v / 128 * Pow2(7 * (i + 1)) < WORD64
  {
    hide Pow2;
    var p, high, low := Pow2(7 * i), v / 128, v % 128;
    PowPositive(7 * i);
    NotTenth(v, i);
    NextPower(i);
    assert v == 128 * high + low;
    Split(high, low, p);
  }

  lemma NotTenth(v: nat, i: nat)
    requires i <= 9 && 128 <= v && v * Pow2(7 * i) < WORD64
    ensures i < 9
  {
    if i == 9 {
      PowerTop();
      MulMonotone(2, v, Pow2(7 * i));
    }
  }

  lemma {:induction false} ScanEncoded(v: nat, i: nat, n: nat, rest: Bytes)
    requires i <= 9 && v * Pow2(7 * i) < WORD64 && (v > 0 || i == 0)
    ensures Scan(Varint(v) + rest, i, n) == Some((n + v * Pow2(7 * i), rest))
    decreases v
  {
    hide Scan, Pow2;
    if v < 128 {
      ScanLast(v, rest, i, n);
    } else {
      VarintDigit(v, i);
      assert Varint(v) + rest == [v % 128 + 128] + (Varint(v / 128) + rest);
      ScanMore(v % 128 + 128, Varint(v / 128) + rest, i, n);
      ScanEncoded(v / 128, i + 1, n + v % 128 * Pow2(7 * i), rest);
    }
  }

  lemma Split(high: nat, low: nat, p: nat)
    ensures (128 * high + low) * p == high * (128 * p) + low * p
    ensures 0 <= low * p <= (128 * high + low) * p && 0 <= high * (128 * p) <= (128 * high + low) * p
  {
    assert (128 * high + low) * p == (128 * high) * p + low * p;
    assert (128 * high) * p == high * (128 * p);
  }

  /** Every 64-bit value survives, whatever follows it. */
  lemma VarintRoundTrip(v: nat, rest: Bytes)
    requires v < WORD64
    ensures VarintDecode(Varint(v) + rest) == Some((v, rest))
  {
    ScanEncoded(v, 0, 0, rest);
  }

  /** The value a byte string spells before it is cut to 64 bits. */
  function Spelled(buf: Bytes): nat {
    if buf == [] then 0 else if buf[0] < 128 then buf[0] else buf[0] - 128 + 128 * Spelled(buf[1..])
  }

  lemma LastByte(b: nat, i: nat, n: nat)
    requires b < 128 && i <= 9 && n < Pow2(7 * i)
    ensures n + (b * Pow2(7 * i)) % WORD64 == (n + b * Pow2(7 * i)) % WORD64
  {
    PowPositive(7 * i);
    PowPositive(64 - 7 * i);
    Words();
    PowSplit(64 - 7 * i, 7 * i);
    Repack(b, n, Pow2(7 * i), Pow2(64 - 7 * i));
  }

  lemma MiddleByte(b: nat, i: nat, n: nat)
    requires b < 128 && i < 9 && n < Pow2(7 * i)
    ensures (b * Pow2(7 * i)) % WORD64 == b * Pow2(7 * i) && n + b * Pow2(7 * i) < Pow2(7 * i + 7)
  {
    hide Pow2;
    NextPower(i);
    PowMonotone(7 * i + 7, 63);
    PowerTop();
    BelowNext(b, Pow2(7 * i), n);
  }

  lemma BelowNext(b: nat, p: nat, n: nat)
    requires b < 128 && n < p
    ensures n + b * p < 128 * p
  {
    MulMonotone(b + 1, 128, p);
    assert (b + 1) * p == b * p + p;
  }

  lemma {:induction false} PowMonotone(a: nat, b: nat)
    requires a <= b
    ensures Pow2(a) <= Pow2(b)
  {
    if a < b { PowMonotone(a, b - 1); }
  }

  /** What decodes is the minimal spelling of its untruncated value, and the result is that value cut to 64 bits. */
  lemma {:induction false} ScanSpelled(buf: Bytes, i: nat, n: nat)
    requires i <= 9 && n < Pow2(7 * i) && Scan(buf, i, n).Some?
    ensures
      var (m, rest) := Scan(buf, i, n).value;
      && buf == Varint(Spelled(buf)) + rest
      && (i > 0 ==> Spelled(buf) > 0)
      && m == (n + Spelled(buf) * Pow2(7 * i)) % WORD64
      && 1 <= |buf| - |rest| <= 10 - i
    decreases |buf|
  {
    var b, tail := buf[0], buf[1..];
    assert buf == [b] + tail;
    if b < 128 {
      ScanLast(b, tail, i, n);
      LastByte(b, i, n);
    } else {
      ScanMore(b, tail, i, n);
      hide Scan, Pow2;
      MiddleByte(b % 128, i, n);
      var next := n + b % 128 * Pow2(7 * i);
      ScanSpelled(tail, i + 1, next);
      SpelledMore(b, tail, i, n);
    }
  }

  lemma SpelledMore(b: byte, tail: Bytes, i: nat, n: nat)
    requires b >= 128 && Spelled(tail) > 0
    ensures Varint(Spelled([b] + tail)) == [b] + Varint(Spelled(tail)) && Spelled([b] + tail) > 0
    ensures n + Spelled([b] + tail) * Pow2(7 * i)
         == n + b % 128 * Pow2(7 * i) + Spelled(tail) * Pow2(7 * (i + 1))
  {
    assert ([b] + tail)[1..] == tail;
    var w := Spelled(tail);
    NextPower(i);
    Split(w, b - 128, Pow2(7 * i));
    assert Spelled([b] + tail) == 128 * w + (b - 128);
  }

  /** Ten bytes of which the last sets bits above the 64th. */
  predicate Overlong(buf: Bytes) {
    |buf| >= 10 && (forall j :: 0 <= j < 9 ==> buf[j] >= 128) && 2 <= buf[9] < 128
  }

  lemma {:induction false} SpelledBound(buf: Bytes, k: nat)
    requires k < |buf| && (forall j :: 0 <= j < k ==> buf[j] >= 128) && buf[k] < 128
    ensures buf[k] * Pow2(7 * k) <= Spelled(buf) < (buf[k] + 1) * Pow2(7 * k)
    decreases k
  {
    hide Pow2;
    if k == 0 {
      FirstPower();
    } else {
      var tail := buf[1..];
      forall j | 0 <= j < k - 1 ensures tail[j] >= 128 { assert tail[j] == buf[j + 1]; }
      SpelledBound(tail, k - 1);
      NextPower(k - 1);
      Scaled(buf[k], Pow2(7 * (k - 1)));
      Scaled(buf[k] + 1, Pow2(7 * (k - 1)));
    }
  }

  lemma FirstPower()
    ensures Pow2(0) == 1
  {
  }

  lemma Scaled(c: nat, p: nat)
    ensures c * (128 * p) == 128 * (c * p)
  {
  }

  lemma {:induction false} ScanShape(buf: Bytes, i: nat, n: nat)
    requires i <= 9 && Scan(buf, i, n).Some?
    ensures
      var k := |buf| - |Scan(buf, i, n).value.1| - 1;
      0 <= k <= 9 - i && (forall j :: 0 <= j < k ==> buf[j] >= 128) && buf[k] < 128
    decreases |buf|
  {
    if buf[0] >= 128 {
      ScanShape(buf[1..], i + 1, n + (buf[0] % 128 * Pow2(7 * i)) % WORD64);
      var k := |buf| - |Scan(buf, i, n).value.1| - 1;
      forall j | 0 < j <= k ensures buf[j] == buf[1..][j - 1] {}
    }
  }

  /** The decoder accepts one spelling of each value, except that it ignores the tenth byte's upper bits. */
  lemma VarintCanonical(buf: Bytes)
    requires VarintDecode(buf).Some?
    ensures
      var (v, rest) := VarintDecode(buf).value;
      v < WORD64 && (buf == Varint(v) + rest <==> !Overlong(buf))
  {
    hide Pow2, Scan, Varint, Spelled;
    var (v, rest) := VarintDecode(buf).value;
    ZeroPower();
    ScanSpelled(buf, 0, 0);
    ScanShape(buf, 0, 0);
    SpelledFits(buf, |buf| - |rest| - 1);
    if Overlong(buf) && buf == Varint(v) + rest {
      VarintPrefixFree(Spelled(buf), rest, v, rest);
    }
  }

  lemma ZeroPower()
    ensures Pow2(7 * 0) == 1
  {
  }

  /** Only the tenth byte can push the spelled value past 64 bits. */
  lemma SpelledFits(buf: Bytes, k: nat)
    requires k < |buf| && k <= 9 && (forall j :: 0 <= j < k ==> buf[j] >= 128) && buf[k] < 128
    ensures Spelled(buf) < WORD64 <==> !Overlong(buf)
  {
    hide Pow2, Spelled;
    SpelledBound(buf, k);
    PowerTop();
    if k == 9 {
      if buf[9] >= 2 { MulMonotone(2, buf[9], Pow2(63)); } else { MulMonotone(buf[9] + 1, 2, Pow2(63)); }
    } else {
      NextPower(k);
      MulMonotone(buf[k] + 1, 128, Pow2(7 * k));
      PowMonotone(7 * k + 7, 63);
    }
  }

  /** A varint is never a proper beginning of another one. */
  lemma {:induction false} VarintPrefixFree(a: nat, x: Bytes, b: nat, y: Bytes)
    requires Varint(a) + x == Varint(b) + y
    ensures a == b && x == y
    decreases a
  {
    assert (Varint(a) + x)[0] == (Varint(b) + y)[0];
    if a >= 128 && b >= 128 {
      assert (Varint(a) + x)[1..] == Varint(a / 128) + x;
      assert (Varint(b) + y)[1..] == Varint(b / 128) + y;
      VarintPrefixFree(a / 128, x, b / 128, y);
    } else {
      assert (Varint(a) + x)[1..] == x;
      assert (Varint(b) + y)[1..] == y;
    }
  }

  // ---- envelopes and their text ----

  datatype Envelope = Envelope(codec: nat, digest: Bytes)

  function EnvelopeBytes(e: Envelope): Bytes {
    Varint(CID_VERSION) + (Varint(e.codec) + (Varint(MULTIHASH_SHA2_256) + ([DIGEST_LEN as byte] + e.digest)))
  }

  function ParseEnvelope(bytes: Bytes): Option<Envelope> {
    match VarintDecode(bytes)
    case None => None
    case Some((version, r1)) =>
      match VarintDecode(r1)
      case None => None
      case Some((codec, r2)) =>
        match VarintDecode(r2)
        case None => None
        case Some((hash, r3)) =>
          match VarintDecode(r3)
          case None => None
          case Some((length, digest)) =>
            if version == CID_VERSION && hash == MULTIHASH_SHA2_256 && length == DIGEST_LEN && |digest| == DIGEST_LEN
            then Some(Envelope(codec, digest)) else None
  }

  /** `b`, the multibase prefix, then the base32 text. */
  function Text(bytes: Bytes): Bytes {
    [98] + Encode(bytes)
  }

  function CidText(e: Envelope): Bytes {
    Text(EnvelopeBytes(e))
  }

  function ComputeCid(hash: Bytes -> Bytes, data: Bytes, codec: nat): Bytes {
    CidText(Envelope(codec, hash(data)))
  }

  predicate VerifyCid(hash: Bytes -> Bytes, cid: Bytes, data: Bytes, codec: nat) {
    ComputeCid(hash, data, codec) == cid
  }

  predicate IsValidCid(cid: Bytes) {
    2 <= |cid| <= MAX_CID_LEN && cid[0] == 98 && AllLetters(cid[1..])
  }

  /** 2 to 128 characters, the first `b` and the others `a` to `z` or `2` to `7`. */
  lemma ValidExactly(cid: Bytes)
    ensures IsValidCid(cid) <==>
      && 2 <= |cid| <= 128 && cid[0] == 98
      && forall i :: 1 <= i < |cid| ==> 97 <= cid[i] <= 122 || 50 <= cid[i] <= 55
  {
    if 2 <= |cid| {
      assert forall i :: 0 <= i < |cid| - 1 ==> cid[1..][i] == cid[i + 1];
      if AllLetters(cid[1..]) {
        forall i | 1 <= i < |cid|
          ensures IsLetter(cid[i])
        {
          assert cid[1..][i - 1] == cid[i];
        }
      }
    }
  }

  /** The envelope of a CID, if its text is the canonical one for some envelope. */
  function CidEnvelope(cid: Bytes): Option<Envelope> {
    if !IsValidCid(cid) then None
    else
      var decoded := Decode(cid[1..]);
      if Encode(decoded) != cid[1..] then None else ParseEnvelope(decoded)
  }

  function CidCodec(cid: Bytes): Option<nat> {
    match CidEnvelope(cid)
    case None => None
    case Some(e) => Some(e.codec)
  }

  lemma {:induction false} VarintSize(v: nat, n: nat)
    requires 0 < n && v < Pow2(7 * n)
    ensures 1 <= |Varint(v)| <= n
    decreases n
  {
    if v >= 128 {
      assert Pow2(7) == 128;
      NextPower(n - 1);
      VarintSize(v / 128, n - 1);
    }
  }

  lemma EnvelopeRoundTrip(e: Envelope)
    requires e.codec < WORD64 && |e.digest| == DIGEST_LEN
    ensures ParseEnvelope(EnvelopeBytes(e)) == Some(e)
    ensures 36 <= |EnvelopeBytes(e)| <= 45
  {
    var r3: Bytes := [DIGEST_LEN as byte] + e.digest;
    var r2 := Varint(MULTIHASH_SHA2_256) + r3;
    var r1 := Varint(e.codec) + r2;
    VarintRoundTrip(CID_VERSION, r1);
    VarintRoundTrip(e.codec, r2);
    VarintRoundTrip(MULTIHASH_SHA2_256, r3);
    VarintRoundTrip(DIGEST_LEN, e.digest);
    assert Varint(DIGEST_LEN) == [DIGEST_LEN as byte];
    Words();
    PowMonotone(64, 70);
    VarintSize(e.codec, 10);
  }

  /** Any 64-bit codec and digest survive the trip through a CID, and the CID is well formed. */
  lemma CidRoundTrip(e: Envelope)
    requires e.codec < WORD64 && |e.digest| == DIGEST_LEN
    ensures IsValidCid(CidText(e)) && CidEnvelope(CidText(e)) == Some(e)
  {
    var bytes := EnvelopeBytes(e);
    EnvelopeRoundTrip(e);
    DecodeEncode(bytes);
    assert Text(bytes)[1..] == Encode(bytes);
  }

  /** The CID of any data under any 64-bit codec names that codec. */
  lemma ComputedCid(hash: Bytes -> Bytes, data: Bytes, codec: nat)
    requires codec < WORD64 && |hash(data)| == DIGEST_LEN
    ensures CidCodec(ComputeCid(hash, data, codec)) == Some(codec)
    ensures IsValidCid(ComputeCid(hash, data, codec))
  {
    CidRoundTrip(Envelope(codec, hash(data)));
  }

  /** The bytes of an envelope for a codec below 128: version, codec, hash function, length, digest. */
  lemma EnvelopeFormat(e: Envelope)
    requires e.codec < 128
    ensures EnvelopeBytes(e) == [1, e.codec, 0x12, 32] + e.digest
  {
    assert Varint(CID_VERSION) == [1] && Varint(e.codec) == [e.codec] && Varint(MULTIHASH_SHA2_256) == [0x12];
  }

  /** The first four bytes decide the first six letters. */
  lemma FirstLetters(bytes: Bytes, more: Bytes)
    requires |bytes| == 4
    ensures |Encode(bytes + more)| >= 6 && Encode(bytes + more)[..6] == Encode(bytes)[..6]
  {
    var all := bytes + more;
    forall t: nat | t < 6
      ensures Quintet(all, t) == Quintet(bytes, t)
    {
      forall j: nat | j < 32
        ensures ByteBit(all, j) == ByteBit(bytes, j)
      {
        assert all[j / 8] == bytes[j / 8];
      }
    }
    hide Quintet;
  }

  /** The bits of the bytes a header is made of: version, codec, hash function and length. */
  lemma HeadBits()
    ensures forall k: nat :: k < 8 ==> Bit(1, k) == if k == 0 then 1 else 0
    ensures forall k: nat :: k < 8 ==> Bit(18, k) == if k == 1 || k == 4 then 1 else 0
    ensures forall k: nat :: k < 8 ==> Bit(32, k) == if k == 5 then 1 else 0
  {
    hide Bit;
    BinaryBits(0, 0, 0, 0, 0, 0, 0, 1);
    BinaryBits(0, 0, 0, 1, 0, 0, 1, 0);
    BinaryBits(0, 0, 1, 0, 0, 0, 0, 0);
  }

  lemma HeadSymbols(head: Bytes, codec: byte)
    requires head == [1, codec, 18, 32]
    ensures Quintet(head, 0) == 0
    ensures Quintet(head, 1) == 4 + 2 * Bit(codec, 7) + Bit(codec, 6)
    ensures Quintet(head, 2) == 16 * Bit(codec, 5) + 8 * Bit(codec, 4) + 4 * Bit(codec, 3) + 2 * Bit(codec, 2) + Bit(codec, 1)
  {
    hide Bit;
    HeadBits();
  }

  lemma TailSymbols(head: Bytes, codec: byte)
    requires head == [1, codec, 18, 32]
    ensures Quintet(head, 3) == 16 * Bit(codec, 0) + 1 && Quintet(head, 4) == 4 && Quintet(head, 5) == 8
  {
    hide Bit;
    HeadBits();
  }

  /** `afkrei` for raw blocks, `afyrei` for manifests. */
  lemma HeadLetters(head: Bytes)
    requires head == [1, 85, 18, 32] || head == [1, 113, 18, 32]
    ensures |Encode(head)| >= 6 && Encode(head)[..6] == [97, 102, if head[1] == 85 then 107 else 121, 114, 101, 105]
  {
    hide Quintet, Bit;
    HeadSymbols(head, head[1]);
    TailSymbols(head, head[1]);
    BinaryBits(0, 1, 0, 1, 0, 1, 0, 1);
    BinaryBits(0, 1, 1, 1, 0, 0, 0, 1);
  }

  /** The CIDs of raw blocks and of manifests have 59 characters and start with `bafkrei` and `bafyrei`. */
  lemma CidFormat(hash: Bytes -> Bytes, data: Bytes)
    requires |hash(data)| == 32
    ensures
      var raw, manifest := ComputeCid(hash, data, MULTICODEC_RAW), ComputeCid(hash, data, MULTICODEC_DAG_CBOR);
      && |raw| == 59 && raw[..7] == [98, 97, 102, 107, 114, 101, 105]
      && |manifest| == 59 && manifest[..7] == [98, 97, 102, 121, 114, 101, 105]
  {
    hide Encode, Varint;
    EnvelopeFormat(Envelope(0x55, hash(data)));
    EnvelopeFormat(Envelope(0x71, hash(data)));
    FirstLetters([1, 0x55, 0x12, 32], hash(data));
    FirstLetters([1, 0x71, 0x12, 32], hash(data));
    HeadLetters([1, 0x55, 0x12, 32]);
    HeadLetters([1, 0x71, 0x12, 32]);
    EncodedLength([1, 0x55, 0x12, 32] + hash(data));
    EncodedLength([1, 0x71, 0x12, 32] + hash(data));
  }

  /** Equal CIDs mean equal codecs and equal digests. */
  lemma CidInjective(d: Envelope, e: Envelope)
    requires d.codec < WORD64 && |d.digest| == DIGEST_LEN && e.codec < WORD64 && |e.digest| == DIGEST_LEN
    requires CidText(d) == CidText(e)
    ensures d == e
  {
    CidRoundTrip(d);
    CidRoundTrip(e);
  }

  /** A string names an envelope exactly when it is the canonical text of bytes that parse, and fits. */
  lemma AcceptedTexts(cid: Bytes, e: Envelope)
    ensures CidEnvelope(cid) == Some(e)
       <==> IsValidCid(cid) && exists bytes :: cid == Text(bytes) && ParseEnvelope(bytes) == Some(e)
  {
    if IsValidCid(cid) {
      var decoded := Decode(cid[1..]);
      if CidEnvelope(cid) == Some(e) {
        assert cid == Text(decoded);
      }
      forall bytes | cid == Text(bytes) && ParseEnvelope(bytes) == Some(e) ensures CidEnvelope(cid) == Some(e) {
        assert cid[1..] == Encode(bytes);
        DecodeEncode(bytes);
      }
    }
  }

  /** One of the four header fields is spelled with a tenth byte that the decoder cuts. */
  predicate CutHeader(bytes: Bytes)
    requires ParseEnvelope(bytes).Some?
  {
    var r1 := VarintDecode(bytes).value.1;
    var r2 := VarintDecode(r1).value.1;
    var r3 := VarintDecode(r2).value.1;
    Overlong(bytes) || Overlong(r1) || Overlong(r2) || Overlong(r3)
  }

  /**
   One string per envelope: an accepted string is the one `compute_cid` would print for its codec
   and digest exactly when no header field has a cut tenth byte.
   */
  lemma CanonicalCid(cid: Bytes)
    requires CidEnvelope(cid).Some?
    ensures cid == CidText(CidEnvelope(cid).value) <==> !CutHeader(Decode(cid[1..]))
  {
    hide CutHeader, ParseEnvelope, EnvelopeBytes, Encode, Decode, AllLetters;
    var bytes := Decode(cid[1..]);
    var e := CidEnvelope(cid).value;
    assert cid == Text(bytes);
    HeaderFields(bytes);
    if cid == CidText(e) {
      assert Encode(bytes) == cid[1..] == Encode(EnvelopeBytes(e));
      EncodeInjective(bytes, EnvelopeBytes(e));
    }
  }

  lemma HeaderFields(bytes: Bytes)
    requires ParseEnvelope(bytes).Some?
    ensures bytes == EnvelopeBytes(ParseEnvelope(bytes).value) <==> !CutHeader(bytes)
  {
    var (version, r1) := VarintDecode(bytes).value;
    var (codec, r2) := VarintDecode(r1).value;
    var (hash, r3) := VarintDecode(r2).value;
    var (length, digest) := VarintDecode(r3).value;
    VarintCanonical(bytes);
    VarintCanonical(r1);
    VarintCanonical(r2);
    VarintCanonical(r3);
    assert Varint(DIGEST_LEN) == [DIGEST_LEN as byte];
    hide VarintDecode, Varint, Overlong;
    var d3 := Varint(DIGEST_LEN) + digest;
    var d2 := Varint(MULTIHASH_SHA2_256) + d3;
    var d1 := Varint(codec) + d2;
    if bytes == Varint(CID_VERSION) + d1 {
      TailOf(bytes, CID_VERSION, d1);
      TailOf(d1, codec, d2);
      TailOf(d2, MULTIHASH_SHA2_256, d3);
    }
  }

  /** Decoding a minimal spelling leaves what follows it. */
  lemma TailOf(buf: Bytes, v: nat, rest: Bytes)
    requires buf == Varint(v) + rest && v < WORD64
    ensures VarintDecode(buf) == Some((v, rest))
  {
    VarintRoundTrip(v, rest);
  }

  /** An envelope whose codec field is ten bytes that spell 2^64. */
  function LongCodec(digest: Bytes): Bytes {
    Varint(CID_VERSION)
    + ([128, 128, 128, 128, 128, 128, 128, 128, 128, 2]
       + (Varint(MULTIHASH_SHA2_256) + ([DIGEST_LEN as byte] + digest)))
  }

  lemma LongCodecParses(digest: Bytes)
    requires |digest| == DIGEST_LEN
    ensures ParseEnvelope(LongCodec(digest)) == Some(Envelope(0, digest)) && CutHeader(LongCodec(digest))
    ensures |LongCodec(digest)| == 45
  {
    var long: Bytes := [128, 128, 128, 128, 128, 128, 128, 128, 128, 2];
    var tail: Bytes := Varint(MULTIHASH_SHA2_256) + ([DIGEST_LEN as byte] + digest);
    LongZero(tail);
    VarintRoundTrip(CID_VERSION, long + tail);
    VarintRoundTrip(MULTIHASH_SHA2_256, [DIGEST_LEN as byte] + digest);
    VarintRoundTrip(DIGEST_LEN, digest);
    assert Varint(DIGEST_LEN) == [DIGEST_LEN as byte];
    hide VarintDecode, Overlong;
  }

  /** The exception is real: such an envelope is accepted with codec 0, under another string. */
  lemma CutHeaderExample(digest: Bytes)
    requires |digest| == DIGEST_LEN
    ensures CidEnvelope(Text(LongCodec(digest))) == Some(Envelope(0, digest))
    ensures Text(LongCodec(digest)) != CidText(Envelope(0, digest))
  {
    LongCodecParses(digest);
    DecodeEncode(LongCodec(digest));
    hide LongCodec, ParseEnvelope, Encode, CutHeader;
    var cid := Text(LongCodec(digest));
    assert cid[1..] == Encode(LongCodec(digest));
    assert |cid| == 73 by { EncodedLength(LongCodec(digest)); }
    CanonicalCid(cid);
  }

  lemma EncodedLength(bytes: Bytes)
    ensures |Encode(bytes)| == SymbolCount(|bytes|)
  {
  }

  lemma LongZero(tail: Bytes)
    ensures
      var long: Bytes := [128, 128, 128, 128, 128, 128, 128, 128, 128, 2];
      VarintDecode(long + tail) == Some((0, tail)) && Overlong(long + tail)
  {
    var long: Bytes := [128, 128, 128, 128, 128, 128, 128, 128, 128, 2];
    PowerTop();
    ScanLast(2, tail, 9, 0);
    Zeros(9, [2] + tail);
    assert long + tail == Continues(9) + ([2] + tail);
  }

  /** Bytes that say "more follows" and carry no bits. */
  function Continues(k: nat): Bytes {
    seq(k, _ => 128)
  }

  lemma {:induction false} Zeros(k: nat, tail: Bytes)
    requires k <= 9
    ensures Scan(Continues(k) + tail, 9 - k, 0) == Scan(tail, 9, 0)
  {
    if k > 0 {
      assert Continues(k) + tail == [128] + (Continues(k - 1) + tail);
      ScanMore(128, Continues(k - 1) + tail, 9 - k, 0);
      Zeros(k - 1, tail);
    } else {
      assert Continues(0) + tail == tail;
    }
  }

  /** compute_cid, with the digest already taken. */
  method PrintCid(codec: nat, digest: Bytes) returns (cid: Bytes)
    ensures cid == CidText(Envelope(codec, digest))
  {
    var bytes := Varint(CID_VERSION);
    bytes := bytes + Varint(codec);
    bytes := bytes + Varint(MULTIHASH_SHA2_256);
    bytes := bytes + [DIGEST_LEN as byte];
    bytes := bytes + digest;
    var text := EncodeLower(bytes);
    assert bytes == EnvelopeBytes(Envelope(codec, digest));
    cid := [98] + text;
  }

  /** cid_codec, with both base32 loops. */
  method ReadCodec(cid: Bytes) returns (codec: Option<nat>)
    ensures codec == CidCodec(cid)
  {
    if !IsValidCid(cid) {
      return None;
    }
    var decoded := DecodeLower(cid[1..]);
    var again := EncodeLower(decoded);
    if again != cid[1..] {
      return None;
    }
    match ParseEnvelope(decoded)
    case None => return None;
    case Some(e) => return Some(e.codec);
  }
}
