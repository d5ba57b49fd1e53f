/** Storage frames on the wire, and how a block is cut into them. */
module Frames {
  import opened Common
  import opened Cid

  const MSG_WANT: byte := 1
  const MSG_HAVE: byte := 2
  const MSG_QUERY: byte := 3
  const MSG_HAVE_STATUS: byte := 4
  const MSG_HAVE_CHUNK: byte := 5
  const HAVE_CHUNK_SIZE := 16 * 1024
  const HEADER_LEN := 6
  const ENVELOPE_MARGIN := 512
  const MIN_CHUNK_SIZE := 1024

  datatype Frame =
    | Want(cid: Bytes)
    | Have(cid: Bytes, data: Bytes)
    | Query(cid: Bytes)
    | HaveStatus(cid: Bytes)
    | HaveChunk(cid: Bytes, index: nat, total: nat, data: Bytes)

  /** UTF-8 text that is a valid CID; every valid CID is ASCII. */
  function ParseCid(bytes: Bytes): Option<Bytes> {
    if |bytes| <= 255 && IsValidCid(bytes) then Some(bytes) else None
  }

  function Classify(raw: Bytes): Option<Frame> {
    if raw == [] then None
    else
      var rest := raw[1..];
      if raw[0] == MSG_WANT then (match ParseCid(rest) case None => None case Some(c) => Some(Want(c)))
      else if raw[0] == MSG_QUERY then (match ParseCid(rest) case None => None case Some(c) => Some(Query(c)))
      else if raw[0] == MSG_HAVE_STATUS then (match ParseCid(rest) case None => None case Some(c) => Some(HaveStatus(c)))
      else if raw[0] == MSG_HAVE then
        if rest == [] || |rest| - 1 < rest[0] then None
        else (match ParseCid(rest[1..1 + rest[0]]) case None => None case Some(c) => Some(Have(c, rest[1 + rest[0]..])))
      else if raw[0] == MSG_HAVE_CHUNK then ClassifyChunk(raw)
      else None
  }

  function ClassifyChunk(raw: Bytes): Option<Frame> {
    if |raw| < HEADER_LEN then None
    else
      var len := raw[1];
      var index := (raw[2] as int) * 256 + raw[3];
      var total := (raw[4] as int) * 256 + raw[5];
      if total == 0 || total > MAX_WANT_CHUNKS || index >= total || |raw| < HEADER_LEN + len then None
      else
        match ParseCid(raw[HEADER_LEN..HEADER_LEN + len])
        case None => None
        case Some(c) => Some(HaveChunk(c, index, total, raw[HEADER_LEN + len..]))
  }

  /** What the builder for this kind of frame prints; lengths and numbers are cut to the field. */
  function Build(f: Frame): Bytes {
    match f
    case Want(cid) => [MSG_WANT] + cid
    case Query(cid) => [MSG_QUERY] + cid
    case HaveStatus(cid) => [MSG_HAVE_STATUS] + cid
    case Have(cid, data) => [MSG_HAVE, |cid| % 256] + cid + data
    case HaveChunk(cid, index, total, data) =>
      [MSG_HAVE_CHUNK, |cid| % 256, index / 256 % 256, index % 256, total / 256 % 256, total % 256] + cid + data
  }

  predicate WellFormed(f: Frame) {
    IsValidCid(f.cid) && (f.HaveChunk? ==> f.index < f.total <= MAX_WANT_CHUNKS)
  }

  lemma ClassifyChunkBuilt(f: Frame)
    requires f.HaveChunk? && WellFormed(f)
    ensures Classify(Build(f)) == Some(f)
  {
    var raw := Build(f);
    var head := [MSG_HAVE_CHUNK, |f.cid| % 256, f.index / 256 % 256, f.index % 256, f.total / 256 % 256, f.total % 256];
    assert raw == head + f.cid + f.data;
    hide IsValidCid;
    assert |f.cid| <= 128;
    assert raw[1] == |f.cid| && raw[2] == f.index / 256 && raw[4] == f.total / 256;
    assert raw[HEADER_LEN..HEADER_LEN + |f.cid|] == f.cid;
    assert raw[HEADER_LEN + |f.cid|..] == f.data;
  }

  /** Classifying inverts every builder, on valid CIDs and in-range chunk headers. */
  lemma ClassifyBuilt(f: Frame)
    requires WellFormed(f)
    ensures Classify(Build(f)) == Some(f)
  {
    var raw := Build(f);
    match f
    case Have(cid, data) =>
      assert |cid| <= 128;
      hide IsValidCid;
      assert raw[1..][1..1 + |cid|] == cid;
      assert raw[1..][1 + |cid|..] == data;
    case HaveChunk(_, _, _, _) => ClassifyChunkBuilt(f);
    case _ => assert raw[1..] == f.cid;
  }

  /** The bytes on the wire: a tag, the length of the CID in front of data, and numbers high byte first. */
  lemma WireFormat(f: Frame)
    requires WellFormed(f)
    ensures
      var raw := Build(f);
      match f
      case Want(cid) => raw == [1] + cid
      case Query(cid) => raw == [3] + cid
      case HaveStatus(cid) => raw == [4] + cid
      case Have(cid, data) => raw == [2, |cid|] + cid + data
      case HaveChunk(cid, index, total, data) =>
        && |raw| == 6 + |cid| + |data| && raw[0] == 5 && raw[1] == |cid|
        && raw[2] as int * 256 + raw[3] == index && raw[4] as int * 256 + raw[5] == total
        && raw[6..] == cid + data
  {
    assert |f.cid| <= 128;
    hide IsValidCid;
    if f.HaveChunk? {
      assert Build(f)[6..] == f.cid + f.data;
    }
  }

  lemma BuildChunkClassified(raw: Bytes)
    requires ClassifyChunk(raw).Some? && raw[0] == MSG_HAVE_CHUNK
    ensures Build(ClassifyChunk(raw).value) == raw && WellFormed(ClassifyChunk(raw).value)
  {
    var f := ClassifyChunk(raw).value;
    assert |f.cid| == raw[1] <= 128;
    hide IsValidCid;
    assert f.index / 256 % 256 == raw[2] && f.index % 256 == raw[3];
    assert f.total / 256 % 256 == raw[4] && f.total % 256 == raw[5];
    assert raw == raw[..6] + raw[6..6 + raw[1]] + raw[6 + raw[1]..];
    assert raw[..6] == [raw[0], raw[1], raw[2], raw[3], raw[4], raw[5]];
  }

  lemma BuildHaveClassified(raw: Bytes)
    requires raw != [] && raw[0] == MSG_HAVE && Classify(raw).Some?
    ensures Classify(raw).value.Have? && WellFormed(Classify(raw).value) && Build(Classify(raw).value) == raw
  {
    hide IsValidCid, ClassifyChunk;
    assert raw == [raw[0], raw[1]] + raw[1..][1..1 + raw[1]] + raw[1..][1 + raw[1]..];
  }

  lemma BuildShortClassified(raw: Bytes)
    requires raw != [] && raw[0] != MSG_HAVE && raw[0] != MSG_HAVE_CHUNK && Classify(raw).Some?
    ensures WellFormed(Classify(raw).value) && Build(Classify(raw).value) == raw
  {
    hide IsValidCid, ClassifyChunk;
    assert raw == [raw[0]] + raw[1..];
  }

  /** Bytes that classify are exactly what the matching builder prints. */
  lemma BuildClassified(raw: Bytes)
    requires Classify(raw).Some?
    ensures WellFormed(Classify(raw).value) && Build(Classify(raw).value) == raw
  {
    hide WellFormed, Build, IsValidCid, ClassifyChunk;
    if raw[0] == MSG_HAVE {
      BuildHaveClassified(raw);
    } else if raw[0] == MSG_HAVE_CHUNK {
      BuildChunkClassified(raw);
    } else {
      BuildShortClassified(raw);
    }
  }

  // ---- cutting a block ----

  function DivCeil(a: nat, b: nat): nat
    requires b > 0
  {
    (a + b - 1) / b
  }

  function Overhead(cid: Bytes): nat {
    HEADER_LEN + |cid| + ENVELOPE_MARGIN
  }

  function ChunkSizeForLimit(cid: Bytes, limit: Option<nat>): (size: nat)
    ensures MIN_CHUNK_SIZE <= size <= HAVE_CHUNK_SIZE
  {
    if limit.Some? && limit.value >= Overhead(cid) + MIN_CHUNK_SIZE
    then Min(limit.value - Overhead(cid), HAVE_CHUNK_SIZE)
    else HAVE_CHUNK_SIZE
  }

  /**
   A usable limit gives the largest size up to 16 KiB that, with 6 bytes of header, the CID and 512 bytes
   of envelope, stays within it; a limit is usable if at least 1 KiB does. Otherwise the size is 16 KiB.
   */
  lemma ChunkSizeExactly(cid: Bytes, limit: Option<nat>, size: nat)
    ensures
      var usable := limit.Some? && 6 + |cid| + 512 + 1024 <= limit.value;
      size <= ChunkSizeForLimit(cid, limit) <==> size <= 16384 && (usable ==> 6 + |cid| + 512 + size <= limit.value)
  {
  }

  function HaveChunkCount(len: nat, size: nat): Option<nat>
    requires size > 0
  {
    var count := DivCeil(len, size);
    if count > 65535 then None else Some(count)
  }

  /** The bytes of chunk `i`: full chunks, then the remainder. */
  function Slice(block: Bytes, size: nat, i: nat): Bytes
    requires i * size <= |block|
  {
    block[i * size..Min((i + 1) * size, |block|)]
  }

  lemma NextSlice(block: Bytes, size: nat, i: nat)
    requires i * size <= |block|
    ensures block[..i * size] + Slice(block, size, i) == block[..Min((i + 1) * size, |block|)]
  {
    assert (i + 1) * size == i * size + size;
  }

  function HaveFrame(cid: Bytes, block: Bytes, index: nat, total: nat, size: nat): Frame
    requires total <= 1 || index * size <= |block|
  {
    if total <= 1 then Have(cid, block) else HaveChunk(cid, index, total, Slice(block, size, index))
  }

  function BuildHavePayload(cid: Bytes, block: Bytes, index: nat, total: nat, size: nat): Bytes
    requires total <= 1 || index * size <= |block|
  {
    Build(HaveFrame(cid, block, index, total, size))
  }

  lemma CountIsDivCeil(len: nat, size: nat)
    requires size > 0
    ensures HaveChunkCount(len, size) == if DivCeil(len, size) <= 65535 then Some(DivCeil(len, size)) else None
  {
  }

  lemma DivCeilBounds(len: nat, size: nat)
    requires size > 0
    ensures DivCeil(len, size) * size >= len
    ensures len > 0 ==> DivCeil(len, size) > 0 && (DivCeil(len, size) - 1) * size < len
    ensures len == 0 ==> DivCeil(len, size) == 0
  {
    var q, r := (len + size - 1) / size, (len + size - 1) % size;
    assert q * size + r == len + size - 1;
    assert (q - 1) * size == q * size - size;
    if len == 0 {
      MulCancel(q, 1, size);
    } else {
      MulCancel(0, q, size);
    }
  }

  /** Chunk indices of a layout start inside the block. */
  lemma SliceStarts(len: nat, size: nat, i: nat)
    requires size > 0 && i < DivCeil(len, size)
    ensures i * size < len
  {
    DivCeilBounds(len, size);
    MulMonotone(i, DivCeil(len, size) - 1, size);
  }

  /** Every block within the bound can be sent under any negotiated limit. */
  lemma LayoutFits(cid: Bytes, limit: Option<nat>, len: nat)
    requires len <= MAX_WANT_BLOCK_BYTES
    ensures HaveChunkCount(len, ChunkSizeForLimit(cid, limit)).Some?
    ensures HaveChunkCount(len, ChunkSizeForLimit(cid, limit)).value <= MAX_WANT_CHUNKS
  {
    var size := ChunkSizeForLimit(cid, limit);
    var count := DivCeil(len, size);
    DivCeilBounds(len, size);
    if len > 0 {
      assert MAX_WANT_CHUNKS * size >= MAX_WANT_CHUNKS * MIN_CHUNK_SIZE;
      MulCancel(count - 1, MAX_WANT_CHUNKS, size);
    }
  }

  /** A usable limit is not exceeded by any payload together with the envelope margin. */
  lemma LimitRespected(cid: Bytes, limit: nat, block: Bytes, index: nat)
    requires limit >= Overhead(cid) + MIN_CHUNK_SIZE
    requires
      var size := ChunkSizeForLimit(cid, Some(limit));
      index < Max(DivCeil(|block|, size), 1)
    ensures
      var size := ChunkSizeForLimit(cid, Some(limit));
      var total := DivCeil(|block|, size);
      && (total <= 1 || index * size <= |block|)
      && |BuildHavePayload(cid, block, index, total, size)| + ENVELOPE_MARGIN <= limit
  {
    var size := ChunkSizeForLimit(cid, Some(limit));
    var total := DivCeil(|block|, size);
    DivCeilBounds(|block|, size);
    if total <= 1 {
      MulMonotone(total, 1, size);
    } else {
      SliceStarts(|block|, size, index);
      assert (index + 1) * size == index * size + size;
    }
  }
}
