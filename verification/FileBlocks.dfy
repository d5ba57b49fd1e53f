/** A file as content-addressed blocks: cutting it up, putting downloads together, and back again. */
module FileBlocks {
  import opened Common
  import opened StorageModel
  import opened StorageFiling
  import opened StorageFetching
  import Cid

  const CHUNK_SIZE := 1024 * 1024

  datatype Manifest = Manifest(name: Bytes, size: nat, chunks: seq<Bytes>)

  /** What a completed download was put together from. */
  datatype Retrieval = Retrieval(manifest: Bytes, parts: seq<Bytes>)

  // ---- chunks ----

  function Chunks(data: Bytes): seq<Bytes>
    decreases |data|
  {
    if data == [] then []
    else
      var n := Min(|data|, CHUNK_SIZE);
      [data[..n]] + Chunks(data[n..])
  }

  function Concat(parts: seq<Bytes>): Bytes {
    if parts == [] then [] else Concat(parts[..|parts| - 1]) + parts[|parts| - 1]
  }

  lemma {:induction false} ConcatFirst(part: Bytes, parts: seq<Bytes>)
    ensures Concat([part] + parts) == part + Concat(parts)
  {
    if parts == [] {
      assert [part] + parts == [part];
      assert Concat([part]) == Concat([]) + part;
    } else {
      var n := |parts| - 1;
      ConcatFirst(part, parts[..n]);
      assert ([part] + parts)[..n + 1] == [part] + parts[..n];
    }
  }

  lemma {:induction false} ChunksJoin(data: Bytes)
    ensures Concat(Chunks(data)) == data
    decreases |data|
  {
    if data != [] {
      var n := Min(|data|, CHUNK_SIZE);
      ChunksJoin(data[n..]);
      ConcatFirst(data[..n], Chunks(data[n..]));
    }
  }

  /** The chunks of what is left when `i` have been taken. */
  lemma {:induction false} ChunkAt(data: Bytes, i: nat)
    requires i < |Chunks(data)|
    ensures i * 1048576 < |data|
    ensures Chunks(data)[i] == data[i * 1048576..Min(|data|, (i + 1) * 1048576)]
    decreases |data|
  {
    if i > 0 {
      var rest := data[Min(|data|, CHUNK_SIZE)..];
      ChunkAt(rest, i - 1);
      assert |data| == |rest| + CHUNK_SIZE;
      var low, high := (i - 1) * CHUNK_SIZE, Min(|rest|, i * CHUNK_SIZE);
      assert rest[low..high] == data[CHUNK_SIZE + low..CHUNK_SIZE + high];
      assert CHUNK_SIZE + low == i * CHUNK_SIZE && CHUNK_SIZE + i * CHUNK_SIZE == (i + 1) * CHUNK_SIZE;
    }
  }

  lemma {:induction false} ChunkCount(data: Bytes)
    ensures (|Chunks(data)| - 1) * 1048576 < |data| <= |Chunks(data)| * 1048576 || (data == [] && Chunks(data) == [])
    decreases |data|
  {
    if data != [] {
      var n := Min(|data|, CHUNK_SIZE);
      ChunkCount(data[n..]);
    }
  }

  function RawCids(hash: Bytes -> Bytes, chunks: seq<Bytes>): (cids: seq<Bytes>)
    ensures |cids| == |chunks|
    ensures forall i :: 0 <= i < |chunks| ==> cids[i] == Cid.ComputeCid(hash, chunks[i], Cid.MULTICODEC_RAW)
  {
    seq(|chunks|, i requires 0 <= i < |chunks| => Cid.ComputeCid(hash, chunks[i], Cid.MULTICODEC_RAW))
  }

  function FileManifest(hash: Bytes -> Bytes, name: Bytes, data: Bytes): Manifest {
    Manifest(name, |data|, RawCids(hash, Chunks(data)))
  }

  /** A manifest gives the name and the length of the file, and the CID of each chunk in order. */
  lemma ManifestSays(hash: Bytes -> Bytes, name: Bytes, data: Bytes)
    ensures
      var m := FileManifest(hash, name, data);
      && m.name == name && m.size == |data| == |Concat(Chunks(data))| && |m.chunks| == |Chunks(data)|
      && forall i :: 0 <= i < |m.chunks| ==> Cid.VerifyCid(hash, m.chunks[i], Chunks(data)[i], 0x55)
  {
    hide Cid.ComputeCid;
    ChunksJoin(data);
  }

  // ---- the blocks of a file ----

  /** Names and contents of the blocks a file is stored as: its chunks in order, then the manifest. */
  datatype Blocks = Blocks(names: seq<Bytes>, parts: seq<Bytes>)

  function BlocksOf(hash: Bytes -> Bytes, encode: Manifest -> Bytes, name: Bytes, data: Bytes): (b: Blocks)
    ensures |b.names| == |b.parts| == |Chunks(data)| + 1
  {
    var manifest := encode(FileManifest(hash, name, data));
    Blocks(RawCids(hash, Chunks(data)) + [Cid.ComputeCid(hash, manifest, Cid.MULTICODEC_DAG_CBOR)],
           Chunks(data) + [manifest])
  }

  function TotalBytes(parts: seq<Bytes>): nat {
    if parts == [] then 0 else TotalBytes(parts[..|parts| - 1]) + |parts[|parts| - 1]|
  }

  lemma {:induction false} TotalIsConcat(parts: seq<Bytes>)
    ensures TotalBytes(parts) == |Concat(parts)|
  {
    if parts != [] {
      TotalIsConcat(parts[..|parts| - 1]);
    }
  }

  ghost predicate Paired(b: Blocks) {
    |b.names| == |b.parts|
  }

  /** Blocks of one name have one length. */
  ghost predicate LengthsAgree(b: Blocks)
    requires Paired(b)
  {
    forall i, j :: 0 <= i < |b.names| && 0 <= j < |b.names| && b.names[i] == b.names[j] ==> |b.parts[i]| == |b.parts[j]|
  }

  ghost function Index(names: seq<Bytes>, c: Bytes): (i: nat)
    requires c in names
    ensures i < |names| && names[i] == c
  {
    var i :| 0 <= i < |names| && names[i] == c;
    i
  }

  ghost function SizesOf(b: Blocks): map<Bytes, nat>
    requires Paired(b)
  {
    map c | c in b.names :: |b.parts[Index(b.names, c)]|
  }

  ghost predicate FileStored(e: Engine, b: Blocks) {
    forall c <- b.names :: c in e.store
  }

  ghost predicate IsBlock(f: Filing, b: Blocks, i: nat)
    requires Paired(b) && i < |b.names|
  {
    f.cid == b.names[i] && f.data == b.parts[i]
  }

  ghost predicate OfFile(f: Filing, b: Blocks)
    requires Paired(b)
  {
    exists i: nat :: i < |b.names| && IsBlock(f, b, i)
  }

  ghost predicate WasFiled(fs: seq<Filing>, b: Blocks, i: nat)
    requires Paired(b) && i < |b.names|
  {
    exists j :: 0 <= j < |fs| && IsBlock(fs[j], b, i)
  }

  /** Each filing is of a block of the file, each block was filed, and together they are as long as the file. */
  ghost predicate Filed(e: Engine, u: Engine, fs: seq<Filing>, b: Blocks)
    requires Paired(b)
  {
    && FilingsOk(e, fs) && u == FileAll(e, fs)
    && (forall j :: 0 <= j < |fs| ==> OfFile(fs[j], b))
    && (forall i: nat :: i < |b.names| ==> WasFiled(fs, b, i))
    && BytesIn(fs) == TotalBytes(b.parts)
  }

  /** The file and its manifest fit into the free part of the capacity. */
  predicate Room(e: Engine, b: Blocks) {
    e.cache.usage + TotalBytes(b.parts) <= e.cache.capacity
  }

  /** The condition a caller can check: sizes are consistent, and the file fits beside the pinned blocks. */
  ghost predicate Fits(e: Engine, b: Blocks)
    requires Paired(b)
  {
    FitsHere(e, SizesOf(b))
  }

  ghost predicate Measured(e: Engine, b: Blocks)
    requires Paired(b)
  {
    LengthsAgree(b) && SizesAgree(e, SizesOf(b))
  }

  /** Which adds leave the whole file in the store. */
  ghost predicate LeavesFile(e: Engine, u: Engine, fs: seq<Filing>, b: Blocks)
    requires Paired(b)
  {
    && (Room(e, b) ==> FileStored(u, b))
    && (Measured(e, b) && FileStored(u, b) ==> Fits(e, b))
    && (Measured(e, b) && Fits(e, b) && ByAge(fs) ==> FileStored(u, b))
  }

  lemma FiledCids(e: Engine, u: Engine, fs: seq<Filing>, b: Blocks)
    requires Paired(b) && Filed(e, u, fs, b)
    ensures Cids(fs) == SizesOf(b).Keys
    ensures LengthsAgree(b) ==> AllFitting(fs, SizesOf(b))
    ensures FileStored(u, b) <==> Stored(u, SizesOf(b).Keys)
    ensures |b.names| > 0 ==> fs != []
  {
    hide FilingsOk, FileAll, BytesIn, TotalBytes;
    var sizes := SizesOf(b);
    forall c | c in Cids(fs)
      ensures c in sizes
    {
      var f :| f in fs && f.cid == c;
      var j :| 0 <= j < |fs| && fs[j] == f;
      assert OfFile(fs[j], b);
      var i: nat :| i < |b.names| && IsBlock(fs[j], b, i);
      assert b.names[i] in b.names;
    }
    forall c | c in sizes
      ensures c in Cids(fs)
    {
      var i := Index(b.names, c);
      assert WasFiled(fs, b, i);
      var j :| 0 <= j < |fs| && IsBlock(fs[j], b, i);
      assert fs[j] in fs;
    }
    if LengthsAgree(b) {
      forall j | 0 <= j < |fs|
        ensures Fitting(fs[j], sizes)
      {
        assert OfFile(fs[j], b);
        var i: nat :| i < |b.names| && IsBlock(fs[j], b, i);
        assert b.names[i] in b.names;
      }
    }
    if |b.names| > 0 {
      assert WasFiled(fs, b, 0);
    }
  }

  /**
   With room for all of it, an added file is in the store. In general it is there only if it fits
   beside the pinned blocks, and then it is, as long as victims are chosen by age.
   */
  lemma FiledLeaves(e: Engine, u: Engine, fs: seq<Filing>, b: Blocks)
    requires Paired(b) && |b.names| > 0 && Accounted(e) && Filed(e, u, fs, b)
    ensures LeavesFile(e, u, fs, b)
  {
    hide Accounted, LengthsAgree, SizesAgree, FileStored, FitsHere, FilingsOk, FileAll, BytesIn;
    FiledCids(e, u, fs, b);
    if Room(e, b) {
      RoomKeeps(e, fs);
    }
    if Measured(e, b) {
      StoredExactly(e, fs, SizesOf(b));
    }
  }

  /** Under the names of a file, an add leaves nothing in the store but blocks of it. */
  lemma FiledNames(e: Engine, u: Engine, fs: seq<Filing>, b: Blocks, c: Bytes)
    requires Paired(b) && Filed(e, u, fs, b) && c in b.names && c in u.store
    ensures exists i: nat :: i < |b.names| && b.names[i] == c && b.parts[i] == u.store[c]
  {
    hide FilingsOk, FileAll, BytesIn, TotalBytes;
    FiledCids(e, u, fs, b);
    FiledContents(e, fs, c);
    var j :| 0 <= j < |fs| && fs[j].cid == c && fs[j].data == u.store[c];
    assert OfFile(fs[j], b);
    var i: nat :| i < |b.names| && IsBlock(fs[j], b, i);
  }

  /** A file with an unpinned block longer than the capacity never fits. */
  lemma TooLong(e: Engine, b: Blocks, i: nat)
    requires Paired(b) && i < |b.names| && LengthsAgree(b)
    requires Readable(e) && |b.parts[i]| > e.cache.capacity && b.names[i] !in Loaded(e, true).cache.pinned
    ensures !Fits(e, b)
  {
    var sizes := SizesOf(b);
    assert b.names[i] in b.names;
    assert sizes[b.names[i]] == |b.parts[i]|;
    SumRemove(Claims(Loaded(e, true), sizes), Amount, b.names[i]);
  }

  /** One byte is too long for an engine without capacity: added and pinned, it is not stored in the end. */
  lemma OneByteTooLong(hash: Bytes -> Bytes, encode: Manifest -> Bytes, name: Bytes)
    requires forall x :: |hash(x)| == Cid.DIGEST_LEN
    ensures
      var e := New(0, map[], true, Absent);
      var b := BlocksOf(hash, encode, name, [0]);
      Measured(e, b) && !Fits(e, b)
      && forall u: Engine, fs: seq<Filing> | LeavesFile(e, u, fs, b) :: !FileStored(u, b)
  {
    hide Cid.CidText, Fits;
    var e := New(0, map[], true, Absent);
    var b := BlocksOf(hash, encode, name, [0]);
    ChunksOfOne();
    assert |b.names| == 2 && b.parts[0] == [0];
    if b.names[0] == b.names[1] {
      Cid.CidInjective(Cid.Envelope(Cid.MULTICODEC_RAW, hash(b.parts[0])),
                       Cid.Envelope(Cid.MULTICODEC_DAG_CBOR, hash(b.parts[1])));
    }
    TooLong(e, b, 0);
  }

  lemma ChunksOfOne()
    ensures Chunks([0]) == [[0]]
  {
    var one: Bytes := [0];
    assert one[..1] == one && one[1..] == [];
    assert Chunks(one[1..]) == [];
  }

  // ---- putting a download together ----

  /** What has been put together, how many parts that is, and the parts that came early. */
  datatype Download = Download(result: Bytes, next: nat, pending: map<nat, Bytes>)

  lemma ConcatNext(parts: seq<Bytes>, part: Bytes)
    ensures Concat(parts + [part]) == Concat(parts) + part
  {
    assert (parts + [part])[..|parts|] == parts;
  }

  /** Of the first `n` parts each is put together, in flight, or waiting; nothing is lost or taken twice. */
  ghost predicate Gathered(
    src: Source, chunks: seq<Bytes>, n: nat, flying: set<nat>, d: Download, parts: seq<Bytes>)
  {
    && d.next == |parts| <= n <= |chunks|
    && d.result == Concat(parts)
    && (forall i :: 0 <= i < d.next ==> Genuine(src, chunks[i], parts[i]))
    && (forall k: nat :: k < n ==> k < d.next || k in flying || k in d.pending)
    && (forall k <- flying :: d.next <= k < n && k !in d.pending)
    && (forall k <- d.pending :: d.next <= k < n && Genuine(src, chunks[k], d.pending[k]))
  }

  lemma NothingYet(src: Source, chunks: seq<Bytes>)
    ensures Gathered(src, chunks, 0, {}, Download([], 0, map[]), [])
  {
  }

  lemma AskedFor(src: Source, chunks: seq<Bytes>, i: nat, flying: set<nat>, d: Download, parts: seq<Bytes>)
    requires i < |chunks| && Gathered(src, chunks, i, flying, d, parts)
    ensures Gathered(src, chunks, i + 1, flying + {i}, d, parts)
  {
  }

  lemma GatherNext(src: Source, chunks: seq<Bytes>, n: nat, flying: set<nat>, d: Download, parts: seq<Bytes>)
    requires Gathered(src, chunks, n, flying, d, parts) && d.next in d.pending
    ensures
      var part := d.pending[d.next];
      Gathered(src, chunks, n, flying, Download(d.result + part, d.next + 1, d.pending - {d.next}), parts + [part])
  {
    hide Genuine, Concat;
    ConcatNext(parts, d.pending[d.next]);
  }

  lemma NothingMissing(src: Source, chunks: seq<Bytes>, d: Download, parts: seq<Bytes>)
    requires Gathered(src, chunks, |chunks|, {}, d, parts) && d.next !in d.pending
    ensures |parts| == |chunks| && d.result == Concat(parts)
    ensures forall i :: 0 <= i < |chunks| ==> Genuine(src, chunks[i], parts[i])
  {
    hide Genuine, Concat;
  }

  /** A manifest for the root, and one part for each chunk it lists, joined in its order. */
  ghost predicate Retrieved(src: Source, decode: Bytes -> Option<Manifest>, root: Bytes, got: Retrieval, result: Bytes) {
    && Genuine(src, root, got.manifest) && decode(got.manifest).Some?
    && var cids := decode(got.manifest).value.chunks;
       && |got.parts| == |cids|
       && (forall i :: 0 <= i < |cids| ==> Genuine(src, cids[i], got.parts[i]))
       && result == Concat(got.parts)
  }

  /** The manifest that is stored under the root, or else the one a peer answers with. */
  function ManifestAt(
    peers: Peers, decode: Bytes -> Option<Manifest>, store: map<Bytes, Bytes>, n: nat, root: Bytes): Option<Manifest>
  {
    if root in store then decode(store[root])
    else if Answered(peers.hash, Wanted(root, Cid.MULTICODEC_DAG_CBOR), peers.answer(n, root))
    then decode(peers.answer(n, root).value)
    else None
  }

  /** The chunks, and the manifest too if it has to be fetched. */
  function ToGet(store: map<Bytes, Bytes>, root: Bytes, chunks: seq<Bytes>): set<Wanted> {
    (if root in store then {} else {Wanted(root, Cid.MULTICODEC_DAG_CBOR)})
    + set c | c in chunks :: Wanted(c, Cid.MULTICODEC_RAW)
  }

  /** Once the manifest has been read, if it is stored. */
  function Opened(e: Engine, root: Bytes): Engine {
    if root in e.store then Local(e, root) else e
  }

  /** There is a manifest, and every block still to get is stored or with peers and stays so until its turn. */
  ghost predicate Obtainable(peers: Peers, decode: Bytes -> Option<Manifest>, e: Engine, root: Bytes, plan: Plan) {
    var m := ManifestAt(peers, decode, e.store, 0, root);
    m.Some? && Provided(peers, Opened(e, root), ToGet(e.store, root, m.value.chunks), plan)
  }

  /** The manifest and every chunk it lists are stored. */
  predicate Complete(decode: Bytes -> Option<Manifest>, store: map<Bytes, Bytes>, root: Bytes) {
    && root in store && decode(store[root]).Some?
    && forall c <- decode(store[root]).value.chunks :: c in store
  }

  lemma CompleteObtainable(peers: Peers, decode: Bytes -> Option<Manifest>, e: Engine, root: Bytes)
    requires Complete(decode, e.store, root)
    ensures Obtainable(peers, decode, e, root, AllLocal)
  {
  }

  // ---- the round trip ----

  /** Hashes of 32 bytes, no two of these blocks sharing one. */
  ghost predicate Distinguished(hash: Bytes -> Bytes, blocks: iset<Bytes>) {
    && (forall a <- blocks, b <- blocks :: hash(a) == hash(b) ==> a == b)
    && forall b <- blocks :: |hash(b)| == Cid.DIGEST_LEN
  }

  /** A block that matches a CID is the block the CID was computed from. */
  lemma MatchedBlock(hash: Bytes -> Bytes, blocks: iset<Bytes>, want: Bytes, codec: nat, got: Bytes)
    requires Distinguished(hash, blocks) && want in blocks && got in blocks
    requires codec == Cid.MULTICODEC_RAW || codec == Cid.MULTICODEC_DAG_CBOR
    requires Matches(hash, Cid.ComputeCid(hash, want, codec), got)
    ensures got == want
  {
    hide Cid.CidText;
    if Cid.VerifyCid(hash, Cid.ComputeCid(hash, want, codec), got, Cid.MULTICODEC_RAW) {
      Cid.CidInjective(Cid.Envelope(codec, hash(want)), Cid.Envelope(Cid.MULTICODEC_RAW, hash(got)));
    } else {
      Cid.CidInjective(Cid.Envelope(codec, hash(want)), Cid.Envelope(Cid.MULTICODEC_DAG_CBOR, hash(got)));
    }
  }

  /** The blocks of a file, and everything that may be taken for one of them. */
  ghost function Candidates(src: Source, b: Blocks): iset<Bytes> {
    iset p: Bytes | p in b.parts || exists c :: c in b.names && Genuine(src, c, p)
  }

  /** What is stored under the names of the file hashes to them. */
  ghost predicate Unspoilt(src: Source, b: Blocks) {
    forall c <- b.names :: c in src.store ==> Matches(src.peers.hash, c, src.store[c])
  }

  lemma FileNames(hash: Bytes -> Bytes, encode: Manifest -> Bytes, name: Bytes, data: Bytes)
    ensures
      var b := BlocksOf(hash, encode, name, data);
      var manifest := encode(FileManifest(hash, name, data));
      && Cid.ComputeCid(hash, manifest, Cid.MULTICODEC_DAG_CBOR) in b.names && manifest in b.parts
      && (forall c <- RawCids(hash, Chunks(data)) :: c in b.names) && (forall c <- Chunks(data) :: c in b.parts)
  {
    hide Cid.ComputeCid, Chunks;
    var b := BlocksOf(hash, encode, name, data);
    var n := |Chunks(data)|;
    assert b.names[n] == Cid.ComputeCid(hash, b.parts[n], Cid.MULTICODEC_DAG_CBOR);
    assert b.names[..n] == RawCids(hash, Chunks(data)) && b.parts[..n] == Chunks(data);
  }

  /** What is genuine under a name of the file is the block of the file. */
  lemma GenuineBlock(src: Source, b: Blocks, want: Bytes, codec: nat, got: Bytes)
    requires Distinguished(src.peers.hash, Candidates(src, b)) && Unspoilt(src, b)
    requires codec == Cid.MULTICODEC_RAW || codec == Cid.MULTICODEC_DAG_CBOR
    requires
      var c := Cid.ComputeCid(src.peers.hash, want, codec);
      want in b.parts && c in b.names && Genuine(src, c, got)
    ensures got == want
  {
    hide Cid.ComputeCid, Matches;
    MatchedBlock(src.peers.hash, Candidates(src, b), want, codec, got);
  }

  /**
   What comes back for the root of a file is that file, whatever order the parts arrived in and
   whether they came from the store or from peers, as long as no two blocks involved share a hash.
   */
  lemma AddGetRoundTrip(
    src: Source, encode: Manifest -> Bytes, decode: Bytes -> Option<Manifest>, name: Bytes, data: Bytes, got: Retrieval,
    result: Bytes)
    requires decode(encode(FileManifest(src.peers.hash, name, data))) == Some(FileManifest(src.peers.hash, name, data))
    requires
      var b := BlocksOf(src.peers.hash, encode, name, data);
      Unspoilt(src, b) && Distinguished(src.peers.hash, Candidates(src, b))
    requires
      var root := Cid.ComputeCid(src.peers.hash, encode(FileManifest(src.peers.hash, name, data)), Cid.MULTICODEC_DAG_CBOR);
      Retrieved(src, decode, root, got, result)
    ensures result == data
  {
    hide Genuine, Cid.ComputeCid, Concat, Chunks, Distinguished, Unspoilt, BlocksOf;
    var hash := src.peers.hash;
    var b := BlocksOf(hash, encode, name, data);
    var manifest := FileManifest(hash, name, data);
    FileNames(hash, encode, name, data);
    GenuineBlock(src, b, encode(manifest), Cid.MULTICODEC_DAG_CBOR, got.manifest);
    forall i | 0 <= i < |got.parts|
      ensures got.parts[i] == Chunks(data)[i]
    {
      assert manifest.chunks[i] == Cid.ComputeCid(hash, Chunks(data)[i], Cid.MULTICODEC_RAW);
      assert manifest.chunks[i] in b.names && Chunks(data)[i] in b.parts;
      GenuineBlock(src, b, Chunks(data)[i], Cid.MULTICODEC_RAW, got.parts[i]);
    }
    assert got.parts == Chunks(data);
    ChunksJoin(data);
  }

  // ---- what an add leaves for a get ----

  /** The blocks of a file, and what peers may answer for one of them. */
  ghost function Involved(peers: Peers, b: Blocks): iset<Bytes> {
    iset p: Bytes | p in b.parts || exists c :: c in b.names && AnsweredWith(peers, c, p)
  }

  lemma FewerDistinguished(hash: Bytes -> Bytes, fewer: iset<Bytes>, blocks: iset<Bytes>)
    requires fewer <= blocks && Distinguished(hash, blocks)
    ensures Distinguished(hash, fewer)
  {
  }

  lemma NamesMatch(hash: Bytes -> Bytes, encode: Manifest -> Bytes, name: Bytes, data: Bytes, i: nat)
    requires i < |BlocksOf(hash, encode, name, data).names|
    ensures
      var b := BlocksOf(hash, encode, name, data);
      Matches(hash, b.names[i], b.parts[i])
  {
    hide Cid.ComputeCid, Chunks;
  }

  /** After an add, what is stored under the names of the file is the file. */
  lemma FiledUnspoilt(
    src: Source, encode: Manifest -> Bytes, name: Bytes, data: Bytes, e: Engine, u: Engine, fs: seq<Filing>)
    requires Filed(e, u, fs, BlocksOf(src.peers.hash, encode, name, data)) && src.store == u.store
    ensures
      var b := BlocksOf(src.peers.hash, encode, name, data);
      Unspoilt(src, b) && Candidates(src, b) <= Involved(src.peers, b)
  {
    hide Filed, Matches, BlocksOf, AnsweredWith;
    var b := BlocksOf(src.peers.hash, encode, name, data);
    forall c | c in b.names && c in u.store
      ensures Matches(src.peers.hash, c, u.store[c]) && u.store[c] in b.parts
    {
      FiledNames(e, u, fs, b, c);
      var i: nat :| i < |b.names| && b.names[i] == c && b.parts[i] == u.store[c];
      NamesMatch(src.peers.hash, encode, name, data, i);
    }
  }

  /** The manifest of an added file is found under its root, if the root is stored or answered. */
  lemma AddedManifest(src: Source, encode: Manifest -> Bytes, decode: Bytes -> Option<Manifest>, name: Bytes, data: Bytes)
    requires
      var m := FileManifest(src.peers.hash, name, data);
      var b := BlocksOf(src.peers.hash, encode, name, data);
      var root := Cid.ComputeCid(src.peers.hash, encode(m), Cid.MULTICODEC_DAG_CBOR);
      && decode(encode(m)) == Some(m) && Unspoilt(src, b) && Distinguished(src.peers.hash, Candidates(src, b))
      && (root in src.store || Answered(src.peers.hash, Wanted(root, Cid.MULTICODEC_DAG_CBOR), src.peers.answer(0, root)))
    ensures
      var m := FileManifest(src.peers.hash, name, data);
      var root := Cid.ComputeCid(src.peers.hash, encode(m), Cid.MULTICODEC_DAG_CBOR);
      ManifestAt(src.peers, decode, src.store, 0, root) == Some(m)
  {
    hide Cid.ComputeCid, Chunks, BlocksOf, Distinguished, Unspoilt, Cid.VerifyCid;
    var hash := src.peers.hash;
    var m := FileManifest(hash, name, data);
    var root := Cid.ComputeCid(hash, encode(m), Cid.MULTICODEC_DAG_CBOR);
    FileNames(hash, encode, name, data);
    var got := if root in src.store then src.store[root] else src.peers.answer(0, root).value;
    assert root in src.store || src.peers.answer(0, root) == Some(got);
    GenuineBlock(src, BlocksOf(hash, encode, name, data), encode(m), Cid.MULTICODEC_DAG_CBOR, got);
  }

  /** An added file that is stored can be got back from the store alone. */
  lemma StoredIsComplete(
    src: Source, encode: Manifest -> Bytes, decode: Bytes -> Option<Manifest>, name: Bytes, data: Bytes, u: Engine)
    requires src.store == u.store
    requires
      var m := FileManifest(src.peers.hash, name, data);
      var b := BlocksOf(src.peers.hash, encode, name, data);
      && decode(encode(m)) == Some(m) && Unspoilt(src, b) && Distinguished(src.peers.hash, Candidates(src, b))
      && FileStored(u, b)
    ensures
      var root := Cid.ComputeCid(src.peers.hash, encode(FileManifest(src.peers.hash, name, data)), Cid.MULTICODEC_DAG_CBOR);
      Complete(decode, u.store, root)
  {
    hide Cid.ComputeCid, Chunks, BlocksOf, Distinguished, Unspoilt;
    FileNames(src.peers.hash, encode, name, data);
    AddedManifest(src, encode, decode, name, data);
  }

  /** Each block of the file is pinned, or with peers. */
  ghost predicate Safe(peers: Peers, e: Engine, b: Blocks) {
    forall i :: 0 <= i < |b.names| ==> b.names[i] in Loaded(e, true).cache.pinned || Held(peers, WantedOf(b, i))
  }

  function WantedOf(b: Blocks, i: nat): Wanted
    requires i < |b.names|
  {
    Wanted(b.names[i], if i + 1 < |b.names| then Cid.MULTICODEC_RAW else Cid.MULTICODEC_DAG_CBOR)
  }

  lemma SafeAfter(peers: Peers, e: Engine, u: Engine, fs: seq<Filing>, b: Blocks)
    requires Paired(b) && Filed(e, u, fs, b) && Safe(peers, e, b) && Readable(e)
    ensures Readable(u)
    ensures forall i :: 0 <= i < |b.names| ==> Held(peers, WantedOf(b, i)) || Secure(u, b.names[i])
  {
    hide Held, Loaded, Readable, FilingsOk, FileAll, Filed, WantedOf;
    FiledIs(e, u, fs, b);
    FilingsLoaded(e, fs);
    forall i | 0 <= i < |b.names| && !Held(peers, WantedOf(b, i))
      ensures Secure(u, b.names[i])
    {
      FiledCids(e, u, fs, b);
      assert b.names[i] in b.names;
      PinnedFiled(e, fs, b.names[i]);
    }
  }

  lemma FiledIs(e: Engine, u: Engine, fs: seq<Filing>, b: Blocks)
    requires Paired(b) && Filed(e, u, fs, b)
    ensures FilingsOk(e, fs) && u == FileAll(e, fs)
  {
  }

  lemma SafeBlock(peers: Peers, u: Engine, b: Blocks, i: nat, root: Bytes)
    requires i < |b.names| && (Held(peers, WantedOf(b, i)) || Secure(u, b.names[i]))
    ensures Sure(peers, Opened(u, root), WantedOf(b, i), Anyway)
    ensures b.names[i] in u.store || Answered(peers.hash, WantedOf(b, i), peers.answer(0, b.names[i]))
  {
    hide Loaded, Answered;
    if Secure(u, b.names[i]) && root in u.store {
      LocalStays(u, root, b.names[i]);
    }
  }

  /** Whatever else an add evicts, what is pinned and what peers have can be got. */
  lemma SafeIsObtainable(
    src: Source, encode: Manifest -> Bytes, decode: Bytes -> Option<Manifest>, name: Bytes, data: Bytes,
    e: Engine, u: Engine, fs: seq<Filing>)
    requires src.store == u.store && Readable(e)
    requires
      var m := FileManifest(src.peers.hash, name, data);
      var b := BlocksOf(src.peers.hash, encode, name, data);
      && decode(encode(m)) == Some(m) && Unspoilt(src, b) && Distinguished(src.peers.hash, Candidates(src, b))
      && Filed(e, u, fs, b) && Safe(src.peers, e, b)
    ensures
      var root := Cid.ComputeCid(src.peers.hash, encode(FileManifest(src.peers.hash, name, data)), Cid.MULTICODEC_DAG_CBOR);
      Obtainable(src.peers, decode, u, root, Anyway)
  {
    hide Cid.ComputeCid, Chunks, Distinguished, Unspoilt, Filed, Held, Secure, Readable;
    var hash := src.peers.hash;
    var m := FileManifest(hash, name, data);
    var b := BlocksOf(hash, encode, name, data);
    var root := Cid.ComputeCid(hash, encode(m), Cid.MULTICODEC_DAG_CBOR);
    var n := |Chunks(data)|;
    SafeAfter(src.peers, e, u, fs, b);
    assert b.names[n] == root && WantedOf(b, n) == Wanted(root, Cid.MULTICODEC_DAG_CBOR);
    SafeBlock(src.peers, u, b, n, root);
    AddedManifest(src, encode, decode, name, data);
    LocalLoaded(u, root);
    forall c | c in m.chunks
      ensures Sure(src.peers, Opened(u, root), Wanted(c, Cid.MULTICODEC_RAW), Anyway)
    {
      var i: nat :| i < n && m.chunks[i] == c;
      assert b.names[i] == c && WantedOf(b, i) == Wanted(c, Cid.MULTICODEC_RAW);
      SafeBlock(src.peers, u, b, i, root);
    }
    assert PlanOk(src.peers, Opened(u, root), Anyway);
  }
}
