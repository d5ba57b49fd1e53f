/** From the sender's chunk layout to the bytes a registration is sent. */
module Transfer {
  import opened Common
  import opened WantModel
  import opened RegistryInvariant
  import Cid
  import Frames

  /** The registry operation a frame from `sender` in `room` leads to, if it carries data. */
  function Received(room: Bytes, sender: Bytes, raw: Bytes): Option<Event> {
    match Frames.Classify(raw)
    case Some(Have(cid, data)) => Some(Have(Key(cid, sender, room), data))
    case Some(HaveChunk(cid, index, total, data)) => Some(HaveChunk(Key(cid, sender, room), index, total, data))
    case _ => None
  }

  predicate DataOn(e: Event, k: Key) {
    (e.Have? || e.HaveChunk?) && e.key == k
  }

  /** `e` is frame `index` of `block` as the responder prints it with chunks of `size` bytes. */
  ghost predicate FrameOf(e: Event, k: Key, block: Bytes, size: nat, index: nat) {
    size > 0
    && var total := Frames.DivCeil(|block|, size);
    && Cid.IsValidCid(k.cid)
    && Frames.HaveChunkCount(|block|, size).Some?
    && index < Max(total, 1)
    && (total <= 1 || index * size <= |block|)
    && Received(k.room, k.sender, Frames.BuildHavePayload(k.cid, block, index, total, size)) == Some(e)
  }

  /**
   `e` is some frame of the block, whose chunk size is the one `sizes` gives for its chunk count.
   Frames of layouts with different counts may be mixed.
   */
  ghost predicate FromLayout(e: Event, k: Key, block: Bytes, sizes: map<nat, nat>) {
    exists size, index :: FrameOf(e, k, block, size, index)
      && var total := Frames.DivCeil(|block|, size);
         (total <= 1 || (total in sizes && sizes[total] == size))
  }

  predicate Clears(e: Event, k: Key) {
    (e.ResetPath? && ResetHits(e.from, e.room, k)) || (e.Cancel? && e.cid == k.cid)
  }

  /**
   Every data frame of a run on path `k` comes from the layouts in force, which may change wherever the
   path holds no assembly: before its first chunk, after completion, a reset, a cancel, or a prune of
   abandoned waiters. Nothing is said about frames on other paths or about any other operation.
   */
  ghost predicate Conforms(s: State, events: seq<Event>, k: Key, block: Bytes, sizes: map<nat, nat>)
    decreases |events|
  {
    events == []
    || exists now: map<nat, nat> ::
         && (now == sizes || k !in s.assemblies)
         && (DataOn(events[0], k) ==> FromLayout(events[0], k, block, now))
         && Conforms(Step(s, events[0]), events[1..], k, block, now)
  }

  /** The stored chunks are slices of the block under the size for that chunk count. */
  ghost predicate Matches(a: Assembly, block: Bytes, size: nat) {
    && size > 0
    && |a.chunks| == a.total == Frames.DivCeil(|block|, size)
    && a.total > 1
    && forall i :: 0 <= i < a.total && a.chunks[i].Some? ==>
         i * size <= |block| && a.chunks[i].value == Frames.Slice(block, size, i)
  }

  ghost predicate MatchesSome(a: Assembly, block: Bytes, sizes: map<nat, nat>) {
    a.total in sizes && Matches(a, block, sizes[a.total])
  }

  ghost predicate DeliveredBlock(s: State, k: Key, block: Bytes) {
    forall d | d in s.delivered && d.key == k :: d.data == block
  }

  ghost predicate Faithful(s: State, k: Key, block: Bytes, sizes: map<nat, nat>) {
    && (k in s.assemblies ==> MatchesSome(s.assemblies[k], block, sizes))
    && DeliveredBlock(s, k, block)
  }

  // ---- operations that do not add to a path's assembly ----

  ghost predicate Calm(s: State, t: State, k: Key) {
    && (k in t.assemblies ==> k in s.assemblies && t.assemblies[k] == s.assemblies[k])
    && (forall d | d in t.delivered && d.key == k :: d in s.delivered)
  }

  lemma CalmFaithful(s: State, t: State, k: Key, block: Bytes, sizes: map<nat, nat>)
    requires Calm(s, t, k) && Faithful(s, k, block, sizes)
    ensures Faithful(t, k, block, sizes)
  {
  }

  lemma CalmTrans(s: State, t: State, u: State, k: Key)
    requires Calm(s, t, k) && Calm(t, u, k)
    ensures Calm(s, u, k)
  {
  }

  lemma PrepareCalm(s: State, key: Key, bytes: nat, k: Key)
    ensures Calm(s, Prune(s), k) && Calm(s, Observe(s, key, true), k) && Calm(s, Observe(s, key, false), k)
    ensures Calm(s, EnforceByteLimits(s, key, bytes), k)
    ensures Calm(s, Rejected(s), k) && Calm(s, Duplicated(s, bytes), k)
    ensures Calm(s, Completed(Admitted(s, bytes)), k)
  {
    hide Keep, Authorised, EditPending, Notices;
  }

  /** A delivery batch names its own path. */
  lemma FulfillCalm(s: State, key: Key, data: Bytes, k: Key)
    requires key != k
    ensures Calm(s, Fulfill(s, key, data), k)
  {
    hide Keep, Authorised;
    if key.cid in s.pending {
      var sent := Deliveries(Keep(s.pending[key.cid], Recipient(key.sender, key.room)), key, data);
      assert forall d | d in sent :: d.key == key;
    }
  }

  lemma StoreCalm(s: State, key: Key, index: nat, total: nat, data: Bytes, k: Key)
    requires key != k
    ensures Calm(s, StoreStep(s, key, index, total, data), k)
  {
    var a := StoreChunk(AssemblyAt(s, key, total), index, data);
    var s1 := Observe(Admitted(s.(assemblies := s.assemblies[key := a]), |data|), key, true);
    FulfillCalm(Completed(s1.(assemblies := s1.assemblies - {key})), key, Concat(a.chunks), k);
    hide Fulfill, EditPending, StoreChunk, AssemblyAt, Concat;
  }

  lemma HaveCalm(s: State, key: Key, data: Bytes, k: Key)
    requires key != k
    ensures Calm(s, HaveStep(s, key, data), k)
  {
    hide Calm, Prune, Observe, EnforceByteLimits, Fulfill, Accepts;
    var s1 := Prune(s);
    var s2 := Observe(s1, key, false);
    var s3 := EnforceByteLimits(s2, key, |data|);
    var s4 := Completed(Admitted(s3, |data|));
    var s5 := Observe(s4, key, true);
    PrepareCalm(s, key, |data|, k);
    PrepareCalm(s1, key, |data|, k);
    PrepareCalm(s2, key, |data|, k);
    PrepareCalm(s3, key, |data|, k);
    PrepareCalm(s4, key, |data|, k);
    FulfillCalm(s5, key, data, k);
    CalmTrans(s, s1, s2, k);
    CalmTrans(s, s2, s3, k);
    CalmTrans(s, s3, s4, k);
    CalmTrans(s, s4, s5, k);
    CalmTrans(s, s5, Fulfill(s5, key, data), k);
    CalmTrans(s, s3, Rejected(s3), k);
  }

  lemma ChunkCalm(s: State, key: Key, index: nat, total: nat, data: Bytes, k: Key)
    requires key != k
    ensures Calm(s, ChunkStep(s, key, index, total, data), k)
  {
    hide Calm, Prune, Observe, EnforceByteLimits, StoreStep, Accepts, AssemblyAt, HasChunk, HasRoom, SoundHeader;
    var s1 := Prune(s);
    var s2 := Observe(s1, key, false);
    var bytes := AssemblyAt(s2, key, total).bytes + |data|;
    var s3 := EnforceByteLimits(s2, key, bytes);
    PrepareCalm(s, key, 0, k);
    PrepareCalm(s1, key, 0, k);
    PrepareCalm(s2, key, |data|, k);
    PrepareCalm(s2, key, bytes, k);
    PrepareCalm(s3, key, 0, k);
    StoreCalm(s3, key, index, total, data, k);
    CalmTrans(s, s1, s2, k);
    CalmTrans(s, s2, Rejected(s2), k);
    CalmTrans(s, s2, Duplicated(s2, |data|), k);
    CalmTrans(s, s2, s3, k);
    CalmTrans(s, s3, Rejected(s3), k);
    CalmTrans(s, s3, StoreStep(s3, key, index, total, data), k);
  }

  lemma ControlCalm(s: State, e: Event, k: Key)
    requires !e.Have? && !e.HaveChunk?
    ensures Calm(s, Step(s, e), k)
    ensures Clears(e, k) ==> k !in Step(s, e).assemblies
  {
    hide Keep, Authorised, EditPending, Admissible, Waiting;
  }

  lemma OtherStepCalm(s: State, e: Event, k: Key)
    requires !DataOn(e, k)
    ensures Calm(s, Step(s, e), k)
    ensures Clears(e, k) ==> k !in Step(s, e).assemblies
  {
    hide Calm, HaveStep, ChunkStep, ResetStep, CancelStep, RegisterStep, Prune, EditPending;
    match e
    case Have(key, data) => HaveCalm(s, key, data, k);
    case HaveChunk(key, index, total, data) => ChunkCalm(s, key, index, total, data, k);
    case _ => ControlCalm(s, e, k);
  }

  // ---- slices put back together ----

  lemma {:induction false} ConcatSlices(a: Assembly, block: Bytes, size: nat, n: nat)
    requires Matches(a, block, size) && n <= a.total && forall i :: 0 <= i < n ==> a.chunks[i].Some?
    ensures Concat(a.chunks[..n]) == block[..Min(n * size, |block|)]
  {
    if n > 0 {
      ConcatSlices(a, block, size, n - 1);
      Frames.SliceStarts(|block|, size, n - 1);
      Frames.NextSlice(block, size, n - 1);
      LastChunk(a.chunks, n, Frames.Slice(block, size, n - 1));
    }
  }

  lemma LastChunk(chunks: seq<Option<Bytes>>, n: nat, data: Bytes)
    requires 0 < n <= |chunks| && chunks[n - 1] == Some(data)
    ensures Concat(chunks[..n]) == Concat(chunks[..n - 1]) + data
  {
    assert chunks[..n][..n - 1] == chunks[..n - 1];
  }

  /** A full assembly of slices is the block. */
  lemma Reassembled(a: Assembly, block: Bytes, size: nat)
    requires Matches(a, block, size) && Present(a.chunks) == a.total
    ensures Concat(a.chunks) == block
  {
    PresentBound(a.chunks);
    ConcatSlices(a, block, size, a.total);
    Frames.DivCeilBounds(|block|, size);
    assert a.chunks[..a.total] == a.chunks;
  }

  /** A data frame on the path is the whole block or one slice of it. */
  lemma FrameShape(e: Event, k: Key, block: Bytes, size: nat, index: nat)
    requires FrameOf(e, k, block, size, index)
    ensures
      var total := Frames.DivCeil(|block|, size);
      e == if total <= 1 then Have(k, block) else HaveChunk(k, index, total, Frames.Slice(block, size, index))
  {
    var total := Frames.DivCeil(|block|, size);
    var f := Frames.HaveFrame(k.cid, block, index, total, size);
    if total <= MAX_WANT_CHUNKS {
      Frames.ClassifyBuilt(f);
    } else {
      OversizedUnclassified(f);
    }
  }

  /** More chunks than the protocol allows are not classified at all. */
  lemma OversizedUnclassified(f: Frames.Frame)
    requires f.HaveChunk? && MAX_WANT_CHUNKS < f.total <= 65535
    ensures Frames.Classify(Frames.Build(f)) == None
  {
    var raw := Frames.Build(f);
    assert raw[4] == f.total / 256 && raw[5] == f.total % 256;
    hide Cid.IsValidCid;
  }

  // ---- the path's own frames ----

  lemma FulfillFaithful(s: State, k: Key, block: Bytes, sizes: map<nat, nat>)
    requires Faithful(s, k, block, sizes)
    ensures Faithful(Fulfill(s, k, block), k, block, sizes)
  {
    hide Keep, Authorised, MatchesSome;
    if k.cid in s.pending {
      var sent := Deliveries(Keep(s.pending[k.cid], Recipient(k.sender, k.room)), k, block);
      assert forall d | d in sent :: d.data == block;
    }
  }

  lemma StoredSlice(a: Assembly, index: nat, block: Bytes, size: nat)
    requires size > 0 && |a.chunks| == a.total == Frames.DivCeil(|block|, size) && a.total > 1 && index < a.total
    requires (forall i :: 0 <= i < a.total ==> a.chunks[i].None?) || Matches(a, block, size)
    requires index * size <= |block|
    ensures Matches(StoreChunk(a, index, Frames.Slice(block, size, index)), block, size)
  {
  }

  lemma StoreFaithful(s: State, k: Key, index: nat, block: Bytes, size: nat, sizes: map<nat, nat>)
    requires Inv(s) && Faithful(s, k, block, sizes)
    requires size > 0 && index * size <= |block|
    requires
      var total := Frames.DivCeil(|block|, size);
      total > 1 && total in sizes && sizes[total] == size
      && Storable(s, k, index, total, Frames.Slice(block, size, index))
    ensures Faithful(StoreStep(s, k, index, Frames.DivCeil(|block|, size), Frames.Slice(block, size, index)), k, block, sizes)
  {
    var total, data := Frames.DivCeil(|block|, size), Frames.Slice(block, size, index);
    var a := StoreChunk(AssemblyAt(s, k, total), index, data);
    StoredAssembly(s, k, index, total, data);
    StoredSlice(AssemblyAt(s, k, total), index, block, size);
    var s1 := Admitted(s.(assemblies := s.assemblies[k := a]), |data|);
    PrepareCalm(s1, k, 0, k);
    CalmFaithful(s1, Observe(s1, k, true), k, block, sizes);
    var s2 := Observe(s1, k, true);
    if a.received == a.total {
      Reassembled(a, block, size);
      FulfillFaithful(Completed(s2.(assemblies := s2.assemblies - {k})), k, block, sizes);
    }
  }

  lemma AdmitFaithful(s: State, k: Key, index: nat, block: Bytes, size: nat, sizes: map<nat, nat>)
    requires Inv(s) && Faithful(s, k, block, sizes)
    requires size > 0 && index * size <= |block|
    requires
      var total := Frames.DivCeil(|block|, size);
      total > 1 && total in sizes && sizes[total] == size && SoundHeader(index, total)
      && AssemblyAt(s, k, total).total == total && !HasChunk(AssemblyAt(s, k, total), index)
    ensures Faithful(AdmitStep(s, k, index, Frames.DivCeil(|block|, size), Frames.Slice(block, size, index)), k, block, sizes)
  {
    hide Inv, Faithful, EnforceByteLimits, StoreStep, Accepts, HasChunk, LimitsAllow, Frames.DivCeil, Frames.Slice;
    var total, data := Frames.DivCeil(|block|, size), Frames.Slice(block, size, index);
    var bytes := AssemblyAt(s, k, total).bytes + |data|;
    var s1 := EnforceByteLimits(s, k, bytes);
    EnforceInv(s, k, bytes);
    EnforceAllows(s, k, bytes);
    PrepareCalm(s, k, bytes, k);
    CalmFaithful(s, s1, k, block, sizes);
    PrepareCalm(s1, k, 0, k);
    CalmFaithful(s1, Rejected(s1), k, block, sizes);
    if Accepts(s1, k) && bytes <= MAX_WANT_BLOCK_BYTES && HasRoom(s1, k, |data|) {
      EnforceKeepsAssembly(s, k, bytes);
      assert AssemblyAt(s1, k, total) == AssemblyAt(s, k, total);
      StoreFaithful(s1, k, index, block, size, sizes);
    }
  }

  lemma ChunkFaithful(s: State, k: Key, index: nat, block: Bytes, size: nat, sizes: map<nat, nat>)
    requires Inv(s) && Faithful(s, k, block, sizes)
    requires size > 0 && index * size <= |block|
    requires
      var total := Frames.DivCeil(|block|, size);
      total > 1 && total in sizes && sizes[total] == size
    ensures Faithful(ChunkStep(s, k, index, Frames.DivCeil(|block|, size), Frames.Slice(block, size, index)), k, block, sizes)
  {
    hide Inv, Faithful, Prune, Observe, AdmitStep, Accepts, HasChunk, AssemblyAt, SoundHeader, Frames.DivCeil, Frames.Slice;
    var total, data := Frames.DivCeil(|block|, size), Frames.Slice(block, size, index);
    var s1 := Prune(s);
    var s2 := Observe(s1, k, false);
    PruneKeeps(s);
    ObserveInv(s1, k, false);
    PrepareCalm(s, k, 0, k);
    CalmFaithful(s, s1, k, block, sizes);
    PrepareCalm(s1, k, 0, k);
    CalmFaithful(s1, s2, k, block, sizes);
    PrepareCalm(s2, k, |data|, k);
    CalmFaithful(s2, Rejected(s2), k, block, sizes);
    CalmFaithful(s2, Duplicated(s2, |data|), k, block, sizes);
    var a := AssemblyAt(s2, k, total);
    if SoundHeader(index, total) && Accepts(s2, k) && a.total == total && !HasChunk(a, index) {
      AdmitFaithful(s2, k, index, block, size, sizes);
    }
  }

  lemma HaveFaithful(s: State, k: Key, block: Bytes, sizes: map<nat, nat>)
    requires Faithful(s, k, block, sizes)
    ensures Faithful(HaveStep(s, k, block), k, block, sizes)
  {
    hide Faithful, Prune, Observe, EnforceByteLimits, Fulfill, Accepts;
    var s1 := Prune(s);
    var s2 := Observe(s1, k, false);
    var s3 := EnforceByteLimits(s2, k, |block|);
    var s4 := Completed(Admitted(s3, |block|));
    var s5 := Observe(s4, k, true);
    PrepareCalm(s, k, |block|, k);
    PrepareCalm(s1, k, |block|, k);
    PrepareCalm(s2, k, |block|, k);
    PrepareCalm(s3, k, |block|, k);
    PrepareCalm(s4, k, |block|, k);
    CalmFaithful(s, s1, k, block, sizes);
    CalmFaithful(s1, s2, k, block, sizes);
    CalmFaithful(s2, s3, k, block, sizes);
    CalmFaithful(s3, Rejected(s3), k, block, sizes);
    CalmFaithful(s3, s4, k, block, sizes);
    CalmFaithful(s4, s5, k, block, sizes);
    FulfillFaithful(s5, k, block, sizes);
  }

  lemma StepFaithful(s: State, e: Event, k: Key, block: Bytes, sizes: map<nat, nat>)
    requires Inv(s) && Faithful(s, k, block, sizes) && (DataOn(e, k) ==> FromLayout(e, k, block, sizes))
    ensures Faithful(Step(s, e), k, block, sizes)
    ensures Clears(e, k) ==> forall next :: Faithful(Step(s, e), k, block, next)
  {
    hide Inv, Step, MatchesSome, FromLayout;
    if DataOn(e, k) {
      DataFaithful(s, e, k, block, sizes);
    } else {
      OtherStepCalm(s, e, k);
      CalmFaithful(s, Step(s, e), k, block, sizes);
    }
  }

  lemma DataFaithful(s: State, e: Event, k: Key, block: Bytes, sizes: map<nat, nat>)
    requires Inv(s) && Faithful(s, k, block, sizes) && DataOn(e, k) && FromLayout(e, k, block, sizes)
    ensures Faithful(Step(s, e), k, block, sizes)
  {
    hide Inv, Faithful, HaveStep, ChunkStep, Received, Frames.Slice, Frames.DivCeil;
    var size, index :| FrameOf(e, k, block, size, index)
      && var total := Frames.DivCeil(|block|, size);
         (total <= 1 || (total in sizes && sizes[total] == size));
    FrameShape(e, k, block, size, index);
    if Frames.DivCeil(|block|, size) <= 1 {
      HaveFaithful(s, k, block, sizes);
    } else {
      ChunkFaithful(s, k, index, block, size, sizes);
    }
  }

  lemma {:induction false} RunFaithful(s: State, events: seq<Event>, k: Key, block: Bytes, sizes: map<nat, nat>)
    requires Inv(s) && Faithful(s, k, block, sizes) && Conforms(s, events, k, block, sizes)
    ensures DeliveredBlock(Run(s, events), k, block)
    decreases |events|
  {
    hide Inv, Step, MatchesSome, FromLayout;
    if events != [] {
      var now: map<nat, nat> :|
        && (now == sizes || k !in s.assemblies)
        && (DataOn(events[0], k) ==> FromLayout(events[0], k, block, now))
        && Conforms(Step(s, events[0]), events[1..], k, block, now);
      StepInv(s, events[0]);
      StepFaithful(s, events[0], k, block, now);
      RunFaithful(Step(s, events[0]), events[1..], k, block, now);
    }
  }

  /**
   Whatever a path delivers is the block: for every run in which that path's frames come from the
   responder's layouts, in any order, repeated or missing, between any other operations.
   */
  lemma TransferDelivers(events: seq<Event>, k: Key, block: Bytes, sizes: map<nat, nat>)
    requires Conforms(Initial, events, k, block, sizes)
    ensures forall d | d in Run(Initial, events).delivered && d.key == k :: d.data == block
  {
    RunFaithful(Initial, events, k, block, sizes);
  }
}
