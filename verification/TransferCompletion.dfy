/** One frame of a layout at a time: the waiting attempt comes closer to its block, or is sent it. */
module TransferCompletion {
  import opened Common
  import opened WantModel
  import opened RegistryInvariant
  import opened RegistryProperties
  import opened Transfer
  import Cid
  import Frames

  predicate Awaits(w: Want, k: Key, id: nat, bytes: nat) {
    w.id == id && !w.closed && Authorises(w, k.sender, k.room) && (w.limit.Some? ==> bytes <= w.limit.value)
  }

  /** Attempt `id` is open on the path, with a limit of at least `bytes` if it has one. */
  ghost predicate Waits(s: State, k: Key, id: nat, bytes: nat) {
    k.cid in s.pending && exists w :: w in s.pending[k.cid] && Awaits(w, k, id, bytes)
  }

  /** The registry can hold the whole block on this path. */
  ghost predicate Roomy(s: State, k: Key, bytes: nat) {
    && (k in s.assemblies || |s.assemblies| < MAX_WANT_ASSEMBLIES)
    && Sum(s.assemblies - {k}, BytesOf) + bytes <= MAX_WANT_ASSEMBLY_BYTES
    && bytes <= MAX_WANT_BLOCK_BYTES
  }

  ghost predicate Totals(a: Assembly) {
    a.bytes == |Concat(a.chunks)| && a.received == Present(a.chunks)
  }

  ghost predicate Collecting(s: State, k: Key, id: nat, block: Bytes, size: nat) {
    && Waits(s, k, id, |block|)
    && Roomy(s, k, |block|)
    && (k in s.assemblies ==> Matches(s.assemblies[k], block, size) && Totals(s.assemblies[k]))
  }

  predicate Has(s: State, k: Key, i: nat) {
    k in s.assemblies && HasChunk(s.assemblies[k], i)
  }

  ghost predicate Done(s: State, k: Key, id: nat) {
    exists d :: d in s.delivered && d.id == id && d.key == k
  }

  // ---- what the preparatory operations keep ----

  /** The path is as before: same assembly, same waiting attempt, no less room. */
  ghost predicate Ready(s: State, t: State, k: Key, id: nat, bytes: nat) {
    && Waits(t, k, id, bytes)
    && (k in t.assemblies <==> k in s.assemblies)
    && (k in s.assemblies ==> t.assemblies[k] == s.assemblies[k])
    && (forall j | j in t.assemblies :: j in s.assemblies && t.assemblies[j] == s.assemblies[j])
  }

  lemma ReadyCollects(s: State, t: State, k: Key, id: nat, block: Bytes, size: nat)
    requires Collecting(s, k, id, block, size) && Ready(s, t, k, id, |block|)
    ensures Collecting(t, k, id, block, size)
    ensures forall i :: Has(t, k, i) <==> Has(s, k, i)
  {
    SumShrinks(t.assemblies - {k}, s.assemblies - {k}, BytesOf);
    SubmapSize(t.assemblies, s.assemblies);
  }

  lemma PruneReady(s: State, k: Key, id: nat, bytes: nat)
    requires Waits(s, k, id, bytes)
    ensures Ready(s, Prune(s), k, id, bytes)
  {
    var w :| w in s.pending[k.cid] && Awaits(w, k, id, bytes);
    PruneUndisturbed(s, k.cid, w, k);
    assert Accepts(s, k);
    PruneKeepsAccepted(s, k);
    assert w in Prune(s).pending[k.cid];
  }

  lemma ObserveReady(s: State, k: Key, accepted: bool, id: nat, bytes: nat)
    requires Waits(s, k, id, bytes)
    ensures Ready(s, Observe(s, k, accepted), k, id, bytes)
  {
    var w :| w in s.pending[k.cid] && Awaits(w, k, id, bytes);
    var i :| 0 <= i < |s.pending[k.cid]| && s.pending[k.cid][i] == w;
    var x := Observe(s, k, accepted).pending[k.cid][i];
    assert x in Observe(s, k, accepted).pending[k.cid] && Awaits(x, k, id, bytes);
  }

  lemma EnforceReady(s: State, k: Key, seen: nat, id: nat, bytes: nat)
    requires Waits(s, k, id, bytes) && seen <= bytes
    ensures Ready(s, EnforceByteLimits(s, k, seen), k, id, bytes)
  {
    var w :| w in s.pending[k.cid] && Awaits(w, k, id, bytes);
    var kept := s.(
      pending := s.pending[k.cid := Keep(s.pending[k.cid], WithinLimit(k.sender, k.room, seen))],
      exceeded := EnforceByteLimits(s, k, seen).exceeded);
    assert w in kept.pending[k.cid];
    PruneReady(kept, k, id, bytes);
  }

  /** The waiting attempt is among those served. */
  lemma FulfillServes(s: State, k: Key, data: Bytes, id: nat, bytes: nat)
    requires Waits(s, k, id, bytes)
    ensures Done(Fulfill(s, k, data), k, id)
  {
    var w :| w in s.pending[k.cid] && Awaits(w, k, id, bytes);
    var out := Keep(s.pending[k.cid], Recipient(k.sender, k.room));
    assert w in out;
    var i :| 0 <= i < |out| && out[i] == w;
    var sent := Deliveries(out, k, data);
    assert sent[i] in sent;
    assert sent[i] in Fulfill(s, k, data).delivered;
  }

  // ---- one chunk ----

  lemma {:induction false} PartialLength(a: Assembly, block: Bytes, size: nat, n: nat)
    requires Matches(a, block, size) && n <= a.total
    ensures |Concat(a.chunks[..n])| <= Min(n * size, |block|)
  {
    hide Concat, Frames.Slice, Frames.DivCeil;
    if n == 0 {
      NothingStored(a.chunks);
    } else {
      PartialLength(a, block, size, n - 1);
      Frames.SliceStarts(|block|, size, n - 1);
      SliceLength(block, size, n - 1);
      PartialNext(a.chunks, n);
    }
  }

  lemma SliceLength(block: Bytes, size: nat, i: nat)
    requires i * size <= |block|
    ensures |Frames.Slice(block, size, i)| == Min((i + 1) * size, |block|) - i * size
  {
    assert (i + 1) * size == i * size + size;
  }

  lemma NothingStored(chunks: seq<Option<Bytes>>)
    ensures Concat(chunks[..0]) == []
  {
  }

  lemma PartialNext(chunks: seq<Option<Bytes>>, n: nat)
    requires 0 < n <= |chunks|
    ensures |Concat(chunks[..n])| == |Concat(chunks[..n - 1])| + |Contents(chunks[n - 1])|
  {
    assert chunks[..n][..n - 1] == chunks[..n - 1];
  }

  /** A missing slice always fits what is left of the block. */
  lemma SliceFits(a: Assembly, index: nat, block: Bytes, size: nat)
    requires |a.chunks| == a.total && a.bytes == |Concat(a.chunks)| && a.received == Present(a.chunks)
    requires size > 0 && a.total == Frames.DivCeil(|block|, size) > 1 && index < a.total
    requires index * size <= |block| && !HasChunk(a, index)
    requires (forall i :: 0 <= i < a.total ==> a.chunks[i].None?) || Matches(a, block, size)
    ensures a.bytes + |Frames.Slice(block, size, index)| <= |block|
  {
    var b := StoreChunk(a, index, Frames.Slice(block, size, index));
    StoredSlice(a, index, block, size);
    StoreChunkOk(a, index, Frames.Slice(block, size, index));
    PartialLength(b, block, size, b.total);
    assert b.chunks[..b.total] == b.chunks;
  }

  lemma AssemblyBasics(s: State, k: Key, id: nat, block: Bytes, size: nat)
    requires Collecting(s, k, id, block, size) && size > 0
    ensures
      var a := AssemblyAt(s, k, Frames.DivCeil(|block|, size));
      |a.chunks| == a.total == Frames.DivCeil(|block|, size) && Totals(a)
      && ((forall i :: 0 <= i < a.total ==> a.chunks[i].None?) || Matches(a, block, size))
  {
    EmptyTotals(Frames.DivCeil(|block|, size));
  }

  lemma RoomForSlice(s: State, k: Key, total: nat, more: nat, bytes: nat)
    requires Roomy(s, k, bytes) && AssemblyAt(s, k, total).bytes + more <= bytes
    ensures HasRoom(s, k, more)
  {
    if k in s.assemblies {
      SumRemove(s.assemblies, BytesOf, k);
    } else {
      assert s.assemblies - {k} == s.assemblies;
    }
  }

  function WithAssembly(s: State, k: Key, a: Assembly, bytes: nat): State {
    Observe(Admitted(s.(assemblies := s.assemblies[k := a]), bytes), k, true)
  }

  lemma LastServes(s: State, k: Key, a: Assembly, more: nat, id: nat, bytes: nat)
    requires Waits(s, k, id, bytes)
    ensures Done(CompleteStep(WithAssembly(s, k, a, more), k, a), k, id)
  {
    var s1 := Admitted(s.(assemblies := s.assemblies[k := a]), more);
    assert Waits(s1, k, id, bytes);
    ObserveReady(s1, k, true, id, bytes);
    var s2 := WithAssembly(s, k, a, more);
    var s3 := Completed(s2.(assemblies := s2.assemblies - {k}));
    assert Waits(s3, k, id, bytes);
    FulfillServes(s3, k, Concat(a.chunks), id, bytes);
  }

  lemma MoreCollects(s: State, k: Key, a: Assembly, more: nat, id: nat, block: Bytes, size: nat)
    requires Collecting(s, k, id, block, size) && Matches(a, block, size) && Totals(a)
    ensures Collecting(WithAssembly(s, k, a, more), k, id, block, size)
  {
    var s1 := Admitted(s.(assemblies := s.assemblies[k := a]), more);
    assert Waits(s1, k, id, |block|);
    ObserveReady(s1, k, true, id, |block|);
    var t := WithAssembly(s, k, a, more);
    assert t.assemblies == s.assemblies[k := a];
    assert t.assemblies - {k} == s.assemblies - {k};
  }

  ghost predicate Gains(s: State, t: State, k: Key, index: nat) {
    forall i :: Has(t, k, i) <==> Has(s, k, i) || i == index
  }

  ghost predicate Progressed(s: State, t: State, k: Key, id: nat, block: Bytes, size: nat, index: nat) {
    Done(t, k, id) || (Collecting(t, k, id, block, size) && Gains(s, t, k, index))
  }

  /** Storing the slice either completes the attempt or leaves it collecting with one more chunk. */
  lemma StoreProgress(s: State, k: Key, id: nat, block: Bytes, size: nat, index: nat, total: nat, data: Bytes)
    requires Collecting(s, k, id, block, size) && size > 0 && index * size <= |block|
    requires total == Frames.DivCeil(|block|, size) > 1 && data == Frames.Slice(block, size, index)
    requires index < total && !HasChunk(AssemblyAt(s, k, total), index)
    ensures Progressed(s, StoreStep(s, k, index, total, data), k, id, block, size, index)
  {
    hide Done, CompleteStep, EditPending, Frames.Slice;
    var a := StoreChunk(AssemblyAt(s, k, total), index, data);
    AssemblyBasics(s, k, id, block, size);
    StoredSlice(AssemblyAt(s, k, total), index, block, size);
    StoreChunkOk(AssemblyAt(s, k, total), index, data);
    LastServes(s, k, a, |data|, id, |block|);
    MoreCollects(s, k, a, |data|, id, block, size);
    hide Collecting, Matches, Totals;
    if a.received != a.total {
      assert StoreStep(s, k, index, total, data) == WithAssembly(s, k, a, |data|);
    }
  }

  ghost predicate SameChunks(s: State, t: State, k: Key) {
    forall i :: Has(t, k, i) <==> Has(s, k, i)
  }

  /** The limits of the path's callers and of the registry all leave room for a missing slice. */
  lemma AdmitStores(s: State, k: Key, id: nat, block: Bytes, size: nat, index: nat, total: nat, data: Bytes)
    requires Collecting(s, k, id, block, size) && size > 0
    requires total == Frames.DivCeil(|block|, size) && AssemblyAt(s, k, total).bytes + |data| <= |block|
    ensures
      var s1 := EnforceByteLimits(s, k, AssemblyAt(s, k, total).bytes + |data|);
      AdmitStep(s, k, index, total, data) == StoreStep(s1, k, index, total, data)
      && Collecting(s1, k, id, block, size) && SameChunks(s, s1, k)
      && AssemblyAt(s1, k, total) == AssemblyAt(s, k, total)
  {
    hide EnforceByteLimits, StoreStep, Matches, Totals, HasChunk;
    var bytes := AssemblyAt(s, k, total).bytes + |data|;
    var s1 := EnforceByteLimits(s, k, bytes);
    EnforceReady(s, k, bytes, id, |block|);
    ReadyCollects(s, s1, k, id, block, size);
    RoomForSlice(s1, k, total, |data|, |block|);
    assert Accepts(s1, k);
  }

  lemma AdmitProgress(s: State, k: Key, id: nat, block: Bytes, size: nat, index: nat, total: nat, data: Bytes)
    requires Collecting(s, k, id, block, size) && size > 0 && index * size <= |block|
    requires total == Frames.DivCeil(|block|, size) > 1 && data == Frames.Slice(block, size, index)
    requires index < total && !HasChunk(AssemblyAt(s, k, total), index)
    ensures Progressed(s, AdmitStep(s, k, index, total, data), k, id, block, size, index)
  {
    hide Collecting, EnforceByteLimits, StoreStep, AdmitStep, HasChunk, Done, AssemblyAt, Matches;
    AssemblyBasics(s, k, id, block, size);
    var a := AssemblyAt(s, k, total);
    SliceFits(a, index, block, size);
    AdmitStores(s, k, id, block, size, index, total, data);
    StoreProgress(EnforceByteLimits(s, k, a.bytes + |data|), k, id, block, size, index, total, data);
  }

  lemma Observed(s: State, k: Key, id: nat, block: Bytes, size: nat)
    requires Collecting(s, k, id, block, size)
    ensures
      var t := Observe(Prune(s), k, false);
      Collecting(t, k, id, block, size) && SameChunks(s, t, k) && Accepts(t, k)
  {
    hide Prune, Observe, Matches, Totals, HasChunk;
    PruneReady(s, k, id, |block|);
    ReadyCollects(s, Prune(s), k, id, block, size);
    ObserveReady(Prune(s), k, false, id, |block|);
    ReadyCollects(Prune(s), Observe(Prune(s), k, false), k, id, block, size);
  }

  /** One frame of the layout, at any time. */
  lemma ChunkProgress(s: State, k: Key, id: nat, block: Bytes, size: nat, index: nat, total: nat, data: Bytes)
    requires Collecting(s, k, id, block, size) && size > 0 && index * size <= |block|
    requires 1 < total == Frames.DivCeil(|block|, size) <= MAX_WANT_CHUNKS && data == Frames.Slice(block, size, index)
    requires index < total
    ensures Progressed(s, ChunkStep(s, k, index, total, data), k, id, block, size, index)
  {
    hide Collecting, Prune, Observe, AdmitStep, HasChunk, Done, Accepts, Matches, Gains, SameChunks, AssemblyAt;
    Observed(s, k, id, block, size);
    var s2 := Observe(Prune(s), k, false);
    AssemblyBasics(s2, k, id, block, size);
    if HasChunk(AssemblyAt(s2, k, total), index) {
      DuplicateProgress(s2, k, id, block, size, index, total, |data|);
    } else {
      AdmitProgress(s2, k, id, block, size, index, total, data);
    }
    GainsAfterSame(s, s2, ChunkStep(s, k, index, total, data), k, index);
  }

  lemma GainsAfterSame(s: State, t: State, u: State, k: Key, index: nat)
    requires SameChunks(s, t, k)
    ensures Gains(t, u, k, index) ==> Gains(s, u, k, index)
  {
    hide Has;
  }

  lemma DuplicateProgress(s: State, k: Key, id: nat, block: Bytes, size: nat, index: nat, total: nat, bytes: nat)
    requires Collecting(s, k, id, block, size) && HasChunk(AssemblyAt(s, k, total), index)
    ensures Collecting(Duplicated(s, bytes), k, id, block, size) && Gains(s, Duplicated(s, bytes), k, index)
  {
    assert Waits(Duplicated(s, bytes), k, id, |block|);
  }

  // ---- whole transfers ----

  lemma StepGrows(s: State, e: Event)
    ensures s.delivered <= Step(s, e).delivered
  {
    hide Keep, OpenPending, EditPending, Authorised, Accepts, HasRoom, HasChunk, AssemblyAt, StoreChunk, Concat,
         Notices, Deliveries, Admissible, SoundHeader, Waiting;
  }

  lemma {:induction false} RunGrows(s: State, events: seq<Event>)
    ensures s.delivered <= Run(s, events).delivered
    decreases |events|
  {
    if events != [] {
      StepGrows(s, events[0]);
      RunGrows(Step(s, events[0]), events[1..]);
    }
  }

  lemma NotAllStored(s: State, k: Key, id: nat, block: Bytes, size: nat)
    requires Inv(s) && size > 0 && Collecting(s, k, id, block, size) && Frames.DivCeil(|block|, size) > 0
    ensures exists i :: 0 <= i < Frames.DivCeil(|block|, size) && !Has(s, k, i)
  {
    if k in s.assemblies {
      var chunks := s.assemblies[k].chunks;
      PresentBound(chunks);
      var i :| 0 <= i < |chunks| && !chunks[i].Some?;
      assert !Has(s, k, i);
    } else {
      assert !Has(s, k, 0);
    }
  }

  lemma FrameProgress(s: State, k: Key, id: nat, block: Bytes, size: nat, e: Event, index: nat)
    requires Collecting(s, k, id, block, size) && FrameOf(e, k, block, size, index)
    requires size > 0 && 1 < Frames.DivCeil(|block|, size) <= MAX_WANT_CHUNKS
    ensures Progressed(s, Step(s, e), k, id, block, size, index)
  {
    hide Collecting, Progressed, ChunkStep, Received, Frames.Slice;
    FrameShape(e, k, block, size, index);
    ChunkProgress(s, k, id, block, size, index, Frames.DivCeil(|block|, size), Frames.Slice(block, size, index));
  }

  lemma DoneStays(s: State, k: Key, id: nat, events: seq<Event>)
    requires Done(s, k, id)
    ensures Done(Run(s, events), k, id)
  {
    hide Run;
    RunGrows(s, events);
  }

  lemma WholeCompletes(s: State, k: Key, id: nat, block: Bytes)
    requires Waits(s, k, id, |block|) && |block| <= MAX_WANT_BLOCK_BYTES
    ensures Done(HaveStep(s, k, block), k, id)
  {
    hide Prune, Observe, EnforceByteLimits, Fulfill;
    PruneReady(s, k, id, |block|);
    var s1 := Prune(s);
    ObserveReady(s1, k, false, id, |block|);
    var s2 := Observe(s1, k, false);
    EnforceReady(s2, k, |block|, id, |block|);
    var s3 := EnforceByteLimits(s2, k, |block|);
    assert Accepts(s3, k);
    var s4 := Completed(Admitted(s3, |block|));
    assert Waits(s4, k, id, |block|);
    ObserveReady(s4, k, true, id, |block|);
    FulfillServes(Observe(s4, k, true), k, block, id, |block|);
  }

  lemma CountFits(len: nat, size: nat)
    requires size > 0 && Frames.HaveChunkCount(len, size).Some? && Frames.HaveChunkCount(len, size).value <= MAX_WANT_CHUNKS
    ensures Frames.DivCeil(len, size) <= MAX_WANT_CHUNKS
  {
  }
}
