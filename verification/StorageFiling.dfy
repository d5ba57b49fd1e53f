/**
 What adding a file leaves in the store. Each block of the file is stored, tracked and followed by a
 capacity check; which of them are still there at the end has an exact condition.
 */
module StorageFiling {
  import opened Common
  import opened StorageModel
  import Cache = BlockCache
  import Cid

  /** One block of a file written, tracked, and the capacity enforced after it. */
  datatype Filing = Filing(cid: Bytes, data: Bytes, position: Option<Cache.Position>, eviction: Eviction)

  function Put(e: Engine, f: Filing): Engine {
    e.(store := e.store[f.cid := f.data], cache := Cache.Tracked(e.cache, f.cid, |f.data|, f.position))
  }

  function File(e: Engine, f: Filing): Engine {
    Enforced(Put(e, f), f.eviction)
  }

  ghost predicate FilingOk(e: Engine, f: Filing) {
    EvictionAllowed(Put(e, f), f.eviction) && EnforceOk(Put(e, f), f.eviction)
  }

  function FileAll(e: Engine, fs: seq<Filing>): Engine
    decreases |fs|
  {
    if fs == [] then e else File(FileAll(e, fs[..|fs| - 1]), fs[|fs| - 1])
  }

  ghost predicate FilingsOk(e: Engine, fs: seq<Filing>)
    decreases |fs|
  {
    fs == [] || (FilingsOk(e, fs[..|fs| - 1]) && FilingOk(FileAll(e, fs[..|fs| - 1]), fs[|fs| - 1]))
  }

  lemma FileNext(e: Engine, fs: seq<Filing>, f: Filing)
    requires FilingsOk(e, fs) && FilingOk(FileAll(e, fs), f)
    ensures FilingsOk(e, fs + [f]) && FileAll(e, fs + [f]) == File(FileAll(e, fs), f)
  {
    hide FilingOk, File;
    assert (fs + [f])[..|fs|] == fs;
  }

  function BytesIn(fs: seq<Filing>): nat {
    if fs == [] then 0 else BytesIn(fs[..|fs| - 1]) + |fs[|fs| - 1].data|
  }

  ghost function Cids(fs: seq<Filing>): set<Bytes> {
    set f | f in fs :: f.cid
  }

  lemma PutAccounted(e: Engine, f: Filing)
    requires Accounted(e)
    ensures Accounted(Put(e, f)) && Put(e, f).cache.usage <= e.cache.usage + |f.data|
  {
    Cache.TrackedInv(e.cache, f.cid, |f.data|, f.position);
  }

  // ---- room for everything ----

  /** Every key stored or tracked before is still there. */
  ghost predicate Grown(e: Engine, u: Engine) {
    e.store.Keys <= u.store.Keys && e.cache.meta.Keys <= u.cache.meta.Keys
  }

  lemma RoomyFile(e: Engine, f: Filing)
    requires Accounted(e) && FilingOk(e, f) && e.cache.usage + |f.data| <= e.cache.capacity
    ensures File(e, f) == Put(e, f)
  {
    PutAccounted(e, f);
    hide Cache.CapacityVictims;
    NothingEvicted(Put(e, f), f.eviction);
    NothingGone(Put(e, f));
  }

  /** With room for all of the file nothing is evicted, whatever the node's positions. */
  lemma {:induction false} RoomKeeps(e: Engine, fs: seq<Filing>)
    requires Accounted(e) && FilingsOk(e, fs) && e.cache.usage + BytesIn(fs) <= e.cache.capacity
    ensures
      var u := FileAll(e, fs);
      && Accounted(u) && u.cache.capacity == e.cache.capacity && u.cache.usage <= e.cache.usage + BytesIn(fs)
      && Grown(e, u) && Cids(fs) <= u.store.Keys
    decreases |fs|
  {
    hide Accounted, FilingOk, File, Cache.Tracked;
    if fs != [] {
      var front, f := fs[..|fs| - 1], fs[|fs| - 1];
      RoomKeeps(e, front);
      var m := FileAll(e, front);
      RoomyFile(m, f);
      PutAccounted(m, f);
      PutGrows(m, f);
      CidsNext(front, f);
      assert fs == front + [f];
    }
  }

  lemma PutGrows(e: Engine, f: Filing)
    ensures Grown(e, Put(e, f)) && f.cid in Put(e, f).store && Put(e, f).cache.capacity == e.cache.capacity
  {
  }

  lemma CidsNext(fs: seq<Filing>, f: Filing)
    ensures Cids(fs + [f]) == Cids(fs) + {f.cid}
  {
    var all := fs + [f];
    assert all[|fs|] == f;
    forall c | c in Cids(fs)
      ensures c in Cids(all)
    {
      var g :| g in fs && g.cid == c;
      assert g in all;
    }
  }

  // ---- the exact condition ----

  /** The pinned set will not change: the registry has been read, or there is none. */
  predicate Settling(e: Engine) {
    e.loaded || !e.hasMeta
  }

  /** What must fit: the pinned blocks that are tracked, and the file. */
  function Claims(e: Engine, sizes: map<Bytes, nat>): map<Bytes, nat> {
    (map c | c in e.cache.meta && c in e.cache.pinned :: e.cache.meta[c].size) + sizes
  }

  /** The file fits beside the pinned blocks, or is itself made of pinned blocks. */
  ghost predicate FileFits(e: Engine, sizes: map<Bytes, nat>) {
    sizes.Keys <= e.cache.pinned || Sum(Claims(e, sizes), Amount) <= e.cache.capacity
  }

  /**
   The same before the saved registry has been read: the pinned blocks are those it lists. With one
   that cannot be read an add that succeeds has evicted nothing.
   */
  ghost predicate FitsHere(e: Engine, sizes: map<Bytes, nat>) {
    Readable(e) ==> FileFits(Loaded(e, true), sizes)
  }

  /** Blocks of the file that are already tracked have their own length there. */
  predicate SizesAgree(e: Engine, sizes: map<Bytes, nat>) {
    forall c <- sizes :: c in e.cache.meta ==> e.cache.meta[c].size == sizes[c]
  }

  predicate Fitting(f: Filing, sizes: map<Bytes, nat>) {
    f.cid in sizes && |f.data| == sizes[f.cid]
  }

  /** Blocks filed so far are newer than everything else, and tracked exactly when they are stored. */
  ghost predicate Kept(e0: Engine, e: Engine, done: set<Bytes>, sizes: map<Bytes, nat>) {
    && Accounted(e) && Settling(e)
    && e.cache.pinned == e0.cache.pinned && e.cache.capacity == e0.cache.capacity
    && done <= sizes.Keys
    && (forall c <- e.cache.meta ::
          if c in done then e.cache.meta[c].lastAccessed > e0.cache.clock && e.cache.meta[c].size == sizes[c]
          else c in e0.cache.meta && e.cache.meta[c] == e0.cache.meta[c])
    && (forall c <- e0.cache.meta :: c in e0.cache.pinned ==> c in e.cache.meta)
    && e.cache.clock >= e0.cache.clock
    && (forall c <- done :: c in e.cache.meta <==> c in e.store)
  }

  lemma PutKept(e0: Engine, e: Engine, done: set<Bytes>, sizes: map<Bytes, nat>, f: Filing)
    requires Kept(e0, e, done, sizes) && SizesAgree(e0, sizes) && Fitting(f, sizes)
    ensures Kept(e0, Put(e, f), done + {f.cid}, sizes)
  {
    hide Accounted;
    PutAccounted(e, f);
  }

  lemma DeleteKept(e0: Engine, e: Engine, done: set<Bytes>, sizes: map<Bytes, nat>, cids: seq<Bytes>)
    requires Kept(e0, e, done, sizes) && Cache.Distinct(cids) && (forall c <- cids :: Cache.Evictable(e.cache, c))
    ensures Kept(e0, Deleted(e, cids), done, sizes)
    ensures forall c <- e.cache.meta :: c !in cids ==> c in Deleted(e, cids).cache.meta
  {
    Cache.EvictedExactly(e.cache, cids);
    hide Cache.Evicted, Cache.Inv;
  }

  /** A settled engine reads no registry when it evicts. */
  lemma EnforcedSettled(e: Engine, v: Eviction)
    requires Settling(e) && EnforceOk(e, v)
    ensures Enforced(e, v) == Deleted(e, v.victims)
  {
    assert v.victims[..|v.victims|] == v.victims;
  }

  lemma FileKept(e0: Engine, e: Engine, done: set<Bytes>, sizes: map<Bytes, nat>, f: Filing)
    requires Kept(e0, e, done, sizes) && SizesAgree(e0, sizes) && Fitting(f, sizes) && FilingOk(e, f)
    ensures Kept(e0, File(e, f), done + {f.cid}, sizes)
  {
    hide Kept, Deleted, Put;
    var m := Put(e, f);
    PutKept(e0, e, done, sizes, f);
    KeptSettles(e0, m, done + {f.cid}, sizes);
    EnforcedSettled(m, f.eviction);
    VictimsEvictable(m, f.eviction);
    DeleteKept(e0, m, done + {f.cid}, sizes, f.eviction.victims);
  }

  lemma KeptSettles(e0: Engine, e: Engine, done: set<Bytes>, sizes: map<Bytes, nat>)
    requires Kept(e0, e, done, sizes)
    ensures Settling(e) && Accounted(e)
  {
  }

  lemma VictimsEvictable(e: Engine, v: Eviction)
    requires Settling(e) && EvictionAllowed(e, v)
    ensures Cache.CapacityVictims(e.cache, v.space, v.victims)
    ensures Cache.Distinct(v.victims) && forall c <- v.victims :: Cache.Evictable(e.cache, c)
  {
    hide Cache.InOrder;
  }

  /** What is left before a filed block would go is pinned or filed: no more than the claims. */
  lemma LeftIsClaimed(e0: Engine, e: Engine, done: set<Bytes>, sizes: map<Bytes, nat>, victims: seq<Bytes>, i: nat)
    requires Kept(e0, e, done, sizes) && SizesAgree(e0, sizes) && Accounted(e0)
    requires Cache.Chosen(e.cache, None, victims) && i < |victims| && victims[i] in done
    ensures e.cache.usage - Cache.Freed(e.cache, victims[..i]) <= Sum(Claims(e0, sizes), Amount)
  {
    hide Cache.Evicted, Cache.Freed;
    var gone := victims[..i];
    forall v | v in gone
      ensures v in e.cache.meta
    {
      assert v in victims;
      assert Cache.Evictable(e.cache, v);
    }
    assert Cache.Evictable(e.cache, victims[i]) by { assert victims[i] in victims; }
    Cache.EvictedExactly(e.cache, gone);
    var left := Cache.Evicted(e.cache, gone).meta;
    var claims := Claims(e0, sizes);
    forall c | c in left
      ensures c in claims && left[c].size <= claims[c]
    {
      if c !in done && c !in e.cache.pinned {
        AgeAtStart(e0, e, done, sizes, c);
        Cache.NoOlderLater(e.cache, victims, i, c);
      }
    }
    SumBelow(left, Cache.SizeOf, claims, Amount);
  }

  lemma AgeAtStart(e0: Engine, e: Engine, done: set<Bytes>, sizes: map<Bytes, nat>, c: Bytes)
    requires Kept(e0, e, done, sizes) && Accounted(e0) && c in e.cache.meta && c !in done
    ensures e.cache.meta[c].lastAccessed <= e0.cache.clock
  {
  }

  /** While the file fits, eviction by age never reaches a block of it. */
  lemma FiledStay(e0: Engine, e: Engine, done: set<Bytes>, sizes: map<Bytes, nat>, v: Eviction)
    requires Kept(e0, e, done, sizes) && SizesAgree(e0, sizes) && Accounted(e0) && FileFits(e0, sizes)
    requires EvictionAllowed(e, v) && v.space.None?
    ensures forall c <- v.victims :: c !in done
  {
    hide Cache.InOrder, Cache.Freed, Claims, Sum;
    VictimsEvictable(e, v);
    forall i: nat | i < |v.victims|
      ensures v.victims[i] !in done
    {
      assert Cache.Evictable(e.cache, v.victims[i]);
      if v.victims[i] in done && !(sizes.Keys <= e0.cache.pinned) {
        Cache.PrefixFallsShort(e.cache, v.victims, i, Cache.LruNeed(e.cache));
        LeftIsClaimed(e0, e, done, sizes, v.victims, i);
      }
    }
  }

  lemma FileStays(e0: Engine, e: Engine, done: set<Bytes>, sizes: map<Bytes, nat>, f: Filing)
    requires Kept(e0, e, done, sizes) && SizesAgree(e0, sizes) && Accounted(e0) && FileFits(e0, sizes)
    requires Fitting(f, sizes) && FilingOk(e, f) && f.eviction.space.None? && done <= e.cache.meta.Keys
    ensures done + {f.cid} <= File(e, f).cache.meta.Keys
  {
    hide Kept, FileFits, Accounted, Cache.Evicted, Cache.CapacityVictims;
    var m := Put(e, f);
    PutKept(e0, e, done, sizes, f);
    KeptSettles(e0, m, done + {f.cid}, sizes);
    EnforcedSettled(m, f.eviction);
    VictimsEvictable(m, f.eviction);
    FiledStay(e0, m, done + {f.cid}, sizes, f.eviction);
    DeleteKept(e0, m, done + {f.cid}, sizes, f.eviction.victims);
    assert f.cid in m.cache.meta && done <= m.cache.meta.Keys;
  }

  ghost predicate AllFitting(fs: seq<Filing>, sizes: map<Bytes, nat>) {
    forall i :: 0 <= i < |fs| ==> Fitting(fs[i], sizes)
  }

  /** No capacity check of the add took the node's positions into account. */
  ghost predicate ByAge(fs: seq<Filing>) {
    forall i :: 0 <= i < |fs| ==> fs[i].eviction.space.None?
  }

  lemma StartKept(e: Engine, sizes: map<Bytes, nat>)
    requires Accounted(e) && Settling(e)
    ensures Kept(e, e, {}, sizes)
  {
  }

  lemma {:induction false} FilingsKept(e: Engine, fs: seq<Filing>, sizes: map<Bytes, nat>)
    requires Accounted(e) && Settling(e) && SizesAgree(e, sizes) && FilingsOk(e, fs) && AllFitting(fs, sizes)
    ensures Kept(e, FileAll(e, fs), Cids(fs), sizes)
    ensures ByAge(fs) && FileFits(e, sizes) ==> Cids(fs) <= FileAll(e, fs).cache.meta.Keys
    decreases |fs|
  {
    hide Kept, FileFits, Accounted, File, FilingOk, SizesAgree, Fitting;
    if fs == [] {
      StartKept(e, sizes);
      assert Cids(fs) == {};
    } else {
      var front, f := fs[..|fs| - 1], fs[|fs| - 1];
      FilingsKept(e, front, sizes);
      var m := FileAll(e, front);
      FileKept(e, m, Cids(front), sizes, f);
      if ByAge(fs) && FileFits(e, sizes) {
        FileStays(e, m, Cids(front), sizes, f);
      }
      CidsNext(front, f);
      assert fs == front + [f];
    }
  }

  /** A settled end with every block of the file still tracked means that the file fits. */
  lemma TrackedFits(e0: Engine, e: Engine, sizes: map<Bytes, nat>)
    requires Kept(e0, e, sizes.Keys, sizes) && SizesAgree(e0, sizes) && sizes.Keys <= e.cache.meta.Keys
    requires e.cache.usage <= e.cache.capacity || forall c <- e.cache.meta :: c in e.cache.pinned
    ensures FileFits(e0, sizes)
  {
    if !(sizes.Keys <= e0.cache.pinned) {
      var c :| c in sizes && c !in e0.cache.pinned;
      assert c in e.cache.meta;
      SumBelow(Claims(e0, sizes), Amount, e.cache.meta, Cache.SizeOf);
    }
  }

  ghost predicate Stored(e: Engine, cids: set<Bytes>) {
    cids <= e.store.Keys
  }

  lemma SettledStoredExactly(e: Engine, fs: seq<Filing>, sizes: map<Bytes, nat>)
    requires Accounted(e) && Settling(e) && SizesAgree(e, sizes)
    requires fs != [] && FilingsOk(e, fs) && AllFitting(fs, sizes) && Cids(fs) == sizes.Keys
    ensures Stored(FileAll(e, fs), sizes.Keys) ==> FileFits(e, sizes)
    ensures ByAge(fs) && FileFits(e, sizes) ==> Stored(FileAll(e, fs), sizes.Keys)
  {
    hide FileFits, File, FilingOk, SizesAgree, Fitting, Cids;
    FilingsKept(e, fs, sizes);
    var u := FileAll(e, fs);
    StoredTracked(e, u, sizes);
    if Stored(u, sizes.Keys) {
      LastSettles(e, fs);
      TrackedFits(e, u, sizes);
    }
  }

  // ---- before the registry has been read ----

  lemma PutLoaded(e: Engine, f: Filing)
    ensures Put(Loaded(e, true), f) == Loaded(Put(e, f), true) && Readable(Put(e, f)) == Readable(e)
  {
    hide PinnedCids;
  }

  /** An eviction comes to the same whether the registry is read before it or by it. */
  lemma EnforcedLoaded(e: Engine, v: Eviction)
    requires Readable(e) && EvictionAllowed(e, v) && EnforceOk(e, v)
    ensures
      var m := Loaded(e, true);
      EvictionAllowed(m, v) && EnforceOk(m, v) && Enforced(m, v) == Loaded(Enforced(e, v), true)
    ensures Readable(Enforced(e, v))
  {
    hide PinnedCids, Cache.InOrder, Cache.Freed, Cache.Evicted, Cache.Evictable;
    var m := Loaded(e, true);
    assert v.victims[..|v.victims|] == v.victims;
    EvictedPins(m, Deleted(m, v.victims), v.victims);
    if OverCapacity(e) {
      assert EvictFrom(e, v) == m == EvictFrom(m, v);
    } else {
      NothingEvicted(e, v);
      assert v.victims == [];
      NothingGone(e);
      NothingGone(m);
      NoVictims(m.cache, v.space);
    }
  }

  lemma NothingGone(e: Engine)
    ensures Deleted(e, []) == e
  {
    var none: seq<Bytes> := [];
    assert Deleted(e, none).store == e.store;
  }

  lemma NoVictims(c: Cache.Cache, space: Option<Cache.Space>)
    requires c.usage <= c.capacity
    ensures Cache.CapacityVictims(c, space, [])
  {
  }

  lemma FilingLoaded(e: Engine, f: Filing)
    requires Readable(e) && FilingOk(e, f)
    ensures FilingOk(Loaded(e, true), f) && File(Loaded(e, true), f) == Loaded(File(e, f), true)
    ensures Readable(File(e, f))
  {
    hide Put, Loaded, EvictionAllowed, EnforceOk, Enforced, Readable;
    PutLoaded(e, f);
    EnforcedLoaded(Put(e, f), f.eviction);
  }

  lemma {:induction false} FilingsLoaded(e: Engine, fs: seq<Filing>)
    requires Readable(e) && FilingsOk(e, fs)
    ensures FilingsOk(Loaded(e, true), fs) && FileAll(Loaded(e, true), fs) == Loaded(FileAll(e, fs), true)
    ensures Readable(FileAll(e, fs))
    decreases |fs|
  {
    hide Loaded, Readable, File, FilingOk;
    if fs != [] {
      FilingsLoaded(e, fs[..|fs| - 1]);
      FilingLoaded(FileAll(e, fs[..|fs| - 1]), fs[|fs| - 1]);
    }
  }

  lemma {:induction false} PinnedStays(e: Engine, fs: seq<Filing>, c: Bytes)
    requires Settling(e) && FilingsOk(e, fs) && c in e.cache.pinned
    ensures Settling(FileAll(e, fs)) && FileAll(e, fs).cache.pinned == e.cache.pinned
    ensures c in Cids(fs) ==> c in FileAll(e, fs).store
    decreases |fs|
  {
    hide File, FilingOk, Settling;
    if fs != [] {
      var front, f := fs[..|fs| - 1], fs[|fs| - 1];
      PinnedStays(e, front, c);
      PinnedFile(FileAll(e, front), f, c);
      CidsNext(front, f);
      assert fs == front + [f];
    }
  }

  lemma PinnedFile(e: Engine, f: Filing, c: Bytes)
    requires Settling(e) && FilingOk(e, f) && c in e.cache.pinned
    ensures Settling(File(e, f)) && File(e, f).cache.pinned == e.cache.pinned
    ensures c in e.store || c == f.cid ==> c in File(e, f).store
  {
    hide Cache.CapacityVictims, Cache.Evicted;
    var m := Put(e, f);
    EnforcedSettled(m, f.eviction);
    VictimsEvictable(m, f.eviction);
    EvictedPins(m, File(e, f), f.eviction.victims);
  }

  /** A block of the file that is pinned is stored after the add. */
  lemma PinnedFiled(e: Engine, fs: seq<Filing>, c: Bytes)
    requires Readable(e) && FilingsOk(e, fs) && c in Cids(fs) && c in Loaded(e, true).cache.pinned
    ensures c in FileAll(e, fs).store && c in Loaded(FileAll(e, fs), true).cache.pinned
  {
    hide Loaded, FileAll, FilingsOk, Settling;
    FilingsLoaded(e, fs);
    SettledWhenLoaded(e);
    PinnedStays(Loaded(e, true), fs, c);
    LoadedStore(FileAll(e, fs));
  }

  lemma SettledWhenLoaded(e: Engine)
    requires Readable(e)
    ensures Settling(Loaded(e, true))
  {
  }

  /** With a registry that cannot be read, only an add that never goes over the capacity succeeds. */
  lemma {:induction false} UnreadableKeeps(e: Engine, fs: seq<Filing>)
    requires !Readable(e) && FilingsOk(e, fs)
    ensures !Readable(FileAll(e, fs)) && Cids(fs) <= FileAll(e, fs).store.Keys
    decreases |fs|
  {
    hide File, FilingOk, Readable;
    if fs != [] {
      var front, f := fs[..|fs| - 1], fs[|fs| - 1];
      UnreadableKeeps(e, front);
      UnreadableFile(FileAll(e, front), f);
      CidsNext(front, f);
      assert fs == front + [f];
    }
  }

  lemma UnreadableFile(e: Engine, f: Filing)
    requires !Readable(e) && FilingOk(e, f)
    ensures File(e, f) == Put(e, f) && !Readable(Put(e, f))
    ensures e.store.Keys <= Put(e, f).store.Keys && f.cid in Put(e, f).store
  {
    hide Cache.CapacityVictims, PinnedCids;
    PutLoaded(e, f);
    assert !OverCapacity(Put(e, f));
    NothingEvicted(Put(e, f), f.eviction);
    NothingGone(Put(e, f));
  }

  lemma LoadedAlready(e: Engine)
    requires Readable(e) && Accounted(e)
    ensures Settling(Loaded(e, true)) && Accounted(Loaded(e, true))
    ensures Loaded(e, true).cache == e.cache.(pinned := Loaded(e, true).cache.pinned) && Loaded(e, true).store == e.store
  {
    hide PinnedCids;
    PinnedInv(e, Loaded(e, true));
  }

  /**
   After an add the whole file is in the store only if it fits beside the pinned blocks; and if it
   does, it is, as long as victims are chosen by age. It makes no difference whether the saved
   registry had been read before.
   */
  lemma StoredExactly(e: Engine, fs: seq<Filing>, sizes: map<Bytes, nat>)
    requires Accounted(e) && SizesAgree(e, sizes)
    requires fs != [] && FilingsOk(e, fs) && AllFitting(fs, sizes) && Cids(fs) == sizes.Keys
    ensures Stored(FileAll(e, fs), sizes.Keys) ==> FitsHere(e, sizes)
    ensures ByAge(fs) && FitsHere(e, sizes) ==> Stored(FileAll(e, fs), sizes.Keys)
  {
    hide Readable, FileFits, File, FilingOk, Fitting, Cids, Loaded, Accounted, Settling;
    if Readable(e) {
      var m := Loaded(e, true);
      LoadedAlready(e);
      FilingsLoaded(e, fs);
      SettledStoredExactly(m, fs, sizes);
      LoadedStore(FileAll(e, fs));
    } else {
      UnreadableKeeps(e, fs);
    }
  }

  lemma LoadedStore(e: Engine)
    ensures Loaded(e, true).store == e.store
  {
  }

  lemma StoredTracked(e0: Engine, e: Engine, sizes: map<Bytes, nat>)
    requires Kept(e0, e, sizes.Keys, sizes)
    ensures Stored(e, sizes.Keys) <==> sizes.Keys <= e.cache.meta.Keys
  {
  }

  lemma LastSettles(e: Engine, fs: seq<Filing>)
    requires Accounted(e) && fs != [] && FilingsOk(e, fs)
    ensures
      var u := FileAll(e, fs);
      u.cache.usage <= u.cache.capacity || forall c <- u.cache.meta :: c in u.cache.pinned
  {
    hide Accounted, Put, EvictionAllowed, EnforceOk, Enforced;
    var m, f := FileAll(e, fs[..|fs| - 1]), fs[|fs| - 1];
    FilingsAccounted(e, fs[..|fs| - 1]);
    PutAccounted(m, f);
    EnforcementSuffices(Put(m, f), f.eviction);
  }

  lemma {:induction false} FilingsAccounted(e: Engine, fs: seq<Filing>)
    requires Accounted(e) && FilingsOk(e, fs)
    ensures Accounted(FileAll(e, fs))
    decreases |fs|
  {
    hide Accounted, Put, EvictionAllowed, EnforceOk, Enforced;
    if fs != [] {
      var m, f := FileAll(e, fs[..|fs| - 1]), fs[|fs| - 1];
      FilingsAccounted(e, fs[..|fs| - 1]);
      PutAccounted(m, f);
      EnforcedAccounted(Put(m, f), f.eviction);
    }
  }

  lemma EnforcedAccounted(e: Engine, v: Eviction)
    requires Accounted(e) && EvictionAllowed(e, v)
    ensures Accounted(Enforced(e, v))
  {
    StepAccounted((b: Bytes) => [], e, Enforce(v));
  }

  /** Under a filed name the store holds, if anything, what was filed under it. */
  lemma {:induction false} FiledContents(e: Engine, fs: seq<Filing>, c: Bytes)
    requires c in Cids(fs) && c in FileAll(e, fs).store
    ensures exists j :: 0 <= j < |fs| && fs[j].cid == c && fs[j].data == FileAll(e, fs).store[c]
    decreases |fs|
  {
    hide Cache.Evicted, Cache.Tracked;
    var front, f := fs[..|fs| - 1], fs[|fs| - 1];
    assert fs == front + [f];
    CidsNext(front, f);
    if c != f.cid {
      FiledContents(e, front, c);
      var j :| 0 <= j < |front| && front[j].cid == c && front[j].data == FileAll(e, front).store[c];
      assert fs[j] == front[j];
    }
  }

  // ---- where the guard of a failed pin fails ----

  /** By age, a block longer than the capacity drives out everything older that can be evicted. */
  lemma DrivenOut(c: Cache.Cache, victims: seq<Bytes>, big: Bytes, cid: Bytes)
    requires Cache.Inv(c) && Cache.CapacityVictims(c, None, victims) && Cache.Evictable(c, cid)
    requires big in c.meta && c.meta[big].size > c.capacity && c.meta[cid].lastAccessed < c.meta[big].lastAccessed
    ensures cid in victims
  {
    Cache.LruSpares(c, victims, cid);
    var recent := Cache.Recent(c, c.meta[cid].lastAccessed);
    SumRemove(recent, Cache.SizeOf, big);
  }

  /** The filing of a new block longer than the capacity. */
  predicate Huge(e: Engine, f: Filing) {
    f.cid !in e.cache.meta && |f.data| > e.cache.capacity
  }

  /**
   Adding a new block longer than the capacity, with victims by age, deletes a tracked block exactly
   when it is not pinned, as the registry read by then says.
   */
  lemma LostExactly(e: Engine, f: Filing, cid: Bytes)
    requires Accounted(e) && Readable(e) && Huge(e, f) && FilingOk(e, f) && f.eviction.space.None?
    requires cid in e.store && cid in e.cache.meta
    ensures cid in File(e, f).store <==> cid in Loaded(e, true).cache.pinned
  {
    hide Cache.CapacityVictims, Cache.Evicted, PinnedCids, Sum;
    var m := Put(e, f);
    PutAccounted(e, f);
    PutLoaded(e, f);
    HugeIsOver(e, f);
    var n := EvictFrom(m, f.eviction);
    PinnedInv(m, n);
    assert f.eviction.victims[..|f.eviction.victims|] == f.eviction.victims;
    if Cache.Evictable(n.cache, cid) {
      DrivenOut(n.cache, f.eviction.victims, f.cid, cid);
    } else {
      EnforceDeletes(m, f.eviction);
    }
  }

  lemma HugeIsOver(e: Engine, f: Filing)
    requires Accounted(e) && Huge(e, f)
    ensures OverCapacity(Put(e, f))
    ensures f.cid in Put(e, f).cache.meta && Put(e, f).cache.meta[f.cid] == Cache.Meta(e.cache.clock + 1, |f.data|, f.position)
    ensures forall c <- e.cache.meta :: Put(e, f).cache.meta[c] == e.cache.meta[c] && e.cache.meta[c].lastAccessed <= e.cache.clock
  {
  }

  /** Such a filing is possible whenever the registry can be read. */
  lemma HugeFiling(e: Engine, cid: Bytes, data: Bytes) returns (f: Filing)
    requires Readable(e)
    ensures f.cid == cid && f.data == data && f.position == None && f.eviction.space.None? && FilingOk(e, f)
    ensures f.eviction.readable
  {
    hide Cache.CapacityVictims;
    f := Filing(cid, data, None, Eviction(true, None, [], 0));
    var m := Put(e, f);
    PutLoaded(e, f);
    var victims := Cache.AgeVictims(EvictFrom(m, f.eviction).cache);
    f := f.(eviction := Eviction(true, None, victims, |victims|));
  }

  /**
   Where a failed pin breaks the guard, an allowed run deletes a tracked block that the saved registry
   protects: the pin, and then any new block longer than the capacity being added.
   */
  lemma BrokenGuardDeletes(hash: Bytes -> Bytes, e: Engine, pin: Event, cid: Bytes, big: Bytes) returns (events: seq<Event>)
    requires Accounted(e) && pin.PinRoot? && !pin.written && Allowed(hash, e, pin)
    requires cid in e.store && cid in e.cache.meta && cid in Protected(e)
    requires cid !in PinnedCids(e.registry[pin.root := pin.cids])
    requires |big| > e.cache.capacity && Cid.ComputeCid(hash, big, Cid.MULTICODEC_RAW) !in e.cache.meta
    ensures
      var name := Cid.ComputeCid(hash, big, Cid.MULTICODEC_RAW);
      && |events| == 4 && events[0] == pin && events[1] == Store(name, big) && events[2] == Track(name, |big|, None)
      && events[3].Enforce? && events[3].eviction.space.None?
    ensures AllowedRun(hash, e, events) && cid in Protected(Run(e, events)) && cid !in Run(e, events).store
  {
    hide PinnedCids, EvictionAllowed, Cid.ComputeCid, EnforceOk, Enforced;
    var u := Step(e, pin);
    StepAccounted(hash, e, pin);
    var name := Cid.ComputeCid(hash, big, Cid.MULTICODEC_RAW);
    var f := HugeFiling(u, name, big);
    LostExactly(u, f, cid);
    events := [pin, Store(name, big), Track(name, |big|, None), Enforce(f.eviction)];
    assert Step(Step(u, events[1]), events[2]) == Put(u, f);
    AllowedTrack(hash, Step(u, events[1]), name, big, None);
    assert Matches(hash, name, big);
    RunFour(e, events);
    FourAllowed(hash, e, events);
    EnforcedSaved(Put(u, f), f.eviction);
  }

  lemma EnforcedSaved(e: Engine, v: Eviction)
    ensures Enforced(e, v).saved == e.saved && Enforced(e, v).hasMeta == e.hasMeta
  {
  }
}
