/**
 The content-addressed store behind the block cache: pin registry, lazy loading after a restart,
 eviction and decay, as a transition system. Each event carries the choices its step leaves open:
 which victims among equals, and whether a backend call succeeds.
 */
module StorageModel {
  import opened Common
  import Cache = BlockCache
  import Cid

  type Roots = map<Bytes, seq<Bytes>>

  /** The saved registry: never written, not readable as a registry of this version, or readable. */
  datatype Registry = Absent | Unreadable | Saved(roots: Roots)

  datatype Engine = Engine(
    cache: Cache.Cache,
    store: map<Bytes, Bytes>,
    registry: Roots,
    loaded: bool,
    hasMeta: bool,
    saved: Registry)

  function New(capacity: nat, store: map<Bytes, Bytes>, hasMeta: bool, saved: Registry): Engine {
    Engine(Cache.New(capacity), store, map[], false, hasMeta, saved)
  }

  /** The union of what the pinned roots refer to. */
  function PinnedCids(roots: Roots): set<Bytes> {
    set r, c | r in roots && c in roots[r] :: c
  }

  /** What the saved registry promises to keep. */
  function Protected(e: Engine): set<Bytes> {
    if e.hasMeta && e.saved.Saved? then PinnedCids(e.saved.roots) else {}
  }

  // ---- events ----

  /** `deleted` of the victims went before a deletion failed, or all of them. */
  datatype Eviction = Eviction(readable: bool, space: Option<Cache.Space>, victims: seq<Bytes>, deleted: nat)

  datatype Sweep = Sweep(
    readable: bool,
    space: Cache.Space,
    maxProbability: real,
    roll: Bytes -> real,
    victims: seq<Bytes>,
    failed: set<Bytes>)

  datatype Event =
    | Load(readable: bool)
    | Enforce(eviction: Eviction)
    | Decay(sweep: Sweep)
    | Store(cid: Bytes, data: Bytes)
    | Track(cid: Bytes, size: nat, position: Option<Cache.Position>)
    | Touch(cid: Bytes)
    | PinRoot(root: Bytes, cids: seq<Bytes>, written: bool)
    | UnpinRoot(root: Bytes, written: bool)
    | Restart(capacity: nat)

  /** First use reads the saved registry. Without a metadata store there is nothing to read. */
  predicate LoadFails(e: Engine, readable: bool) {
    !e.loaded && e.hasMeta && (!readable || e.saved.Unreadable?)
  }

  /** The saved registry can be read, has been, or there is none. */
  predicate Readable(e: Engine) {
    !LoadFails(e, true)
  }

  function Loaded(e: Engine, readable: bool): Engine {
    if e.loaded || !e.hasMeta || LoadFails(e, readable) then e
    else if e.saved.Absent? then e.(loaded := true)
    else e.(registry := e.saved.roots, loaded := true, cache := Cache.Pinned(e.cache, PinnedCids(e.saved.roots)))
  }

  function Deleted(e: Engine, cids: seq<Bytes>): Engine {
    e.(cache := Cache.Evicted(e.cache, cids), store := map c | c in e.store && c !in cids :: e.store[c])
  }

  predicate OverCapacity(e: Engine) {
    e.cache.usage > e.cache.capacity
  }

  /** The registry is read only when something is about to be evicted. */
  function EvictFrom(e: Engine, v: Eviction): Engine {
    if OverCapacity(e) then Loaded(e, v.readable) else e
  }

  predicate EvictBlocked(e: Engine, v: Eviction) {
    OverCapacity(e) && LoadFails(e, v.readable)
  }

  function Enforced(e: Engine, v: Eviction): Engine {
    if EvictBlocked(e, v) then e
    else Deleted(EvictFrom(e, v), v.victims[..Min(v.deleted, |v.victims|)])
  }

  predicate EnforceOk(e: Engine, v: Eviction) {
    !EvictBlocked(e, v) && v.deleted >= |v.victims|
  }

  ghost predicate EvictionAllowed(e: Engine, v: Eviction) {
    !EvictBlocked(e, v) ==> Cache.CapacityVictims(EvictFrom(e, v).cache, v.space, v.victims)
  }

  function Decayed(e: Engine, w: Sweep): Engine {
    if w.space.selves == [] || LoadFails(e, w.readable) then e
    else Deleted(Loaded(e, w.readable), Survivors(w.victims, w.failed))
  }

  /** The victims whose deletion succeeds. */
  function Survivors(victims: seq<Bytes>, failed: set<Bytes>): seq<Bytes> {
    if victims == [] then []
    else Survivors(victims[..|victims| - 1], failed)
         + (if victims[|victims| - 1] in failed then [] else [victims[|victims| - 1]])
  }

  ghost predicate SweepAllowed(e: Engine, w: Sweep) {
    w.space.selves != [] && !LoadFails(e, w.readable) ==>
      && Cache.Distinct(w.victims)
      && forall c :: c in w.victims <==> Cache.Decays(Loaded(e, w.readable).cache, w.space, w.maxProbability, w.roll, c)
  }

  function WithPins(e: Engine, roots: Roots): Engine {
    e.(registry := roots, cache := Cache.Pinned(e.cache, PinnedCids(roots)))
  }

  /** Blocks are named by the hash of their contents, as raw data or as a manifest. */
  predicate Matches(hash: Bytes -> Bytes, cid: Bytes, data: Bytes) {
    Cid.VerifyCid(hash, cid, data, Cid.MULTICODEC_RAW) || Cid.VerifyCid(hash, cid, data, Cid.MULTICODEC_DAG_CBOR)
  }

  ghost predicate Allowed(hash: Bytes -> Bytes, e: Engine, ev: Event) {
    match ev
    case Enforce(v) => EvictionAllowed(e, v)
    case Decay(w) => SweepAllowed(e, w)
    case Store(cid, data) => Matches(hash, cid, data)
    case Track(cid, size, _) => exists data :: |data| == size && Matches(hash, cid, data)
    case PinRoot(_, _, _) => e.loaded && e.hasMeta
    case UnpinRoot(_, _) => e.loaded && e.hasMeta
    case _ => true
  }

  /** Pinning protects before it saves; unpinning saves before it stops protecting. */
  function Step(e: Engine, ev: Event): Engine {
    match ev
    case Load(readable) => Loaded(e, readable)
    case Enforce(v) => Enforced(e, v)
    case Decay(w) => Decayed(e, w)
    case Store(cid, data) => e.(store := e.store[cid := data])
    case Track(cid, size, position) => e.(cache := Cache.Tracked(e.cache, cid, size, position))
    case Touch(cid) => e.(cache := Cache.Touched(e.cache, cid))
    case PinRoot(root, cids, written) =>
      var roots := e.registry[root := cids];
      var u := WithPins(e, roots);
      if written then u.(saved := Saved(roots)) else u
    case UnpinRoot(root, written) =>
      var roots := e.registry - {root};
      if written then WithPins(e, roots).(saved := Saved(roots)) else e.(registry := roots)
    case Restart(capacity) => New(capacity, e.store, e.hasMeta, e.saved)
  }

  function Run(e: Engine, events: seq<Event>): Engine
    decreases |events|
  {
    if events == [] then e else Step(Run(e, events[..|events| - 1]), events[|events| - 1])
  }

  ghost predicate AllowedRun(hash: Bytes -> Bytes, e: Engine, events: seq<Event>) {
    forall i :: 0 <= i < |events| ==> Allowed(hash, Run(e, events[..i]), events[i])
  }

  /** Every write to the metadata store in the run succeeds. */
  predicate AllWritten(events: seq<Event>) {
    forall i :: 0 <= i < |events| ==> Written(events[i])
  }

  predicate Written(ev: Event) {
    (ev.PinRoot? || ev.UnpinRoot?) ==> ev.written
  }

  // ---- what every run keeps ----

  ghost predicate PinsOk(e: Engine) {
    if e.loaded then
      && e.hasMeta && e.cache.pinned == PinnedCids(e.registry)
      && (e.saved == Saved(e.registry) || (e.saved.Absent? && e.registry == map[]))
    else e.registry == map[] && e.cache.pinned == {}
  }

  /** What the saved registry promises to keep is protected in memory, or has yet to be loaded. */
  predicate Covered(e: Engine) {
    if e.loaded then e.hasMeta && Protected(e) <= e.cache.pinned
    else e.registry == map[] && e.cache.pinned == {}
  }

  /** Every stored block is one its CID was computed from. */
  ghost predicate Sound(hash: Bytes -> Bytes, e: Engine) {
    forall c <- e.store :: Matches(hash, c, e.store[c])
  }

  /** Kept whether or not the metadata store can be written. */
  ghost predicate Accounted(e: Engine) {
    Cache.Inv(e.cache)
  }

  lemma {:induction false} SurvivorsAmong(victims: seq<Bytes>, failed: set<Bytes>)
    requires Cache.Distinct(victims)
    ensures Cache.Distinct(Survivors(victims, failed))
    ensures forall c :: c in Survivors(victims, failed) <==> c in victims && c !in failed
  {
    if victims != [] {
      var front, last := victims[..|victims| - 1], victims[|victims| - 1];
      assert victims == front + [last] && last !in front;
      SurvivorsAmong(front, failed);
      var kept := Survivors(front, failed);
      assert Survivors(victims, failed) == if last in failed then kept else kept + [last];
      hide Survivors;
    }
  }

  lemma DeletedOk(e: Engine, cids: seq<Bytes>)
    requires Accounted(e) && Cache.Distinct(cids) && (forall c <- cids :: c in e.cache.meta)
    ensures Accounted(Deleted(e, cids))
  {
    Cache.EvictedExactly(e.cache, cids);
  }

  /** What an eviction or a sweep deletes was tracked and not pinned once the registry had been read. */
  ghost predicate Deletes(e: Engine, m: Engine, u: Engine, cids: seq<Bytes>) {
    && u == Deleted(m, cids) && m.store == e.store && m.saved == e.saved && m.hasMeta == e.hasMeta
    && Cache.Distinct(cids) && (forall c <- cids :: Cache.Evictable(m.cache, c))
    && (m == e || m == Loaded(e, true))
  }

  lemma EnforceDeletes(e: Engine, v: Eviction)
    requires EvictionAllowed(e, v) && !EvictBlocked(e, v)
    ensures Deletes(e, EvictFrom(e, v), Enforced(e, v), v.victims[..Min(v.deleted, |v.victims|)])
  {
    hide Cache.InOrder, Cache.Evicted;
  }

  lemma DecayDeletes(e: Engine, w: Sweep)
    requires SweepAllowed(e, w) && w.space.selves != [] && !LoadFails(e, w.readable)
    ensures Deletes(e, Loaded(e, w.readable), Decayed(e, w), Survivors(w.victims, w.failed))
  {
    hide Cache.Evicted, Cache.Nearest;
    SurvivorsAmong(w.victims, w.failed);
  }

  /**
   A sweep of a node with a position, whose registry can be read, takes a tracked block out of store and
   cache exactly if it decays and its deletion does not fail; everything else stays.
   */
  lemma DecayExactly(e: Engine, w: Sweep, c: Bytes)
    requires Accounted(e) && SweepAllowed(e, w) && w.space.selves != [] && !LoadFails(e, w.readable) && c in e.cache.meta
    ensures
      var u := Decayed(e, w);
      var goes := Cache.Decays(Loaded(e, w.readable).cache, w.space, w.maxProbability, w.roll, c) && c !in w.failed;
      && (c in u.cache.meta <==> !goes)
      && (c in u.store <==> c in e.store && !goes)
      && (c in u.store ==> u.store[c] == e.store[c])
  {
    hide Cache.Decays, Cache.Evicted, PinnedCids;
    var m := Loaded(e, w.readable);
    PinnedInv(e, m);
    DecayDeletes(e, w);
    SurvivorsAmong(w.victims, w.failed);
    Cache.EvictedExactly(m.cache, Survivors(w.victims, w.failed));
  }

  lemma StepAccounted(hash: Bytes -> Bytes, e: Engine, ev: Event)
    requires Accounted(e) && Allowed(hash, e, ev)
    ensures Accounted(Step(e, ev))
  {
    hide Cache.Evicted, Matches, Survivors, SweepAllowed, EvictionAllowed, Cache.Inv;
    match ev
    case Enforce(v) =>
      if !EvictBlocked(e, v) {
        EnforceDeletes(e, v);
        PinnedInv(e, EvictFrom(e, v));
        DeletedOk(EvictFrom(e, v), v.victims[..Min(v.deleted, |v.victims|)]);
      }
    case Decay(w) =>
      if w.space.selves != [] && !LoadFails(e, w.readable) {
        DecayDeletes(e, w);
        PinnedInv(e, Loaded(e, w.readable));
        DeletedOk(Loaded(e, w.readable), Survivors(w.victims, w.failed));
      }
    case Track(cid, size, position) => Cache.TrackedInv(e.cache, cid, size, position);
    case Touch(cid) => Cache.TouchedInv(e.cache, cid);
    case Restart(capacity) => NewInv(capacity);
    case _ => PinnedInv(e, Step(e, ev));
  }

  lemma StepSound(hash: Bytes -> Bytes, e: Engine, ev: Event)
    requires Sound(hash, e) && Allowed(hash, e, ev)
    ensures Sound(hash, Step(e, ev))
  {
    hide Cache.Evicted, Matches, Survivors, SweepAllowed, EvictionAllowed, PinnedCids;
  }

  lemma NewInv(capacity: nat)
    ensures Cache.Inv(Cache.New(capacity))
  {
  }

  lemma PinnedInv(e: Engine, u: Engine)
    requires Cache.Inv(e.cache) && u.cache == e.cache.(pinned := u.cache.pinned)
    ensures Cache.Inv(u.cache)
  {
  }

  /** While metadata writes succeed, what memory protects is what the saved registry promises. */
  lemma StepPinsOk(e: Engine, ev: Event, hash: Bytes -> Bytes)
    requires Cache.Inv(e.cache) && PinsOk(e) && Allowed(hash, e, ev)
    requires Written(ev)
    ensures PinsOk(Step(e, ev))
  {
    hide Cache.Evicted, Survivors, PinnedCids, Matches, Cache.Inv;
    NoPins();
    match ev
    case Enforce(v) =>
      if !EvictBlocked(e, v) {
        assert PinsOk(EvictFrom(e, v));
        EnforceDeletes(e, v);
        EvictedPins(EvictFrom(e, v), Enforced(e, v), v.victims[..Min(v.deleted, |v.victims|)]);
      }
    case Decay(w) =>
      if w.space.selves != [] && !LoadFails(e, w.readable) {
        DecayDeletes(e, w);
        EvictedPins(Loaded(e, w.readable), Decayed(e, w), Survivors(w.victims, w.failed));
      }
    case _ =>
  }

  lemma NoPins()
    ensures PinnedCids(map[]) == {}
  {
  }

  lemma EvictedPins(m: Engine, u: Engine, cids: seq<Bytes>)
    requires u == Deleted(m, cids)
    ensures u.cache.pinned == m.cache.pinned && u.cache.capacity == m.cache.capacity
  {
    EvictedSame(m.cache, cids);
  }

  lemma {:induction false} EvictedSame(c: Cache.Cache, cids: seq<Bytes>)
    ensures Cache.Evicted(c, cids).pinned == c.pinned && Cache.Evicted(c, cids).capacity == c.capacity
    decreases |cids|
  {
    if cids != [] {
      EvictedSame(c, cids[..|cids| - 1]);
    }
  }

  // ---- pin safety ----

  /** A failed save of a pin must leave everything the saved registry lists protected in memory. */
  predicate Guarded(e: Engine, ev: Event) {
    ev.PinRoot? && !ev.written ==> Protected(e) <= PinnedCids(e.registry[ev.root := ev.cids])
  }

  /** One step keeps the saved promises covered exactly when it is guarded: only a failed pin can break them. */
  lemma StepCovered(hash: Bytes -> Bytes, e: Engine, ev: Event)
    requires Covered(e) && Allowed(hash, e, ev)
    ensures Covered(Step(e, ev)) <==> Guarded(e, ev)
  {
    hide Cache.Evicted, Survivors, PinnedCids, Matches, Cache.Inv, SweepAllowed, EvictionAllowed;
    NoPins();
    match ev
    case Enforce(v) =>
      if !EvictBlocked(e, v) {
        assert Covered(EvictFrom(e, v));
        EvictedPins(EvictFrom(e, v), Enforced(e, v), v.victims[..Min(v.deleted, |v.victims|)]);
      }
    case Decay(w) =>
      if w.space.selves != [] && !LoadFails(e, w.readable) {
        assert Covered(Loaded(e, w.readable));
        EvictedPins(Loaded(e, w.readable), Decayed(e, w), Survivors(w.victims, w.failed));
      }
    case _ =>
  }

  /** No eviction and no sweep deletes a block the saved registry protects, while it is covered. */
  lemma StepKeepsProtected(hash: Bytes -> Bytes, e: Engine, ev: Event, cid: Bytes)
    requires Covered(e) && Allowed(hash, e, ev)
    requires cid in e.store && cid in Protected(e)
    ensures cid in Step(e, ev).store
  {
    hide Cache.Evicted, Survivors, PinnedCids, Matches, Cache.Inv, SweepAllowed, EvictionAllowed;
    match ev
    case Enforce(v) =>
      if !EvictBlocked(e, v) {
        EnforceDeletes(e, v);
        if OverCapacity(e) {
          ProtectedPinned(e, v.readable, cid);
        } else {
          NothingEvicted(e, v);
        }
      }
    case Decay(w) =>
      if w.space.selves != [] && !LoadFails(e, w.readable) {
        DecayDeletes(e, w);
        ProtectedPinned(e, w.readable, cid);
      }
    case _ =>
  }

  lemma ProtectedPinned(e: Engine, readable: bool, cid: Bytes)
    requires Covered(e) && !LoadFails(e, readable) && cid in Protected(e)
    ensures cid in Loaded(e, readable).cache.pinned
  {
  }

  lemma NothingEvicted(e: Engine, v: Eviction)
    requires EvictionAllowed(e, v) && !OverCapacity(e)
    ensures v.victims == []
  {
    hide Cache.Chosen, Cache.Freed;
    assert Cache.LruNeed(e.cache) == 0 && Cache.SpatialNeed(e.cache) == 0;
  }

  lemma RunPrefix(hash: Bytes -> Bytes, e: Engine, events: seq<Event>)
    requires events != [] && AllowedRun(hash, e, events)
    ensures
      var front := events[..|events| - 1];
      AllowedRun(hash, e, front) && Allowed(hash, Run(e, front), events[|events| - 1])
  {
    hide Allowed, Run;
    var front := events[..|events| - 1];
    forall i | 0 <= i < |front|
      ensures Allowed(hash, Run(e, front[..i]), front[i])
    {
      assert front[..i] == events[..i];
      assert Allowed(hash, Run(e, events[..i]), events[i]);
    }
  }

  lemma {:induction false} RunAccounted(hash: Bytes -> Bytes, e: Engine, events: seq<Event>)
    requires Accounted(e) && AllowedRun(hash, e, events)
    ensures Accounted(Run(e, events))
    decreases |events|
  {
    hide Accounted, Step, Allowed, AllowedRun;
    if events != [] {
      RunPrefix(hash, e, events);
      RunAccounted(hash, e, events[..|events| - 1]);
      StepAccounted(hash, Run(e, events[..|events| - 1]), events[|events| - 1]);
    }
  }

  lemma {:induction false} RunSound(hash: Bytes -> Bytes, e: Engine, events: seq<Event>)
    requires Sound(hash, e) && AllowedRun(hash, e, events)
    ensures Sound(hash, Run(e, events))
    decreases |events|
  {
    hide Sound, Step, Allowed, AllowedRun;
    if events != [] {
      RunPrefix(hash, e, events);
      RunSound(hash, e, events[..|events| - 1]);
      StepSound(hash, Run(e, events[..|events| - 1]), events[|events| - 1]);
    }
  }

  lemma {:induction false} RunPinsOk(hash: Bytes -> Bytes, e: Engine, events: seq<Event>)
    requires Accounted(e) && PinsOk(e) && AllowedRun(hash, e, events) && AllWritten(events)
    ensures PinsOk(Run(e, events))
    decreases |events|
  {
    hide PinsOk, Step, Allowed, AllowedRun, Sound, Cache.Inv, Written;
    if events != [] {
      var front := events[..|events| - 1];
      RunPrefix(hash, e, events);
      RunPinsOk(hash, e, front);
      RunAccounted(hash, e, front);
      assert Written(events[|events| - 1]);
      StepPinsOk(Run(e, front), events[|events| - 1], hash);
    }
  }

  /** The block is protected at every point of the run, by whichever roots. */
  ghost predicate AlwaysProtected(e: Engine, events: seq<Event>, cid: Bytes) {
    forall i :: 0 <= i <= |events| ==> cid in Protected(Run(e, events[..i]))
  }

  ghost predicate GuardedRun(e: Engine, events: seq<Event>) {
    forall i :: 0 <= i < |events| ==> Guarded(Run(e, events[..i]), events[i])
  }

  lemma {:induction false} RunCovered(hash: Bytes -> Bytes, e: Engine, events: seq<Event>)
    requires Covered(e) && AllowedRun(hash, e, events) && GuardedRun(e, events)
    ensures Covered(Run(e, events))
    decreases |events|
  {
    hide Covered, Step, Allowed, AllowedRun, Guarded;
    if events != [] {
      var front := events[..|events| - 1];
      RunPrefix(hash, e, events);
      GuardedPrefix(e, events);
      RunCovered(hash, e, front);
      StepCovered(hash, Run(e, front), events[|events| - 1]);
    }
  }

  lemma GuardedPrefix(e: Engine, events: seq<Event>)
    requires events != [] && GuardedRun(e, events)
    ensures
      var front := events[..|events| - 1];
      GuardedRun(e, front) && Guarded(Run(e, front), events[|events| - 1])
  {
    hide Guarded, Run;
    var front := events[..|events| - 1];
    forall i | 0 <= i < |front|
      ensures Guarded(Run(e, front[..i]), front[i])
    {
      assert front[..i] == events[..i];
      assert Guarded(Run(e, events[..i]), events[i]);
    }
  }

  /**
   Pin safety: in every guarded run, from a fresh engine or through any restart, with metadata writes
   failing or not, a stored block that stays protected stays stored.
   */
  lemma {:induction false} PinSafety(hash: Bytes -> Bytes, e: Engine, events: seq<Event>, cid: Bytes)
    requires Covered(e) && AllowedRun(hash, e, events) && GuardedRun(e, events)
    requires cid in e.store && AlwaysProtected(e, events, cid)
    ensures cid in Run(e, events).store
    decreases |events|
  {
    hide Covered, Step, Allowed, AllowedRun, Protected, Guarded;
    if events != [] {
      var front := events[..|events| - 1];
      RunPrefix(hash, e, events);
      GuardedPrefix(e, events);
      assert forall i :: 0 <= i <= |front| ==> front[..i] == events[..i];
      PinSafety(hash, e, front, cid);
      RunCovered(hash, e, front);
      assert cid in Protected(Run(e, events[..|front|]));
      StepKeepsProtected(hash, Run(e, front), events[|events| - 1], cid);
    }
  }

  // ---- the guard as a caller sees it ----

  /** Since the last failed save of an unpin there was no successful save and no restart. */
  predicate Behind(events: seq<Event>) {
    if events == [] then false
    else
      var last := events[|events| - 1];
      if last.UnpinRoot? then !last.written
      else if last.Restart? || (last.PinRoot? && last.written) then false
      else Behind(events[..|events| - 1])
  }

  /** No pin fails to be saved while a failed unpin is outstanding. */
  ghost predicate Orderly(events: seq<Event>) {
    forall i :: 0 <= i < |events| && events[i].PinRoot? && !events[i].written ==> !Behind(events[..i])
  }

  /** A root pinned again lists at least the blocks it listed: a manifest CID names one list of chunks. */
  ghost predicate SameLists(e: Engine, events: seq<Event>) {
    forall i :: 0 <= i < |events| && events[i].PinRoot? ==> ListsAgain(Run(e, events[..i]), events[i])
  }

  predicate ListsAgain(e: Engine, ev: Event)
    requires ev.PinRoot?
  {
    ev.root in e.registry ==> forall c <- e.registry[ev.root] :: c in ev.cids
  }

  /** Memory has every saved root, with every block saved for it. */
  predicate Ahead(e: Engine) {
    e.loaded && e.saved.Saved? ==>
      forall r <- e.saved.roots :: r in e.registry && forall c <- e.saved.roots[r] :: c in e.registry[r]
  }

  lemma StepAhead(hash: Bytes -> Bytes, e: Engine, ev: Event)
    requires Covered(e) && Allowed(hash, e, ev) && (ev.PinRoot? ==> ListsAgain(e, ev))
    requires Ahead(e) || ((ev.PinRoot? || ev.UnpinRoot?) && ev.written) || ev.Restart?
    requires !(ev.UnpinRoot? && !ev.written)
    ensures Ahead(Step(e, ev))
  {
    hide Cache.Evicted, Survivors, PinnedCids, Matches, SweepAllowed, EvictionAllowed;
  }

  lemma AheadGuards(e: Engine, ev: Event)
    requires Ahead(e) && e.loaded && ev.PinRoot? && ListsAgain(e, ev)
    ensures Guarded(e, ev)
  {
    var roots := e.registry[ev.root := ev.cids];
    forall c | c in Protected(e)
      ensures c in PinnedCids(roots)
    {
      var r :| r in e.saved.roots && c in e.saved.roots[r];
      PinnedBy(roots, r, c);
    }
  }

  lemma {:induction false} OrderlyGuards(hash: Bytes -> Bytes, e: Engine, events: seq<Event>)
    requires Covered(e) && Ahead(e) && AllowedRun(hash, e, events) && Orderly(events) && SameLists(e, events)
    ensures GuardedRun(e, events)
    ensures !Behind(events) ==> Ahead(Run(e, events))
    decreases |events|
  {
    hide Covered, Ahead, Step, Allowed, AllowedRun, Guarded, ListsAgain;
    if events != [] {
      var n := |events| - 1;
      var front, last := events[..n], events[n];
      assert forall i :: 0 <= i <= n ==> front[..i] == events[..i];
      RunPrefix(hash, e, events);
      OrderlyGuards(hash, e, front);
      RunCovered(hash, e, front);
      assert Guarded(Run(e, front), last) by {
        AllowedPin(hash, Run(e, front), last);
        if last.PinRoot? && !last.written {
          AheadGuards(Run(e, front), last);
        } else {
          SavedGuards(Run(e, front), last);
        }
      }
      forall i | 0 <= i < |events|
        ensures Guarded(Run(e, events[..i]), events[i])
      {
        assert i < n ==> Guarded(Run(e, front[..i]), front[i]);
      }
      if !Behind(events) {
        StepAhead(hash, Run(e, front), last);
      }
    }
  }

  lemma SavedGuards(e: Engine, ev: Event)
    requires !(ev.PinRoot? && !ev.written)
    ensures Guarded(e, ev)
  {
  }

  lemma AllowedPin(hash: Bytes -> Bytes, e: Engine, ev: Event)
    requires Allowed(hash, e, ev)
    ensures ev.PinRoot? ==> e.loaded
  {
  }

  /**
   Pinned blocks survive every run in which no pin fails to be saved after a failed unpin, without a
   successful save or a restart between: in particular every run with a single failed save.
   */
  lemma OrderlyPinSafety(hash: Bytes -> Bytes, e: Engine, events: seq<Event>, cid: Bytes)
    requires Covered(e) && Ahead(e) && AllowedRun(hash, e, events) && Orderly(events) && SameLists(e, events)
    requires cid in e.store && AlwaysProtected(e, events, cid)
    ensures cid in Run(e, events).store
  {
    OrderlyGuards(hash, e, events);
    PinSafety(hash, e, events, cid);
  }

  /** A fresh engine, over whatever an earlier process stored and saved, starts safe. */
  lemma FreshEngineSafe(capacity: nat, store: map<Bytes, Bytes>, hasMeta: bool, saved: Registry)
    ensures Covered(New(capacity, store, hasMeta, saved)) && Ahead(New(capacity, store, hasMeta, saved))
    ensures PinsOk(New(capacity, store, hasMeta, saved)) && Accounted(New(capacity, store, hasMeta, saved))
  {
    NewInv(capacity);
  }

  /** After an unpin exactly what the other roots refer to is protected: a shared block until its last root goes. */
  lemma UnpinKeepsShared(e: Engine, root: Bytes, cid: Bytes)
    requires PinsOk(e) && e.loaded && e.saved.Saved?
    ensures cid in Protected(Step(e, UnpinRoot(root, true)))
       <==> exists r :: r in e.saved.roots && r != root && cid in e.saved.roots[r]
  {
    var roots := e.registry - {root};
    forall r | r in e.saved.roots && r != root && cid in e.saved.roots[r]
      ensures cid in PinnedCids(roots)
    {
      PinnedBy(roots, r, cid);
    }
  }

  lemma PinnedBy(roots: Roots, root: Bytes, cid: Bytes)
    requires root in roots && cid in roots[root]
    ensures cid in PinnedCids(roots)
  {
  }

  /** Only an unpin of a root, or pinning it again, changes what it protects. */
  lemma RootStaysSaved(hash: Bytes -> Bytes, e: Engine, ev: Event, root: Bytes)
    requires PinsOk(e) && e.hasMeta && e.saved.Saved? && root in e.saved.roots && Allowed(hash, e, ev) && Written(ev)
    requires !(ev.PinRoot? && ev.root == root) && !(ev.UnpinRoot? && ev.root == root)
    ensures
      var u := Step(e, ev);
      u.hasMeta && u.saved.Saved? && root in u.saved.roots && u.saved.roots[root] == e.saved.roots[root]
  {
    hide Cache.Evicted, PinnedCids, Matches, Cache.Inv, SweepAllowed, EvictionAllowed;
  }

  // ---- while the process runs ----

  /** What memory protects is not deleted, whatever the saved registry says. */
  lemma StepKeepsPinned(hash: Bytes -> Bytes, e: Engine, ev: Event, cid: Bytes)
    requires Allowed(hash, e, ev) && e.loaded && !ev.Restart? && cid in e.store && cid in e.cache.pinned
    ensures cid in Step(e, ev).store
  {
    hide Cache.Evicted, Survivors, PinnedCids, Matches, SweepAllowed, EvictionAllowed;
    match ev
    case Enforce(v) =>
      if !EvictBlocked(e, v) {
        EnforceDeletes(e, v);
      }
    case Decay(w) =>
      if w.space.selves != [] && !LoadFails(e, w.readable) {
        DecayDeletes(e, w);
      }
    case _ =>
  }

  /** The root is pinned in memory with this block, and the block is protected. */
  predicate Holds(e: Engine, root: Bytes, cid: Bytes) {
    e.loaded && root in e.registry && cid in e.registry[root] && cid in e.cache.pinned
  }

  /** Neither a restart, nor an unpin of the root, nor a pin of it without the block. */
  predicate Spares(ev: Event, root: Bytes, cid: Bytes) {
    && !ev.Restart? && !(ev.UnpinRoot? && ev.root == root)
    && (ev.PinRoot? && ev.root == root ==> cid in ev.cids)
  }

  lemma StepHolds(hash: Bytes -> Bytes, e: Engine, ev: Event, root: Bytes, cid: Bytes)
    requires Holds(e, root, cid) && Allowed(hash, e, ev) && Spares(ev, root, cid)
    ensures Holds(Step(e, ev), root, cid)
  {
    hide Cache.Evicted, Survivors, PinnedCids, Matches, SweepAllowed, EvictionAllowed;
    match ev
    case Enforce(v) =>
      if !EvictBlocked(e, v) {
        EvictedPins(EvictFrom(e, v), Enforced(e, v), v.victims[..Min(v.deleted, |v.victims|)]);
      }
    case Decay(w) =>
      if w.space.selves != [] && !LoadFails(e, w.readable) {
        EvictedPins(Loaded(e, w.readable), Decayed(e, w), Survivors(w.victims, w.failed));
      }
    case PinRoot(r, cids, _) => PinnedBy(e.registry[r := cids], root, cid);
    case UnpinRoot(r, written) =>
      if r != root {
        PinnedBy(e.registry - {r}, root, cid);
      }
    case _ =>
  }

  lemma {:induction false} RunHolds(hash: Bytes -> Bytes, e: Engine, events: seq<Event>, root: Bytes, cid: Bytes)
    requires Holds(e, root, cid) && cid in e.store && AllowedRun(hash, e, events)
    requires forall i :: 0 <= i < |events| ==> Spares(events[i], root, cid)
    ensures Holds(Run(e, events), root, cid) && cid in Run(e, events).store
    decreases |events|
  {
    hide Step, Allowed, AllowedRun, Spares;
    if events != [] {
      var front, last := events[..|events| - 1], events[|events| - 1];
      RunPrefix(hash, e, events);
      RunHolds(hash, e, front, root, cid);
      assert Spares(last, root, cid);
      StepHolds(hash, Run(e, front), last, root, cid);
      assert !last.Restart? by { SparesRestart(last, root, cid); }
      StepKeepsPinned(hash, Run(e, front), last, cid);
    }
  }

  lemma SparesRestart(ev: Event, root: Bytes, cid: Bytes)
    requires Spares(ev, root, cid)
    ensures !ev.Restart?
  {
  }

  lemma PinHolds(e: Engine, root: Bytes, cids: seq<Bytes>, written: bool, cid: Bytes)
    requires e.loaded && cid in cids
    ensures
      var u := Step(e, PinRoot(root, cids, written));
      Holds(u, root, cid) && u.store == e.store
  {
    hide PinnedCids;
    PinnedBy(e.registry[root := cids], root, cid);
  }

  /**
   A pin protects the blocks it lists in the running process even when its save fails, through every
   later step, failing or not, until the root is unpinned, pinned without the block, or lost to a restart.
   */
  lemma FailedPinProtects(
    hash: Bytes -> Bytes, e: Engine, root: Bytes, cids: seq<Bytes>, written: bool, events: seq<Event>, cid: Bytes)
    requires e.loaded && e.hasMeta && cid in cids && cid in e.store
    requires AllowedRun(hash, Step(e, PinRoot(root, cids, written)), events)
    requires forall i :: 0 <= i < |events| ==> Spares(events[i], root, cid)
    ensures cid in Run(Step(e, PinRoot(root, cids, written)), events).store
  {
    hide Step, Holds, AllowedRun, Run, Spares;
    PinHolds(e, root, cids, written, cid);
    RunHolds(hash, Step(e, PinRoot(root, cids, written)), events, root, cid);
  }

  predicate SavedLists(e: Engine, root: Bytes) {
    e.hasMeta && e.saved.Saved? && root in e.saved.roots
  }

  /**
   After a pin whose save failed the root counts as pinned, so that asking again changes nothing; the
   saved registry is as it was, and a restart protects no more than it lists.
   */
  lemma FailedPinIsNotSaved(e: Engine, root: Bytes, cids: seq<Bytes>, capacity: nat)
    requires e.loaded && e.hasMeta && !SavedLists(e, root)
    ensures
      var u := Step(e, PinRoot(root, cids, false));
      && root in u.registry && !SavedLists(u, root)
      && Protected(Step(u, Restart(capacity))) == Protected(e)
      && (e.saved.Absent? ==> Protected(Step(u, Restart(capacity))) == {})
  {
  }

  /** A complete eviction ends within the capacity, or with nothing left that is not pinned. */
  lemma EnforcementSuffices(e: Engine, v: Eviction)
    requires Accounted(e) && EvictionAllowed(e, v) && EnforceOk(e, v)
    ensures
      var u := Enforced(e, v);
      u.cache.usage <= u.cache.capacity || forall c <- u.cache.meta :: c in u.cache.pinned
  {
    hide Cache.Evicted, Cache.CapacityVictims;
    PinnedInv(e, EvictFrom(e, v));
    assert v.victims[..Min(v.deleted, |v.victims|)] == v.victims;
    Cache.EvictionSuffices(EvictFrom(e, v).cache, v.space, v.victims);
  }

  lemma OnePin(root: Bytes, cid: Bytes)
    ensures PinnedCids(map[root := [cid]]) == {cid}
  {
    PinnedBy(map[root := [cid]], root, cid);
  }

  lemma RunFour(e: Engine, events: seq<Event>)
    requires |events| == 4
    ensures Run(e, events[..1]) == Step(e, events[0]) && Run(e, events[..2]) == Step(Step(e, events[0]), events[1])
    ensures Run(e, events[..3]) == Step(Step(Step(e, events[0]), events[1]), events[2])
    ensures Run(e, events) == Step(Run(e, events[..3]), events[3])
  {
    hide Step;
    assert events[..3][..2] == events[..2] && events[..2][..1] == events[..1] && events[..1][..0] == [];
    assert Run(e, events[..1]) == Step(e, events[0]);
    assert Run(e, events[..2]) == Step(Run(e, events[..1]), events[1]);
  }

  lemma SingleVictim(c: Cache.Cache, cid: Bytes)
    requires c.meta == map[cid := Cache.Meta(1, 1, None)] && cid !in c.pinned && c.usage == 1 && c.capacity == 0
    ensures Cache.CapacityVictims(c, None, [cid])
  {
    assert [cid][..0] == [];
  }

  /**
   A real run with two failed saves: a block of one byte, listed by the saved registry, is given up
   after an unpin and a pin that both failed to be saved. The second one is where the guard fails.
   */
  lemma FailedSavesUnprotect(hash: Bytes -> Bytes, root: Bytes, other: Bytes) returns (e: Engine, events: seq<Event>)
    requires root != other && other != Cid.ComputeCid(hash, [0], Cid.MULTICODEC_RAW)
    ensures
      var cid := Cid.ComputeCid(hash, [0], Cid.MULTICODEC_RAW);
      && Accounted(e) && Sound(hash, e) && PinsOk(e) && e.saved == Saved(map[root := [cid]]) && e.store == map[cid := [0]]
      && events == [Track(cid, 1, None), UnpinRoot(root, false), PinRoot(other, [other], false),
                    Enforce(Eviction(true, None, [cid], 1))]
      && AllowedRun(hash, e, events) && !Guarded(Run(e, events[..2]), events[2])
      && cid in Protected(Run(e, events)) && cid !in Run(e, events).store
  {
    hide Cid.ComputeCid, Cache.CapacityVictims, PinnedCids, Guarded, EvictionAllowed, Protected, AllowedRun;
    var cid := Cid.ComputeCid(hash, [0], Cid.MULTICODEC_RAW);
    e := Loaded(New(0, map[cid := [0]], true, Saved(map[root := [cid]])), true);
    events := [Track(cid, 1, None), UnpinRoot(root, false), PinRoot(other, [other], false),
               Enforce(Eviction(true, None, [cid], 1))];
    NewInv(0);
    OnePin(root, cid);
    var c := Step(Step(Step(e, events[0]), events[1]), events[2]);
    RunFour(e, events);
    ExampleState(e, events, root, other, cid);
    GivesUp(c, other, cid);
    ExampleAllowed(hash, e, events, cid);
    Unguarded(Step(Step(e, events[0]), events[1]), events[2], cid);
    assert cid in Protected(Run(e, events)) by { ExampleProtected(Run(e, events), root, cid); }
  }

  lemma Unguarded(e: Engine, ev: Event, cid: Bytes)
    requires ev.PinRoot? && !ev.written && cid in Protected(e) && cid !in PinnedCids(e.registry[ev.root := ev.cids])
    ensures !Guarded(e, ev)
  {
  }

  /** Where the example stands before the capacity is enforced. */
  lemma ExampleState(e: Engine, events: seq<Event>, root: Bytes, other: Bytes, cid: Bytes)
    requires |events| == 4 && root != other && other != cid
    requires e == Loaded(New(0, map[cid := [0]], true, Saved(map[root := [cid]])), true)
    requires events[..3] == [Track(cid, 1, None), UnpinRoot(root, false), PinRoot(other, [other], false)]
    ensures
      var b := Step(Step(e, events[0]), events[1]);
      var c := Step(b, events[2]);
      && c.registry == map[other := [other]] && c.cache.pinned == {other} && c.loaded && c.hasMeta
      && c.cache.usage == 1 && c.cache.capacity == 0 && c.cache.meta == map[cid := Cache.Meta(1, 1, None)]
      && c.saved == Saved(map[root := [cid]])
      && cid in Protected(b) && cid !in PinnedCids(b.registry[other := [other]])
  {
    hide PinnedCids;
    OnePin(root, cid);
    OnePin(other, other);
    assert events[0] == events[..3][0] && events[1] == events[..3][1] && events[2] == events[..3][2];
    var b := Step(Step(e, events[0]), events[1]);
    assert b.registry == map[] && b.registry[other := [other]] == map[other := [other]];
  }

  lemma GivesUp(c: Engine, other: Bytes, cid: Bytes)
    requires c.cache.pinned == {other} && c.loaded && other != cid
    requires c.cache.usage == 1 && c.cache.capacity == 0 && c.cache.meta == map[cid := Cache.Meta(1, 1, None)]
    ensures
      var v := Eviction(true, None, [cid], 1);
      EvictionAllowed(c, v) && cid !in Enforced(c, v).store && Enforced(c, v).saved == c.saved && Enforced(c, v).hasMeta == c.hasMeta
  {
    hide Cache.CapacityVictims, Cache.Evicted;
    SingleVictim(c.cache, cid);
    assert [cid][..1] == [cid];
  }

  lemma ExampleProtected(u: Engine, root: Bytes, cid: Bytes)
    requires u.hasMeta && u.saved == Saved(map[root := [cid]])
    ensures cid in Protected(u)
  {
    OnePin(root, cid);
  }

  lemma AllowedTrack(hash: Bytes -> Bytes, e: Engine, cid: Bytes, data: Bytes, position: Option<Cache.Position>)
    requires Matches(hash, cid, data)
    ensures Allowed(hash, e, Track(cid, |data|, position))
  {
  }

  lemma ExampleAllowed(hash: Bytes -> Bytes, e: Engine, events: seq<Event>, cid: Bytes)
    requires |events| == 4 && Matches(hash, cid, [0]) && e.loaded && e.hasMeta
    requires events[0] == Track(cid, 1, None) && events[1].UnpinRoot? && events[2].PinRoot? && events[3].Enforce?
    requires EvictionAllowed(Run(e, events[..3]), events[3].eviction)
    ensures AllowedRun(hash, e, events)
  {
    hide Matches, EvictionAllowed, Run;
    RunFour(e, events);
    AllowedTrack(hash, e, cid, [0], None);
    var a := Step(e, events[0]);
    var b := Step(a, events[1]);
    assert Allowed(hash, a, events[1]) && Allowed(hash, b, events[2]);
    FourAllowed(hash, e, events);
  }

  lemma FourAllowed(hash: Bytes -> Bytes, e: Engine, events: seq<Event>)
    requires |events| == 4 && Allowed(hash, e, events[0]) && Allowed(hash, Run(e, events[..1]), events[1])
    requires Allowed(hash, Run(e, events[..2]), events[2]) && Allowed(hash, Run(e, events[..3]), events[3])
    ensures AllowedRun(hash, e, events)
  {
    hide Allowed, Step;
    assert events[..0] == [];
  }
}
