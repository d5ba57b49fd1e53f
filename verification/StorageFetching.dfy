/**
 Getting blocks that are partly stored and partly with peers, while each block that is fetched may
 drive out another one: which blocks are sure to be there when their turn comes.
 */
module StorageFetching {
  import opened Common
  import opened StorageModel
  import opened StorageFiling
  import Cache = BlockCache
  import Cid

  /** What peers answer when asked for a block, each time they are asked. */
  datatype Peers = Peers(hash: Bytes -> Bytes, answer: (nat, Bytes) -> Option<Bytes>)

  /** A block to get: its name, and whether it is raw data or a manifest. */
  datatype Wanted = Wanted(cid: Bytes, codec: nat)

  predicate Answered(hash: Bytes -> Bytes, w: Wanted, answer: Option<Bytes>) {
    answer.Some? && Cid.VerifyCid(hash, w.cid, answer.value, w.codec)
  }

  /** Peers have the block, and answer with it whenever they are asked. */
  ghost predicate Held(peers: Peers, w: Wanted) {
    forall n: nat :: Answered(peers.hash, w, peers.answer(n, w.cid))
  }

  // ---- one fetch ----

  function Admitted(e: Engine, cid: Bytes, data: Bytes, position: Option<Cache.Position>): Engine {
    e.(cache := Cache.Tracked(e.cache, cid, |data|, position))
  }

  /** Tracked, then the capacity enforced, then stored. */
  function Fetched(e: Engine, cid: Bytes, data: Bytes, position: Option<Cache.Position>, v: Eviction): Engine {
    var m := Enforced(Admitted(e, cid, data, position), v);
    m.(store := m.store[cid := data])
  }

  ghost predicate FetchOk(e: Engine, cid: Bytes, data: Bytes, position: Option<Cache.Position>, v: Eviction) {
    EvictionAllowed(Admitted(e, cid, data, position), v) && EnforceOk(Admitted(e, cid, data, position), v)
  }

  function Local(e: Engine, cid: Bytes): Engine {
    e.(cache := Cache.Touched(e.cache, cid))
  }

  /** Nothing evicts the block: it is not tracked, or it is pinned, as the registry says once it is read. */
  predicate Secure(e: Engine, cid: Bytes) {
    cid in e.store && (cid !in e.cache.meta || cid in Loaded(e, true).cache.pinned)
  }

  lemma AdmittedAccounted(e: Engine, cid: Bytes, data: Bytes, position: Option<Cache.Position>)
    requires Accounted(e)
    ensures Accounted(Admitted(e, cid, data, position))
    ensures Admitted(e, cid, data, position).cache.usage <= e.cache.usage + |data|
  {
    Cache.TrackedInv(e.cache, cid, |data|, position);
  }

  lemma FetchedAccounted(e: Engine, cid: Bytes, data: Bytes, position: Option<Cache.Position>, v: Eviction)
    requires Accounted(e) && FetchOk(e, cid, data, position, v)
    ensures Accounted(Fetched(e, cid, data, position, v))
    ensures Readable(e) ==> Readable(Fetched(e, cid, data, position, v))
  {
    hide Cache.Inv, EvictionAllowed, Cache.Evicted, Cache.Tracked;
    AdmittedAccounted(e, cid, data, position);
    EnforcedAccounted(Admitted(e, cid, data, position), v);
  }

  lemma Reading(e: Engine, v: Eviction)
    requires EvictionAllowed(e, v) && EnforceOk(e, v)
    ensures Loaded(EvictFrom(e, v), true) == Loaded(e, true)
    ensures v.victims != [] ==> EvictFrom(e, v) == Loaded(e, true)
  {
    hide PinnedCids, Cache.CapacityVictims;
    if !OverCapacity(e) {
      NothingEvicted(e, v);
    }
  }

  lemma SecureAdmitted(e: Engine, cid: Bytes, data: Bytes, position: Option<Cache.Position>, c: Bytes)
    requires Secure(e, c) && cid != c
    ensures Secure(Admitted(e, cid, data, position), c)
  {
    hide PinnedCids;
  }

  lemma SecureEnforced(e: Engine, v: Eviction, c: Bytes)
    requires Accounted(e) && EvictionAllowed(e, v) && EnforceOk(e, v) && Secure(e, c)
    ensures Secure(Enforced(e, v), c)
  {
    hide Cache.CapacityVictims, EvictionAllowed, EvictFrom, Loaded, PinnedCids;
    var m := EvictFrom(e, v);
    assert v.victims[..|v.victims|] == v.victims;
    EnforceDeletes(e, v);
    Reading(e, v);
    FromAccounted(e, v);
    DeletedLoaded(m, v.victims);
    SecureFrom(e, m, v.victims, c);
  }

  lemma FromAccounted(e: Engine, v: Eviction)
    requires Accounted(e)
    ensures Accounted(EvictFrom(e, v)) && EvictFrom(e, v).store == e.store
    ensures EvictFrom(e, v).cache == e.cache.(pinned := EvictFrom(e, v).cache.pinned)
  {
    hide PinnedCids;
    PinnedInv(e, EvictFrom(e, v));
  }

  /** Deleting blocks and reading the registry can change places. */
  lemma DeletedLoaded(m: Engine, victims: seq<Bytes>)
    ensures Loaded(Deleted(m, victims), true).cache.pinned == Loaded(m, true).cache.pinned
  {
    hide PinnedCids;
    EvictedPins(m, Deleted(m, victims), victims);
  }

  lemma SecureFrom(e: Engine, m: Engine, victims: seq<Bytes>, c: Bytes)
    requires Secure(e, c) && Accounted(m) && m.store == e.store && m.cache.meta == e.cache.meta
    requires Loaded(m, true) == Loaded(e, true) && (victims != [] ==> m == Loaded(e, true))
    requires Cache.Distinct(victims) && forall v <- victims :: Cache.Evictable(m.cache, v)
    requires Loaded(Deleted(m, victims), true).cache.pinned == Loaded(m, true).cache.pinned
    ensures Secure(Deleted(m, victims), c)
  {
    hide Loaded, Cache.Evicted, Cache.Inv;
    Cache.EvictedExactly(m.cache, victims);
  }

  /** A secure block stays where it is, and secure, through the fetch of another one. */
  lemma SecureStays(e: Engine, cid: Bytes, data: Bytes, position: Option<Cache.Position>, v: Eviction, c: Bytes)
    requires Accounted(e) && FetchOk(e, cid, data, position, v) && Secure(e, c) && cid !in e.store
    ensures Secure(Fetched(e, cid, data, position, v), c)
  {
    hide EvictionAllowed, EnforceOk, Enforced, Loaded, Admitted;
    var m := Admitted(e, cid, data, position);
    AdmittedAccounted(e, cid, data, position);
    SecureAdmitted(e, cid, data, position, c);
    SecureEnforced(m, v, c);
    SecureStored(Enforced(m, v), cid, data, c);
  }

  lemma SecureStored(e: Engine, cid: Bytes, data: Bytes, c: Bytes)
    requires Secure(e, c)
    ensures Secure(e.(store := e.store[cid := data]), c)
  {
    hide PinnedCids;
  }

  lemma LocalStays(e: Engine, cid: Bytes, c: Bytes)
    requires Secure(e, c)
    ensures Secure(Local(e, cid), c)
  {
    hide PinnedCids;
  }

  /**
   What one fetch with victims by age does to a block that is stored and tracked: it stays exactly when
   it is pinned, or when it fits, with the new block, beside what is pinned or no older than it.
   */
  lemma FetchKeepsExactly(e: Engine, cid: Bytes, data: Bytes, v: Eviction, c: Bytes)
    requires Accounted(e) && Readable(e) && FetchOk(e, cid, data, None, v) && v.space.None?
    requires cid !in e.store && cid !in e.cache.meta && c in e.store && c in e.cache.meta
    ensures c in Fetched(e, cid, data, None, v).store <==> c in Loaded(e, true).cache.pinned || Beside(e, |data|, c)
  {
    hide Cache.CapacityVictims, Cache.Evicted, Cache.Tracked, Cache.Recent, PinnedCids, Sum;
    var m := Loaded(e, true);
    LoadedAlready(e);
    FetchLoaded(e, cid, data, None, v);
    LoadedStore(Fetched(e, cid, data, None, v));
    assert v.victims[..|v.victims|] == v.victims;
    AdmittedAccounted(m, cid, data, None);
    NewRecent(m.cache, cid, |data|, c);
    var n := Admitted(m, cid, data, None);
    if c !in m.cache.pinned {
      Cache.LruSpares(n.cache, v.victims, c);
    } else {
      EnforceDeletes(n, v);
    }
  }

  /** The block fits, with this many new bytes, beside what is pinned or no older than it. */
  ghost predicate Beside(e: Engine, bytes: nat, c: Bytes)
    requires c in e.cache.meta
  {
    Sum(Cache.Recent(Loaded(e, true).cache, e.cache.meta[c].lastAccessed), Cache.SizeOf) + bytes <= e.cache.capacity
  }

  lemma NewRecent(c: Cache.Cache, cid: Bytes, size: nat, x: Bytes)
    requires Cache.Inv(c) && cid !in c.meta && x in c.meta
    ensures
      var u := Cache.Tracked(c, cid, size, None);
      var t := c.meta[x].lastAccessed;
      && u.capacity == c.capacity && u.pinned == c.pinned && x in u.meta && u.meta[x] == c.meta[x]
      && Sum(Cache.Recent(u, t), Cache.SizeOf) == Sum(Cache.Recent(c, t), Cache.SizeOf) + size
  {
    var u, t := Cache.Tracked(c, cid, size, None), c.meta[x].lastAccessed;
    assert Cache.Recent(u, t) == Cache.Recent(c, t)[cid := Cache.Meta(c.clock + 1, size, None)];
    SumUpdate(Cache.Recent(c, t), Cache.SizeOf, cid, Cache.Meta(c.clock + 1, size, None));
  }

  /** A fetch comes to the same whether the registry is read before it or by it. */
  lemma FetchLoaded(e: Engine, cid: Bytes, data: Bytes, position: Option<Cache.Position>, v: Eviction)
    requires Readable(e) && FetchOk(e, cid, data, position, v)
    ensures FetchOk(Loaded(e, true), cid, data, position, v)
    ensures Fetched(Loaded(e, true), cid, data, position, v) == Loaded(Fetched(e, cid, data, position, v), true)
    ensures EvictFrom(Admitted(Loaded(e, true), cid, data, position), v) == Admitted(Loaded(e, true), cid, data, position)
  {
    hide EvictionAllowed, EnforceOk, Enforced;
    var m := Admitted(e, cid, data, position);
    assert Admitted(Loaded(e, true), cid, data, position) == Loaded(m, true) && Readable(m) by { hide PinnedCids; }
    EnforcedLoaded(m, v);
    StoredLoaded(Enforced(m, v), cid, data);
  }

  lemma StoredLoaded(e: Engine, cid: Bytes, data: Bytes)
    ensures var u := Loaded(e, true); u.(store := u.store[cid := data]) == Loaded(e.(store := e.store[cid := data]), true)
  {
    hide PinnedCids;
  }

  /**
   So it is not enough that every block to get is stored or with peers: while one of them is fetched,
   another one that no peer has can be lost before its turn.
   */
  lemma LostBeforeItsTurn(peers: Peers, e: Engine, w: Wanted, n: nat, c: Bytes) returns (v: Eviction)
    requires Accounted(e) && Readable(e) && Held(peers, w) && w.cid !in e.store && w.cid !in e.cache.meta
    requires c in e.store && c in e.cache.meta && c !in Loaded(e, true).cache.pinned
    requires !Beside(e, |peers.answer(n, w.cid).value|, c)
    ensures
      var data := peers.answer(n, w.cid).value;
      FetchOk(e, w.cid, data, None, v) && v.space.None? && c !in Fetched(e, w.cid, data, None, v).store
  {
    hide Cache.CapacityVictims, Fetched, Loaded, Beside;
    var data := peers.answer(n, w.cid).value;
    v := FetchByAge(e, w.cid, data);
    FetchKeepsExactly(e, w.cid, data, v, c);
  }

  /** A fetch is possible whenever the registry can be read. */
  lemma FetchByAge(e: Engine, cid: Bytes, data: Bytes) returns (v: Eviction)
    requires Readable(e)
    ensures FetchOk(e, cid, data, None, v) && v.space.None?
  {
    hide Cache.CapacityVictims;
    v := Eviction(true, None, [], 0);
    var m := Admitted(e, cid, data, None);
    assert Readable(m) by { hide PinnedCids; }
    var victims := Cache.AgeVictims(EvictFrom(m, v).cache);
    v := Eviction(true, None, victims, |victims|);
  }

  // ---- getting several blocks ----

  /**
   Why every wanted block will be there: all are stored and nothing is fetched; or there is room for
   every one that is missing, `rest` bounding their lengths; or victims are chosen by age, and those no
   peer has will last, `sizes` bounding the lengths of all that are or get tracked; or each is with peers
   or secure, and nothing else is needed, whatever is evicted.
   */
  datatype Plan = AllLocal | Roomy(rest: map<Bytes, nat>) | Lasting(sizes: map<Bytes, nat>) | Anyway

  ghost predicate Bounded(peers: Peers, rest: map<Bytes, nat>) {
    forall n: nat, c <- rest :: peers.answer(n, c).Some? ==> |peers.answer(n, c).value| <= rest[c]
  }

  /** What is pinned or no older than `since`, and the blocks to get, which will be no older either. */
  function Burden(c: Cache.Cache, since: nat, sizes: map<Bytes, nat>): map<Bytes, nat> {
    (map x | x in c.meta && (x in c.pinned || c.meta[x].lastAccessed >= since) :: c.meta[x].size) + sizes
  }

  /** While the blocks of these sizes are got, in any order, this one is not evicted. */
  ghost predicate Lasts(c: Cache.Cache, sizes: map<Bytes, nat>, x: Bytes) {
    Cache.Evictable(c, x) ==> Sum(Burden(c, c.meta[x].lastAccessed, sizes), Amount) <= c.capacity
  }

  predicate Weighed(c: Cache.Cache, sizes: map<Bytes, nat>) {
    forall x <- sizes :: x in c.meta ==> c.meta[x].size <= sizes[x]
  }

  ghost predicate Sure(peers: Peers, e: Engine, w: Wanted, plan: Plan) {
    match plan
    case AllLocal => w.cid in e.store
    case Roomy(rest) => w.cid in e.store || (Held(peers, w) && w.cid in rest)
    case Lasting(sizes) =>
      && (w.cid in sizes || (w.cid in e.store && w.cid !in e.cache.meta))
      && (Held(peers, w) || (w.cid in e.store && Lasts(Loaded(e, true).cache, sizes, w.cid)))
    case Anyway => Held(peers, w) || Secure(e, w.cid)
  }

  ghost predicate PlanOk(peers: Peers, e: Engine, plan: Plan) {
    match plan
    case AllLocal => true
    case Roomy(rest) => e.cache.usage + Sum(rest, Amount) <= e.cache.capacity && Bounded(peers, rest)
    case Lasting(sizes) => Readable(e) && Weighed(e.cache, sizes) && Bounded(peers, sizes)
    case Anyway => Readable(e)
  }

  /** Every wanted block is stored or with peers, and stays so until it has been got. */
  ghost predicate Provided(peers: Peers, e: Engine, wanted: set<Wanted>, plan: Plan) {
    PlanOk(peers, e, plan) && forall w <- wanted :: Sure(peers, e, w, plan)
  }

  function Without(plan: Plan, cid: Bytes): Plan {
    match plan
    case Roomy(rest) => Roomy(rest - {cid})
    case _ => plan
  }

  lemma LocalProvides(peers: Peers, e: Engine, wanted: set<Wanted>, plan: Plan, w: Wanted)
    requires Provided(peers, e, wanted, plan) && w in wanted && w.cid in e.store && Accounted(e)
    ensures Provided(peers, Local(e, w.cid), wanted, Without(plan, w.cid))
  {
    hide PinnedCids, Held, Secure, Loaded, Lasts, Weighed, Cache.Touched;
    var u := Local(e, w.cid);
    LocalLoaded(e, w.cid);
    TouchedSame(e.cache, w.cid);
    match plan {
      case Roomy(rest) => LessRest(rest, w.cid);
      case Lasting(sizes) =>
        assert Sure(peers, e, w, plan);
        LastsTouched(e.cache, sizes, w.cid);
        LoadedAlready(e);
        LastsTouched(Loaded(e, true).cache, sizes, w.cid);
      case _ =>
    }
    forall x | x in wanted
      ensures Sure(peers, u, x, Without(plan, w.cid))
    {
      assert Sure(peers, e, x, plan);
      if Secure(e, x.cid) {
        LocalStays(e, w.cid, x.cid);
      }
    }
  }

  lemma TouchedSame(c: Cache.Cache, cid: Bytes)
    ensures Cache.Touched(c, cid).usage == c.usage && Cache.Touched(c, cid).capacity == c.capacity
  {
  }

  lemma LocalLoaded(e: Engine, cid: Bytes)
    ensures Loaded(Local(e, cid), true).cache == Cache.Touched(Loaded(e, true).cache, cid)
    ensures Readable(Local(e, cid)) == Readable(e)
  {
    hide PinnedCids;
  }

  lemma LessRest(rest: map<Bytes, nat>, cid: Bytes)
    ensures Sum(rest - {cid}, Amount) + (if cid in rest then rest[cid] else 0) == Sum(rest, Amount)
  {
    if cid in rest {
      SumRemove(rest, Amount, cid);
    } else {
      assert rest - {cid} == rest;
    }
  }

  lemma LastsTouched(c: Cache.Cache, sizes: map<Bytes, nat>, y: Bytes)
    requires Cache.Inv(c) && (y in c.meta ==> y in sizes)
    ensures Weighed(c, sizes) ==> Weighed(Cache.Touched(c, y), sizes)
    ensures forall x :: Lasts(c, sizes, x) ==> Lasts(Cache.Touched(c, y), sizes, x)
    ensures Cache.Touched(c, y).meta.Keys == c.meta.Keys
  {
    var u := Cache.Touched(c, y);
    forall x | Lasts(c, sizes, x)
      ensures Lasts(u, sizes, x)
    {
      if Cache.Evictable(u, x) {
        SumShrinks(Burden(u, u.meta[x].lastAccessed, sizes), Burden(c, c.meta[x].lastAccessed, sizes), Amount);
      }
    }
  }

  /** A wanted block that is not stored is answered, and it can be taken in. */
  lemma MissingIsHeld(peers: Peers, e: Engine, wanted: set<Wanted>, plan: Plan, w: Wanted, n: nat, position: Option<Cache.Position>)
    requires Provided(peers, e, wanted, plan) && w in wanted && w.cid !in e.store && Accounted(e)
    ensures Answered(peers.hash, w, peers.answer(n, w.cid))
    ensures
      var m := Admitted(e, w.cid, peers.answer(n, w.cid).value, position);
      !(OverCapacity(m) && LoadFails(m, true))
  {
    hide PinnedCids, Cid.VerifyCid;
    assert Sure(peers, e, w, plan);
    AdmittedAccounted(e, w.cid, peers.answer(n, w.cid).value, position);
    LessRest(if plan.Roomy? then plan.rest else map[], w.cid);
  }

  /** What is sure to be got stays so when a wanted block is fetched. */
  lemma FetchProvides(
    peers: Peers, e: Engine, wanted: set<Wanted>, plan: Plan, w: Wanted, n: nat, position: Option<Cache.Position>, v: Eviction)
    requires Provided(peers, e, wanted, plan) && w in wanted && w.cid !in e.store && Accounted(e)
    requires peers.answer(n, w.cid).Some? && FetchOk(e, w.cid, peers.answer(n, w.cid).value, position, v)
    requires plan.Lasting? ==> v.space.None?
    ensures Provided(peers, Fetched(e, w.cid, peers.answer(n, w.cid).value, position, v), wanted, Without(plan, w.cid))
  {
    hide PinnedCids, Held, Secure, FetchOk, Fetched, Loaded, Lasts, Weighed;
    var data := peers.answer(n, w.cid).value;
    assert Sure(peers, e, w, plan);
    FetchedAccounted(e, w.cid, data, position, v);
    match plan {
      case Roomy(rest) =>
        RoomyFetch(peers, e, w, rest, n, position, v);
        RoomyProvides(peers, e, Fetched(e, w.cid, data, position, v), wanted, rest, w);
      case Lasting(sizes) =>
        LastingProvides(peers, e, wanted, sizes, w, n, position, v);
      case Anyway =>
        forall x | x in wanted
          ensures Sure(peers, Fetched(e, w.cid, data, position, v), x, plan)
        {
          assert Sure(peers, e, x, plan);
          if Secure(e, x.cid) {
            SecureStays(e, w.cid, data, position, v, x.cid);
          }
        }
      case AllLocal =>
    }
  }

  lemma LastingProvides(
    peers: Peers, e: Engine, wanted: set<Wanted>, sizes: map<Bytes, nat>, w: Wanted, n: nat,
    position: Option<Cache.Position>, v: Eviction)
    requires Provided(peers, e, wanted, Lasting(sizes)) && w in wanted && w.cid !in e.store && Accounted(e)
    requires peers.answer(n, w.cid).Some? && FetchOk(e, w.cid, peers.answer(n, w.cid).value, position, v) && v.space.None?
    ensures Provided(peers, Fetched(e, w.cid, peers.answer(n, w.cid).value, position, v), wanted, Lasting(sizes))
  {
    hide PinnedCids, Held, FetchOk, Fetched, Loaded, Lasts, Weighed, Accounted;
    var data := peers.answer(n, w.cid).value;
    var u := Fetched(e, w.cid, data, position, v);
    assert Sure(peers, e, w, Lasting(sizes));
    LoadedAlready(e);
    FetchedAccounted(e, w.cid, data, position, v);
    FetchLoaded(e, w.cid, data, position, v);
    LoadedAlready(u);
    WeighedPins(e.cache, Loaded(e, true).cache, sizes);
    LastingFetch(Loaded(e, true), w.cid, data, position, v, sizes);
    WeighedPins(u.cache, Loaded(u, true).cache, sizes);
    forall x | x in wanted
      ensures Sure(peers, u, x, Lasting(sizes))
    {
      assert Sure(peers, e, x, Lasting(sizes));
    }
  }

  lemma WeighedPins(c: Cache.Cache, d: Cache.Cache, sizes: map<Bytes, nat>)
    requires c.meta == d.meta
    ensures Weighed(c, sizes) == Weighed(d, sizes)
  {
  }

  lemma LastingFetch(
    e: Engine, cid: Bytes, data: Bytes, position: Option<Cache.Position>, v: Eviction, sizes: map<Bytes, nat>)
    requires Accounted(e) && FetchOk(e, cid, data, position, v) && v.space.None? && cid !in e.store
    requires EvictFrom(Admitted(e, cid, data, position), v) == Admitted(e, cid, data, position)
    requires Weighed(e.cache, sizes) && cid in sizes && |data| <= sizes[cid]
    ensures
      var u := Fetched(e, cid, data, position, v);
      && Weighed(u.cache, sizes) && cid in u.store && u.cache.meta.Keys <= e.cache.meta.Keys + {cid}
      && forall x :: x in e.store && (x !in e.cache.meta || Lasts(e.cache, sizes, x)) ==>
           x in u.store && Lasts(u.cache, sizes, x)
  {
    hide Cache.CapacityVictims, Cache.Evicted, Cache.Tracked, Lasts, Weighed, Cache.Inv, PinnedCids;
    var m := Admitted(e, cid, data, position);
    AdmittedAccounted(e, cid, data, position);
    LastsAdmitted(e.cache, cid, |data|, position, sizes);
    EnforceDeletes(m, v);
    assert v.victims[..|v.victims|] == v.victims;
    LastsEvicted(m.cache, v.victims, sizes);
  }

  lemma LastsAdmitted(c: Cache.Cache, cid: Bytes, size: nat, position: Option<Cache.Position>, sizes: map<Bytes, nat>)
    requires Weighed(c, sizes) && cid in sizes && size <= sizes[cid]
    ensures
      var u := Cache.Tracked(c, cid, size, position);
      && Weighed(u, sizes) && u.meta.Keys == c.meta.Keys + {cid}
      && forall x :: x != cid && (x !in c.meta || Lasts(c, sizes, x)) ==> Lasts(u, sizes, x)
  {
    var u := Cache.Tracked(c, cid, size, position);
    forall x | x != cid && x in c.meta && Lasts(c, sizes, x)
      ensures Lasts(u, sizes, x)
    {
      assert Burden(u, c.meta[x].lastAccessed, sizes) == Burden(c, c.meta[x].lastAccessed, sizes);
    }
  }

  /** Eviction by age takes nothing that lasts. */
  lemma LastsEvicted(c: Cache.Cache, victims: seq<Bytes>, sizes: map<Bytes, nat>)
    requires Cache.Inv(c) && Cache.CapacityVictims(c, None, victims) && Cache.Distinct(victims)
    requires Weighed(c, sizes) && forall v <- victims :: Cache.Evictable(c, v)
    ensures
      var u := Cache.Evicted(c, victims);
      Weighed(u, sizes) && forall x :: Lasts(c, sizes, x) ==> x !in victims && Lasts(u, sizes, x)
    ensures Cache.Evicted(c, victims).meta.Keys <= c.meta.Keys
  {
    hide Cache.CapacityVictims, Cache.Evicted, Cache.Inv;
    Cache.EvictedExactly(c, victims);
    var u := Cache.Evicted(c, victims);
    forall x | Lasts(c, sizes, x)
      ensures x !in victims && Lasts(u, sizes, x)
    {
      if Cache.Evictable(c, x) {
        var t := c.meta[x].lastAccessed;
        SumBelow(Cache.Recent(c, t), Cache.SizeOf, Burden(c, t, sizes), Amount);
        Cache.LruSpares(c, victims, x);
        SumShrinks(Burden(u, t, sizes), Burden(c, t, sizes), Amount);
      }
    }
  }

  lemma RoomyFetch(
    peers: Peers, e: Engine, w: Wanted, rest: map<Bytes, nat>, n: nat, position: Option<Cache.Position>, v: Eviction)
    requires PlanOk(peers, e, Roomy(rest)) && w.cid in rest && Accounted(e)
    requires peers.answer(n, w.cid).Some? && FetchOk(e, w.cid, peers.answer(n, w.cid).value, position, v)
    ensures
      var data := peers.answer(n, w.cid).value;
      var u := Fetched(e, w.cid, data, position, v);
      && u.store == e.store[w.cid := data] && u.cache.capacity == e.cache.capacity
      && u.cache.usage + Sum(rest - {w.cid}, Amount) <= u.cache.capacity
  {
    hide PinnedCids, Cache.CapacityVictims;
    var data := peers.answer(n, w.cid).value;
    var m := Admitted(e, w.cid, data, position);
    AdmittedAccounted(e, w.cid, data, position);
    SumRemove(rest, Amount, w.cid);
    NothingEvicted(m, v);
    NothingGone(m);
  }

  lemma RoomyProvides(peers: Peers, e: Engine, u: Engine, wanted: set<Wanted>, rest: map<Bytes, nat>, w: Wanted)
    requires Provided(peers, e, wanted, Roomy(rest)) && w.cid in u.store && e.store.Keys <= u.store.Keys
    requires u.cache.usage + Sum(rest - {w.cid}, Amount) <= u.cache.capacity
    ensures Provided(peers, u, wanted, Roomy(rest - {w.cid}))
  {
    hide Held;
    forall x | x in wanted
      ensures Sure(peers, u, x, Roomy(rest - {w.cid}))
    {
      assert Sure(peers, e, x, Roomy(rest));
    }
  }

  // ---- where blocks come from ----

  /** The store as it was, and peers. */
  datatype Source = Source(peers: Peers, store: map<Bytes, Bytes>)

  /** Peers that have nothing. */
  function Nobody(hash: Bytes -> Bytes): Peers {
    Peers(hash, (n, c) => None)
  }

  ghost predicate AnsweredWith(peers: Peers, cid: Bytes, data: Bytes) {
    Matches(peers.hash, cid, data) && exists n: nat :: peers.answer(n, cid) == Some(data)
  }

  /** What the store held under that name, or a peer's answer that hashes to it. */
  ghost predicate Genuine(src: Source, cid: Bytes, data: Bytes) {
    (cid in src.store && data == src.store[cid]) || AnsweredWith(src.peers, cid, data)
  }

  ghost predicate AllGenuine(src: Source, now: map<Bytes, Bytes>) {
    forall c <- now :: Genuine(src, c, now[c])
  }

  lemma FetchGenuine(src: Source, e: Engine, w: Wanted, n: nat, position: Option<Cache.Position>, v: Eviction)
    requires AllGenuine(src, e.store) && Answered(src.peers.hash, w, src.peers.answer(n, w.cid))
    requires w.codec == Cid.MULTICODEC_RAW || w.codec == Cid.MULTICODEC_DAG_CBOR
    ensures Genuine(src, w.cid, src.peers.answer(n, w.cid).value)
    ensures AllGenuine(src, Fetched(e, w.cid, src.peers.answer(n, w.cid).value, position, v).store)
  {
    hide Cache.Evicted, Cache.Tracked, Cid.VerifyCid;
    var data := src.peers.answer(n, w.cid).value;
    assert src.peers.answer(n, w.cid) == Some(data);
    forall c | c in Fetched(e, w.cid, data, position, v).store
      ensures Genuine(src, c, Fetched(e, w.cid, data, position, v).store[c])
    {
      if c != w.cid {
        assert Fetched(e, w.cid, data, position, v).store[c] == e.store[c];
      }
    }
  }

  // ---- a download under way ----

  /** How a block that was got came: from the store, or from a peer, whose answer is then kept. */
  ghost predicate Took(
    hash: Bytes -> Bytes, e: Engine, u: Engine, w: Wanted, answer: Option<Bytes>, position: Option<Cache.Position>,
    v: Eviction, data: Bytes)
  {
    if w.cid in e.store then u == Local(e, w.cid) && data == e.store[w.cid]
    else
      && Answered(hash, w, answer) && data == answer.value
      && FetchOk(e, w.cid, data, position, v) && u == Fetched(e, w.cid, data, position, v)
  }

  /** A block that is stored is got, and so is one that is answered if the capacity check can be done. */
  predicate CanTake(hash: Bytes -> Bytes, e: Engine, w: Wanted, answer: Option<Bytes>, position: Option<Cache.Position>) {
    w.cid in e.store
    || (Answered(hash, w, answer)
        && var m := Admitted(e, w.cid, answer.value, position); !(OverCapacity(m) && LoadFails(m, true)))
  }

  lemma ReadableTakes(hash: Bytes -> Bytes, e: Engine, w: Wanted, answer: Option<Bytes>, position: Option<Cache.Position>)
    requires Readable(e)
    ensures CanTake(hash, e, w, answer, position) <==> w.cid in e.store || Answered(hash, w, answer)
  {
    hide Cid.VerifyCid;
  }

  lemma TookStored(
    hash: Bytes -> Bytes, e: Engine, w: Wanted, answer: Option<Bytes>, position: Option<Cache.Position>, v: Eviction)
    requires w.cid in e.store
    ensures Took(hash, e, Local(e, w.cid), w, answer, position, v, e.store[w.cid])
    ensures CanTake(hash, e, w, answer, position)
  {
  }

  lemma TookAnswer(
    hash: Bytes -> Bytes, e: Engine, w: Wanted, answer: Option<Bytes>, position: Option<Cache.Position>, v: Eviction)
    requires w.cid !in e.store && Answered(hash, w, answer)
    ensures
      var m := Admitted(e, w.cid, answer.value, position);
      var u := Enforced(m, v);
      EvictionAllowed(m, v) && EnforceOk(m, v)
      ==> Took(hash, e, u.(store := u.store[w.cid := answer.value]), w, answer, position, v, answer.value)
    ensures
      var m := Admitted(e, w.cid, answer.value, position);
      CanTake(hash, e, w, answer, position) <==> Readable(m) || !OverCapacity(m)
  {
    hide Cid.VerifyCid, EvictionAllowed, EnforceOk, Enforced, Admitted;
  }

  /**
   What a download sets out with: where blocks may come from, the blocks, and whether they are sure to
   be got. With `byAge` the node's positions play no part in evictions.
   */
  datatype Errand = Errand(src: Source, peers: Peers, wanted: set<Wanted>, sure: bool, byAge: bool)

  ghost predicate Underway(x: Errand, e: Engine, plan: Plan) {
    && AllGenuine(x.src, e.store) && x.src.peers.hash == x.peers.hash
    && (x.src.peers == x.peers || (x.sure && plan.AllLocal?))
    && (x.sure ==> Provided(x.peers, e, x.wanted, plan) && (plan.Lasting? ==> x.byAge))
    && (x.sure && plan.AllLocal? ==> e.store == x.src.store)
  }

  lemma StoreUnchanged(x: Errand, e: Engine, plan: Plan)
    requires Underway(x, e, plan)
    ensures x.sure && plan.AllLocal? ==> e.store == x.src.store
  {
  }

  lemma SureTaken(x: Errand, e: Engine, plan: Plan, w: Wanted, n: nat, position: Option<Cache.Position>)
    requires Underway(x, e, plan) && x.sure && w in x.wanted && Accounted(e)
    ensures CanTake(x.peers.hash, e, w, x.peers.answer(n, w.cid), position)
  {
    hide Provided, AllGenuine, Accounted, Admitted, Answered;
    if w.cid !in e.store {
      MissingIsHeld(x.peers, e, x.wanted, plan, w, n, position);
    }
  }

  lemma Got(
    x: Errand, e: Engine, u: Engine, plan: Plan, w: Wanted, n: nat, position: Option<Cache.Position>, v: Eviction, data: Bytes)
    requires Underway(x, e, plan) && w in x.wanted && Accounted(e) && (x.byAge ==> v.space.None?)
    requires Took(x.peers.hash, e, u, w, x.peers.answer(n, w.cid), position, v, data)
    requires w.codec == Cid.MULTICODEC_RAW || w.codec == Cid.MULTICODEC_DAG_CBOR
    ensures Underway(x, u, Without(plan, w.cid)) && Genuine(x.src, w.cid, data)
  {
    hide AllGenuine, Genuine, Accounted, FetchOk, Fetched, PlanOk, Cid.VerifyCid;
    if w.cid in e.store {
      StoredGenuine(x.src, e, w.cid);
      if x.sure {
        LocalProvides(x.peers, e, x.wanted, plan, w);
      }
    } else {
      assert x.sure ==> Sure(x.peers, e, w, plan);
      FetchGenuine(x.src, e, w, n, position, v);
      if x.sure {
        FetchProvides(x.peers, e, x.wanted, plan, w, n, position, v);
      }
    }
  }

  lemma StartsGenuine(src: Source)
    ensures AllGenuine(src, src.store)
  {
  }

  lemma StoredGenuine(src: Source, e: Engine, cid: Bytes)
    requires AllGenuine(src, e.store) && cid in e.store
    ensures Genuine(src, cid, e.store[cid]) && AllGenuine(src, Local(e, cid).store) && Local(e, cid).store == e.store
  {
    hide Genuine;
  }
}
