/**
 When a node without a position gets several blocks in whatever order their downloads finish: exactly
 when every order comes to an end. Each fetch may evict a block whose turn has not come yet.
 */
module FetchOrders {
  import opened Common
  import opened StorageModel
  import opened StorageFiling
  import opened StorageFetching
  import opened FileBlocks
  import Cache = BlockCache
  import Cid

  /** Peers that always answer the same. */
  function Steady(hash: Bytes -> Bytes, peer: Bytes -> Option<Bytes>): Peers {
    Peers(hash, (n, c) => peer(c))
  }

  /** The block can be got now. */
  predicate There(hash: Bytes -> Bytes, peer: Bytes -> Option<Bytes>, e: Engine, w: Wanted) {
    w.cid in e.store || Answered(hash, w, peer(w.cid))
  }

  function Whole(victims: seq<Bytes>): Eviction {
    Eviction(true, None, victims, |victims|)
  }

  /** With these victims, if the block has to be fetched. */
  ghost predicate TakeOk(peer: Bytes -> Option<Bytes>, e: Engine, w: Wanted, victims: seq<Bytes>) {
    w.cid in e.store || (peer(w.cid).Some? && FetchOk(e, w.cid, peer(w.cid).value, None, Whole(victims)))
  }

  ghost function Taken(peer: Bytes -> Option<Bytes>, e: Engine, w: Wanted, victims: seq<Bytes>): Engine
    requires TakeOk(peer, e, w, victims)
  {
    if w.cid in e.store then Local(e, w.cid) else Fetched(e, w.cid, peer(w.cid).value, None, Whole(victims))
  }

  /** In whatever order the blocks are got, and whatever each fetch evicts, each can be got when its turn comes. */
  ghost predicate AlwaysGot(hash: Bytes -> Bytes, peer: Bytes -> Option<Bytes>, e: Engine, todo: set<Wanted>)
    decreases |todo|
  {
    forall w <- todo ::
      && There(hash, peer, e, w)
      && forall victims :: TakeOk(peer, e, w, victims) ==> AlwaysGot(hash, peer, Taken(peer, e, w, victims), todo - {w})
  }

  // ---- the condition ----

  function Names(wanted: set<Wanted>): set<Bytes> {
    set w | w in wanted :: w.cid
  }

  ghost predicate Apart(wanted: set<Wanted>) {
    forall v <- wanted, w <- wanted :: v.cid == w.cid ==> v == w
  }

  /** What the wanted blocks weigh in the cache: those that are tracked, and those to be fetched. */
  function Weights(peer: Bytes -> Option<Bytes>, e: Engine, wanted: set<Wanted>): map<Bytes, nat> {
    map c | c in Names(wanted) && (c in e.cache.meta || (c !in e.store && peer(c).Some?)) ::
      if c in e.cache.meta then e.cache.meta[c].size else |peer(c).value|
  }

  /** A wanted block that is tracked has the length that peers answer with. */
  predicate LengthsKnown(peer: Bytes -> Option<Bytes>, e: Engine, wanted: set<Wanted>) {
    forall w <- wanted :: w.cid in e.cache.meta && peer(w.cid).Some? ==> |peer(w.cid).value| == e.cache.meta[w.cid].size
  }

  /**
   Every block is stored or with peers; and if any has to be fetched, each that no peer has is pinned or
   not tracked, or fits beside what is pinned, what is no older than it, and all that is to be got.
   */
  ghost predicate Lossless(hash: Bytes -> Bytes, peer: Bytes -> Option<Bytes>, e: Engine, wanted: set<Wanted>) {
    && (forall w <- wanted :: There(hash, peer, e, w))
    && ((forall w <- wanted :: w.cid in e.store)
        || forall w <- wanted ::
             Answered(hash, w, peer(w.cid)) || Lasts(Loaded(e, true).cache, Weights(peer, e, wanted), w.cid))
  }

  /** The plan by which all of them can be got. */
  ghost function PlanFor(peer: Bytes -> Option<Bytes>, e: Engine, wanted: set<Wanted>): Plan {
    if forall w <- wanted :: w.cid in e.store then AllLocal else Lasting(Weights(peer, e, wanted))
  }

  lemma LosslessProvides(hash: Bytes -> Bytes, peer: Bytes -> Option<Bytes>, e: Engine, wanted: set<Wanted>)
    requires Readable(e) && LengthsKnown(peer, e, wanted) && Lossless(hash, peer, e, wanted)
    ensures Provided(Steady(hash, peer), e, wanted, PlanFor(peer, e, wanted))
  {
    hide Loaded, Lasts, Cid.VerifyCid;
    var sizes := Weights(peer, e, wanted);
    var peers := Steady(hash, peer);
    if !(forall w <- wanted :: w.cid in e.store) {
      forall w | w in wanted
        ensures Sure(peers, e, w, Lasting(sizes))
      {
        assert There(hash, peer, e, w);
        assert w.cid in Names(wanted);
      }
      forall n: nat, c | c in sizes && peers.answer(n, c).Some?
        ensures |peers.answer(n, c).value| <= sizes[c]
      {
        var w :| w in wanted && w.cid == c;
      }
    }
  }

  // ---- the condition suffices ----

  lemma TakenProvides(
    hash: Bytes -> Bytes, peer: Bytes -> Option<Bytes>, e: Engine, wanted: set<Wanted>, plan: Plan, w: Wanted,
    victims: seq<Bytes>)
    requires Accounted(e) && Provided(Steady(hash, peer), e, wanted, plan) && w in wanted && TakeOk(peer, e, w, victims)
    ensures Accounted(Taken(peer, e, w, victims))
    ensures Provided(Steady(hash, peer), Taken(peer, e, w, victims), wanted, Without(plan, w.cid))
  {
    hide Cache.Inv, FetchOk, Fetched, Provided, Without;
    if w.cid in e.store {
      Cache.TouchedInv(e.cache, w.cid);
      LocalProvides(Steady(hash, peer), e, wanted, plan, w);
    } else {
      FetchedAccounted(e, w.cid, peer(w.cid).value, None, Whole(victims));
      FetchProvides(Steady(hash, peer), e, wanted, plan, w, 0, None, Whole(victims));
    }
  }

  lemma {:induction false} ProvidedAlwaysGot(
    hash: Bytes -> Bytes, peer: Bytes -> Option<Bytes>, e: Engine, wanted: set<Wanted>, plan: Plan, todo: set<Wanted>)
    requires Accounted(e) && Provided(Steady(hash, peer), e, wanted, plan) && todo <= wanted
    ensures AlwaysGot(hash, peer, e, todo)
    decreases |todo|
  {
    hide Accounted, Provided, TakeOk, Taken, Without, Answered;
    forall w | w in todo
      ensures There(hash, peer, e, w)
    {
      if w.cid !in e.store {
        MissingIsHeld(Steady(hash, peer), e, wanted, plan, w, 0, None);
      }
    }
    forall w, victims | w in todo && TakeOk(peer, e, w, victims)
      ensures AlwaysGot(hash, peer, Taken(peer, e, w, victims), todo - {w})
    {
      TakenProvides(hash, peer, e, wanted, plan, w, victims);
      ProvidedAlwaysGot(hash, peer, Taken(peer, e, w, victims), wanted, Without(plan, w.cid), todo - {w});
    }
  }

  // ---- the condition is needed ----

  function Rest(sizes: map<Bytes, nat>, todo: set<Wanted>): map<Bytes, nat> {
    map k | k in sizes && k in Names(todo) :: sizes[k]
  }

  ghost predicate Exact(peer: Bytes -> Option<Bytes>, e: Engine, todo: set<Wanted>, sizes: map<Bytes, nat>) {
    forall w <- todo ::
      if w.cid in sizes then
        && (w.cid in e.store ==> w.cid in e.cache.meta)
        && (w.cid in e.cache.meta ==> e.cache.meta[w.cid].size == sizes[w.cid])
        && (peer(w.cid).Some? ==> |peer(w.cid).value| == sizes[w.cid])
      else w.cid in e.store && w.cid !in e.cache.meta
  }

  /** While `last` has still to be fetched, `c` is too heavy to outlast all that is to be got. */
  ghost predicate AtStake(
    peer: Bytes -> Option<Bytes>, e: Engine, todo: set<Wanted>, sizes: map<Bytes, nat>, c: Wanted, last: Wanted)
  {
    && Accounted(e) && Readable(e) && Apart(todo) && Exact(peer, e, todo, sizes)
    && c in todo && last in todo && c.cid in e.store && last.cid !in e.store
    && TooHeavy(Loaded(e, true).cache, Rest(sizes, todo), c.cid)
  }

  ghost predicate TooHeavy(c: Cache.Cache, sizes: map<Bytes, nat>, x: Bytes) {
    Cache.Evictable(c, x) && Sum(Burden(c, c.meta[x].lastAccessed, sizes), Amount) > c.capacity
  }

  lemma RestNext(sizes: map<Bytes, nat>, todo: set<Wanted>, w: Wanted)
    requires Apart(todo) && w in todo
    ensures Rest(sizes, todo - {w}) == Rest(sizes, todo) - {w.cid} && Apart(todo - {w})
  {
    assert w.cid !in Names(todo - {w});
    forall v | v in todo && v != w
      ensures v.cid in Names(todo - {w})
    {
    }
  }

  /** A block that has been got weighs what it was going to weigh. */
  lemma BurdenMoves(c: Cache.Cache, u: Cache.Cache, t: nat, sizes: map<Bytes, nat>, y: Bytes)
    requires u.pinned == c.pinned && u.meta.Keys == c.meta.Keys + {y} && y in sizes
    requires u.meta[y].size == sizes[y] && u.meta[y].lastAccessed >= t
    requires forall k <- c.meta :: k != y ==> u.meta[k] == c.meta[k]
    ensures Burden(u, t, sizes - {y}) == Burden(c, t, sizes)
  {
  }

  lemma HeavyTouched(c: Cache.Cache, sizes: map<Bytes, nat>, y: Bytes, x: Bytes)
    requires Cache.Inv(c) && TooHeavy(c, sizes, x) && x != y
    requires if y in sizes then y in c.meta && c.meta[y].size == sizes[y] else y !in c.meta
    ensures TooHeavy(Cache.Touched(c, y), sizes - {y}, x)
  {
    hide Burden;
    if y in sizes {
      BurdenMoves(c, Cache.Touched(c, y), c.meta[x].lastAccessed, sizes, y);
    } else {
      assert sizes - {y} == sizes;
    }
  }

  lemma LocalAtStake(
    peer: Bytes -> Option<Bytes>, e: Engine, todo: set<Wanted>, sizes: map<Bytes, nat>, c: Wanted, last: Wanted, w: Wanted)
    requires AtStake(peer, e, todo, sizes, c, last) && w in todo && w != c && w.cid in e.store
    ensures AtStake(peer, Local(e, w.cid), todo - {w}, sizes, c, last)
  {
    hide PinnedCids, TooHeavy, Cache.Inv, Loaded;
    RestNext(sizes, todo, w);
    LocalLoaded(e, w.cid);
    LoadedAlready(e);
    Cache.TouchedInv(e.cache, w.cid);
    HeavyTouched(Loaded(e, true).cache, Rest(sizes, todo), w.cid, c.cid);
    assert w.cid in Names(todo);
    hide Rest, Names;
  }

  lemma HeavyTracked(c: Cache.Cache, sizes: map<Bytes, nat>, y: Bytes, size: nat, x: Bytes)
    requires Cache.Inv(c) && TooHeavy(c, sizes, x) && x != y && y in sizes && size == sizes[y]
    requires y in c.meta ==> c.meta[y].size == sizes[y]
    ensures TooHeavy(Cache.Tracked(c, y, size, None), sizes - {y}, x)
  {
    hide Burden;
    BurdenMoves(c, Cache.Tracked(c, y, size, None), c.meta[x].lastAccessed, sizes, y);
  }

  lemma HeavyEvicted(c: Cache.Cache, victims: seq<Bytes>, sizes: map<Bytes, nat>, x: Bytes)
    requires Cache.Inv(c) && TooHeavy(c, sizes, x) && Cache.CapacityVictims(c, None, victims) && x !in victims
    ensures TooHeavy(Cache.Evicted(c, victims), sizes, x)
  {
    hide Cache.CapacityVictims, Cache.Evicted, Cache.Inv, Burden;
    OlderVictims(c, victims, x);
    VictimsTracked(c, victims);
    BurdenStays(c, Cache.Evicted(c, victims), victims, c.meta[x].lastAccessed, sizes);
  }

  lemma OlderVictims(c: Cache.Cache, victims: seq<Bytes>, x: Bytes)
    requires Cache.Inv(c) && Cache.Evictable(c, x) && Cache.CapacityVictims(c, None, victims) && x !in victims
    ensures forall v <- victims :: Cache.Evictable(c, v) && c.meta[v].lastAccessed < c.meta[x].lastAccessed
  {
    hide Cache.InOrder, Cache.Freed, Cache.Inv;
    forall v | v in victims
      ensures Cache.Evictable(c, v) && c.meta[v].lastAccessed < c.meta[x].lastAccessed
    {
      Cache.VictimOlder(c, victims, v, x);
    }
  }

  lemma BurdenStays(c: Cache.Cache, u: Cache.Cache, victims: seq<Bytes>, t: nat, sizes: map<Bytes, nat>)
    requires forall v <- victims :: Cache.Evictable(c, v) && c.meta[v].lastAccessed < t
    requires u.meta.Keys == (set k | k in c.meta && k !in victims) && (forall k <- u.meta :: u.meta[k] == c.meta[k])
    requires u.pinned == c.pinned
    ensures Burden(u, t, sizes) == Burden(c, t, sizes)
  {
  }

  /** A block that is too heavy goes when all other blocks have been got, and the last of them was fetched. */
  lemma HeavyGoes(c: Cache.Cache, victims: seq<Bytes>, sizes: map<Bytes, nat>, x: Bytes)
    requires Cache.Inv(c) && Cache.CapacityVictims(c, None, victims) && TooHeavy(c, sizes, x)
    requires forall k <- sizes :: k == x && sizes[k] == c.meta[x].size
    ensures x in victims
  {
    hide Cache.CapacityVictims;
    Cache.LruSpares(c, victims, x);
    var t := c.meta[x].lastAccessed;
    SumBelow(Burden(c, t, sizes), Amount, Cache.Recent(c, t), Cache.SizeOf);
  }

  /** What a fetch does once the registry has been read. */
  lemma FetchEffect(e: Engine, cid: Bytes, data: Bytes, victims: seq<Bytes>)
    requires Accounted(e) && Readable(e) && FetchOk(e, cid, data, None, Whole(victims)) && cid !in e.store
    ensures
      var u := Fetched(e, cid, data, None, Whole(victims));
      var m := Cache.Tracked(Loaded(e, true).cache, cid, |data|, None);
      && Accounted(u) && Readable(u) && Cache.Inv(m) && Cache.CapacityVictims(m, None, victims)
      && Loaded(u, true).cache == Cache.Evicted(m, victims)
      && u.store == (map k | k in e.store && k !in victims :: e.store[k])[cid := data]
  {
    hide Cache.CapacityVictims, Cache.Evicted, Cache.Tracked, Cache.Inv, PinnedCids;
    var v := Whole(victims);
    assert victims[..|victims|] == victims;
    LoadedAlready(e);
    FetchedAccounted(e, cid, data, None, v);
    FetchLoaded(e, cid, data, None, v);
    LoadedStore(Fetched(e, cid, data, None, v));
    AdmittedAccounted(Loaded(e, true), cid, data, None);
  }

  lemma FetchAtStake(
    peer: Bytes -> Option<Bytes>, e: Engine, todo: set<Wanted>, sizes: map<Bytes, nat>, c: Wanted, last: Wanted, w: Wanted,
    victims: seq<Bytes>)
    requires AtStake(peer, e, todo, sizes, c, last) && w in todo && w != c && w != last && w.cid !in e.store
    requires peer(w.cid).Some? && FetchOk(e, w.cid, peer(w.cid).value, None, Whole(victims))
    requires c.cid in Fetched(e, w.cid, peer(w.cid).value, None, Whole(victims)).store
    ensures AtStake(peer, Fetched(e, w.cid, peer(w.cid).value, None, Whole(victims)), todo - {w}, sizes, c, last)
  {
    hide PinnedCids, TooHeavy, Cache.Inv, Loaded, Fetched, FetchOk, Cache.CapacityVictims, Cache.Evicted, Cache.Tracked;
    var data := peer(w.cid).value;
    RestNext(sizes, todo, w);
    LoadedAlready(e);
    FetchEffect(e, w.cid, data, victims);
    var m := Cache.Tracked(Loaded(e, true).cache, w.cid, |data|, None);
    HeavyTracked(Loaded(e, true).cache, Rest(sizes, todo), w.cid, |data|, c.cid);
    HeavyEvicted(m, victims, Rest(sizes, todo - {w}), c.cid);
    FetchExact(peer, e, todo, sizes, w, victims);
  }

  lemma FetchExact(
    peer: Bytes -> Option<Bytes>, e: Engine, todo: set<Wanted>, sizes: map<Bytes, nat>, w: Wanted, victims: seq<Bytes>)
    requires Accounted(e) && Readable(e) && Apart(todo) && Exact(peer, e, todo, sizes) && w in todo && w.cid !in e.store
    requires peer(w.cid).Some? && FetchOk(e, w.cid, peer(w.cid).value, None, Whole(victims))
    ensures Exact(peer, Fetched(e, w.cid, peer(w.cid).value, None, Whole(victims)), todo - {w}, sizes)
  {
    hide Loaded, Fetched, FetchOk, Cache.CapacityVictims, Cache.Evicted, Cache.Tracked, Cache.Inv, Readable, Names;
    var u := Fetched(e, w.cid, peer(w.cid).value, None, Whole(victims));
    FetchEffect(e, w.cid, peer(w.cid).value, victims);
    LoadedAlready(e);
    LoadedAlready(u);
    TrackedOthers(Loaded(e, true).cache, w.cid, |peer(w.cid).value|);
    VictimsTracked(Cache.Tracked(Loaded(e, true).cache, w.cid, |peer(w.cid).value|, None), victims);
  }

  lemma TrackedOthers(c: Cache.Cache, y: Bytes, size: nat)
    ensures
      var u := Cache.Tracked(c, y, size, None);
      u.meta.Keys == c.meta.Keys + {y} && forall k <- c.meta :: k != y ==> u.meta[k] == c.meta[k]
  {
  }

  lemma VictimsTracked(c: Cache.Cache, victims: seq<Bytes>)
    requires Cache.Inv(c) && Cache.CapacityVictims(c, None, victims)
    ensures
      var u := Cache.Evicted(c, victims);
      && u.meta.Keys == (set k | k in c.meta && k !in victims) && (forall k <- u.meta :: u.meta[k] == c.meta[k])
      && (forall k <- victims :: k in c.meta) && u.pinned == c.pinned && u.capacity == c.capacity
  {
    hide Cache.InOrder, Cache.Freed, Cache.Evicted;
    Cache.EvictedExactly(c, victims);
  }

  lemma VictimsByAge(e: Engine, cid: Bytes, data: Bytes) returns (victims: seq<Bytes>)
    requires Readable(e)
    ensures FetchOk(e, cid, data, None, Whole(victims))
  {
    hide Cache.CapacityVictims;
    var m := Admitted(e, cid, data, None);
    assert Readable(m) by { hide PinnedCids; }
    victims := Cache.AgeVictims(EvictFrom(m, Whole([])).cache);
  }

  /** A block that is too heavy, and that no peer has, is lost in some order. */
  lemma {:induction false} HeavyIsLost(
    hash: Bytes -> Bytes, peer: Bytes -> Option<Bytes>, e: Engine, todo: set<Wanted>, sizes: map<Bytes, nat>,
    c: Wanted, last: Wanted)
    requires AtStake(peer, e, todo, sizes, c, last) && !Answered(hash, c, peer(c.cid))
    ensures !AlwaysGot(hash, peer, e, todo)
    decreases |todo|
  {
    hide AtStake, Taken, Answered, Fetched;
    if AlwaysGot(hash, peer, e, todo) {
      StakeParts(peer, e, todo, sizes, c, last);
      var w := if w :| w in todo && w != c && w != last then w else last;
      assert There(hash, peer, e, w);
      if w.cid in e.store {
        LocalAtStake(peer, e, todo, sizes, c, last, w);
        TakenStored(peer, e, w);
        HeavyIsLost(hash, peer, Local(e, w.cid), todo - {w}, sizes, c, last);
      } else {
        AnsweredSome(hash, w, peer(w.cid));
        var victims := VictimsByAge(e, w.cid, peer(w.cid).value);
        var u := TakenFetched(peer, e, w, victims);
        assert AlwaysGot(hash, peer, u, todo - {w});
        assert There(hash, peer, u, c);
        if w != last {
          FetchAtStake(peer, e, todo, sizes, c, last, w, victims);
          HeavyIsLost(hash, peer, u, todo - {w}, sizes, c, last);
        } else {
          LastFetchLoses(peer, e, todo, sizes, c, last, victims);
        }
      }
    }
  }

  lemma StakeParts(
    peer: Bytes -> Option<Bytes>, e: Engine, todo: set<Wanted>, sizes: map<Bytes, nat>, c: Wanted, last: Wanted)
    requires AtStake(peer, e, todo, sizes, c, last)
    ensures Readable(e) && c in todo && last in todo && c != last && last.cid !in e.store
  {
  }

  lemma AnsweredSome(hash: Bytes -> Bytes, w: Wanted, answer: Option<Bytes>)
    requires Answered(hash, w, answer)
    ensures answer.Some?
  {
  }

  lemma TakenStored(peer: Bytes -> Option<Bytes>, e: Engine, w: Wanted)
    requires w.cid in e.store
    ensures TakeOk(peer, e, w, []) && Taken(peer, e, w, []) == Local(e, w.cid)
  {
  }

  lemma TakenFetched(peer: Bytes -> Option<Bytes>, e: Engine, w: Wanted, victims: seq<Bytes>) returns (u: Engine)
    requires w.cid !in e.store && peer(w.cid).Some? && FetchOk(e, w.cid, peer(w.cid).value, None, Whole(victims))
    ensures TakeOk(peer, e, w, victims) && u == Taken(peer, e, w, victims)
    ensures u == Fetched(e, w.cid, peer(w.cid).value, None, Whole(victims))
  {
    u := Taken(peer, e, w, victims);
  }

  lemma LastFetchLoses(
    peer: Bytes -> Option<Bytes>, e: Engine, todo: set<Wanted>, sizes: map<Bytes, nat>, c: Wanted, last: Wanted,
    victims: seq<Bytes>)
    requires AtStake(peer, e, todo, sizes, c, last) && todo == {c, last}
    requires peer(last.cid).Some? && FetchOk(e, last.cid, peer(last.cid).value, None, Whole(victims))
    ensures c.cid !in Fetched(e, last.cid, peer(last.cid).value, None, Whole(victims)).store
  {
    hide PinnedCids, TooHeavy, Cache.Inv, Loaded, Fetched, FetchOk, Cache.CapacityVictims, Cache.Evicted;
    var data := peer(last.cid).value;
    RestNext(sizes, todo, last);
    LoadedAlready(e);
    FetchEffect(e, last.cid, data, victims);
    var m := Cache.Tracked(Loaded(e, true).cache, last.cid, |data|, None);
    HeavyTracked(Loaded(e, true).cache, Rest(sizes, todo), last.cid, |data|, c.cid);
    HeavyGoes(m, victims, Rest(sizes, todo - {last}), c.cid);
  }

  /**
   Getting several blocks, some of them from peers, on a node without a position: every order comes to
   an end exactly if no block that no peer has can be lost before its turn.
   */
  lemma AlwaysGotExactly(hash: Bytes -> Bytes, peer: Bytes -> Option<Bytes>, e: Engine, wanted: set<Wanted>)
    requires Accounted(e) && Readable(e) && Apart(wanted) && LengthsKnown(peer, e, wanted)
    ensures AlwaysGot(hash, peer, e, wanted) <==> Lossless(hash, peer, e, wanted)
  {
    hide Accounted, Readable, Loaded, Answered;
    if Lossless(hash, peer, e, wanted) {
      LosslessProvides(hash, peer, e, wanted);
      ProvidedAlwaysGot(hash, peer, e, wanted, PlanFor(peer, e, wanted), wanted);
    } else if AlwaysGot(hash, peer, e, wanted) {
      var sizes := Weights(peer, e, wanted);
      var last :| last in wanted && last.cid !in e.store;
      var c :| c in wanted && !Answered(hash, c, peer(c.cid)) && !Lasts(Loaded(e, true).cache, sizes, c.cid);
      assert There(hash, peer, e, c);
      StakeStarts(hash, peer, e, wanted, c, last);
      HeavyIsLost(hash, peer, e, wanted, sizes, c, last);
    }
  }

  lemma StakeStarts(
    hash: Bytes -> Bytes, peer: Bytes -> Option<Bytes>, e: Engine, wanted: set<Wanted>, c: Wanted, last: Wanted)
    requires Accounted(e) && Readable(e) && Apart(wanted) && LengthsKnown(peer, e, wanted)
    requires forall w <- wanted :: There(hash, peer, e, w)
    requires c in wanted && last in wanted && c.cid in e.store && last.cid !in e.store
    requires !Lasts(Loaded(e, true).cache, Weights(peer, e, wanted), c.cid)
    ensures AtStake(peer, e, wanted, Weights(peer, e, wanted), c, last)
  {
    hide Accounted, Readable, Loaded, Cid.VerifyCid;
    var sizes := Weights(peer, e, wanted);
    forall w | w in wanted
      ensures w.cid in Names(wanted)
    {
    }
    assert Rest(sizes, wanted) == sizes;
  }

  lemma PairSum(m: map<Bytes, nat>, a: Bytes, b: Bytes)
    requires a != b && m == map[a := 1, b := 1]
    ensures Sum(m, Amount) == 2
  {
    SumRemove(m, Amount, a);
    assert m - {a} == map[b := 1];
    SumRemove(m - {a}, Amount, b);
    assert m - {a} - {b} == map[];
  }

  /** A node with room for one byte that holds one block of one byte. */
  function SmallNode(here: Bytes): Engine {
    Put(New(1, map[], false, Absent), Filing(here, [0], None, Whole([])))
  }

  lemma SmallNodeIs(here: Bytes)
    ensures
      var e := SmallNode(here);
      && Accounted(e) && Readable(e) && Loaded(e, true) == e && e.store == map[here := [0]]
      && e.cache.meta == map[here := Cache.Meta(1, 1, None)] && e.cache.pinned == {} && e.cache.capacity == 1
  {
    hide Cache.Inv;
    NewInv(1);
    PutAccounted(New(1, map[], false, Absent), Filing(here, [0], None, Whole([])));
    assert SmallNode(here).store == map[here := [0]];
  }

  /** Peers that have nothing but one block of one byte. */
  function OnePeer(there: Bytes): Bytes -> Option<Bytes> {
    (c: Bytes) => if c == there then Some([1]) else None
  }

  lemma BothWeigh(e: Engine, here: Bytes, there: Bytes, wanted: set<Wanted>)
    requires e == SmallNode(here) && here != there && Names(wanted) == {here, there} && wanted == {Raw(here), Raw(there)}
    ensures Weights(OnePeer(there), e, wanted) == map[here := 1, there := 1]
    ensures LengthsKnown(OnePeer(there), e, wanted) && Apart(wanted)
  {
    hide SmallNode;
    SmallNodeIs(here);
  }

  lemma NoRoomForBoth(hash: Bytes -> Bytes, e: Engine, here: Bytes, there: Bytes, wanted: set<Wanted>)
    requires e == SmallNode(here) && here != there && Names(wanted) == {here, there} && wanted == {Raw(here), Raw(there)}
    ensures !Lossless(hash, OnePeer(there), e, wanted)
  {
    hide SmallNode, Weights, Names, Loaded;
    SmallNodeIs(here);
    BothWeigh(e, here, there, wanted);
    var sizes := map[here := 1, there := 1];
    assert Burden(e.cache, 1, sizes) == sizes;
    PairSum(sizes, here, there);
    assert !Lasts(e.cache, sizes, here);
    assert Raw(here) in wanted && Raw(there) in wanted;
    assert OnePeer(there)(here) == None && there !in e.store;
  }

  function Raw(cid: Bytes): Wanted {
    Wanted(cid, Cid.MULTICODEC_RAW)
  }

  /**
   An instance where the one half does not hold: a node with room for one byte holds the block of one
   byte and peers have another one. Each is stored or with peers, yet not every order gets both.
   */
  lemma StoredOrAnsweredIsNotEnough(hash: Bytes -> Bytes)
    requires Cid.ComputeCid(hash, [0], Cid.MULTICODEC_RAW) != Cid.ComputeCid(hash, [1], Cid.MULTICODEC_RAW)
    ensures
      var here := Cid.ComputeCid(hash, [0], Cid.MULTICODEC_RAW);
      var there := Cid.ComputeCid(hash, [1], Cid.MULTICODEC_RAW);
      var e := SmallNode(here);
      var wanted := {Raw(here), Raw(there)};
      && (forall w <- wanted :: There(hash, OnePeer(there), e, w))
      && !AlwaysGot(hash, OnePeer(there), e, wanted)
  {
    hide Cid.ComputeCid, Accounted, AlwaysGot, Lossless, LengthsKnown, SmallNode;
    var here, there := Cid.ComputeCid(hash, [0], Cid.MULTICODEC_RAW), Cid.ComputeCid(hash, [1], Cid.MULTICODEC_RAW);
    var wanted := {Raw(here), Raw(there)};
    SmallNodeIs(here);
    assert Names(wanted) == {here, there} by {
      assert Raw(here) in wanted && Raw(there) in wanted;
    }
    BothWeigh(SmallNode(here), here, there, wanted);
    NoRoomForBoth(hash, SmallNode(here), here, there, wanted);
    AlwaysGotExactly(hash, OnePeer(there), SmallNode(here), wanted);
    assert Cid.VerifyCid(hash, there, [1], Cid.MULTICODEC_RAW);
  }

  lemma SamePeers(p: Peers, q: Peers, e: Engine, wanted: set<Wanted>, plan: Plan)
    requires p.hash == q.hash && forall n: nat, c :: p.answer(n, c) == q.answer(n, c)
    ensures Provided(p, e, wanted, plan) ==> Provided(q, e, wanted, plan)
  {
    hide Loaded, Secure, Lasts, Answered, Readable, Weighed;
    if Provided(p, e, wanted, plan) {
      forall w | w in wanted
        ensures Sure(q, e, w, plan)
      {
        assert Sure(p, e, w, plan);
        assert Held(p, w) ==> Held(q, w);
      }
    }
  }

  /** So, with peers that do not change their answers, a get then comes back. */
  lemma LosslessObtainable(
    peers: Peers, peer: Bytes -> Option<Bytes>, decode: Bytes -> Option<Manifest>, e: Engine, root: Bytes)
    requires Readable(e) && forall n: nat, c :: peers.answer(n, c) == peer(c)
    requires ManifestAt(peers, decode, e.store, 0, root).Some?
    requires
      var wanted := ToGet(e.store, root, ManifestAt(peers, decode, e.store, 0, root).value.chunks);
      LengthsKnown(peer, Opened(e, root), wanted) && Lossless(peers.hash, peer, Opened(e, root), wanted)
    ensures
      var wanted := ToGet(e.store, root, ManifestAt(peers, decode, e.store, 0, root).value.chunks);
      Obtainable(peers, decode, e, root, PlanFor(peer, Opened(e, root), wanted))
  {
    hide Loaded, Lossless, LengthsKnown, Answered, PlanFor, Provided;
    var wanted := ToGet(e.store, root, ManifestAt(peers, decode, e.store, 0, root).value.chunks);
    assert Readable(Opened(e, root)) by { LocalLoaded(e, root); }
    LosslessProvides(peers.hash, peer, Opened(e, root), wanted);
    SamePeers(Steady(peers.hash, peer), peers, Opened(e, root), wanted, PlanFor(peer, Opened(e, root), wanted));
  }

  // ---- a file that was just added ----

  function AllOf(b: Blocks): set<Wanted> {
    set i | 0 <= i < |b.names| :: WantedOf(b, i)
  }

  /** Whoever answers for a block of the file answers with one of its length. */
  ghost predicate LikeFile(peer: Bytes -> Option<Bytes>, b: Blocks)
    requires Paired(b)
  {
    forall c <- SizesOf(b) :: peer(c).Some? ==> |peer(c).value| == SizesOf(b)[c]
  }

  /** Each block of the file is pinned or with peers. */
  ghost predicate Backed(hash: Bytes -> Bytes, peer: Bytes -> Option<Bytes>, e: Engine, b: Blocks) {
    forall i :: 0 <= i < |b.names| ==>
      b.names[i] in Loaded(e, true).cache.pinned || Answered(hash, WantedOf(b, i), peer(b.names[i]))
  }

  /** What an add leaves in the cache, once the registry has been read. */
  lemma AddedCache(e: Engine, u: Engine, fs: seq<Filing>, b: Blocks)
    requires Paired(b) && Accounted(e) && Readable(e) && Measured(e, b) && Filed(e, u, fs, b)
    ensures Kept(Loaded(e, true), Loaded(u, true), SizesOf(b).Keys, SizesOf(b)) && Accounted(u) && Readable(u)
  {
    hide Accounted, Readable, FilingsOk, FileAll, Filed, Loaded, Settling, Kept, LengthsAgree, SizesAgree, SizesOf, Cids;
    FiledIs(e, u, fs, b);
    FiledCids(e, u, fs, b);
    LoadedAlready(e);
    FilingsLoaded(e, fs);
    FilingsAccounted(e, fs);
    SameSizes(e, Loaded(e, true), SizesOf(b));
    FilingsKept(Loaded(e, true), fs, SizesOf(b));
  }

  lemma SameSizes(e: Engine, u: Engine, sizes: map<Bytes, nat>)
    requires e.cache.meta == u.cache.meta && SizesAgree(e, sizes)
    ensures SizesAgree(u, sizes)
  {
  }

  lemma NameOf(b: Blocks, w: Wanted)
    requires w in AllOf(b)
    ensures w.cid in b.names && exists i :: 0 <= i < |b.names| && WantedOf(b, i) == w && b.names[i] == w.cid
  {
    var i :| 0 <= i < |b.names| && WantedOf(b, i) == w;
    assert b.names[i] in b.names;
  }

  /** Getting the file burdens the cache with everything that had to fit. */
  lemma ClaimsAreBurden(
    hash: Bytes -> Bytes, peer: Bytes -> Option<Bytes>, e: Engine, u: Engine, b: Blocks, c: Bytes)
    requires Paired(b) && LikeFile(peer, b) && Kept(e, u, SizesOf(b).Keys, SizesOf(b)) && c in u.cache.meta
    requires forall w <- AllOf(b) :: There(hash, peer, u, w)
    ensures
      var burden := Burden(u.cache, u.cache.meta[c].lastAccessed, Weights(peer, u, AllOf(b)));
      forall x <- Claims(e, SizesOf(b)) :: x in burden && Claims(e, SizesOf(b))[x] <= burden[x]
  {
    hide Accounted, Cid.VerifyCid;
    var sizes := SizesOf(b);
    forall x | x in sizes
      ensures x in Weights(peer, u, AllOf(b)) && Weights(peer, u, AllOf(b))[x] == sizes[x]
    {
      var i := Index(b.names, x);
      assert WantedOf(b, i) in AllOf(b);
      assert There(hash, peer, u, WantedOf(b, i));
      assert x in Names(AllOf(b));
    }
    forall x | x in Weights(peer, u, AllOf(b))
      ensures x in sizes
    {
      var w :| w in AllOf(b) && w.cid == x;
      NameOf(b, w);
    }
  }

  lemma LastingFits(
    hash: Bytes -> Bytes, peer: Bytes -> Option<Bytes>, e: Engine, u: Engine, b: Blocks, i: nat)
    requires Paired(b) && LikeFile(peer, b) && Kept(e, u, SizesOf(b).Keys, SizesOf(b)) && i < |b.names|
    requires forall w <- AllOf(b) :: There(hash, peer, u, w)
    requires b.names[i] !in e.cache.pinned && !Answered(hash, WantedOf(b, i), peer(b.names[i]))
    requires Lasts(u.cache, Weights(peer, u, AllOf(b)), b.names[i])
    ensures FileFits(e, SizesOf(b))
  {
    hide Accounted, Answered, Burden, Weights, Claims;
    var c := b.names[i];
    assert c in b.names && WantedOf(b, i) in AllOf(b);
    assert There(hash, peer, u, WantedOf(b, i));
    assert c in SizesOf(b);
    ClaimsAreBurden(hash, peer, e, u, b, c);
    SumBelow(Claims(e, SizesOf(b)), Amount, Burden(u.cache, u.cache.meta[c].lastAccessed, Weights(peer, u, AllOf(b))), Amount);
  }

  lemma StoredOrNot(u: Engine, b: Blocks)
    ensures (forall w <- AllOf(b) :: w.cid in u.store) <==> FileStored(u, b)
  {
    forall c | c in b.names
      ensures exists w :: w in AllOf(b) && w.cid == c
    {
      var i := Index(b.names, c);
      assert WantedOf(b, i) in AllOf(b);
    }
    forall w | w in AllOf(b)
      ensures w.cid in b.names
    {
      NameOf(b, w);
    }
  }

  lemma LengthsOfFile(peer: Bytes -> Option<Bytes>, e: Engine, u: Engine, b: Blocks)
    requires Paired(b) && LikeFile(peer, b) && Kept(e, u, SizesOf(b).Keys, SizesOf(b))
    ensures LengthsKnown(peer, u, AllOf(b))
  {
    forall w | w in AllOf(b)
      ensures w.cid in SizesOf(b)
    {
      NameOf(b, w);
    }
  }

  lemma BackedLossless(
    hash: Bytes -> Bytes, peer: Bytes -> Option<Bytes>, e: Engine, u: Engine, fs: seq<Filing>, b: Blocks)
    requires Paired(b) && Readable(e) && Filed(e, u, fs, b) && Backed(hash, peer, e, b)
    ensures Lossless(hash, peer, u, AllOf(b))
  {
    hide Loaded, Readable, FilingsOk, FileAll, Filed, Answered, Weights, Burden;
    FiledIs(e, u, fs, b);
    FiledCids(e, u, fs, b);
    forall w | w in AllOf(b) && !Answered(hash, w, peer(w.cid))
      ensures w.cid in u.store && Lasts(Loaded(u, true).cache, Weights(peer, u, AllOf(b)), w.cid)
    {
      NameOf(b, w);
      var i :| 0 <= i < |b.names| && WantedOf(b, i) == w && b.names[i] == w.cid;
      PinnedFiled(e, fs, w.cid);
    }
  }

  lemma StoredLossless(hash: Bytes -> Bytes, peer: Bytes -> Option<Bytes>, u: Engine, b: Blocks)
    requires FileStored(u, b)
    ensures Lossless(hash, peer, u, AllOf(b))
  {
    hide Loaded, Answered, Weights, Burden, FileStored;
    StoredOrNot(u, b);
  }

  lemma WeightsLoaded(peer: Bytes -> Option<Bytes>, u: Engine, wanted: set<Wanted>)
    requires Readable(u) && Accounted(u)
    ensures Weights(peer, Loaded(u, true), wanted) == Weights(peer, u, wanted)
    ensures LengthsKnown(peer, Loaded(u, true), wanted) == LengthsKnown(peer, u, wanted)
  {
    hide Loaded, Accounted, Readable;
    LoadedAlready(u);
  }

  lemma LosslessFits(
    hash: Bytes -> Bytes, peer: Bytes -> Option<Bytes>, e: Engine, u: Engine, fs: seq<Filing>, b: Blocks)
    requires Paired(b) && LikeFile(peer, b) && Measured(e, b) && LeavesFile(e, u, fs, b) && Accounted(u) && Readable(u)
    requires Kept(Loaded(e, true), Loaded(u, true), SizesOf(b).Keys, SizesOf(b))
    requires Lossless(hash, peer, u, AllOf(b)) && !Backed(hash, peer, e, b)
    ensures Fits(e, b)
  {
    hide Loaded, Accounted, Readable, Measured, Answered, Weights, Lasts, LikeFile, Kept, FileStored, FileFits;
    if FileStored(u, b) {
      assert Fits(e, b);
    } else {
      StoredOrNot(u, b);
      var i: nat :| i < |b.names|
        && b.names[i] !in Loaded(e, true).cache.pinned && !Answered(hash, WantedOf(b, i), peer(b.names[i]));
      assert WantedOf(b, i) in AllOf(b);
      WeightsLoaded(peer, u, AllOf(b));
      LoadedStore(u);
      LastingFits(hash, peer, Loaded(e, true), Loaded(u, true), b, i);
    }
  }

  /**
   On a node without a position, a file that was just added can be got back in every order of its
   downloads exactly if it fits beside the pinned blocks, or each of its blocks is pinned or with peers.
   */
  lemma AddedGotExactly(
    hash: Bytes -> Bytes, peer: Bytes -> Option<Bytes>, e: Engine, u: Engine, fs: seq<Filing>, b: Blocks)
    requires Paired(b) && |b.names| > 0 && Accounted(e) && Readable(e) && Measured(e, b) && Filed(e, u, fs, b) && ByAge(fs)
    requires Apart(AllOf(b)) && LikeFile(peer, b)
    ensures AlwaysGot(hash, peer, u, AllOf(b)) <==> Fits(e, b) || Backed(hash, peer, e, b)
  {
    hide Accounted, Readable, Measured, Filed, Fits, Backed, AlwaysGot, Lossless, Apart, LikeFile, LengthsKnown, ByAge, Kept;
    hide LeavesFile, FileStored, Loaded;
    AddedCache(e, u, fs, b);
    FiledLeaves(e, u, fs, b);
    LengthsOfFile(peer, Loaded(e, true), Loaded(u, true), b);
    WeightsLoaded(peer, u, AllOf(b));
    AlwaysGotExactly(hash, peer, u, AllOf(b));
    if Fits(e, b) {
      FitsIsStored(e, u, fs, b);
      StoredLossless(hash, peer, u, b);
    } else if Backed(hash, peer, e, b) {
      BackedLossless(hash, peer, e, u, fs, b);
    } else if Lossless(hash, peer, u, AllOf(b)) {
      LosslessFits(hash, peer, e, u, fs, b);
    }
  }

  lemma FitsIsStored(e: Engine, u: Engine, fs: seq<Filing>, b: Blocks)
    requires Paired(b) && LeavesFile(e, u, fs, b) && Measured(e, b) && Fits(e, b) && ByAge(fs)
    ensures FileStored(u, b)
  {
    hide Measured, Fits, ByAge, FileStored, Room;
  }
}
