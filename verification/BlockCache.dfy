/**
 Accounting of the blocks a node keeps, and the choice of blocks to give up: oldest first, or the
 ones that are both old and far away.
 */
module BlockCache {
  import opened Common

  datatype Position = Position(x: real, y: real, z: real)

  datatype Meta = Meta(lastAccessed: nat, size: nat, position: Option<Position>)

  /** `lru` is ordered by key: it lists the blocks from the longest untouched to the latest. */
  datatype Cache = Cache(
    capacity: nat,
    usage: int,
    meta: map<Bytes, Meta>,
    lru: map<nat, Bytes>,
    clock: nat,
    pinned: set<Bytes>)

  function New(capacity: nat): Cache {
    Cache(capacity, 0, map[], map[], 0, {})
  }

  // ---- tracking ----

  function Restamped(c: Cache, cid: Bytes, position: Option<Position>): Cache
    requires cid in c.meta
  {
    var m := c.meta[cid];
    c.(clock := c.clock + 1,
       lru := (c.lru - {m.lastAccessed})[c.clock + 1 := cid],
       meta := c.meta[cid := Meta(c.clock + 1, m.size, if position.Some? then position else m.position)])
  }

  function Tracked(c: Cache, cid: Bytes, size: nat, position: Option<Position>): Cache {
    if cid in c.meta then Restamped(c, cid, position)
    else
      c.(clock := c.clock + 1,
         lru := c.lru[c.clock + 1 := cid],
         meta := c.meta[cid := Meta(c.clock + 1, size, position)],
         usage := c.usage + size)
  }

  function Touched(c: Cache, cid: Bytes): Cache {
    if cid in c.meta then Restamped(c, cid, None) else c
  }

  function Untracked(c: Cache, cid: Bytes): Cache {
    if cid in c.meta then
      var m := c.meta[cid];
      c.(meta := c.meta - {cid}, lru := c.lru - {m.lastAccessed}, usage := Max(c.usage - m.size, 0))
    else c
  }

  function Pinned(c: Cache, cids: set<Bytes>): Cache {
    c.(pinned := cids)
  }

  // ---- distance and score ----

  const FARTHEST: real := 340282346638528859811704183484516925440.0
  const EPSILON: real := 0.00000011920928955078125

  /** Where this node is, how far two positions are apart, and the radius within which blocks are kept. */
  datatype Space = Space(dist: (Position, Position) -> real, selves: seq<Position>, radius: real)

  datatype Score = Finite(value: real) | Infinite

  predicate AtLeast(a: Score, b: Score) {
    a.Infinite? || (b.Finite? && a.value >= b.value)
  }

  function Nearest(dist: (Position, Position) -> real, p: Position, selves: seq<Position>): real {
    if selves == [] then FARTHEST
    else
      var rest := Nearest(dist, p, selves[..|selves| - 1]);
      var d := dist(p, selves[|selves| - 1]);
      if d < rest then d else rest
  }

  function DistanceRatio(d: real, r: real): Score {
    if d <= EPSILON then Finite(0.0) else if r == 0.0 then Infinite else Finite(d / r)
  }

  function Coefficient(m: Meta, space: Space): Score {
    if m.position.Some? && space.selves != [] then
      match DistanceRatio(Nearest(space.dist, m.position.value, space.selves), space.radius)
      case Infinite => Infinite
      case Finite(ratio) => Finite(1.0 + ratio * ratio)
    else Finite(1.0)
  }

  function EffectiveAge(c: Cache, space: Space, cid: Bytes): Score
    requires cid in c.meta
  {
    var age := (c.clock - c.meta[cid].lastAccessed + 1) as real;
    match Coefficient(c.meta[cid], space)
    case Infinite => Infinite
    case Finite(k) => Finite(age * k)
  }

  // ---- which victims are right ----

  predicate Evictable(c: Cache, cid: Bytes) {
    cid in c.meta && cid !in c.pinned
  }

  predicate Older(c: Cache, a: Bytes, b: Bytes) {
    a in c.meta && b in c.meta && c.meta[a].lastAccessed <= c.meta[b].lastAccessed
  }

  predicate Farther(c: Cache, space: Space, a: Bytes, b: Bytes) {
    a in c.meta && b in c.meta && AtLeast(EffectiveAge(c, space, a), EffectiveAge(c, space, b))
  }

  /** Goes before: by score when there is a space to score in, by age when there is none. */
  predicate Before(c: Cache, space: Option<Space>, a: Bytes, b: Bytes) {
    if space.Some? then Farther(c, space.value, a, b) else Older(c, a, b)
  }

  function Freed(c: Cache, victims: seq<Bytes>): nat {
    if victims == [] then 0
    else
      var last := victims[|victims| - 1];
      Freed(c, victims[..|victims| - 1]) + (if last in c.meta then c.meta[last].size else 0)
  }

  ghost predicate Distinct(xs: seq<Bytes>) {
    forall i, j :: 0 <= i < j < |xs| ==> xs[i] != xs[j]
  }

  /** At every position stands a block no evictable block outside the earlier ones goes before. */
  ghost predicate InOrder(c: Cache, space: Option<Space>, victims: seq<Bytes>) {
    forall i, w :: 0 <= i < |victims| && Evictable(c, w) && w !in victims[..i] ==> Before(c, space, victims[i], w)
  }

  ghost predicate Chosen(c: Cache, space: Option<Space>, victims: seq<Bytes>) {
    && (forall v <- victims :: Evictable(c, v))
    && Distinct(victims)
    && InOrder(c, space, victims)
  }

  /** The shortest run in order that frees `need` bytes, or every evictable block if that is not enough. */
  ghost predicate VictimRun(c: Cache, space: Option<Space>, victims: seq<Bytes>, need: nat) {
    && Chosen(c, space, victims)
    && (Freed(c, victims) >= need || forall w <- c.meta :: Evictable(c, w) ==> w in victims)
    && (victims != [] ==> Freed(c, victims[..|victims| - 1]) < need)
  }

  function LruNeed(c: Cache): nat {
    if c.usage <= c.capacity then 0 else c.usage - c.capacity
  }

  /** Spatial eviction frees down to 95 per cent of the capacity, once it is exceeded at all. */
  function SpatialNeed(c: Cache): nat {
    if c.usage <= c.capacity then 0 else Max(c.usage - c.capacity * 95 / 100, 0)
  }

  ghost predicate CapacityVictims(c: Cache, space: Option<Space>, victims: seq<Bytes>) {
    VictimRun(c, space, victims, if space.Some? then SpatialNeed(c) else LruNeed(c))
  }

  /** Blocks one decay sweep removes: tagged, not pinned, beyond the radius, and losing the roll. */
  predicate Decays(c: Cache, space: Space, maxProbability: real, roll: Bytes -> real, cid: Bytes) {
    && Evictable(c, cid) && space.selves != [] && c.meta[cid].position.Some?
    && var d := Nearest(space.dist, c.meta[cid].position.value, space.selves);
       && d > space.radius
       && roll(cid) < maxProbability * DecayFactor(d, space.radius)
  }

  function DecayFactor(d: real, radius: real): real
    requires d > radius
  {
    if radius == 0.0 then 1.0
    else
      var f := (d - radius) / (3.0 * radius);
      if f < 1.0 then f else 1.0
  }

  // ---- the manager ----

  class StorageManager {
    const capacity: nat
    var usage: int
    var meta: map<Bytes, Meta>
    var lru: map<nat, Bytes>
    var clock: nat
    var pinned: set<Bytes>

    ghost function View(): Cache
      reads this
    {
      Cache(capacity, usage, meta, lru, clock, pinned)
    }

    constructor (capacity: nat)
      ensures View() == New(capacity) && Inv(View())
    {
      this.capacity := capacity;
      usage, meta, lru, clock, pinned := 0, map[], map[], 0, {};
    }

    method SetPinned(cids: set<Bytes>)
      requires Inv(View())
      modifies this`pinned
      ensures View() == Pinned(old(View()), cids) && Inv(View())
    {
      pinned := cids;
    }

    method TrackBlock(cid: Bytes, size: nat, position: Option<Position>) returns (added: bool)
      requires Inv(View())
      modifies this
      ensures View() == Tracked(old(View()), cid, size, position) && Inv(View())
      ensures added <==> cid !in old(meta)
    {
      hide Inv;
      TrackedInv(View(), cid, size, position);
      clock := clock + 1;
      if cid in meta {
        var m := meta[cid];
        lru := (lru - {m.lastAccessed})[clock := cid];
        meta := meta[cid := Meta(clock, m.size, if position.Some? then position else m.position)];
        return false;
      }
      meta := meta[cid := Meta(clock, size, position)];
      lru := lru[clock := cid];
      usage := usage + size;
      return true;
    }

    method Touch(cid: Bytes)
      requires Inv(View())
      modifies this
      ensures View() == Touched(old(View()), cid) && Inv(View())
    {
      TouchedInv(View(), cid);
      if cid in meta {
        clock := clock + 1;
        var m := meta[cid];
        lru := (lru - {m.lastAccessed})[clock := cid];
        meta := meta[cid := m.(lastAccessed := clock)];
      }
    }

    method UntrackBlock(cid: Bytes) returns (size: Option<nat>)
      requires Inv(View())
      modifies this
      ensures View() == Untracked(old(View()), cid) && Inv(View())
      ensures size == if cid in old(meta) then Some(old(meta)[cid].size) else None
    {
      UntrackedInv(View(), cid);
      if cid in meta {
        var m := meta[cid];
        meta := meta - {cid};
        lru := lru - {m.lastAccessed};
        usage := if usage > m.size then usage - m.size else 0;
        return Some(m.size);
      }
      return None;
    }

    method EvictionCandidates() returns (victims: seq<Bytes>)
      requires Inv(View())
      ensures CapacityVictims(View(), None, victims)
    {
      victims := [];
      if usage <= capacity {
        return;
      }
      ghost var c := View();
      var remaining: nat := usage - capacity;
      var rest := lru.Keys;
      while rest != {}
        invariant rest <= lru.Keys
        invariant Chosen(c, None, victims)
        invariant Freed(c, victims) + remaining == LruNeed(c) && remaining > 0
        invariant LeftOver(c, rest, victims)
        decreases |rest|
      {
        ghost var least := LeastOf(rest);
        var k :| k in rest && forall j <- rest :: k <= j;
        var cid := lru[k];
        rest := rest - {k};
        if cid in pinned {
          continue;
        }
        if cid in meta {
          ChooseNext(c, None, victims, cid);
          victims := victims + [cid];
          remaining := if remaining > meta[cid].size then remaining - meta[cid].size else 0;
          if remaining == 0 {
            break;
          }
        }
      }
    }

    method MinDistance(space: Space, p: Position) returns (d: real)
      ensures d == Nearest(space.dist, p, space.selves)
    {
      d := FARTHEST;
      for i := 0 to |space.selves|
        invariant d == Nearest(space.dist, p, space.selves[..i])
      {
        assert space.selves[..i + 1][..i] == space.selves[..i];
        var next := space.dist(p, space.selves[i]);
        d := if next < d then next else d;
      }
      assert space.selves[..|space.selves|] == space.selves;
    }

    /** The heap hands out some block of greatest effective age; which one among equals is open. */
    method SpatialEvictionCandidates(space: Space) returns (victims: seq<Bytes>)
      requires Inv(View())
      ensures CapacityVictims(View(), Some(space), victims)
    {
      hide EffectiveAge, Before, Evictable, Chosen, HeapOk, Freed, Inv, Scored, AtLeast, Covers, SpatialNeed, CapacityVictims;
      victims := [];
      if usage <= capacity {
        NoneNeeded(View(), space);
        return;
      }
      ghost var c := View();
      var remaining: nat := Max(usage - capacity * 95 / 100, 0);
      var heap := Scored(Cache(capacity, usage, meta, lru, clock, pinned), space);
      NoneChosen(c, Some(space));
      ScoredOk(c, space);
      CoversStart(c);
      while remaining > 0 && heap != map[]
        invariant HeapOk(c, space, heap, victims)
        invariant Chosen(c, Some(space), victims)
        invariant Covers(Freed(c, victims), remaining, SpatialNeed(c))
        invariant victims != [] ==> Freed(c, victims[..|victims| - 1]) < SpatialNeed(c)
        decreases |heap|
      {
        GreatestExists(heap, heap.Keys);
        var cid :| cid in heap && forall d <- heap :: AtLeast(heap[cid], heap[d]);
        HeapTop(c, space, heap, victims, cid);
        ChooseNext(c, Some(space), victims, cid);
        assert (victims + [cid])[..|victims|] == victims;
        CoversNext(Freed(c, victims), remaining, SpatialNeed(c), meta[cid].size);
        heap := heap - {cid};
        victims := victims + [cid];
        remaining := if remaining > meta[cid].size then remaining - meta[cid].size else 0;
      }
      HeapEmpty(c, space, heap, victims);
      CoversAll(c, space, victims, remaining);
    }

    /** Victims come in no particular order; `roll` is the deterministic draw for this sweep. */
    method DecayCandidates(space: Space, maxProbability: real, roll: Bytes -> real) returns (victims: seq<Bytes>)
      requires Inv(View())
      ensures Distinct(victims)
      ensures forall cid :: cid in victims <==> Decays(View(), space, maxProbability, roll, cid)
    {
      victims := [];
      if space.selves == [] {
        return;
      }
      ghost var c := View();
      var rest := meta.Keys;
      while rest != {}
        invariant rest <= meta.Keys
        invariant Distinct(victims)
        invariant forall cid :: cid in victims <==> Decays(c, space, maxProbability, roll, cid) && cid !in rest
        decreases |rest|
      {
        var cid :| cid in rest;
        rest := rest - {cid};
        if cid in pinned || meta[cid].position == None {
          continue;
        }
        var d := MinDistance(space, meta[cid].position.value);
        if d <= space.radius {
          continue;
        }
        if roll(cid) < maxProbability * DecayFactor(d, space.radius) {
          victims := victims + [cid];
        }
      }
    }
  }

  /** The nearest distance is no more than any, and is one of them unless all are beyond the farthest. */
  lemma {:induction false} NearestIsLeast(dist: (Position, Position) -> real, p: Position, selves: seq<Position>)
    ensures forall i :: 0 <= i < |selves| ==> Nearest(dist, p, selves) <= dist(p, selves[i])
    ensures Nearest(dist, p, selves) <= FARTHEST
    ensures (exists i :: 0 <= i < |selves| && dist(p, selves[i]) == Nearest(dist, p, selves))
         || Nearest(dist, p, selves) == FARTHEST
  {
    if selves != [] {
      var n := |selves| - 1;
      NearestIsLeast(dist, p, selves[..n]);
      if i :| 0 <= i < n && dist(p, selves[..n][i]) == Nearest(dist, p, selves[..n]) {
        assert dist(p, selves[i]) == Nearest(dist, p, selves[..n]);
      }
    }
  }

  // ---- accounting ----

  const SizeOf: Meta -> nat := (m: Meta) => m.size

  ghost predicate Inv(c: Cache) {
    && (forall k <- c.lru :: c.lru[k] in c.meta && c.meta[c.lru[k]].lastAccessed == k)
    && (forall cid <- c.meta :: c.meta[cid].lastAccessed in c.lru && c.lru[c.meta[cid].lastAccessed] == cid)
    && (forall cid <- c.meta :: c.meta[cid].lastAccessed <= c.clock)
    && c.usage == Sum(c.meta, SizeOf)
  }

  lemma RestampedInv(c: Cache, cid: Bytes, position: Option<Position>)
    requires Inv(c) && cid in c.meta
    ensures Inv(Restamped(c, cid, position))
  {
    SumUpdate(c.meta, SizeOf, cid, Restamped(c, cid, position).meta[cid]);
  }

  lemma TrackedInv(c: Cache, cid: Bytes, size: nat, position: Option<Position>)
    requires Inv(c)
    ensures Inv(Tracked(c, cid, size, position))
  {
    if cid in c.meta {
      RestampedInv(c, cid, position);
    } else {
      SumUpdate(c.meta, SizeOf, cid, Meta(c.clock + 1, size, position));
    }
  }

  lemma TouchedInv(c: Cache, cid: Bytes)
    requires Inv(c)
    ensures Inv(Touched(c, cid))
  {
    if cid in c.meta {
      RestampedInv(c, cid, None);
    }
  }

  /** Taking a block out subtracts exactly its size: the saturation never bites. */
  lemma UntrackedInv(c: Cache, cid: Bytes)
    requires Inv(c)
    ensures Inv(Untracked(c, cid))
    ensures Untracked(c, cid).usage == c.usage - (if cid in c.meta then c.meta[cid].size else 0)
  {
    if cid in c.meta {
      SumRemove(c.meta, SizeOf, cid);
    }
  }

  // ---- choosing victims ----

  /** Evictable blocks are the chosen ones and those whose timestamp the scan has not reached. */
  ghost predicate LeftOver(c: Cache, rest: set<nat>, victims: seq<Bytes>) {
    forall cid <- c.meta :: Evictable(c, cid) ==> (cid in victims <==> c.meta[cid].lastAccessed !in rest)
  }

  lemma {:induction false} LeastOf(rest: set<nat>) returns (least: nat)
    requires rest != {}
    ensures least in rest && forall j <- rest :: least <= j
    decreases rest
  {
    var k :| k in rest;
    var others := rest - {k};
    if others == {} {
      least := k;
    } else {
      var m := LeastOf(others);
      least := if k < m then k else m;
    }
    forall j | j in rest ensures least <= j {
      assert j == k || j in others;
    }
  }

  lemma {:induction false} GreatestExists(scores: map<Bytes, Score>, rest: set<Bytes>)
    requires rest != {} && rest <= scores.Keys
    ensures exists k :: k in rest && forall d <- rest :: AtLeast(scores[k], scores[d])
    decreases rest
  {
    var k :| k in rest;
    if rest != {k} {
      GreatestExists(scores, rest - {k});
      var m :| m in rest - {k} && forall d <- rest - {k} :: AtLeast(scores[m], scores[d]);
      var best := if AtLeast(scores[k], scores[m]) then k else m;
      assert best in rest && forall d <- rest :: AtLeast(scores[best], scores[d]);
    }
  }

  function Scored(c: Cache, space: Space): map<Bytes, Score> {
    map cid | cid in c.meta && Evictable(c, cid) :: EffectiveAge(c, space, cid)
  }

  /** What is needed has been freed or remains to be. */
  predicate Covers(freed: nat, remaining: nat, need: nat) {
    if remaining > 0 then freed + remaining == need else freed >= need
  }

  lemma NoneNeeded(c: Cache, space: Space)
    requires c.usage <= c.capacity
    ensures CapacityVictims(c, Some(space), [])
  {
  }

  lemma CoversStart(c: Cache)
    requires c.usage > c.capacity
    ensures
      var need: nat := Max(c.usage - c.capacity * 95 / 100, 0);
      SpatialNeed(c) == need && Covers(0, need, need)
  {
  }

  lemma CoversNext(freed: nat, remaining: nat, need: nat, size: nat)
    requires Covers(freed, remaining, need) && remaining > 0
    ensures freed < need
    ensures Covers(freed + size, if remaining > size then remaining - size else 0, need)
  {
  }

  lemma CoversAll(c: Cache, space: Space, victims: seq<Bytes>, remaining: nat)
    requires Chosen(c, Some(space), victims) && Covers(Freed(c, victims), remaining, SpatialNeed(c))
    requires remaining == 0 || forall w <- c.meta :: Evictable(c, w) ==> w in victims
    requires victims != [] ==> Freed(c, victims[..|victims| - 1]) < SpatialNeed(c)
    ensures CapacityVictims(c, Some(space), victims)
  {
    hide Chosen, Freed, SpatialNeed;
  }

  ghost predicate HeapOk(c: Cache, space: Space, heap: map<Bytes, Score>, victims: seq<Bytes>) {
    && (forall cid :: cid in heap <==> cid in c.meta && Evictable(c, cid) && cid !in victims)
    && (forall cid <- heap :: heap[cid] == EffectiveAge(c, space, cid))
  }

  lemma NoneChosen(c: Cache, space: Option<Space>)
    ensures Chosen(c, space, []) && Freed(c, []) == 0
  {
  }

  lemma ScoredOk(c: Cache, space: Space)
    ensures HeapOk(c, space, Scored(c, space), [])
  {
    hide EffectiveAge;
  }

  lemma HeapTop(c: Cache, space: Space, heap: map<Bytes, Score>, victims: seq<Bytes>, cid: Bytes)
    requires HeapOk(c, space, heap, victims)
    requires cid in heap && forall d <- heap :: AtLeast(heap[cid], heap[d])
    ensures cid in c.meta && Evictable(c, cid) && cid !in victims
    ensures forall w <- c.meta :: Evictable(c, w) && w !in victims ==> Before(c, Some(space), cid, w)
    ensures HeapOk(c, space, heap - {cid}, victims + [cid])
  {
    hide EffectiveAge, Evictable;
    forall w | w in c.meta && Evictable(c, w) && w !in victims
      ensures Before(c, Some(space), cid, w)
    {
      assert w in heap;
    }
  }

  lemma HeapEmpty(c: Cache, space: Space, heap: map<Bytes, Score>, victims: seq<Bytes>)
    requires HeapOk(c, space, heap, victims)
    ensures heap == map[] ==> forall w <- c.meta :: Evictable(c, w) ==> w in victims
  {
    hide EffectiveAge, Evictable;
    forall w | w in c.meta && Evictable(c, w) && w !in victims
      ensures w in heap
    {
    }
  }

  lemma ChooseNext(c: Cache, space: Option<Space>, victims: seq<Bytes>, cid: Bytes)
    requires Chosen(c, space, victims) && Evictable(c, cid) && cid !in victims
    requires forall w <- c.meta :: Evictable(c, w) && w !in victims ==> Before(c, space, cid, w)
    ensures Chosen(c, space, victims + [cid])
    ensures Freed(c, victims + [cid]) == Freed(c, victims) + c.meta[cid].size
  {
    hide Before;
    var u := victims + [cid];
    assert u[..|victims|] == victims;
    forall i, w | 0 <= i < |u| && Evictable(c, w) && w !in u[..i]
      ensures Before(c, space, u[i], w)
    {
      if i < |victims| {
        assert u[..i] == victims[..i];
      }
    }
  }

  // ---- a complete run always exists ----

  lemma {:induction false} CompleteRun(c: Cache, space: Space, heap: map<Bytes, Score>, victims: seq<Bytes>, need: nat)
    returns (all: seq<Bytes>)
    requires HeapOk(c, space, heap, victims) && Chosen(c, Some(space), victims)
    requires victims != [] ==> Freed(c, victims[..|victims| - 1]) < need
    ensures VictimRun(c, Some(space), all, need) && victims <= all
    decreases |heap|
  {
    hide EffectiveAge, Before, Evictable, Chosen, HeapOk, Freed;
    if Freed(c, victims) >= need || heap == map[] {
      HeapEmpty(c, space, heap, victims);
      all := victims;
    } else {
      GreatestExists(heap, heap.Keys);
      var cid :| cid in heap && forall d <- heap :: AtLeast(heap[cid], heap[d]);
      HeapTop(c, space, heap, victims, cid);
      ChooseNext(c, Some(space), victims, cid);
      assert (victims + [cid])[..|victims|] == victims;
      all := CompleteRun(c, space, heap - {cid}, victims + [cid], need);
    }
  }

  /** The space of a node that is nowhere ranks blocks by age. */
  lemma NowhereIsByAge(c: Cache, space: Space, victims: seq<Bytes>, need: nat)
    requires space.selves == [] && VictimRun(c, Some(space), victims, need)
    ensures VictimRun(c, None, victims, need)
  {
    hide Freed;
    forall v, w | Before(c, Some(space), v, w)
      ensures Before(c, None, v, w)
    {
    }
  }

  /** There always are victims by age. */
  lemma AgeVictims(c: Cache) returns (victims: seq<Bytes>)
    ensures CapacityVictims(c, None, victims)
  {
    hide VictimRun, HeapOk, Chosen;
    var nowhere := Space((p, q) => 0.0, [], 0.0);
    NoneChosen(c, Some(nowhere));
    ScoredOk(c, nowhere);
    victims := CompleteRun(c, nowhere, Scored(c, nowhere), [], LruNeed(c));
    NowhereIsByAge(c, nowhere, victims, LruNeed(c));
  }

  // ---- the victims are determined ----

  lemma {:induction false} FreedGrows(c: Cache, victims: seq<Bytes>, k: nat)
    requires k <= |victims|
    ensures Freed(c, victims[..k]) <= Freed(c, victims)
  {
    var n := |victims| - 1;
    if k <= n {
      FreedGrows(c, victims[..n], k);
      assert victims[..n][..k] == victims[..k];
    } else {
      assert victims[..k] == victims;
    }
  }

  /** Where scores and ages rank blocks alike, the choice at every position is the same. */
  lemma {:induction false} SameChoice(c: Cache, a: seq<Bytes>, b: seq<Bytes>, space: Option<Space>, i: nat)
    requires Inv(c) && Chosen(c, None, a) && Chosen(c, space, b) && i <= |a| && i <= |b|
    requires forall v, w :: Evictable(c, v) && Evictable(c, w) && Before(c, space, v, w) ==> Older(c, v, w)
    ensures a[..i] == b[..i]
  {
    hide Before;
    if i > 0 {
      SameChoice(c, a, b, space, i - 1);
      assert Evictable(c, a[i - 1]) && Evictable(c, b[i - 1]);
      assert a[i - 1] !in a[..i - 1] && b[i - 1] !in b[..i - 1];
      assert Before(c, None, a[i - 1], b[i - 1]) && Before(c, space, b[i - 1], a[i - 1]);
      SameAge(c, a[i - 1], b[i - 1]);
    }
  }

  lemma SameAge(c: Cache, a: Bytes, b: Bytes)
    requires Inv(c) && Before(c, None, a, b) && Older(c, b, a)
    ensures a == b
  {
  }

  lemma PrefixFallsShort(c: Cache, a: seq<Bytes>, k: nat, need: nat)
    requires VictimRun(c, None, a, need) && k < |a|
    ensures Freed(c, a[..k]) < need && Evictable(c, a[k]) && a[k] !in a[..k]
  {
    hide InOrder;
    FreedGrows(c, a[..|a| - 1], k);
    assert a[..|a| - 1][..k] == a[..k];
  }

  /** A run that must free more starts with the run that must free less. */
  lemma RunExtends(c: Cache, a: seq<Bytes>, b: seq<Bytes>, space: Option<Space>, less: nat, more: nat)
    requires Inv(c) && VictimRun(c, None, a, less) && VictimRun(c, space, b, more) && less <= more
    requires forall v, w :: Evictable(c, v) && Evictable(c, w) && Before(c, space, v, w) ==> Older(c, v, w)
    ensures a <= b
  {
    hide Before, InOrder;
    SameChoice(c, a, b, space, Min(|a|, |b|));
    assert a[..|a|] == a && b[..|b|] == b;
    if |b| < |a| {
      PrefixFallsShort(c, a, |b|, less);
    }
  }

  /** The least recently used victims are determined: there is one right answer. */
  lemma LruVictimsUnique(c: Cache, a: seq<Bytes>, b: seq<Bytes>)
    requires Inv(c) && CapacityVictims(c, None, a) && CapacityVictims(c, None, b)
    ensures a == b
  {
    RunExtends(c, a, b, None, LruNeed(c), LruNeed(c));
    RunExtends(c, b, a, None, LruNeed(c), LruNeed(c));
  }

  ghost predicate Untagged(c: Cache, space: Space) {
    space.selves == [] || forall cid <- c.meta :: Evictable(c, cid) ==> c.meta[cid].position == None
  }

  /** With no tagged block to evict, the spatial victims are the LRU victims and then the next oldest ones. */
  lemma SpatialExtendsLru(c: Cache, space: Space, lru: seq<Bytes>, spatial: seq<Bytes>)
    requires Inv(c) && Untagged(c, space)
    requires CapacityVictims(c, None, lru) && CapacityVictims(c, Some(space), spatial)
    ensures lru <= spatial
  {
    assert LruNeed(c) <= SpatialNeed(c);
    forall v, w | Evictable(c, v) && Evictable(c, w) && Before(c, Some(space), v, w)
      ensures Older(c, v, w)
    {
      assert Coefficient(c.meta[v], space) == Finite(1.0) == Coefficient(c.meta[w], space);
    }
    RunExtends(c, lru, spatial, Some(space), LruNeed(c), SpatialNeed(c));
  }

  // ---- the effect of eviction ----

  function Evicted(c: Cache, victims: seq<Bytes>): Cache
    decreases |victims|
  {
    if victims == [] then c else Untracked(Evicted(c, victims[..|victims| - 1]), victims[|victims| - 1])
  }

  lemma {:induction false} EvictedExactly(c: Cache, victims: seq<Bytes>)
    requires Inv(c) && Distinct(victims) && (forall v <- victims :: v in c.meta)
    ensures
      var u := Evicted(c, victims);
      && Inv(u) && u.usage == c.usage - Freed(c, victims)
      && u.meta.Keys == (set cid | cid in c.meta && cid !in victims)
      && (forall cid <- u.meta :: u.meta[cid] == c.meta[cid])
      && u.capacity == c.capacity && u.pinned == c.pinned && u.clock == c.clock
    decreases |victims|
  {
    if victims != [] {
      var front, last := victims[..|victims| - 1], victims[|victims| - 1];
      EvictedExactly(c, front);
      UntrackedInv(Evicted(c, front), last);
    }
  }

  /** After a whole eviction the usage is within the capacity, or nothing but pinned blocks is left. */
  lemma EvictionSuffices(c: Cache, space: Option<Space>, victims: seq<Bytes>)
    requires Inv(c) && CapacityVictims(c, space, victims)
    ensures
      var u := Evicted(c, victims);
      && Inv(u)
      && (u.usage <= u.capacity || forall cid <- u.meta :: cid in u.pinned)
      && (forall cid <- c.meta :: cid in c.pinned ==> cid in u.meta)
  {
    EvictedExactly(c, victims);
  }

  /** What is pinned, or was last used at `since` or later. */
  ghost function Recent(c: Cache, since: nat): map<Bytes, Meta> {
    map cid | cid in c.meta && (cid in c.pinned || c.meta[cid].lastAccessed >= since) :: c.meta[cid]
  }

  /** What can be evicted and does not go before a victim is no older than it. */
  lemma NoOlderLater(c: Cache, victims: seq<Bytes>, i: nat, w: Bytes)
    requires InOrder(c, None, victims) && i < |victims| && Evictable(c, w)
    ensures w in victims[..i] || Before(c, None, victims[i], w)
  {
  }

  /** By age a block is spared exactly when it fits together with what is pinned or no older. */
  lemma LruSpares(c: Cache, victims: seq<Bytes>, cid: Bytes)
    requires Inv(c) && CapacityVictims(c, None, victims) && Evictable(c, cid)
    ensures cid !in victims <==> Sum(Recent(c, c.meta[cid].lastAccessed), SizeOf) <= c.capacity
  {
    if cid in victims {
      var i: nat :| i < |victims| && victims[i] == cid;
      VictimDoesNotFit(c, victims, i);
    } else {
      SparedFits(c, victims, cid);
    }
  }

  lemma VictimDoesNotFit(c: Cache, victims: seq<Bytes>, i: nat)
    requires Inv(c) && CapacityVictims(c, None, victims) && i < |victims|
    ensures victims[i] in c.meta && Sum(Recent(c, c.meta[victims[i]].lastAccessed), SizeOf) > c.capacity
  {
    hide Evicted, Freed;
    PrefixFallsShort(c, victims, i, LruNeed(c));
    var gone := victims[..i];
    forall v | v in gone
      ensures v in c.meta
    {
      assert v in victims;
      assert Evictable(c, v);
    }
    EvictedExactly(c, gone);
    var left := Evicted(c, gone).meta;
    var recent := Recent(c, c.meta[victims[i]].lastAccessed);
    forall w | w in left
      ensures w in recent && left[w].size <= recent[w].size
    {
      if w !in c.pinned {
        NoOlderLater(c, victims, i, w);
      }
    }
    SumShrinks(left, recent, SizeOf);
  }

  lemma SparedFits(c: Cache, victims: seq<Bytes>, cid: Bytes)
    requires Inv(c) && CapacityVictims(c, None, victims) && Evictable(c, cid) && cid !in victims
    ensures Sum(Recent(c, c.meta[cid].lastAccessed), SizeOf) <= c.capacity
  {
    hide Evicted, Freed, InOrder;
    EvictionSuffices(c, None, victims);
    EvictedExactly(c, victims);
    var left := Evicted(c, victims);
    assert cid in left.meta;
    var recent := Recent(c, c.meta[cid].lastAccessed);
    forall w | w in recent
      ensures w in left.meta && recent[w].size <= left.meta[w].size
    {
      if w in victims {
        VictimOlder(c, victims, w, cid);
      }
    }
    SumShrinks(recent, left.meta, SizeOf);
  }

  lemma VictimOlder(c: Cache, victims: seq<Bytes>, v: Bytes, w: Bytes)
    requires Inv(c) && Chosen(c, None, victims) && v in victims && w !in victims && Evictable(c, w)
    ensures Evictable(c, v) && c.meta[v].lastAccessed < c.meta[w].lastAccessed
  {
    var i: nat :| i < |victims| && victims[i] == v;
    NoOlderLater(c, victims, i, w);
    if c.meta[v].lastAccessed == c.meta[w].lastAccessed {
      SameAge(c, v, w);
    }
  }

  // ---- every run ----

  datatype Event =
    | Track(cid: Bytes, size: nat, position: Option<Position>)
    | Touch(cid: Bytes)
    | Untrack(cid: Bytes)
    | Pin(cids: set<Bytes>)

  function Step(c: Cache, e: Event): Cache {
    match e
    case Track(cid, size, position) => Tracked(c, cid, size, position)
    case Touch(cid) => Touched(c, cid)
    case Untrack(cid) => Untracked(c, cid)
    case Pin(cids) => Pinned(c, cids)
  }

  function Run(c: Cache, events: seq<Event>): Cache
    decreases |events|
  {
    if events == [] then c else Run(Step(c, events[0]), events[1..])
  }

  lemma {:induction false} RunInv(c: Cache, events: seq<Event>)
    requires Inv(c)
    ensures Inv(Run(c, events))
    decreases |events|
  {
    if events != [] {
      var e := events[0];
      match e {
        case Track(cid, size, position) => TrackedInv(c, cid, size, position);
        case Touch(cid) => TouchedInv(c, cid);
        case Untrack(cid) => UntrackedInv(c, cid);
        case Pin(_) =>
      }
      RunInv(Step(c, e), events[1..]);
    }
  }

  /** Over every run the index is the exact inverse of the timestamps, and the usage the exact sum of sizes. */
  lemma AccountingInvariant(capacity: nat, events: seq<Event>)
    ensures Inv(Run(New(capacity), events))
  {
    RunInv(New(capacity), events);
  }
}
