/**
 What the victims of the block cache mean: by age they are the blocks longest unused, and by score
 distance from the node counts against age at an exact rate.
 */
module BlockRanking {
  import opened Common
  import opened BlockCache

  // ---- age is last use ----

  predicate Uses(e: Event, cid: Bytes) {
    (e.Track? || e.Touch?) && e.cid == cid
  }

  /** Position of the last event that uses the block, or -1. */
  function LastUse(events: seq<Event>, cid: Bytes): (i: int)
    ensures -1 <= i < |events|
  {
    if events == [] then -1
    else if Uses(events[|events| - 1], cid) then |events| - 1
    else LastUse(events[..|events| - 1], cid)
  }

  /** Length and position of a block as they were given: the first length, and the last position there was. */
  function Given(events: seq<Event>, cid: Bytes): Option<(nat, Option<Position>)> {
    if events == [] then None
    else
      var before := Given(events[..|events| - 1], cid);
      match events[|events| - 1]
      case Track(c, size, position) =>
        if c != cid then before
        else if before.None? then Some((size, position))
        else if position.Some? then Some((before.value.0, position))
        else before
      case Untrack(c) => if c == cid then None else before
      case _ => before
  }

  lemma {:induction false} RunNext(c: Cache, events: seq<Event>, e: Event)
    ensures Run(c, events + [e]) == Step(Run(c, events), e)
    decreases |events|
  {
    hide Step;
    if events != [] {
      RunNext(Step(c, events[0]), events[1..], e);
      assert (events + [e])[1..] == events[1..] + [e];
    }
  }

  /** The tracked blocks are in the order of their last use, with the lengths and positions given. */
  ghost predicate Remembers(c: Cache, events: seq<Event>) {
    && (forall a <- c.meta :: LastUse(events, a) >= 0)
    && (forall a <- c.meta, b <- c.meta ::
          c.meta[a].lastAccessed < c.meta[b].lastAccessed <==> LastUse(events, a) < LastUse(events, b))
    && (forall a :: a in c.meta <==> Given(events, a).Some?)
    && (forall a <- c.meta :: Given(events, a) == Some((c.meta[a].size, c.meta[a].position)))
  }

  lemma UseNext(events: seq<Event>, e: Event, cid: Bytes)
    ensures LastUse(events + [e], cid) == if Uses(e, cid) then |events| else LastUse(events, cid)
  {
    assert (events + [e])[..|events|] == events;
  }

  lemma GivenNext(events: seq<Event>, e: Event, cid: Bytes)
    ensures
      var before := Given(events, cid);
      Given(events + [e], cid) ==
        match e
        case Track(c, size, position) =>
          if c != cid then before
          else if before.None? then Some((size, position))
          else if position.Some? then Some((before.value.0, position))
          else before
        case Untrack(c) => if c == cid then None else before
        case _ => before
  {
    assert (events + [e])[..|events|] == events;
  }

  /** A used block gets a stamp above all others, and the others keep theirs. */
  lemma Stamps(c: Cache, e: Event)
    requires Inv(c)
    ensures
      var u := Step(c, e);
      && (forall a <- u.meta :: Uses(e, a) ==> u.meta[a].lastAccessed > c.clock)
      && (forall a <- u.meta :: !Uses(e, a) ==> a in c.meta && u.meta[a] == c.meta[a])
      && (forall a <- c.meta :: c.meta[a].lastAccessed <= c.clock)
  {
  }

  lemma StepRemembers(c: Cache, events: seq<Event>, e: Event)
    requires Inv(c) && Remembers(c, events)
    ensures Remembers(Step(c, e), events + [e])
  {
    hide LastUse, Given, Inv;
    Stamps(c, e);
    forall a
      ensures LastUse(events + [e], a) == if Uses(e, a) then |events| else LastUse(events, a)
    {
      UseNext(events, e, a);
    }
    var u := Step(c, e);
    forall a
      ensures a in u.meta <==> Given(events + [e], a).Some?
      ensures a in u.meta ==> Given(events + [e], a) == Some((u.meta[a].size, u.meta[a].position))
    {
      GivenNext(events, e, a);
    }
  }

  lemma StepInv(c: Cache, e: Event)
    requires Inv(c)
    ensures Inv(Step(c, e))
  {
    RunInv(c, [e]);
    assert Run(Step(c, e), [e][1..]) == Step(c, e);
  }

  /** In every run the cache remembers how blocks were used, and nothing else. */
  lemma {:induction false} RunRemembers(capacity: nat, events: seq<Event>)
    ensures Remembers(Run(New(capacity), events), events) && Inv(Run(New(capacity), events))
    decreases |events|
  {
    hide Remembers, Inv, Step;
    AccountingInvariant(capacity, events);
    if events == [] {
      NewRemembers(capacity);
    } else {
      var front, e := events[..|events| - 1], events[|events| - 1];
      RunRemembers(capacity, front);
      StepRemembers(Run(New(capacity), front), front, e);
      RunNext(New(capacity), front, e);
      assert front + [e] == events;
    }
  }

  lemma NewRemembers(capacity: nat)
    ensures Remembers(New(capacity), [])
  {
  }

  /** The least recently used victims were each used longer ago than every block that is spared. */
  lemma VictimsLongestUnused(capacity: nat, events: seq<Event>, victims: seq<Bytes>, v: Bytes, w: Bytes)
    requires CapacityVictims(Run(New(capacity), events), None, victims) && v in victims
    requires Evictable(Run(New(capacity), events), w) && w !in victims
    ensures 0 <= LastUse(events, v) < LastUse(events, w)
  {
    hide Inv, Run, LastUse, Freed, InOrder;
    RunRemembers(capacity, events);
    VictimOlder(Run(New(capacity), events), victims, v, w);
  }

  // ---- score ----

  /** How far the block is for the score: not at all without a position of its own or of the node. */
  function Away(c: Cache, space: Space, cid: Bytes): real
    requires cid in c.meta
  {
    var m := c.meta[cid];
    if m.position.Some? && space.selves != []
       && Nearest(space.dist, m.position.value, space.selves) > 0.00000011920928955078125
    then Nearest(space.dist, m.position.value, space.selves)
    else 0.0
  }

  function Age(c: Cache, cid: Bytes): int
    requires cid in c.meta
  {
    c.clock - c.meta[cid].lastAccessed + 1
  }

  /** Age times the sum of the squared radius and the squared distance. */
  function Weight(c: Cache, space: Space, cid: Bytes): real
    requires cid in c.meta
  {
    Age(c, cid) as real * (space.radius * space.radius + Away(c, space, cid) * Away(c, space, cid))
  }

  lemma Scaled(age: real, d: real, r: real)
    requires r > 0.0
    ensures age * (1.0 + (d / r) * (d / r)) * (r * r) == age * (r * r + d * d)
  {
    var q := d / r;
    assert q * r == d;
    assert (q * r) * (q * r) == (q * q) * (r * r);
    assert (1.0 + q * q) * (r * r) == r * r + (q * q) * (r * r);
  }

  lemma ScoreIsWeight(c: Cache, space: Space, cid: Bytes)
    requires cid in c.meta && space.radius > 0.0
    ensures EffectiveAge(c, space, cid).Finite?
    ensures EffectiveAge(c, space, cid).value * (space.radius * space.radius) == Weight(c, space, cid)
  {
    hide Nearest;
    Scaled(Age(c, cid) as real, Away(c, space, cid), space.radius);
    assert 0.0 / space.radius == 0.0;
  }

  lemma ScaleOrder(a: real, b: real, s: real)
    requires s > 0.0
    ensures a >= b <==> a * s >= b * s
  {
    if a >= b {
      assert (a - b) * s >= 0.0;
    } else {
      assert (b - a) * s > 0.0;
    }
  }

  /** The exchange rate of age and distance: what goes before what, with a radius. */
  lemma ExchangeRate(c: Cache, space: Space, a: Bytes, b: Bytes)
    requires a in c.meta && b in c.meta && space.radius > 0.0
    ensures Before(c, Some(space), b, a) <==> Weight(c, space, b) >= Weight(c, space, a)
  {
    hide EffectiveAge, Weight;
    ScoreIsWeight(c, space, a);
    ScoreIsWeight(c, space, b);
    var r2 := space.radius * space.radius;
    Positive(space.radius, space.radius, r2);
    ScaleOrder(EffectiveAge(c, space, b).value, EffectiveAge(c, space, a).value, r2);
  }

  /** Without a radius whatever is away goes before whatever is not, and age decides only between those. */
  lemma NoRadius(c: Cache, space: Space, a: Bytes, b: Bytes)
    requires a in c.meta && b in c.meta && space.radius == 0.0
    ensures Before(c, Some(space), b, a)
       <==> Away(c, space, b) > 0.0 || (Away(c, space, a) == 0.0 && Age(c, b) >= Age(c, a))
  {
    hide Nearest;
  }

  /** A block that must go first is among the victims before any other. */
  lemma GoesFirst(c: Cache, space: Space, victims: seq<Bytes>, a: Bytes, b: Bytes, i: nat)
    requires CapacityVictims(c, Some(space), victims) && Evictable(c, b) && i < |victims| && victims[i] == a
    requires !Before(c, Some(space), a, b)
    ensures b in victims[..i]
  {
    hide Freed, Before;
  }

  lemma HeavierFirst(c: Cache, space: Space, victims: seq<Bytes>, a: Bytes, b: Bytes, i: nat)
    requires CapacityVictims(c, Some(space), victims) && Evictable(c, b) && i < |victims| && victims[i] == a
    requires a in c.meta && space.radius > 0.0 && Weight(c, space, b) > Weight(c, space, a)
    ensures b in victims[..i]
  {
    hide CapacityVictims, Weight, Before;
    ExchangeRate(c, space, b, a);
    GoesFirst(c, space, victims, a, b, i);
  }

  lemma WeightGrows(age: real, more: real, d: real, e: real, r: real)
    requires 0.0 < age <= more && 0.0 <= d <= e && r > 0.0 && (age < more || d < e)
    ensures more * (r * r + e * e) > age * (r * r + d * d)
  {
    var x, gap := r * r + d * d, (e - d) * (e + d);
    Positive(r, r, r * r);
    NotNegative(d, d, d * d);
    assert r * r + e * e == x + gap;
    if d < e {
      Positive(e - d, e + d, gap);
      Grows(age, more, x, gap);
    } else {
      Older(age, more, x);
    }
  }

  lemma Grows(age: real, more: real, x: real, gap: real)
    requires 0.0 < age <= more && 0.0 < x && 0.0 < gap
    ensures more * (x + gap) > age * x
  {
    Positive(more, gap, more * gap);
    NotNegative(more - age, x, (more - age) * x);
    assert more * (x + gap) == age * x + (more - age) * x + more * gap;
  }

  lemma Older(age: real, more: real, x: real)
    requires age < more && 0.0 < x
    ensures more * x > age * x
  {
    Positive(more - age, x, (more - age) * x);
    assert more * x == age * x + (more - age) * x;
  }

  /** Of two blocks one of which is no younger and no nearer, and older or farther, that one goes first. */
  lemma OlderAndFartherFirst(c: Cache, space: Space, victims: seq<Bytes>, a: Bytes, b: Bytes, i: nat)
    requires Inv(c) && CapacityVictims(c, Some(space), victims) && Evictable(c, b) && i < |victims| && victims[i] == a
    requires a in c.meta && space.radius > 0.0 && Age(c, a) <= Age(c, b) && Away(c, space, a) <= Away(c, space, b)
    requires Age(c, a) < Age(c, b) || Away(c, space, a) < Away(c, space, b)
    ensures b in victims[..i]
  {
    hide CapacityVictims, Away;
    assert Away(c, space, a) >= 0.0 by { AwayIsDistance(c, space, a); }
    WeightGrows(Age(c, a) as real, Age(c, b) as real, Away(c, space, a), Away(c, space, b), space.radius);
    HeavierFirst(c, space, victims, a, b, i);
  }

  lemma AwayIsDistance(c: Cache, space: Space, cid: Bytes)
    requires cid in c.meta
    ensures Away(c, space, cid) >= 0.0
  {
    hide Nearest;
  }

  /**
   Once the capacity is exceeded, eviction by score goes down to 95 per cent of it if unpinned blocks
   allow, and no further than the last victim takes it.
   */
  lemma SpatialTarget(c: Cache, space: Space, victims: seq<Bytes>)
    requires Inv(c) && c.usage > c.capacity && CapacityVictims(c, Some(space), victims)
    ensures
      var u := Evicted(c, victims);
      && (100 * u.usage <= 95 * c.capacity || forall w <- u.meta :: w in u.pinned)
      && (victims != [] ==> 100 * (c.usage - Freed(c, victims[..|victims| - 1])) > 95 * c.capacity)
  {
    hide InOrder, Freed, Evicted;
    EvictedExactly(c, victims);
  }

  // ---- decay ----

  /**
   Which blocks decay: tagged, not pinned, farther than the radius, and with a roll below a probability
   that grows from none at the radius to the maximum at four times the radius.
   */
  lemma DecaysExactly(c: Cache, space: Space, maxProbability: real, roll: Bytes -> real, cid: Bytes)
    requires space.radius >= 0.0
    ensures Decays(c, space, maxProbability, roll, cid) <==>
      && cid in c.meta && cid !in c.pinned && c.meta[cid].position.Some? && space.selves != []
      && var d, r := Nearest(space.dist, c.meta[cid].position.value, space.selves), space.radius;
         && d > r
         && if d < 4.0 * r then roll(cid) * (3.0 * r) < maxProbability * (d - r) else roll(cid) < maxProbability
  {
    hide Nearest;
    if Evictable(c, cid) && c.meta[cid].position.Some? && space.selves != [] {
      var d, r := Nearest(space.dist, c.meta[cid].position.value, space.selves), space.radius;
      if d > r > 0.0 {
        Proportion(roll(cid), maxProbability, d - r, 3.0 * r);
      }
    }
  }

  lemma Proportion(x: real, p: real, a: real, b: real)
    requires a > 0.0 && b > 0.0
    ensures x < p * (a / b) <==> x * b < p * a
    ensures a / b < 1.0 <==> a < b
  {
    var q := a / b;
    assert q * b == a;
    assert (p * q) * b == p * a;
    ScaleOrder(x, p * q, b);
    ScaleOrder(q, 1.0, b);
  }
}
