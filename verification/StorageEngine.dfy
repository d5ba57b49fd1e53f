/**
 The storage engine: adding a file as content-addressed chunks, fetching it back with out-of-order
 downloads, and keeping pinned blocks. Every method's effect is a run of the events of StorageModel.
 Where `calm` is true the backend answers every call; otherwise any call may fail. What peers answer
 and where the node is are given: as functions of how often the engine has asked either of them.
 */
module StorageEngineImpl {
  import opened Common
  import opened StorageModel
  import opened StorageFiling
  import opened StorageFetching
  import opened FileBlocks
  import Cache = BlockCache
  import Cid

  const WRITE_CONCURRENCY := 4

  // ---- traces ----

  predicate Quiet(events: seq<Event>) {
    forall i :: 0 <= i < |events| ==> !events[i].PinRoot? && !events[i].UnpinRoot? && !events[i].Restart?
  }

  /** The state `u` is reached from `e` by these events, none of which changes the pins. */
  ghost predicate Trace(hash: Bytes -> Bytes, e: Engine, events: seq<Event>, u: Engine) {
    AllowedRun(hash, e, events) && Run(e, events) == u && Quiet(events)
  }

  lemma TraceNext(hash: Bytes -> Bytes, e: Engine, events: seq<Event>, u: Engine, ev: Event)
    requires Trace(hash, e, events, u) && Allowed(hash, u, ev)
    requires !ev.PinRoot? && !ev.UnpinRoot? && !ev.Restart?
    ensures Trace(hash, e, events + [ev], Step(u, ev))
  {
    hide Step, Allowed;
    AllowedNext(hash, e, events, ev);
  }

  lemma AllowedNext(hash: Bytes -> Bytes, e: Engine, events: seq<Event>, ev: Event)
    requires AllowedRun(hash, e, events) && Allowed(hash, Run(e, events), ev)
    ensures AllowedRun(hash, e, events + [ev]) && Run(e, events + [ev]) == Step(Run(e, events), ev)
  {
    hide Step, Allowed;
    var all := events + [ev];
    assert all[..|events|] == events;
    forall i | 0 <= i < |all|
      ensures Allowed(hash, Run(e, all[..i]), all[i])
    {
      if i < |events| {
        assert all[..i] == events[..i];
        assert Allowed(hash, Run(e, events[..i]), events[i]);
      }
    }
  }

  lemma TraceLast(hash: Bytes -> Bytes, e: Engine, events: seq<Event>, u: Engine)
    requires Trace(hash, e, events, u)
    ensures
      if events == [] then u == e
      else
        var front, last := events[..|events| - 1], events[|events| - 1];
        && Trace(hash, e, front, Run(e, front)) && Allowed(hash, Run(e, front), last) && u == Step(Run(e, front), last)
        && !last.PinRoot? && !last.UnpinRoot? && !last.Restart?
  {
    hide Step, Allowed;
    if events != [] {
      RunPrefix(hash, e, events);
    }
  }

  lemma {:induction false} TraceJoin(hash: Bytes -> Bytes, e: Engine, xs: seq<Event>, m: Engine, ys: seq<Event>, u: Engine)
    requires Trace(hash, e, xs, m) && Trace(hash, m, ys, u)
    ensures Trace(hash, e, xs + ys, u)
    decreases |ys|
  {
    hide Step, Allowed, Trace, Run;
    TraceLast(hash, m, ys, u);
    if ys == [] {
      assert xs + ys == xs;
    } else {
      var front, last := ys[..|ys| - 1], ys[|ys| - 1];
      TraceJoin(hash, e, xs, m, front, Run(m, front));
      TraceNext(hash, e, xs + front, Run(m, front), last);
      assert xs + front + [last] == xs + ys;
    }
  }

  /** Somewhere in the run this block was written. */
  ghost predicate Writes(events: seq<Event>, cid: Bytes, data: Bytes) {
    exists i :: 0 <= i < |events| && events[i] == Store(cid, data)
  }

  lemma WritesJoin(xs: seq<Event>, ys: seq<Event>, cid: Bytes, data: Bytes)
    requires Writes(xs, cid, data) || Writes(ys, cid, data)
    ensures Writes(xs + ys, cid, data)
  {
    if Writes(xs, cid, data) {
      var i :| 0 <= i < |xs| && xs[i] == Store(cid, data);
      assert (xs + ys)[i] == Store(cid, data);
    } else {
      var i :| 0 <= i < |ys| && ys[i] == Store(cid, data);
      assert (xs + ys)[|xs| + i] == Store(cid, data);
    }
  }

  lemma DeletedNext(m: Engine, victims: seq<Bytes>, i: nat)
    requires i < |victims|
    ensures
      var u := Deleted(m, victims[..i]);
      Deleted(m, victims[..i + 1]) == u.(cache := Cache.Untracked(u.cache, victims[i]), store := u.store - {victims[i]})
  {
    assert victims[..i + 1][..i] == victims[..i];
  }

  lemma DeletedLast(m: Engine, deleted: seq<Bytes>, cid: Bytes)
    ensures
      var u := Deleted(m, deleted);
      Deleted(m, deleted + [cid]) == u.(cache := Cache.Untracked(u.cache, cid), store := u.store - {cid})
  {
    var all := deleted + [cid];
    assert all[..|deleted|] == deleted && all[..|deleted| + 1] == all;
    DeletedNext(m, all, |deleted|);
  }

  lemma NothingDeleted(e: Engine, victims: seq<Bytes>)
    ensures Deleted(e, []) == e && Survivors(victims[..0], {}) == [] && Among({}, victims[..0])
  {
    var none: seq<Bytes> := [];
    assert Deleted(e, none).store == e.store;
  }

  ghost predicate Among(failed: set<Bytes>, victims: seq<Bytes>) {
    forall c <- failed :: c in victims
  }

  lemma AmongNext(victims: seq<Bytes>, i: nat, failed: set<Bytes>)
    requires i < |victims| && Among(failed, victims[..i])
    ensures Among(failed, victims[..i + 1]) && Among(failed + {victims[i]}, victims[..i + 1])
  {
    assert victims[..i + 1] == victims[..i] + [victims[i]];
  }

  // ---- the engine ----

  class StorageEngine {
    const hash: Bytes -> Bytes
    const encode: Manifest -> Bytes
    const decode: Bytes -> Option<Manifest>
    const dist: (Cache.Position, Cache.Position) -> real
    const radius: real
    const maxProbability: real
    const getConcurrency: nat
    const hasMeta: bool
    const positions: nat -> seq<Cache.Position>
    const resolver: (nat, Bytes) -> Option<Bytes>
    const manager: Cache.StorageManager
    var store: map<Bytes, Bytes>
    var registry: Roots
    var loaded: bool
    var saved: Registry
    var tick: nat

    constructor (
      capacity: nat, store: map<Bytes, Bytes>, meta: Option<Registry>, dist: (Cache.Position, Cache.Position) -> real,
      radius: real, maxProbability: real, getConcurrency: nat, positions: nat -> seq<Cache.Position>,
      resolver: (nat, Bytes) -> Option<Bytes>, hash: Bytes -> Bytes, encode: Manifest -> Bytes,
      decode: Bytes -> Option<Manifest>)
      ensures View() == New(capacity, store, meta.Some?, if meta.Some? then meta.value else Absent)
      ensures Accounted(View()) && PinsOk(View()) && Covered(View()) && fresh(manager)
      ensures this.hash == hash && this.encode == encode && this.decode == decode
      ensures this.dist == dist && this.radius == radius && this.maxProbability == maxProbability
      ensures this.positions == positions && this.resolver == resolver && tick == 0
    {
      FreshEngineSafe(capacity, store, meta.Some?, if meta.Some? then meta.value else Absent);
      this.hash, this.encode, this.decode := hash, encode, decode;
      this.dist, this.radius, this.maxProbability := dist, radius, maxProbability;
      this.getConcurrency, this.positions, this.resolver := getConcurrency, positions, resolver;
      manager := new Cache.StorageManager(capacity);
      this.store, registry, loaded := store, map[], false;
      hasMeta := meta.Some?;
      saved := if meta.Some? then meta.value else Absent;
      tick := 0;
    }

    ghost function View(): Engine
      reads this, manager
    {
      Engine(manager.View(), store, registry, loaded, hasMeta, saved)
    }

    ghost function FileOf(name: Bytes, data: Bytes): (b: Blocks)
      ensures Paired(b) && |b.names| > 0
    {
      BlocksOf(hash, encode, name, data)
    }

    ghost function RootCid(name: Bytes, data: Bytes): Bytes {
      Cid.ComputeCid(hash, encode(FileManifest(hash, name, data)), Cid.MULTICODEC_DAG_CBOR)
    }

    method BackendFails(calm: bool) returns (failed: bool)
      ensures calm ==> !failed
    {
      failed := *;
      failed := failed && !calm;
    }

    // ---- the outside ----

    /** How the node ranks blocks for eviction if it is asked where it is at this tick. */
    ghost function SpaceAt(n: nat): Option<Cache.Space> {
      if positions(n) == [] then None else Some(Cache.Space(dist, positions(n), radius))
    }

    ghost function AutoAt(n: nat): Option<Cache.Position> {
      if positions(n) == [] then None else Some(positions(n)[0])
    }

    /** There is no position source, or it never has a position. */
    ghost predicate Nowhere() {
      forall n: nat :: positions(n) == []
    }

    /** What peers answer from this tick on. */
    ghost function From(n: nat): Peers {
      Peers(hash, (k: nat, c: Bytes) => resolver(n + k, c))
    }

    method SelfPositions() returns (selves: seq<Cache.Position>)
      modifies this`tick
      ensures selves == positions(old(tick)) && tick == old(tick) + 1 && View() == old(View())
    {
      selves := positions(tick);
      tick := tick + 1;
    }

    method AutoPosition() returns (position: Option<Cache.Position>)
      modifies this`tick
      ensures position == AutoAt(old(tick)) && tick == old(tick) + 1 && View() == old(View())
    {
      var selves := SelfPositions();
      position := if selves == [] then None else Some(selves[0]);
    }

    method ResolveBlock(cid: Bytes) returns (answer: Option<Bytes>)
      modifies this`tick
      ensures answer == resolver(old(tick), cid) && tick == old(tick) + 1 && View() == old(View())
    {
      answer := resolver(tick, cid);
      tick := tick + 1;
    }

    method EnsurePinRegistryLoaded(calm: bool) returns (ok: bool, ghost readable: bool)
      requires Accounted(View())
      modifies this, manager
      ensures View() == Loaded(old(View()), readable) && ok == !LoadFails(old(View()), readable)
      ensures Accounted(View()) && (calm ==> readable) && tick == old(tick)
    {
      PinsKeepCount(View());
      readable := true;
      if loaded || !hasMeta {
        return true, true;
      }
      var failed := BackendFails(calm);
      readable := !failed;
      if failed {
        return false, readable;
      }
      match saved {
        case Unreadable => return false, readable;
        case Absent =>
        case Saved(roots) =>
          registry := roots;
          manager.SetPinned(PinnedCids(roots));
      }
      loaded := true;
      ok := true;
    }

    /** Without faults this fails only when over capacity with a registry that cannot be read. */
    method EnforceCapacityLimit(calm: bool) returns (ok: bool, ghost v: Eviction)
      requires Accounted(View())
      modifies this, manager
      ensures EvictionAllowed(old(View()), v) && View() == Enforced(old(View()), v) && ok == EnforceOk(old(View()), v)
      ensures Accounted(View())
      ensures calm ==> (ok <==> !(OverCapacity(old(View())) && LoadFails(old(View()), true)))
      ensures v.space == SpaceAt(old(tick)) && tick == old(tick) + 1
    {
      hide Cache.CapacityVictims, Cache.Inv, Cache.Evicted, PinnedCids, Enforced, EnforceOk, EvictionAllowed, Deleted;
      hide Loaded, LoadFails;
      ghost var before := View();
      var selves := SelfPositions();
      var space := if selves == [] then None else Some(Cache.Space(dist, selves, radius));
      ghost var readable := true;
      if manager.usage > manager.capacity {
        var isLoaded;
        isLoaded, readable := EnsurePinRegistryLoaded(calm);
        if !isLoaded {
          v := Eviction(readable, space, [], 0);
          EnforceStopped(before, v);
          return false, v;
        }
      }
      var victims;
      if space.None? {
        victims := manager.EvictionCandidates();
      } else {
        victims := manager.SpatialEvictionCandidates(space.value);
      }
      ghost var m := View();
      var deleted := DeleteAll(calm, victims);
      v := Eviction(readable, space, victims, deleted);
      ok := deleted == |victims|;
      EnforceDone(before, m, v);
      EnforcedAccounted(before, v);
    }

    /** Deletes and forgets blocks until a deletion fails. */
    method DeleteAll(calm: bool, victims: seq<Bytes>) returns (deleted: nat)
      requires Accounted(View())
      modifies this, manager
      ensures deleted <= |victims| && View() == Deleted(old(View()), victims[..deleted])
      ensures (calm ==> deleted == |victims|) && tick == old(tick)
    {
      deleted := 0;
      ghost var m := View();
      while deleted < |victims|
        invariant deleted <= |victims|
        invariant View() == Deleted(m, victims[..deleted]) && Cache.Inv(manager.View()) && tick == old(tick)
      {
        var failed := BackendFails(calm);
        if failed {
          return;
        }
        DeletedNext(m, victims, deleted);
        store := store - {victims[deleted]};
        var size := manager.UntrackBlock(victims[deleted]);
        deleted := deleted + 1;
      }
    }

    method RunDecaySweep(calm: bool, roll: Bytes -> real) returns (evicted: nat, ghost w: Sweep)
      requires Accounted(View())
      modifies this, manager
      ensures SweepAllowed(old(View()), w) && View() == Decayed(old(View()), w)
      ensures Accounted(View())
      ensures evicted == |Survivors(w.victims, w.failed)|
      ensures w.space == Cache.Space(dist, positions(old(tick)), radius) && w.maxProbability == maxProbability
      ensures w.roll == roll && tick == old(tick) + 1
      ensures calm ==> w.failed == {} && w.readable
    {
      hide Cache.Decays, Cache.Inv, Cache.Evicted, PinnedCids;
      ghost var before := View();
      var selves := SelfPositions();
      var space := Cache.Space(dist, selves, radius);
      if selves == [] {
        return 0, Sweep(true, space, maxProbability, roll, [], {});
      }
      var ok;
      ghost var readable;
      ok, readable := EnsurePinRegistryLoaded(calm);
      if !ok {
        return 0, Sweep(readable, space, maxProbability, roll, [], {});
      }
      var victims := manager.DecayCandidates(space, maxProbability, roll);
      ghost var failed;
      evicted, failed := DeleteSome(calm, victims);
      w := Sweep(readable, space, maxProbability, roll, victims, failed);
      StepAccounted(hash, before, Decay(w));
    }

    /** Goes on after a deletion that fails. */
    method DeleteSome(calm: bool, victims: seq<Bytes>) returns (evicted: nat, ghost failed: set<Bytes>)
      requires Accounted(View()) && Cache.Distinct(victims)
      modifies this, manager
      ensures View() == Deleted(old(View()), Survivors(victims, failed))
      ensures evicted == |Survivors(victims, failed)| && (calm ==> failed == {}) && tick == old(tick)
    {
      hide Cache.Distinct, Cache.Inv, Among, Survivors, Deleted, Cache.Untracked;
      evicted, failed := 0, {};
      NothingDeleted(View(), victims);
      ghost var m := View();
      ghost var deleted: seq<Bytes> := [];
      for i := 0 to |victims|
        invariant deleted == Survivors(victims[..i], failed) && evicted == |deleted|
        invariant Among(failed, victims[..i]) && (calm ==> failed == {})
        invariant View() == Deleted(m, deleted) && Cache.Inv(manager.View()) && tick == old(tick)
      {
        var refused := BackendFails(calm);
        SurvivorsNext(victims, i, failed, refused);
        AmongNext(victims, i, failed);
        if refused {
          failed := failed + {victims[i]};
        } else {
          DeletedLast(m, deleted, victims[i]);
          deleted := deleted + [victims[i]];
          store := store - {victims[i]};
          var size := manager.UntrackBlock(victims[i]);
          evicted := evicted + 1;
        }
      }
      assert victims[..|victims|] == victims;
    }

    /**
     How a block is resolved at tick `n`: it comes from the store, or else from a peer. If the backend
     answers, it comes exactly when it is stored, or answered while the capacity can be checked. A block
     that is neither stored nor answered changes nothing.
     */
    ghost predicate Resolved(calm: bool, e: Engine, u: Engine, n: nat, w: Wanted, v: Eviction, r: Result<Bytes>) {
      var answer, position := resolver(n, w.cid), AutoAt(n + 1);
      && (r.Ok? ==> Took(hash, e, u, w, answer, position, v, r.value))
      && (calm ==> (r.Ok? <==> CanTake(hash, e, w, answer, position)))
      && (w.cid !in e.store && !Answered(hash, w, answer) ==> r.Err? && u == e)
      && v.space == SpaceAt(n + 2)
    }

    /** Whatever failed, if it may fail. */
    lemma Unresolved(calm: bool, e: Engine, u: Engine, n: nat, w: Wanted, v: Eviction)
      requires v.space == SpaceAt(n + 2)
      requires calm ==> !CanTake(hash, e, w, resolver(n, w.cid), AutoAt(n + 1))
      requires u == e || w.cid in e.store || Answered(hash, w, resolver(n, w.cid))
      ensures Resolved(calm, e, u, n, w, v, Err)
    {
      hide CanTake, Answered, Took;
    }

    lemma ResolvedHere(calm: bool, e: Engine, n: nat, w: Wanted, v: Eviction)
      requires v.space == SpaceAt(n + 2) && w.cid in e.store
      ensures Resolved(calm, e, Local(e, w.cid), n, w, v, Ok(e.store[w.cid]))
    {
      TookStored(hash, e, w, resolver(n, w.cid), AutoAt(n + 1), v);
    }

    lemma ResolvedAbsent(calm: bool, e: Engine, n: nat, w: Wanted, v: Eviction)
      requires v.space == SpaceAt(n + 2) && w.cid !in e.store && !Answered(hash, w, resolver(n, w.cid))
      ensures Resolved(calm, e, e, n, w, v, Err)
    {
      hide Answered;
    }

    lemma ResolvedAnswer(calm: bool, e: Engine, n: nat, w: Wanted, v: Eviction, ok: bool)
      requires v.space == SpaceAt(n + 2) && w.cid !in e.store && Answered(hash, w, resolver(n, w.cid))
      requires
        var m := Admitted(e, w.cid, resolver(n, w.cid).value, AutoAt(n + 1));
        && EvictionAllowed(m, v) && (ok ==> EnforceOk(m, v)) && (calm ==> (ok <==> Readable(m) || !OverCapacity(m)))
      ensures
        var data := resolver(n, w.cid).value;
        var u := Enforced(Admitted(e, w.cid, data, AutoAt(n + 1)), v);
        && (ok ==> Resolved(calm, e, u.(store := u.store[w.cid := data]), n, w, v, Ok(data)))
        && ((calm ==> !ok) ==> Resolved(calm, e, u, n, w, v, Err))
    {
      hide EvictionAllowed, EnforceOk, Enforced, Admitted, Cid.VerifyCid;
      TookAnswer(hash, e, w, resolver(n, w.cid), AutoAt(n + 1), v);
    }

    /**
     From the store, or else what a peer answers: then it must hash to its name, and it is kept once the
     capacity has been checked.
     */
    method ResolveOrFetch(calm: bool, cid: Bytes, codec: nat)
      returns (r: Result<Bytes>, ghost events: seq<Event>, ghost v: Eviction)
      requires Accounted(View()) && (codec == Cid.MULTICODEC_RAW || codec == Cid.MULTICODEC_DAG_CBOR)
      modifies this, manager
      ensures Trace(hash, old(View()), events, View()) && Accounted(View()) && tick >= old(tick)
      ensures Resolved(calm, old(View()), View(), old(tick), Wanted(cid, codec), v, r)
    {
      hide Cache.Inv, EvictionAllowed, EnforceOk, Trace, Enforced, Cid.ComputeCid, Cid.VerifyCid, Resolved, CanTake, Readable;
      hide Cache.Tracked, Cache.Touched, Loaded, LoadFails;
      events := [];
      v := Eviction(true, SpaceAt(tick + 2), [], 0);
      ghost var before, w := View(), Wanted(cid, codec);
      TraceStart(hash, before);
      var unreadable := BackendFails(calm);
      if unreadable {
        Unresolved(calm, before, View(), tick, w, v);
        return Err, events, v;
      }
      if cid in store {
        ResolvedHere(calm, before, tick, w, v);
        TraceNext(hash, before, events, View(), Event.Touch(cid));
        events := events + [Event.Touch(cid)];
        manager.Touch(cid);
        return Ok(store[cid]), events, v;
      }
      var answer := ResolveBlock(cid);
      if !answer.Some? || !Cid.VerifyCid(hash, cid, answer.value, codec) {
        ResolvedAbsent(calm, before, old(tick), w, v);
        return Err, events, v;
      }
      var data := answer.value;
      var position := AutoPosition();
      assert Matches(hash, cid, data);
      var ok;
      ok, events, v := TakeIn(calm, cid, data, position);
      ResolvedAnswer(calm, before, old(tick), w, v, ok);
      r := if ok then Ok(data) else Err;
    }

    /** An answer is tracked, and stored once the capacity has been checked. */
    method TakeIn(calm: bool, cid: Bytes, data: Bytes, position: Option<Cache.Position>)
      returns (ok: bool, ghost after: seq<Event>, ghost v: Eviction)
      requires Accounted(View()) && Matches(hash, cid, data)
      modifies this, manager
      ensures Trace(hash, old(View()), after, View()) && Accounted(View())
      ensures v.space == SpaceAt(old(tick)) && tick == old(tick) + 1
      ensures
        var m := Admitted(old(View()), cid, data, position);
        var u := Enforced(m, v);
        && EvictionAllowed(m, v) && (ok ==> EnforceOk(m, v))
        && View() == (if ok then u.(store := u.store[cid := data]) else u)
        && (calm ==> (ok <==> Readable(m) || !OverCapacity(m)))
    {
      hide Cache.Inv, EvictionAllowed, EnforceOk, Trace, Enforced, Readable, Matches, Cache.Tracked;
      ghost var before := View();
      TraceStart(hash, before);
      AllowedTrack(hash, before, cid, data, position);
      TraceNext(hash, before, [], before, Event.Track(cid, |data|, position));
      after := [] + [Event.Track(cid, |data|, position)];
      var added := manager.TrackBlock(cid, |data|, position);
      assert View() == Admitted(before, cid, data, position);
      ok, after, v := Keep(calm, before, after);
      ghost var kept := View();
      var failed := BackendFails(calm);
      ok := ok && !failed;
      if ok {
        TraceNext(hash, before, after, kept, Event.Store(cid, data));
        after := after + [Event.Store(cid, data)];
        store := store[cid := data];
        assert View() == kept.(store := kept.store[cid := data]);
      }
    }

    /** One capacity check, as the next event of a run. */
    method Keep(calm: bool, ghost before: Engine, ghost events: seq<Event>)
      returns (ok: bool, ghost after: seq<Event>, ghost v: Eviction)
      requires Accounted(View()) && Trace(hash, before, events, View())
      modifies this, manager
      ensures Trace(hash, before, after, View()) && Accounted(View())
      ensures after == events + [Enforce(v)]
      ensures EvictionAllowed(old(View()), v) && View() == Enforced(old(View()), v) && ok == EnforceOk(old(View()), v)
      ensures calm ==> (ok <==> Readable(old(View())) || !OverCapacity(old(View())))
      ensures v.space == SpaceAt(old(tick)) && tick == old(tick) + 1
    {
      hide Accounted, EvictionAllowed, Trace, Enforced, EnforceOk;
      ghost var was := View();
      ok, v := EnforceCapacityLimit(calm);
      TraceNext(hash, before, events, was, Enforce(v));
      after := events + [Enforce(v)];
    }

    /** A block is tracked once its write has completed, and then the capacity is checked. */
    method StoreAndTrack(
      calm: bool, cid: Bytes, data: Bytes, position: Option<Cache.Position>, ghost before: Engine, ghost events: seq<Event>)
      returns (ok: bool, ghost after: seq<Event>, ghost f: Filing)
      requires Accounted(View()) && Trace(hash, before, events, View()) && Matches(hash, cid, data)
      modifies this, manager
      ensures Trace(hash, before, after, View()) && Accounted(View())
      ensures |after| >= |events| && after[..|events|] == events
      ensures f.cid == cid && f.data == data && tick >= old(tick)
      ensures ok ==> f.position == position && f.eviction.space == SpaceAt(old(tick)) && tick == old(tick) + 1
      ensures ok ==> Writes(after, cid, data) && FilingOk(old(View()), f) && View() == File(old(View()), f)
      ensures calm && Smooth(old(View()), |data|) ==> ok
    {
      hide Cache.Inv, EvictionAllowed, Run, AllowedRun, Quiet, Matches, Enforced, EnforceOk;
      after := events;
      f := Filing(cid, data, position, Eviction(true, None, [], 0));
      ghost var was := View();
      PutAccounted(was, f);
      var failed := BackendFails(calm);
      if failed {
        return false, after, f;
      }
      TraceNext(hash, before, after, View(), Event.Store(cid, data));
      after := after + [Event.Store(cid, data)];
      store := store[cid := data];
      AllowedTrack(hash, View(), cid, data, position);
      TraceNext(hash, before, after, View(), Event.Track(cid, |data|, position));
      after := after + [Event.Track(cid, |data|, position)];
      var added := manager.TrackBlock(cid, |data|, position);
      ghost var v;
      ok, after, v := Keep(calm, before, after);
      f := f.(eviction := v);
      assert after[|events|] == Event.Store(cid, data);
    }

    /** Every block filed has the position of the file, and the n-th check takes the n-th answer of the source. */
    ghost predicate Placed(fs: seq<Filing>, start: nat, position: Option<Cache.Position>) {
      forall j: nat :: j < |fs| ==> fs[j].position == position && fs[j].eviction.space == SpaceAt(start + j)
    }

    lemma PlacedNext(fs: seq<Filing>, f: Filing, start: nat, position: Option<Cache.Position>)
      requires Placed(fs, start, position) && f.position == position && f.eviction.space == SpaceAt(start + |fs|)
      ensures Placed(fs + [f], start, position)
      ensures Nowhere() ==> ByAge(fs + [f])
    {
    }

    /** The chunks of a file, then its manifest, each followed by a capacity check. */
    method AddAtInner(calm: bool, name: Bytes, data: Bytes, wanted: Option<Cache.Position>)
      returns (r: Result<(Bytes, seq<Bytes>)>, ghost events: seq<Event>, ghost fs: seq<Filing>)
      requires Accounted(View())
      modifies this, manager
      ensures Trace(hash, old(View()), events, View()) && Accounted(View())
      ensures calm && (Readable(old(View())) || Room(old(View()), FileOf(name, data))) ==> r.Ok?
      ensures r.Ok? ==> r.value == (RootCid(name, data), RawCids(hash, Chunks(data)))
      ensures r.Ok? ==> WritesFile(hash, events, Chunks(data), RootCid(name, data), encode(FileManifest(hash, name, data)))
      ensures r.Ok? ==> Filed(old(View()), View(), fs, FileOf(name, data))
      ensures r.Ok? ==> LeavesFile(old(View()), View(), fs, FileOf(name, data)) && Settled(View())
      ensures r.Ok? ==> if wanted.Some? then Placed(fs, old(tick), wanted) else Placed(fs, old(tick) + 1, AutoAt(old(tick)))
      ensures (r.Ok? && Nowhere() ==> ByAge(fs)) && tick >= old(tick)
    {
      hide Accounted, Trace, Writes, WrittenOut, Settled, Chunks, Matches, Cid.ComputeCid, Progress, Filed, LeavesFile;
      hide Room, Smooth, Readable, FilingOk, File, Placed, Nowhere, ByAge, TotalBytes;
      ghost var before := View();
      ghost var b := FileOf(name, data);
      FileBytes(hash, encode, name, data);
      RoomIsSmooth(before, b, TotalBytes(Chunks(data)));
      RoomIsSmooth(before, b, TotalBytes(b.parts));
      var position := wanted;
      if wanted.None? {
        position := AutoPosition();
      }
      ghost var start := tick;
      var chunks := Chunks(data);
      var ok, cids;
      ok, cids, events, fs := WriteChunks(calm, chunks, position);
      if !ok {
        return Err, events, fs;
      }
      var manifest := encode(Manifest(name, |data|, cids));
      var root := Cid.ComputeCid(hash, manifest, Cid.MULTICODEC_DAG_CBOR);
      Named(hash, manifest, Cid.MULTICODEC_DAG_CBOR);
      ghost var sofar, was := events, View();
      ghost var f;
      LastSmooth(hash, before, was, fs, chunks, |manifest|);
      ok, events, f := StoreAndTrack(calm, root, manifest, position, before, events);
      if !ok {
        return Err, events, fs;
      }
      WrittenOutLater(hash, sofar, events, chunks, |chunks|, {});
      ProgressFiles(hash, encode, name, data, before, was, fs, f);
      PlacedNext(fs, f, start, position);
      fs := fs + [f];
      FiledLeaves(before, View(), fs, b);
      FiledSettles(before, View(), fs, b);
      return Ok((root, cids)), events, fs;
    }

    /** At most four chunk writes are in flight; they complete in any order. */
    method WriteChunks(calm: bool, chunks: seq<Bytes>, position: Option<Cache.Position>)
      returns (ok: bool, cids: seq<Bytes>, ghost events: seq<Event>, ghost fs: seq<Filing>)
      requires Accounted(View())
      modifies this, manager
      ensures Trace(hash, old(View()), events, View()) && Accounted(View())
      ensures calm && Smooth(old(View()), TotalBytes(chunks)) ==> ok
      ensures ok ==> cids == RawCids(hash, chunks) && WrittenOut(hash, events, chunks, |chunks|, {})
      ensures ok ==> Progress(hash, old(View()), View(), fs, chunks, |chunks|, {})
      ensures tick >= old(tick) && (ok ==> Placed(fs, old(tick), position) && tick == old(tick) + |fs|)
    {
      hide Accounted, Trace, Writes, WrittenOut, Cid.ComputeCid, Progress, Smooth, TotalBytes;
      ghost var before := View();
      TraceStart(hash, before);
      events, fs, cids := [], [], [];
      var writes: set<nat> := {};
      NoProgress(hash, before, chunks);
      NothingWritten(hash, chunks);
      for i := 0 to |chunks|
        invariant cids == RawCids(hash, chunks[..i])
        invariant InFlight(writes, i) && |writes| < WRITE_CONCURRENCY
        invariant Trace(hash, before, events, View()) && Accounted(View())
        invariant WrittenOut(hash, events, chunks, i, writes)
        invariant Progress(hash, before, View(), fs, chunks, i, writes)
        invariant Placed(fs, old(tick), position) && tick == old(tick) + |fs|
      {
        var cid := Cid.ComputeCid(hash, chunks[i], Cid.MULTICODEC_RAW);
        cids := cids + [cid];
        ProgressPush(hash, before, View(), fs, chunks, i, writes);
        WrittenPush(hash, events, chunks, i, writes);
        writes := writes + {i};
        if |writes| >= WRITE_CONCURRENCY {
          ok, writes, events, fs := CompleteOne(calm, chunks, i + 1, writes, position, before, old(tick), events, fs);
          if !ok {
            return false, cids, events, fs;
          }
        }
      }
      assert chunks[..|chunks|] == chunks;
      while writes != {}
        invariant InFlight(writes, |chunks|)
        invariant Trace(hash, before, events, View()) && Accounted(View())
        invariant WrittenOut(hash, events, chunks, |chunks|, writes)
        invariant Progress(hash, before, View(), fs, chunks, |chunks|, writes)
        invariant Placed(fs, old(tick), position) && tick == old(tick) + |fs|
        decreases |writes|
      {
        ok, writes, events, fs := CompleteOne(calm, chunks, |chunks|, writes, position, before, old(tick), events, fs);
        if !ok {
          return false, cids, events, fs;
        }
      }
      ok := true;
    }

    /** Whichever write in flight completes next. */
    method CompleteOne(
      calm: bool, chunks: seq<Bytes>, ghost n: nat, writes0: set<nat>, position: Option<Cache.Position>,
      ghost before: Engine, ghost start: nat, ghost events: seq<Event>, ghost fs: seq<Filing>)
      returns (ok: bool, writes: set<nat>, ghost after: seq<Event>, ghost more: seq<Filing>)
      requires Accounted(View()) && Trace(hash, before, events, View()) && Accounted(before)
      requires writes0 != {} && InFlight(writes0, n) && n <= |chunks|
      requires WrittenOut(hash, events, chunks, n, writes0) && Progress(hash, before, View(), fs, chunks, n, writes0)
      requires Placed(fs, start, position) && tick == start + |fs|
      modifies this, manager
      ensures writes < writes0 && |writes| < |writes0| && InFlight(writes, n)
      ensures Trace(hash, before, after, View()) && Accounted(View())
      ensures ok ==> WrittenOut(hash, after, chunks, n, writes) && Progress(hash, before, View(), more, chunks, n, writes)
      ensures calm && Smooth(before, TotalBytes(chunks)) ==> ok
      ensures tick >= old(tick) && (ok ==> Placed(more, start, position) && tick == start + |more|)
    {
      hide Accounted, Trace, Writes, Matches, Cid.ComputeCid, Progress, Smooth, File, FilingOk;
      var k :| k in writes0;
      writes := writes0 - {k};
      assert writes + {k} == writes0;
      Named(hash, chunks[k], Cid.MULTICODEC_RAW);
      ProgressSmooth(hash, before, View(), fs, chunks, n, writes0, k);
      ghost var was := View();
      ghost var f;
      ok, after, f := StoreAndTrack(calm, Cid.ComputeCid(hash, chunks[k], Cid.MULTICODEC_RAW), chunks[k], position, before, events);
      WrittenOutLater(hash, events, after, chunks, n, writes0);
      more := fs + [f];
      if ok {
        PlacedNext(fs, f, start, position);
        ProgressNext(hash, before, was, fs, chunks, n, writes, k, f);
      }
    }

    /**
     Downloads finish in any order; parts that came early wait until those before them are there. If the
     backend answers, a file comes back when there is a manifest for its root and, by some plan, each
     block still to get is stored or with peers and stays so until its turn.
     */
    method Get(calm: bool, root: Bytes, ghost plan: Plan)
      returns (r: Result<Bytes>, ghost events: seq<Event>, ghost got: Retrieval)
      requires Accounted(View())
      modifies this, manager
      ensures Trace(hash, old(View()), events, View()) && Accounted(View())
      ensures
        var local := calm && Complete(decode, old(store), root);
        var sources := Source(if local then Nobody(hash) else From(old(tick)), old(store));
        && (r.Ok? ==> Retrieved(sources, decode, root, got, r.value))
        && (local ==> r.Ok? && store == old(store))
      ensures calm && Obtainable(From(old(tick)), decode, old(View()), root, plan) && (plan.Lasting? ==> Nowhere()) ==> r.Ok?
      ensures tick >= old(tick)
    {
      hide Accounted, Trace, Matches, Concat, Underway, Genuine, PlanOk, Provided, Cid.VerifyCid, Resolved, Sent;
      ghost var before := View();
      ghost var local := calm && Complete(decode, store, root);
      ghost var way := if local then AllLocal else plan;
      ghost var x := ErrandTo(calm, root, way, before, tick);
      got := Retrieval([], []);
      var fetched;
      ghost var v;
      fetched, events, v := ResolveOrFetch(calm, root, Cid.MULTICODEC_DAG_CBOR);
      RootArrives(x, calm, root, way, before, View(), old(tick), v, fetched);
      if fetched.Err? || decode(fetched.value).None? {
        return Err, events, got;
      }
      var chunks := decode(fetched.value).value.chunks;
      ghost var was := View();
      ghost var more, parts;
      r, more, parts := GetParts(calm, chunks, x, OnceOpened(before, root, way), old(tick));
      TraceJoin(hash, before, events, was, more, View());
      events := events + more;
      got := Retrieval(fetched.value, parts);
    }

    method GetParts(calm: bool, chunks: seq<Bytes>, ghost x: Errand, ghost plan0: Plan, ghost start: nat)
      returns (r: Result<Bytes>, ghost events: seq<Event>, ghost parts: seq<Bytes>)
      requires Accounted(View()) && Underway(x, View(), plan0) && Sent(x, calm, chunks, start) && start <= tick
      requires x.sure ==> calm
      modifies this, manager
      ensures Trace(hash, old(View()), events, View()) && Accounted(View()) && tick >= old(tick)
      ensures x.sure ==> r.Ok? && (plan0.AllLocal? ==> store == x.src.store)
      ensures r.Ok? ==> |parts| == |chunks| && r.value == Concat(parts)
                        && forall i :: 0 <= i < |chunks| ==> Genuine(x.src, chunks[i], parts[i])
    {
      hide Accounted, Trace, Genuine, Concat, Gathered, Underway, Sent;
      ghost var before := View();
      ghost var plan := plan0;
      events, parts := [], [];
      TraceStart(hash, before);
      var missing: seq<Bytes> := [];
      for i := 0 to |chunks|
        invariant View() == before && tick == old(tick)
      {
        var failed := BackendFails(calm);
        if failed {
          return Err, events, parts;
        }
        if chunks[i] !in store {
          missing := missing + [chunks[i]];
        }
      }
      var concurrency := Min(Max(getConcurrency, 1), 64);
      var d, ok := Download([], 0, map[]), true;
      var flying: set<nat> := {};
      NothingYet(x.src, chunks);
      for i := 0 to |chunks|
        invariant Trace(hash, before, events, View()) && Accounted(View()) && tick >= old(tick)
        invariant Underway(x, View(), plan) && plan.AllLocal? == plan0.AllLocal?
        invariant Gathered(x.src, chunks, i, flying, d, parts) && d.next !in d.pending
      {
        AskedFor(x.src, chunks, i, flying, d, parts);
        flying := flying + {i};
        if |flying| >= concurrency {
          ok, flying, d, events, parts, plan :=
            ArriveOne(calm, chunks, x, plan, start, i + 1, flying, d, parts, before, events);
          if !ok {
            return Err, events, parts;
          }
        }
      }
      while flying != {}
        invariant Trace(hash, before, events, View()) && Accounted(View()) && tick >= old(tick)
        invariant Underway(x, View(), plan) && plan.AllLocal? == plan0.AllLocal?
        invariant Gathered(x.src, chunks, |chunks|, flying, d, parts) && d.next !in d.pending
        decreases |flying|
      {
        ok, flying, d, events, parts, plan :=
          ArriveOne(calm, chunks, x, plan, start, |chunks|, flying, d, parts, before, events);
        if !ok {
          return Err, events, parts;
        }
      }
      NothingMissing(x.src, chunks, d, parts);
      StoreUnchanged(x, View(), plan);
      return Ok(d.result), events, parts;
    }

    /** Some download in flight finishes first. */
    method ArriveOne(
      calm: bool, chunks: seq<Bytes>, ghost x: Errand, ghost plan0: Plan, ghost start: nat, ghost n: nat,
      flying0: set<nat>, d0: Download, ghost parts0: seq<Bytes>, ghost before: Engine, ghost events0: seq<Event>)
      returns (ok: bool, flying: set<nat>, d: Download, ghost events: seq<Event>, ghost parts: seq<Bytes>, ghost plan: Plan)
      requires Accounted(View()) && Trace(hash, before, events0, View()) && flying0 != {}
      requires Underway(x, View(), plan0) && Sent(x, calm, chunks, start) && start <= tick
      requires Gathered(x.src, chunks, n, flying0, d0, parts0) && d0.next !in d0.pending
      modifies this, manager
      ensures |flying| < |flying0| && Trace(hash, before, events, View()) && Accounted(View()) && tick >= old(tick)
      ensures x.sure ==> ok
      ensures ok ==> Underway(x, View(), plan) && plan.AllLocal? == plan0.AllLocal?
      ensures ok ==> Gathered(x.src, chunks, n, flying, d, parts) && d.next !in d.pending
    {
      hide Accounted, Trace, Genuine, Concat, Underway;
      var k :| k in flying0;
      flying := flying0 - {k};
      assert flying + {k} == flying0;
      ok, d, events, parts, plan := Arrive(calm, chunks, x, plan0, start, n, flying, k, d0, parts0, before, events0);
    }

    /** One download finishes: it is next, and whatever waits behind it follows, or it waits itself. */
    method Arrive(
      calm: bool, chunks: seq<Bytes>, ghost x: Errand, ghost plan0: Plan, ghost start: nat, ghost n: nat,
      ghost flying: set<nat>, k: nat, d0: Download, ghost parts0: seq<Bytes>, ghost before: Engine, ghost events0: seq<Event>)
      returns (ok: bool, d: Download, ghost events: seq<Event>, ghost parts: seq<Bytes>, ghost plan: Plan)
      requires Accounted(View()) && Trace(hash, before, events0, View())
      requires Underway(x, View(), plan0) && Sent(x, calm, chunks, start) && start <= tick
      requires k < n <= |chunks| && k !in flying
      requires Gathered(x.src, chunks, n, flying + {k}, d0, parts0) && d0.next !in d0.pending
      modifies this, manager
      ensures Trace(hash, before, events, View()) && Accounted(View()) && tick >= old(tick)
      ensures x.sure ==> ok
      ensures ok ==> Underway(x, View(), plan) && plan.AllLocal? == plan0.AllLocal?
      ensures ok ==> Gathered(x.src, chunks, n, flying, d, parts) && d.next !in d.pending
    {
      hide Accounted, Trace, Concat, Underway, Genuine, Resolved, Sent;
      ghost var was := View();
      var fetched;
      ghost var more, v;
      fetched, more, v := ResolveOrFetch(calm, chunks[k], Cid.MULTICODEC_RAW);
      TraceJoin(hash, before, events0, was, more, View());
      events := events0 + more;
      d, parts, plan := d0, parts0, Without(plan0, chunks[k]);
      PartArrives(x, calm, chunks, start, was, View(), plan0, k, old(tick), v, fetched);
      if fetched.Err? {
        return false, d, events, parts, plan;
      }
      ok := true;
      if k == d.next {
        ConcatNext(parts, fetched.value);
        parts := parts + [fetched.value];
        d := Download(d.result + fetched.value, d.next + 1, d.pending);
        d, parts := Drain(chunks, x.src, n, flying, d, parts);
      } else {
        d := d.(pending := d.pending[k := fetched.value]);
      }
    }

    /** The errand of a get, once it is known which chunks the manifest lists. */
    ghost function ErrandTo(calm: bool, root: Bytes, plan: Plan, e: Engine, n: nat): Errand {
      var local := calm && Complete(decode, e.store, root);
      var m := ManifestAt(From(n), decode, e.store, 0, root);
      Errand(
        Source(if local then Nobody(hash) else From(n), e.store),
        From(n),
        ToGet(e.store, root, if m.Some? then m.value.chunks else []),
        calm && Obtainable(From(n), decode, e, root, plan) && (plan.Lasting? ==> Nowhere()),
        Nowhere())
    }

    ghost function OnceOpened(e: Engine, root: Bytes, plan: Plan): Plan {
      if root in e.store then plan else Without(plan, root)
    }

    /** An errand of this engine, for these chunks among others. */
    ghost predicate Sent(x: Errand, calm: bool, chunks: seq<Bytes>, start: nat) {
      && x.peers == From(start) && (x.sure ==> calm) && x.byAge == Nowhere()
      && forall c <- chunks :: Wanted(c, Cid.MULTICODEC_RAW) in x.wanted
    }

    lemma RootArrives(
      x: Errand, calm: bool, root: Bytes, plan: Plan, e: Engine, u: Engine, n: nat, v: Eviction, r: Result<Bytes>)
      requires x == ErrandTo(calm, root, plan, e, n) && Accounted(e)
      requires calm && Complete(decode, e.store, root) ==> plan.AllLocal?
      requires Resolved(calm, e, u, n, Wanted(root, Cid.MULTICODEC_DAG_CBOR), v, r)
      ensures calm && Complete(decode, e.store, root) ==> x.sure
      ensures x.sure ==> r.Ok? && decode(r.value).Some?
      ensures r.Ok? ==> Underway(x, u, OnceOpened(e, root, plan)) && Genuine(x.src, root, r.value)
      ensures r.Ok? && decode(r.value).Some? ==> Sent(x, calm, decode(r.value).value.chunks, n)
    {
      hide Genuine, Accounted, Provided, FetchOk, Fetched, Cid.VerifyCid, Admitted, Local;
      var w := Wanted(root, Cid.MULTICODEC_DAG_CBOR);
      assert From(n).answer(0, root) == resolver(n, root);
      if calm && Complete(decode, e.store, root) {
        CompleteObtainable(From(n), decode, e, root);
      }
      if root in e.store {
        StoredGenuine(x.src, e, root) by { StartsGenuine(x.src); }
        assert r.Ok? ==> Underway(x, u, plan);
      } else {
        StartsGenuine(x.src);
        assert Underway(x, e, plan);
        if x.sure {
          SureTaken(x, e, plan, w, 0, AutoAt(n + 1));
        }
        if r.Ok? {
          Got(x, e, u, plan, w, 0, AutoAt(n + 1), v, r.value);
        }
      }
    }

    lemma PartArrives(
      x: Errand, calm: bool, chunks: seq<Bytes>, start: nat, e: Engine, u: Engine, plan: Plan, k: nat, n: nat, v: Eviction,
      r: Result<Bytes>)
      requires Underway(x, e, plan) && Sent(x, calm, chunks, start) && start <= n && Accounted(e) && k < |chunks|
      requires Resolved(calm, e, u, n, Wanted(chunks[k], Cid.MULTICODEC_RAW), v, r)
      ensures x.sure ==> r.Ok?
      ensures r.Ok? ==> Underway(x, u, Without(plan, chunks[k])) && Genuine(x.src, chunks[k], r.value)
    {
      hide Underway, Took, CanTake, Genuine, Accounted;
      var w := Wanted(chunks[k], Cid.MULTICODEC_RAW);
      assert x.peers.answer(n - start, w.cid) == resolver(n, w.cid);
      if x.sure {
        SureTaken(x, e, plan, w, n - start, AutoAt(n + 1));
      }
      if r.Ok? {
        Got(x, e, u, plan, w, n - start, AutoAt(n + 1), v, r.value);
      }
    }

    method Drain(chunks: seq<Bytes>, ghost src: Source, ghost n: nat, ghost flying: set<nat>, d0: Download, ghost parts0: seq<Bytes>)
      returns (d: Download, ghost parts: seq<Bytes>)
      requires Gathered(src, chunks, n, flying, d0, parts0)
      ensures Gathered(src, chunks, n, flying, d, parts) && d.next !in d.pending
    {
      hide Gathered;
      d, parts := d0, parts0;
      while d.next in d.pending
        invariant Gathered(src, chunks, n, flying, d, parts)
        decreases |d.pending|
      {
        var part := d.pending[d.next];
        GatherNext(src, chunks, n, flying, d, parts);
        parts := parts + [part];
        d := Download(d.result + part, d.next + 1, d.pending - {d.next});
      }
    }

    // ---- pins ----

    /** The registry in memory once it has been read. */
    ghost function Known(): Roots
      reads this, manager
    {
      Loaded(View(), true).registry
    }

    /**
     Pins a root and everything its manifest lists, whether the manifest is stored or with peers. A root
     that counts as pinned is not saved again: so after success the saved registry lists it exactly if it
     was new here or was listed already.
     */
    method Pin(calm: bool, root: Bytes) returns (r: Result<()>, ghost events: seq<Event>)
      requires Accounted(View())
      modifies this, manager
      ensures AllowedRun(hash, old(View()), events) && Run(old(View()), events) == View()
      ensures r.Ok? ==> AllWritten(events) && hasMeta && loaded && root in registry
      ensures r.Ok? ==>
        if root in old(Known()) then registry == old(Known()) && saved == old(saved)
        else
          var m := ManifestAt(From(old(tick)), decode, old(store), 0, root);
          && m.Some? && registry == old(Known())[root := m.value.chunks + [root]] && saved == Saved(registry)
      ensures r.Ok? ==> (SavedLists(View(), root) <==> root !in old(Known()) || SavedLists(old(View()), root))
      ensures calm && hasMeta && Readable(old(View())) ==>
        (r.Ok? <==> root in old(Known()) || ManifestAt(From(old(tick)), decode, old(store), 0, root).Some?)
      ensures !hasMeta ==> r.Err? && View() == old(View())
    {
      hide Accounted, Matches, Trace, FetchOk, Fetched, Admitted, Local, Cid.VerifyCid, PinnedCids;
      ghost var before := View();
      events := [];
      if !hasMeta {
        return Err, events;
      }
      var ok;
      ok, events := ReadPins(calm);
      TraceRun(hash, before, events, View());
      if !ok {
        return Err, events;
      }
      if root in registry {
        return Ok(()), events;
      }
      ghost var was := View();
      var fetched;
      ghost var more, v;
      fetched, more, v := ResolveOrFetch(calm, root, Cid.MULTICODEC_DAG_CBOR);
      assert From(old(tick)).answer(0, root) == resolver(old(tick), root);
      ReadableTakes(hash, was, Wanted(root, Cid.MULTICODEC_DAG_CBOR), resolver(old(tick), root), AutoAt(old(tick) + 1));
      TraceLoaded(hash, was, more, View());
      TraceJoin(hash, before, events, was, more, View());
      events := events + more;
      TraceRun(hash, before, events, View());
      if fetched.Err? || decode(fetched.value).None? {
        return Err, events;
      }
      var cids := decode(fetched.value).value.chunks + [root];
      ok, events := Register(calm, root, cids, before, events);
      r := if ok then Ok(()) else Err;
    }

    /** The first step of every pin operation. */
    method ReadPins(calm: bool) returns (ok: bool, ghost events: seq<Event>)
      requires Accounted(View()) && hasMeta
      modifies this, manager
      ensures Trace(hash, old(View()), events, View()) && Accounted(View())
      ensures store == old(store) && saved == old(saved) && (calm && Readable(old(View())) ==> ok)
      ensures ok ==> loaded && View() == Loaded(old(View()), true) && registry == old(Known())
      ensures (old(loaded) ==> View() == old(View())) && tick == old(tick)
    {
      hide Accounted, Matches, Trace, EvictionAllowed;
      ghost var before := View();
      ghost var readable;
      ok, readable := EnsurePinRegistryLoaded(calm);
      TraceStart(hash, before);
      TraceNext(hash, before, [], before, Load(readable));
      events := [] + [Load(readable)];
    }

    method Register(calm: bool, root: Bytes, cids: seq<Bytes>, ghost before: Engine, ghost events: seq<Event>)
      returns (ok: bool, ghost after: seq<Event>)
      requires Accounted(View()) && Trace(hash, before, events, View()) && loaded && hasMeta
      modifies this, manager
      ensures AllowedRun(hash, before, after) && Run(before, after) == View()
      ensures |after| == |events| + 1 && after[..|events|] == events && after[|events|] == PinRoot(root, cids, ok)
      ensures loaded && registry == old(registry)[root := cids] && store == old(store)
      ensures ok ==> AllWritten(after) && saved == Saved(registry)
      ensures calm ==> ok
    {
      hide Cache.Inv, AllowedRun, Run;
      var failed := BackendFails(calm);
      ok := !failed;
      AllowedNext(hash, before, events, PinRoot(root, cids, ok));
      after := events + [PinRoot(root, cids, ok)];
      registry := registry[root := cids];
      manager.SetPinned(PinnedCids(registry));
      if ok {
        saved := Saved(registry);
      }
    }

    /** Saves first: while the save fails the blocks stay protected in memory. */
    method Unpin(calm: bool, root: Bytes) returns (ok: bool, ghost events: seq<Event>)
      requires Accounted(View())
      modifies this, manager
      ensures AllowedRun(hash, old(View()), events) && Run(old(View()), events) == View()
      ensures ok ==> AllWritten(events) && registry == old(Known()) - {root} && saved == Saved(registry)
                     && manager.pinned == PinnedCids(registry)
      ensures !ok ==> saved == old(saved) && (old(loaded) ==> manager.pinned == old(manager.pinned))
      ensures calm && hasMeta && Readable(old(View())) ==> ok
    {
      hide Matches, Cache.Inv, Run, AllowedRun;
      ghost var before := View();
      events := [];
      TraceStart(hash, before);
      if !hasMeta {
        return false, events;
      }
      ok, events := ReadPins(calm);
      if !ok {
        return false, events;
      }
      var failed := BackendFails(calm);
      ok := !failed;
      AllowedNext(hash, before, events, UnpinRoot(root, ok));
      events := events + [UnpinRoot(root, ok)];
      registry := registry - {root};
      if ok {
        saved := Saved(registry);
        manager.SetPinned(PinnedCids(registry));
      }
    }

    /**
     Adds a file and pins it before anyone sees its root. The capacity is enforced while the file is
     not pinned yet: what is left of it in the store is what an add leaves.
     */
    method AddPinned(calm: bool, name: Bytes, data: Bytes)
      returns (r: Result<Bytes>, ghost events: seq<Event>, ghost fs: seq<Filing>)
      requires Accounted(View())
      modifies this, manager
      ensures AllowedRun(hash, old(View()), events) && Run(old(View()), events) == View()
      ensures r.Ok? ==> AllWritten(events) && r.value == RootCid(name, data) && saved == Saved(registry)
      ensures r.Ok? ==> registry == old(Known())[r.value := RawCids(hash, Chunks(data)) + [r.value]]
      ensures r.Ok? ==> WritesFile(hash, events, Chunks(data), r.value, encode(FileManifest(hash, name, data)))
      ensures r.Ok? ==> LeavesFile(Loaded(old(View()), true), View(), fs, FileOf(name, data))
      ensures r.Ok? ==> Placed(fs, old(tick) + 1, AutoAt(old(tick))) && (Nowhere() ==> ByAge(fs))
      ensures calm && hasMeta && Readable(old(View())) ==> r.Ok?
    {
      hide Accounted, Matches, Trace, Chunks, EvictionAllowed, LeavesFile, Filed, Writes, Settled, Room;
      ghost var before := View();
      events, fs := [], [];
      if !hasMeta {
        return Err, events, fs;
      }
      var ok;
      ok, events := ReadPins(calm);
      TraceRun(hash, before, events, View());
      if !ok {
        return Err, events, fs;
      }
      ghost var was := View();
      var added;
      ghost var more;
      added, more, fs := AddAtInner(calm, name, data, None);
      TraceLoaded(hash, was, more, View());
      TraceJoin(hash, before, events, was, more, View());
      ghost var read := events;
      events := events + more;
      TraceRun(hash, before, events, View());
      if added.Err? {
        return Err, events, fs;
      }
      var (root, cids) := added.value;
      ghost var filled := View();
      ghost var soFar := events;
      ok, events := Register(calm, root, cids + [root], before, events);
      LeavesSame(was, filled, View(), fs, FileOf(name, data));
      if ok {
        WritesFileLater(hash, read, more, events, Chunks(data), root, encode(FileManifest(hash, name, data)));
      }
      r := if ok then Ok(root) else Err;
    }

    // ---- adding and getting back ----

    /** The file remains in the store after an add: there is room, or by age it fits beside the pinned blocks. */
    ghost predicate Remains(e: Engine, b: Blocks)
      requires Paired(b)
    {
      Room(e, b) || (Readable(e) && Measured(e, b) && Fits(e, b) && Nowhere())
    }

    /** What peers have from some time on they have later. */
    lemma Later(start: nat, n: nat, e: Engine, b: Blocks)
      requires start <= n
      ensures Involved(Nobody(hash), b) <= Involved(From(n), b) <= Involved(From(start), b)
      ensures Safe(From(start), e, b) ==> Safe(From(n), e, b)
    {
      hide Loaded, Matches, Answered;
      forall k: nat, c
        ensures From(n).answer(k, c) == From(start).answer(n - start + k, c)
      {
      }
    }

    /**
     What adding is for: when the backend answers, getting the returned root gives exactly the data, as
     long as no two blocks involved share a hash. It does so from the store alone if the file remains
     there; and whatever else is evicted, by the add or by the get, if each block of the file is pinned or
     with peers.
     */
    method AddThenGet(calm: bool, name: Bytes, data: Bytes) returns (r: Result<Bytes>)
      requires Accounted(View())
      modifies this, manager
      ensures
        var b := FileOf(name, data);
        var e := old(View());
        var peers := From(old(tick));
        && calm && RoundTrips(encode, decode, FileManifest(hash, name, data))
        && ((Remains(e, b) && Distinguished(hash, Involved(Nobody(hash), b)))
            || (Readable(e) && Safe(peers, e, b) && Distinguished(hash, Involved(peers, b))))
        ==> r == Ok(data)
    {
      hide Accounted, Trace, Chunks, Writes, LeavesFile, Filed, Room, Measured, Fits, Settled, Safe, Distinguished;
      hide Obtainable, Complete, Retrieved, Involved, Readable;
      ghost var before, start := View(), tick;
      ghost var b := FileOf(name, data);
      var added;
      ghost var events, fs;
      added, events, fs := AddAtInner(calm, name, data, None);
      if added.Err? {
        return Err;
      }
      ghost var after, n := View(), tick;
      ghost var more, got;
      r, more, got := Get(calm, added.value.0, Anyway);
      if calm && RoundTrips(encode, decode, FileManifest(hash, name, data)) {
        Later(start, n, before, b);
        ghost var local := Source(Nobody(hash), after.store);
        ghost var src := if Complete(decode, after.store, added.value.0) then local else Source(From(n), after.store);
        if Remains(before, b) && Distinguished(hash, Involved(Nobody(hash), b)) {
          LeavesStored(before, after, fs, b);
          AddedComplete(local, encode, decode, name, data, before, after, fs);
          AddedComesBack(src, encode, decode, name, data, before, after, fs, got, r.value);
        } else if Readable(before) && Safe(From(start), before, b) && Distinguished(hash, Involved(From(start), b)) {
          FewerDistinguished(hash, Involved(src.peers, b), Involved(From(start), b));
          FewerDistinguished(hash, Involved(From(n), b), Involved(From(start), b));
          AddedObtainable(Source(From(n), after.store), encode, decode, name, data, before, after, fs);
          AddedComesBack(src, encode, decode, name, data, before, after, fs, got, r.value);
        }
      }
    }
  }

  lemma EnforceStopped(e: Engine, v: Eviction)
    requires EvictBlocked(e, v)
    ensures EvictionAllowed(e, v) && Enforced(e, v) == e == Loaded(e, v.readable) && !EnforceOk(e, v)
  {
  }

  lemma EnforceDone(e: Engine, m: Engine, v: Eviction)
    requires !EvictBlocked(e, v) && m == EvictFrom(e, v) && Cache.CapacityVictims(m.cache, v.space, v.victims)
    requires v.deleted <= |v.victims|
    ensures EvictionAllowed(e, v) && Enforced(e, v) == Deleted(m, v.victims[..v.deleted])
    ensures EnforceOk(e, v) <==> v.deleted == |v.victims|
  {
    hide Cache.CapacityVictims, Deleted;
  }

  lemma TraceRun(hash: Bytes -> Bytes, e: Engine, events: seq<Event>, u: Engine)
    requires Trace(hash, e, events, u)
    ensures AllowedRun(hash, e, events) && Run(e, events) == u && AllWritten(events)
  {
    hide Run, AllowedRun;
  }

  /** A loaded registry stays loaded, and only pinning and unpinning change it. */
  lemma {:induction false} TraceLoaded(hash: Bytes -> Bytes, e: Engine, events: seq<Event>, u: Engine)
    requires Trace(hash, e, events, u) && e.loaded
    ensures u.loaded && u.registry == e.registry && u.saved == e.saved
    decreases |events|
  {
    hide AllowedRun, Survivors;
    if events != [] {
      var front := events[..|events| - 1];
      RunPrefix(hash, e, events);
      TraceLoaded(hash, e, front, Run(e, front));
    }
  }

  predicate InFlight(writes: set<nat>, n: nat) {
    forall k <- writes :: k < n
  }

  lemma Named(hash: Bytes -> Bytes, data: Bytes, codec: nat)
    requires codec == Cid.MULTICODEC_RAW || codec == Cid.MULTICODEC_DAG_CBOR
    ensures Matches(hash, Cid.ComputeCid(hash, data, codec), data)
  {
  }

  ghost predicate ChunkWritten(hash: Bytes -> Bytes, events: seq<Event>, chunk: Bytes) {
    Writes(events, Cid.ComputeCid(hash, chunk, Cid.MULTICODEC_RAW), chunk)
  }

  /** Of the first `n` chunks all but those still in flight have been written. */
  ghost predicate WrittenOut(hash: Bytes -> Bytes, events: seq<Event>, chunks: seq<Bytes>, n: nat, writes: set<nat>)
    requires n <= |chunks|
  {
    forall k: nat :: k < n && k !in writes ==> ChunkWritten(hash, events, chunks[k])
  }

  ghost predicate AllWrittenOut(hash: Bytes -> Bytes, events: seq<Event>, chunks: seq<Bytes>) {
    WrittenOut(hash, events, chunks, |chunks|, {})
  }

  lemma WrittenOutLater(hash: Bytes -> Bytes, events: seq<Event>, after: seq<Event>, chunks: seq<Bytes>, n: nat, writes: set<nat>)
    requires n <= |chunks| && WrittenOut(hash, events, chunks, n, writes)
    requires |after| >= |events| && after[..|events|] == events
    ensures WrittenOut(hash, after, chunks, n, writes)
  {
    hide Writes, Cid.ComputeCid;
    forall k: nat | k < n && k !in writes
      ensures ChunkWritten(hash, after, chunks[k])
    {
      WritesJoin(events, after[|events|..], Cid.ComputeCid(hash, chunks[k], Cid.MULTICODEC_RAW), chunks[k]);
      assert events + after[|events|..] == after;
    }
  }

  /** Within the capacity, or with nothing tracked that is not pinned. */
  ghost predicate Settled(e: Engine) {
    e.cache.usage <= e.cache.capacity || forall c <- e.cache.meta :: c in e.cache.pinned
  }

  lemma TraceStart(hash: Bytes -> Bytes, e: Engine)
    ensures Trace(hash, e, [], e)
  {
  }

  lemma {:induction false} SurvivorsSame(victims: seq<Bytes>, failed: set<Bytes>, v: Bytes)
    requires v !in victims
    ensures Survivors(victims, failed + {v}) == Survivors(victims, failed)
  {
    if victims != [] {
      SurvivorsSame(victims[..|victims| - 1], failed, v);
    }
  }

  lemma SurvivorsNext(victims: seq<Bytes>, i: nat, failed: set<Bytes>, refused: bool)
    requires i < |victims| && Cache.Distinct(victims) && Among(failed, victims[..i])
    ensures Survivors(victims[..i + 1], if refused then failed + {victims[i]} else failed)
         == Survivors(victims[..i], failed) + (if refused then [] else [victims[i]])
  {
    assert victims[..i + 1][..i] == victims[..i];
    SurvivorsSame(victims[..i], failed, victims[i]);
  }

  lemma PinsKeepCount(e: Engine)
    requires Accounted(e)
    ensures Accounted(Loaded(e, true))
  {
    PinnedInv(e, Loaded(e, true));
  }

  // ---- an add under way ----

  /** The capacity check after this many more bytes cannot be stopped by a registry that cannot be read. */
  predicate Smooth(e: Engine, bytes: nat) {
    Readable(e) || e.cache.usage + bytes <= e.cache.capacity
  }

  ghost predicate IsChunk(hash: Bytes -> Bytes, f: Filing, chunk: Bytes) {
    f.cid == Cid.ComputeCid(hash, chunk, Cid.MULTICODEC_RAW) && f.data == chunk
  }

  ghost predicate OfChunks(hash: Bytes -> Bytes, f: Filing, chunks: seq<Bytes>) {
    exists k: nat :: k < |chunks| && IsChunk(hash, f, chunks[k])
  }

  ghost predicate ChunkFiled(hash: Bytes -> Bytes, fs: seq<Filing>, chunk: Bytes) {
    exists j :: 0 <= j < |fs| && IsChunk(hash, fs[j], chunk)
  }

  /** Bytes of the chunks not yet filed, among the first `m`. */
  function OpenBytes(chunks: seq<Bytes>, m: nat, n: nat, writes: set<nat>): nat
    requires m <= |chunks|
  {
    if m == 0 then 0
    else OpenBytes(chunks, m - 1, n, writes) + (if m - 1 >= n || m - 1 in writes then |chunks[m - 1]| else 0)
  }

  /** Every chunk handed out is in flight or filed, and each was filed once: the bytes add up. */
  ghost predicate Progress(
    hash: Bytes -> Bytes, before: Engine, now: Engine, fs: seq<Filing>, chunks: seq<Bytes>, n: nat, writes: set<nat>)
  {
    && n <= |chunks| && FilingsOk(before, fs) && now == FileAll(before, fs)
    && (forall j :: 0 <= j < |fs| ==> OfChunks(hash, fs[j], chunks))
    && (forall k: nat :: k < n && k !in writes ==> ChunkFiled(hash, fs, chunks[k]))
    && BytesIn(fs) + OpenBytes(chunks, |chunks|, n, writes) == TotalBytes(chunks)
  }

  lemma {:induction false} AllOpen(chunks: seq<Bytes>, m: nat)
    requires m <= |chunks|
    ensures OpenBytes(chunks, m, 0, {}) == TotalBytes(chunks[..m])
  {
    if m > 0 {
      AllOpen(chunks, m - 1);
      assert chunks[..m][..m - 1] == chunks[..m - 1];
    }
  }

  lemma {:induction false} NoneOpen(chunks: seq<Bytes>, m: nat)
    requires m <= |chunks|
    ensures OpenBytes(chunks, m, |chunks|, {}) == 0
  {
    if m > 0 {
      NoneOpen(chunks, m - 1);
    }
  }

  lemma {:induction false} OpenPush(chunks: seq<Bytes>, m: nat, i: nat, writes: set<nat>)
    requires m <= |chunks|
    ensures OpenBytes(chunks, m, i + 1, writes + {i}) == OpenBytes(chunks, m, i, writes)
  {
    if m > 0 {
      OpenPush(chunks, m - 1, i, writes);
    }
  }

  lemma {:induction false} OpenClose(chunks: seq<Bytes>, m: nat, n: nat, writes: set<nat>, k: nat)
    requires m <= |chunks| && k < n <= |chunks| && k !in writes
    ensures OpenBytes(chunks, m, n, writes + {k}) == OpenBytes(chunks, m, n, writes) + (if k < m then |chunks[k]| else 0)
  {
    if m > 0 {
      OpenClose(chunks, m - 1, n, writes, k);
    }
  }

  lemma NoProgress(hash: Bytes -> Bytes, before: Engine, chunks: seq<Bytes>)
    ensures Progress(hash, before, before, [], chunks, 0, {})
  {
    AllOpen(chunks, |chunks|);
    assert chunks[..|chunks|] == chunks;
  }

  lemma ProgressPush(
    hash: Bytes -> Bytes, before: Engine, now: Engine, fs: seq<Filing>, chunks: seq<Bytes>, i: nat, writes: set<nat>)
    requires Progress(hash, before, now, fs, chunks, i, writes) && i < |chunks|
    ensures Progress(hash, before, now, fs, chunks, i + 1, writes + {i})
  {
    hide IsChunk, FilingsOk, FileAll, BytesIn, TotalBytes;
    OpenPush(chunks, |chunks|, i, writes);
  }

  lemma ProgressNext(
    hash: Bytes -> Bytes, before: Engine, now: Engine, fs: seq<Filing>, chunks: seq<Bytes>, n: nat, writes: set<nat>,
    k: nat, f: Filing)
    requires Progress(hash, before, now, fs, chunks, n, writes + {k}) && k < n && k !in writes
    requires IsChunk(hash, f, chunks[k]) && FilingOk(now, f)
    ensures Progress(hash, before, File(now, f), fs + [f], chunks, n, writes)
  {
    hide FilingOk, File, TotalBytes;
    FileNext(before, fs, f);
    OpenClose(chunks, |chunks|, n, writes, k);
    var all := fs + [f];
    assert all[..|fs|] == fs && all[|fs|] == f;
    forall j: nat | j < |chunks| && j < n && j !in writes
      ensures ChunkFiled(hash, all, chunks[j])
    {
      if j == k {
        assert IsChunk(hash, all[|fs|], chunks[k]);
      } else {
        assert ChunkFiled(hash, fs, chunks[j]);
        var g :| 0 <= g < |fs| && IsChunk(hash, fs[g], chunks[j]);
        assert IsChunk(hash, all[g], chunks[j]);
      }
    }
    forall j | 0 <= j < |all|
      ensures OfChunks(hash, all[j], chunks)
    {
      if j < |fs| {
        assert OfChunks(hash, fs[j], chunks);
      } else {
        assert IsChunk(hash, f, chunks[k]);
      }
    }
  }

  /** What has been filed so far leaves the promised room for the next chunk. */
  lemma ProgressSmooth(
    hash: Bytes -> Bytes, before: Engine, now: Engine, fs: seq<Filing>, chunks: seq<Bytes>, n: nat, writes: set<nat>, k: nat)
    requires Accounted(before) && Progress(hash, before, now, fs, chunks, n, writes) && k in writes && k < n
    ensures Smooth(before, TotalBytes(chunks)) ==> Smooth(now, |chunks[k]|)
  {
    hide FilingsOk, FileAll, Accounted, TotalBytes, BytesIn;
    assert (writes - {k}) + {k} == writes;
    OpenClose(chunks, |chunks|, n, writes - {k}, k);
    SmoothFilings(before, fs, TotalBytes(chunks), |chunks[k]|);
  }

  lemma SmoothFilings(e: Engine, fs: seq<Filing>, total: nat, more: nat)
    requires Accounted(e) && FilingsOk(e, fs) && BytesIn(fs) + more <= total
    ensures Smooth(e, total) ==> Smooth(FileAll(e, fs), more)
  {
    hide Accounted, FilingOk, File;
    if Readable(e) {
      FilingsReadable(e, fs);
    } else if Smooth(e, total) {
      RoomKeeps(e, fs);
    }
  }

  lemma {:induction false} FilingsReadable(e: Engine, fs: seq<Filing>)
    requires Readable(e)
    ensures Readable(FileAll(e, fs))
    decreases |fs|
  {
    hide Cache.Evicted, Cache.Tracked;
    if fs != [] {
      FilingsReadable(e, fs[..|fs| - 1]);
    }
  }

  // ---- a whole add ----

  ghost predicate WritesFile(hash: Bytes -> Bytes, events: seq<Event>, chunks: seq<Bytes>, root: Bytes, manifest: Bytes) {
    AllWrittenOut(hash, events, chunks) && Writes(events, root, manifest)
  }

  lemma FileBytes(hash: Bytes -> Bytes, encode: Manifest -> Bytes, name: Bytes, data: Bytes)
    ensures
      var b := BlocksOf(hash, encode, name, data);
      TotalBytes(b.parts) == TotalBytes(Chunks(data)) + |encode(FileManifest(hash, name, data))|
      && TotalBytes(Chunks(data)) == |data|
  {
    hide Chunks;
    var b := BlocksOf(hash, encode, name, data);
    assert b.parts[..|Chunks(data)|] == Chunks(data);
    TotalIsConcat(Chunks(data));
    ChunksJoin(data);
  }

  lemma RoomIsSmooth(e: Engine, b: Blocks, bytes: nat)
    requires bytes <= TotalBytes(b.parts)
    ensures Readable(e) || Room(e, b) ==> Smooth(e, bytes)
  {
  }

  lemma LastSmooth(hash: Bytes -> Bytes, before: Engine, now: Engine, fs: seq<Filing>, chunks: seq<Bytes>, more: nat)
    requires Accounted(before) && Progress(hash, before, now, fs, chunks, |chunks|, {})
    ensures Smooth(before, TotalBytes(chunks) + more) ==> Smooth(now, more)
  {
    hide FilingsOk, FileAll, Accounted, TotalBytes, BytesIn;
    NoneOpen(chunks, |chunks|);
    SmoothFilings(before, fs, TotalBytes(chunks) + more, more);
  }

  lemma AllOfFile(hash: Bytes -> Bytes, chunks: seq<Bytes>, fs: seq<Filing>, f: Filing, b: Blocks)
    requires Paired(b) && |b.names| == |chunks| + 1 && IsBlock(f, b, |chunks|) && b.parts[..|chunks|] == chunks
    requires b.names[..|chunks|] == RawCids(hash, chunks)
    requires forall j :: 0 <= j < |fs| ==> OfChunks(hash, fs[j], chunks)
    requires forall k: nat :: k < |chunks| ==> ChunkFiled(hash, fs, chunks[k])
    ensures forall j :: 0 <= j < |fs + [f]| ==> OfFile((fs + [f])[j], b)
    ensures forall i: nat :: i < |b.names| ==> WasFiled(fs + [f], b, i)
  {
    hide Cid.ComputeCid;
    var all := fs + [f];
    forall j | 0 <= j < |all|
      ensures OfFile(all[j], b)
    {
      if j < |fs| {
        assert OfChunks(hash, fs[j], chunks);
        var k: nat :| k < |chunks| && IsChunk(hash, fs[j], chunks[k]);
        assert b.names[..|chunks|][k] == b.names[k] && b.parts[..|chunks|][k] == b.parts[k];
        assert IsBlock(all[j], b, k);
      }
    }
    forall i: nat | i < |b.names|
      ensures WasFiled(all, b, i)
    {
      if i < |chunks| {
        assert ChunkFiled(hash, fs, chunks[i]);
        var j :| 0 <= j < |fs| && IsChunk(hash, fs[j], chunks[i]);
        assert b.names[..|chunks|][i] == b.names[i] && b.parts[..|chunks|][i] == b.parts[i];
        assert IsBlock(all[j], b, i);
      } else {
        assert IsBlock(all[|fs|], b, i);
      }
    }
  }

  /** With the manifest filed after all chunks, the file is filed. */
  lemma ProgressFiles(
    hash: Bytes -> Bytes, encode: Manifest -> Bytes, name: Bytes, data: Bytes,
    before: Engine, now: Engine, fs: seq<Filing>, f: Filing)
    requires Progress(hash, before, now, fs, Chunks(data), |Chunks(data)|, {}) && FilingOk(now, f)
    requires f.data == encode(FileManifest(hash, name, data))
    requires f.cid == Cid.ComputeCid(hash, f.data, Cid.MULTICODEC_DAG_CBOR)
    ensures Filed(before, File(now, f), fs + [f], BlocksOf(hash, encode, name, data))
  {
    hide FilingOk, File, Chunks, Cid.ComputeCid, TotalBytes, OfFile, WasFiled, ChunkFiled, OfChunks, FilingsOk;
    var b := BlocksOf(hash, encode, name, data);
    var chunks := Chunks(data);
    assert (fs + [f])[..|fs|] == fs;
    FileNext(before, fs, f);
    NoneOpen(chunks, |chunks|);
    FileBytes(hash, encode, name, data);
    assert b.parts[..|chunks|] == chunks && b.names[..|chunks|] == RawCids(hash, chunks);
    AllOfFile(hash, chunks, fs, f, b);
  }

  lemma NothingWritten(hash: Bytes -> Bytes, chunks: seq<Bytes>)
    ensures WrittenOut(hash, [], chunks, 0, {})
  {
  }

  lemma WrittenPush(hash: Bytes -> Bytes, events: seq<Event>, chunks: seq<Bytes>, i: nat, writes: set<nat>)
    requires i < |chunks| && WrittenOut(hash, events, chunks, i, writes)
    ensures WrittenOut(hash, events, chunks, i + 1, writes + {i})
  {
  }

  lemma FiledSettles(e: Engine, u: Engine, fs: seq<Filing>, b: Blocks)
    requires Accounted(e) && Paired(b) && Filed(e, u, fs, b) && fs != []
    ensures Settled(u)
  {
    hide Accounted, FilingsOk, FileAll;
    FiledIs(e, u, fs, b);
    LastSettles(e, fs);
  }

  // ---- adding and getting back ----

  lemma LeavesSame(e: Engine, u: Engine, v: Engine, fs: seq<Filing>, b: Blocks)
    requires Paired(b) && LeavesFile(e, u, fs, b) && v.store == u.store
    ensures LeavesFile(e, v, fs, b)
  {
    hide Room, Measured, Fits, ByAge;
  }

  lemma WritesFileLater(
    hash: Bytes -> Bytes, xs: seq<Event>, ys: seq<Event>, all: seq<Event>, chunks: seq<Bytes>, root: Bytes, manifest: Bytes)
    requires WritesFile(hash, ys, chunks, root, manifest) && |all| == |xs + ys| + 1 && all[..|xs + ys|] == xs + ys
    ensures WritesFile(hash, all, chunks, root, manifest)
  {
    hide Writes, Cid.ComputeCid;
    var last := all[|xs + ys|..];
    assert all == (xs + ys) + last;
    forall k: nat | k < |chunks|
      ensures ChunkWritten(hash, all, chunks[k])
    {
      assert ChunkWritten(hash, ys, chunks[k]);
      WritesJoin(xs, ys, Cid.ComputeCid(hash, chunks[k], Cid.MULTICODEC_RAW), chunks[k]);
      WritesJoin(xs + ys, last, Cid.ComputeCid(hash, chunks[k], Cid.MULTICODEC_RAW), chunks[k]);
    }
    WritesJoin(xs, ys, root, manifest);
    WritesJoin(xs + ys, last, root, manifest);
  }

  ghost predicate RoundTrips(encode: Manifest -> Bytes, decode: Bytes -> Option<Manifest>, m: Manifest) {
    decode(encode(m)) == Some(m)
  }

  lemma LeavesStored(e: Engine, u: Engine, fs: seq<Filing>, b: Blocks)
    requires Paired(b) && LeavesFile(e, u, fs, b)
    requires Room(e, b) || (Measured(e, b) && Fits(e, b) && ByAge(fs))
    ensures FileStored(u, b)
  {
    hide Room, Measured, Fits, ByAge, FileStored;
  }

  lemma AddedComplete(
    src: Source, encode: Manifest -> Bytes, decode: Bytes -> Option<Manifest>, name: Bytes, data: Bytes,
    e: Engine, u: Engine, fs: seq<Filing>)
    requires src.store == u.store && RoundTrips(encode, decode, FileManifest(src.peers.hash, name, data))
    requires
      var b := BlocksOf(src.peers.hash, encode, name, data);
      Filed(e, u, fs, b) && FileStored(u, b) && Distinguished(src.peers.hash, Involved(src.peers, b))
    ensures
      Complete(decode, u.store, Cid.ComputeCid(src.peers.hash, encode(FileManifest(src.peers.hash, name, data)), Cid.MULTICODEC_DAG_CBOR))
  {
    hide Cid.ComputeCid, Chunks, BlocksOf, Distinguished, Unspoilt, Filed, FileStored, Candidates, Involved, Complete;
    var b := BlocksOf(src.peers.hash, encode, name, data);
    FiledUnspoilt(src, encode, name, data, e, u, fs);
    FewerDistinguished(src.peers.hash, Candidates(src, b), Involved(src.peers, b));
    StoredIsComplete(src, encode, decode, name, data, u);
  }

  lemma AddedObtainable(
    src: Source, encode: Manifest -> Bytes, decode: Bytes -> Option<Manifest>, name: Bytes, data: Bytes,
    e: Engine, u: Engine, fs: seq<Filing>)
    requires src.store == u.store && RoundTrips(encode, decode, FileManifest(src.peers.hash, name, data))
    requires
      var b := BlocksOf(src.peers.hash, encode, name, data);
      && Readable(e) && Filed(e, u, fs, b) && Safe(src.peers, e, b)
      && Distinguished(src.peers.hash, Involved(src.peers, b))
    ensures
      var root := Cid.ComputeCid(src.peers.hash, encode(FileManifest(src.peers.hash, name, data)), Cid.MULTICODEC_DAG_CBOR);
      Obtainable(src.peers, decode, u, root, Anyway)
  {
    hide Cid.ComputeCid, Chunks, BlocksOf, Distinguished, Unspoilt, Filed, Safe, Candidates, Involved, Obtainable, Readable;
    var b := BlocksOf(src.peers.hash, encode, name, data);
    FiledUnspoilt(src, encode, name, data, e, u, fs);
    FewerDistinguished(src.peers.hash, Candidates(src, b), Involved(src.peers, b));
    SafeIsObtainable(src, encode, decode, name, data, e, u, fs);
  }

  lemma AddedComesBack(
    src: Source, encode: Manifest -> Bytes, decode: Bytes -> Option<Manifest>, name: Bytes, data: Bytes,
    e: Engine, u: Engine, fs: seq<Filing>, got: Retrieval, result: Bytes)
    requires src.store == u.store && RoundTrips(encode, decode, FileManifest(src.peers.hash, name, data))
    requires
      var b := BlocksOf(src.peers.hash, encode, name, data);
      var root := Cid.ComputeCid(src.peers.hash, encode(FileManifest(src.peers.hash, name, data)), Cid.MULTICODEC_DAG_CBOR);
      && Filed(e, u, fs, b) && Distinguished(src.peers.hash, Involved(src.peers, b))
      && Retrieved(src, decode, root, got, result)
    ensures result == data
  {
    hide Cid.ComputeCid, Chunks, BlocksOf, Distinguished, Unspoilt, Filed, Candidates, Involved, Retrieved;
    var b := BlocksOf(src.peers.hash, encode, name, data);
    FiledUnspoilt(src, encode, name, data, e, u, fs);
    FewerDistinguished(src.peers.hash, Candidates(src, b), Involved(src.peers, b));
    AddGetRoundTrip(src, encode, decode, name, data, got, result);
  }
}
