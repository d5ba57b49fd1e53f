/** Telemetry, non-interference between paths, path resets, and bounded attempts. */
module RegistryProperties {
  import opened Common
  import opened WantModel
  import opened RegistryInvariant

  predicate IsData(e: Event) {
    e.Have? || e.HaveChunk?
  }

  // ---- every data frame raises exactly one outcome counter ----

  function Outcomes(s: State): nat {
    s.counters.accepted + s.counters.duplicate + s.counters.rejected
  }

  lemma ChunkOutcome(s0: State, key: Key, index: nat, total: nat, data: Bytes)
    ensures
      var (b, a) := (s0.counters, ChunkStep(s0, key, index, total, data).counters);
      || (a.accepted == b.accepted + 1 && a.duplicate == b.duplicate && a.rejected == b.rejected)
      || (a.accepted == b.accepted && a.duplicate == b.duplicate + 1 && a.rejected == b.rejected)
      || (a.accepted == b.accepted && a.duplicate == b.duplicate && a.rejected == b.rejected + 1)
  {
    hide Keep, OpenPending, EditPending, Authorised, Accepts, HasRoom, HasChunk, AssemblyAt, StoreChunk, Concat,
         Notices, Deliveries, SoundHeader;
  }

  /** Each data frame raises one of the three counters by one, and nothing else raises any. */
  lemma OneOutcome(s: State, e: Event)
    ensures
      var (b, a) := (s.counters, Step(s, e).counters);
      if IsData(e) then
        || (a.accepted == b.accepted + 1 && a.duplicate == b.duplicate && a.rejected == b.rejected)
        || (a.accepted == b.accepted && a.duplicate == b.duplicate + 1 && a.rejected == b.rejected)
        || (a.accepted == b.accepted && a.duplicate == b.duplicate && a.rejected == b.rejected + 1)
      else a == b
  {
    hide Keep, OpenPending, EditPending, Authorised, Accepts, ChunkStep, Notices, Deliveries, Admissible, Waiting;
    if e.HaveChunk? {
      ChunkOutcome(s, e.key, e.index, e.total, e.data);
    }
  }

  function DataFrames(events: seq<Event>): nat {
    if events == [] then 0 else (if IsData(events[0]) then 1 else 0) + DataFrames(events[1..])
  }

  /** Over a whole run, outcomes and data frames balance. */
  lemma {:induction false} OutcomesBalance(s: State, events: seq<Event>)
    ensures Outcomes(Run(s, events)) == Outcomes(s) + DataFrames(events)
    decreases |events|
  {
    if events != [] {
      OneOutcome(s, events[0]);
      OutcomesBalance(Step(s, events[0]), events[1..]);
    }
  }

  // ---- non-interference ----

  /** Registration `w` is untouched, and so is every assembly it asks for, other than at `key`. */
  ghost predicate Undisturbed(s: State, t: State, c: Bytes, w: Want, key: Key) {
    && c in t.pending && w in t.pending[c]
    && (forall k | k in s.assemblies && k != key && k.cid == c && Authorises(w, k.sender, k.room) ::
          k in t.assemblies && t.assemblies[k] == s.assemblies[k])
  }

  /** No assembly appears or changes, other than at `key`. */
  ghost predicate OnlyAt(s: State, t: State, key: Key) {
    forall k | k in t.assemblies && k != key :: k in s.assemblies && t.assemblies[k] == s.assemblies[k]
  }

  ghost predicate Bystander(s: State, c: Bytes, w: Want, key: Key) {
    && c in s.pending && w in s.pending[c]
    && !w.closed
    && !(c == key.cid && Authorises(w, key.sender, key.room))
  }

  lemma Undisturbed2(s: State, t: State, u: State, c: Bytes, w: Want, key: Key)
    requires Undisturbed(s, t, c, w, key) && OnlyAt(s, t, key)
    requires Undisturbed(t, u, c, w, key) && OnlyAt(t, u, key)
    ensures Undisturbed(s, u, c, w, key) && OnlyAt(s, u, key)
  {
  }

  lemma StillBystander(s: State, t: State, c: Bytes, w: Want, key: Key)
    requires Bystander(s, c, w, key) && Undisturbed(s, t, c, w, key)
    ensures Bystander(t, c, w, key)
  {
  }

  /** Only registrations and assemblies matter. */
  lemma SameTables(s: State, t: State, c: Bytes, w: Want, key: Key)
    requires Bystander(s, c, w, key) && t.pending == s.pending && t.assemblies == s.assemblies
    ensures Undisturbed(s, t, c, w, key) && OnlyAt(s, t, key)
  {
  }

  lemma PruneUndisturbed(s: State, c: Bytes, w: Want, key: Key)
    requires c in s.pending && w in s.pending[c] && !w.closed
    ensures Undisturbed(s, Prune(s), c, w, key) && OnlyAt(s, Prune(s), key)
  {
    assert w in Keep(s.pending[c], Open);
    assert Keep(s.pending[c], Open) != [];
    assert w in Prune(s).pending[c];
  }

  lemma ObserveUndisturbed(s: State, accepted: bool, c: Bytes, w: Want, key: Key)
    requires Bystander(s, c, w, key)
    ensures Undisturbed(s, Observe(s, key, accepted), c, w, key) && OnlyAt(s, Observe(s, key, accepted), key)
  {
    var i :| 0 <= i < |s.pending[c]| && s.pending[c][i] == w;
    assert Observe(s, key, accepted).pending[c][i] == w;
  }

  lemma EnforceUndisturbed(s: State, bytes: nat, c: Bytes, w: Want, key: Key)
    requires Bystander(s, c, w, key)
    ensures Undisturbed(s, EnforceByteLimits(s, key, bytes), c, w, key)
    ensures OnlyAt(s, EnforceByteLimits(s, key, bytes), key)
  {
    if key.cid in s.pending {
      var kept := s.(
        pending := s.pending[key.cid := Keep(s.pending[key.cid], WithinLimit(key.sender, key.room, bytes))],
        exceeded := EnforceByteLimits(s, key, bytes).exceeded);
      assert w in kept.pending[c];
      PruneUndisturbed(kept, c, w, key);
    } else {
      PruneUndisturbed(s, c, w, key);
    }
  }

  lemma FulfillUndisturbed(s: State, data: Bytes, c: Bytes, w: Want, key: Key)
    requires Bystander(s, c, w, key)
    ensures Undisturbed(s, Fulfill(s, key, data), c, w, key) && OnlyAt(s, Fulfill(s, key, data), key)
  {
    if key.cid in s.pending {
      var kept := s.(
        pending := s.pending[key.cid := Keep(s.pending[key.cid], Unaddressed(key.sender, key.room))],
        delivered := Fulfill(s, key, data).delivered);
      assert w in kept.pending[c];
      PruneUndisturbed(kept, c, w, key);
    }
  }

  lemma StoreUndisturbed(s: State, index: nat, total: nat, data: Bytes, c: Bytes, w: Want, key: Key)
    requires Bystander(s, c, w, key)
    ensures Undisturbed(s, StoreStep(s, key, index, total, data), c, w, key)
    ensures OnlyAt(s, StoreStep(s, key, index, total, data), key)
  {
    var a := StoreChunk(AssemblyAt(s, key, total), index, data);
    var s1 := Admitted(s.(assemblies := s.assemblies[key := a]), |data|);
    ObserveUndisturbed(s1, true, c, w, key);
    var s2 := Observe(s1, key, true);
    if a.received == a.total {
      FulfillUndisturbed(Completed(s2.(assemblies := s2.assemblies - {key})), Concat(a.chunks), c, w, key);
    }
  }

  lemma HaveUndisturbed(s: State, data: Bytes, c: Bytes, w: Want, key: Key)
    requires Bystander(s, c, w, key)
    ensures Undisturbed(s, HaveStep(s, key, data), c, w, key) && OnlyAt(s, HaveStep(s, key, data), key)
  {
    PruneUndisturbed(s, c, w, key);
    var s1 := Observe(Prune(s), key, false);
    ObserveUndisturbed(Prune(s), false, c, w, key);
    EnforceUndisturbed(s1, |data|, c, w, key);
    var s2 := EnforceByteLimits(s1, key, |data|);
    if |data| <= MAX_WANT_BLOCK_BYTES && Accepts(s2, key) {
      ObserveUndisturbed(Completed(Admitted(s2, |data|)), true, c, w, key);
      FulfillUndisturbed(Observe(Completed(Admitted(s2, |data|)), key, true), data, c, w, key);
    }
  }

  lemma AdmitUndisturbed(s: State, index: nat, total: nat, data: Bytes, c: Bytes, w: Want, key: Key)
    requires Bystander(s, c, w, key)
    ensures Undisturbed(s, AdmitStep(s, key, index, total, data), c, w, key)
    ensures OnlyAt(s, AdmitStep(s, key, index, total, data), key)
  {
    hide Undisturbed, OnlyAt, Bystander, EnforceByteLimits, StoreStep, Accepts, HasRoom;
    var bytes := AssemblyAt(s, key, total).bytes + |data|;
    EnforceUndisturbed(s, bytes, c, w, key);
    var t := EnforceByteLimits(s, key, bytes);
    StillBystander(s, t, c, w, key);
    StoreUndisturbed(t, index, total, data, c, w, key);
    SameTables(t, Rejected(t), c, w, key);
    Undisturbed2(s, t, AdmitStep(s, key, index, total, data), c, w, key);
  }

  lemma ChunkUndisturbed(s: State, index: nat, total: nat, data: Bytes, c: Bytes, w: Want, key: Key)
    requires Bystander(s, c, w, key)
    ensures Undisturbed(s, ChunkStep(s, key, index, total, data), c, w, key)
    ensures OnlyAt(s, ChunkStep(s, key, index, total, data), key)
  {
    PruneUndisturbed(s, c, w, key);
    ObserveUndisturbed(Prune(s), false, c, w, key);
    var t := Observe(Prune(s), key, false);
    AdmitUndisturbed(t, index, total, data, c, w, key);
    SameTables(t, Rejected(t), c, w, key);
    SameTables(t, Duplicated(t, |data|), c, w, key);
    hide Undisturbed, OnlyAt, Prune, Observe, AdmitStep, Accepts, SoundHeader, HasChunk, AssemblyAt;
    Undisturbed2(s, Prune(s), t, c, w, key);
    Undisturbed2(s, t, ChunkStep(s, key, index, total, data), c, w, key);
  }

  /**
   A data frame on one path leaves every open registration that did not ask for that path pending
   and unchanged, sends it nothing, and leaves the assemblies it waits for as they were.
   */
  lemma NonInterference(s: State, e: Event, c: Bytes, w: Want)
    requires Inv(s) && IsData(e) && Bystander(s, c, w, e.key)
    ensures Undisturbed(s, Step(s, e), c, w, e.key) && OnlyAt(s, Step(s, e), e.key)
    ensures forall d | d in Step(s, e).delivered :: d.id != w.id
  {
    hide Inv, HaveStep, ChunkStep, Undisturbed, OnlyAt, Bystander;
    match e {
      case Have(key, data) => HaveUndisturbed(s, data, c, w, key);
      case HaveChunk(key, index, total, data) => ChunkUndisturbed(s, index, total, data, c, w, key);
    }
    StepInv(s, e);
    StillWaiting(s, Step(s, e), c, w, e.key);
  }

  lemma StillWaiting(s: State, t: State, c: Bytes, w: Want, key: Key)
    requires Inv(t) && Undisturbed(s, t, c, w, key)
    ensures forall d | d in t.delivered :: d.id != w.id
  {
    assert Undelivered(t.pending[c], t.delivered);
  }

  // ---- path resets ----

  /** Pruning keeps exactly the assemblies an open registration asks for. */
  lemma PruneKeepsAccepted(s: State, k: Key)
    ensures Authorised(Prune(s).pending, k) <==> Accepts(s, k)
    ensures k in Prune(s).assemblies <==> k in s.assemblies && Accepts(s, k)
  {
    if Accepts(s, k) {
      var w :| w in s.pending[k.cid] && !w.closed && Authorises(w, k.sender, k.room);
      PruneUndisturbed(s, k.cid, w, k);
      assert Authorised(Prune(s).pending, k);
    }
  }

  /**
   A path reset keeps every open registration, only counting the reset on those that use the path,
   and drops exactly the live assemblies of that path.
   */
  lemma ResetExact(s: State, from: Option<Bytes>, room: Bytes)
    ensures
      var t := Step(s, ResetPath(from, room));
      && (forall c, w | c in s.pending && w in s.pending[c] && !w.closed ::
            c in t.pending && Edited(NoteReset(from, room), c, w) in t.pending[c])
      && (forall k :: k in t.assemblies <==>
            k in s.assemblies && Accepts(s, k) && !(k.room == room && (from.None? || from.value == k.sender)))
      && (forall k | k in t.assemblies :: t.assemblies[k] == s.assemblies[k])
      && t.delivered == s.delivered
  {
    var t := Step(s, ResetPath(from, room));
    forall c, w | c in s.pending && w in s.pending[c] && !w.closed
      ensures c in t.pending && Edited(NoteReset(from, room), c, w) in t.pending[c]
    {
      PruneUndisturbed(s, c, w, Key(c, [], []));
      var i :| 0 <= i < |Prune(s).pending[c]| && Prune(s).pending[c][i] == w;
      assert t.pending[c][i] == Edited(NoteReset(from, room), c, w);
    }
    forall k
      ensures k in t.assemblies <==>
        k in s.assemblies && Accepts(s, k) && !(k.room == room && (from.None? || from.value == k.sender))
    {
      PruneKeepsAccepted(s, k);
    }
  }

  // ---- bounded attempts ----

  /** Before its limit is installed an attempt has no path; afterwards it has that limit. */
  predicate Guard(w: Want, g: Option<nat>) {
    if g.None? then w.paths == {} else w.limit == g
  }

  ghost predicate GuardedList(ws: seq<Want>, id: nat, g: Option<nat>) {
    forall w | w in ws && w.id == id :: Guard(w, g)
  }

  /** The attempt is guarded while it waits, and was sent nothing, or nothing above its limit. */
  ghost predicate Guarded(s: State, id: nat, g: Option<nat>) {
    && id <= s.nextAttempt
    && (forall c | c in s.pending :: GuardedList(s.pending[c], id, g))
    && (forall d | d in s.delivered && d.id == id :: g.Some? && d.limit == g)
  }

  predicate Unguards(e: Edit, id: nat) {
    (e.AddPath? || e.SetLimit?) && e.id == id
  }

  lemma EditGuarded(e: Edit, s: State, id: nat, g: Option<nat>)
    requires Guarded(s, id, g) && (Unguards(e, id) ==> e.AddPath? && g.Some?)
    ensures Guarded(s.(pending := EditPending(e, s.pending)), id, g)
  {
    var after := EditPending(e, s.pending);
    forall c | c in after ensures GuardedList(after[c], id, g) {
      forall w: Want | w in after[c] && w.id == id ensures Guard(w, g) {
        var i :| 0 <= i < |after[c]| && after[c][i] == w;
        assert s.pending[c][i] in s.pending[c];
        assert GuardedList(s.pending[c], id, g);
      }
    }
  }

  lemma PruneGuarded(s: State, id: nat, g: Option<nat>)
    requires Guarded(s, id, g)
    ensures Guarded(Prune(s), id, g)
  {
  }

  lemma ObserveGuarded(s: State, key: Key, accepted: bool, id: nat, g: Option<nat>)
    requires Guarded(s, id, g)
    ensures Guarded(Observe(s, key, accepted), id, g)
  {
    EditGuarded(if accepted then CountAccepted(key) else CountReceived(key), s, id, g);
  }

  lemma EnforceGuarded(s: State, key: Key, bytes: nat, id: nat, g: Option<nat>)
    requires Guarded(s, id, g)
    ensures Guarded(EnforceByteLimits(s, key, bytes), id, g)
  {
    if key.cid in s.pending {
      assert GuardedList(s.pending[key.cid], id, g);
    }
  }

  lemma FulfillGuarded(s: State, key: Key, data: Bytes, id: nat, g: Option<nat>)
    requires Guarded(s, id, g)
    ensures Guarded(Fulfill(s, key, data), id, g)
  {
    if key.cid in s.pending {
      var ws := s.pending[key.cid];
      assert GuardedList(ws, id, g);
      var out := Keep(ws, Recipient(key.sender, key.room));
      var sent := Deliveries(out, key, data);
      forall d | d in sent && d.id == id ensures g.Some? && d.limit == g {
        var i :| 0 <= i < |sent| && sent[i] == d;
        assert out[i] in out;
      }
    }
  }

  lemma TelemetryGuarded(s: State, bytes: nat, id: nat, g: Option<nat>)
    requires Guarded(s, id, g)
    ensures Guarded(Rejected(s), id, g) && Guarded(Duplicated(s, bytes), id, g)
  {
  }

  lemma StoreGuarded(s: State, key: Key, index: nat, total: nat, data: Bytes, id: nat, g: Option<nat>)
    requires Guarded(s, id, g)
    ensures Guarded(StoreStep(s, key, index, total, data), id, g)
  {
    var a := StoreChunk(AssemblyAt(s, key, total), index, data);
    var s1 := Admitted(s.(assemblies := s.assemblies[key := a]), |data|);
    ObserveGuarded(s1, key, true, id, g);
    var s2 := Observe(s1, key, true);
    FulfillGuarded(Completed(s2.(assemblies := s2.assemblies - {key})), key, Concat(a.chunks), id, g);
  }

  lemma HaveGuarded(s: State, key: Key, data: Bytes, id: nat, g: Option<nat>)
    requires Guarded(s, id, g)
    ensures Guarded(HaveStep(s, key, data), id, g)
  {
    PruneGuarded(s, id, g);
    ObserveGuarded(Prune(s), key, false, id, g);
    var s1 := Observe(Prune(s), key, false);
    EnforceGuarded(s1, key, |data|, id, g);
    var s2 := Completed(Admitted(EnforceByteLimits(s1, key, |data|), |data|));
    ObserveGuarded(s2, key, true, id, g);
    FulfillGuarded(Observe(s2, key, true), key, data, id, g);
  }

  lemma ChunkGuarded(s: State, key: Key, index: nat, total: nat, data: Bytes, id: nat, g: Option<nat>)
    requires Guarded(s, id, g)
    ensures Guarded(ChunkStep(s, key, index, total, data), id, g)
  {
    hide Guarded, Prune, Observe, EnforceByteLimits, StoreStep, Accepts, HasRoom, HasChunk, AssemblyAt;
    PruneGuarded(s, id, g);
    ObserveGuarded(Prune(s), key, false, id, g);
    var s1 := Observe(Prune(s), key, false);
    var bytes := AssemblyAt(s1, key, total).bytes + |data|;
    EnforceGuarded(s1, key, bytes, id, g);
    var s2 := EnforceByteLimits(s1, key, bytes);
    StoreGuarded(s2, key, index, total, data, id, g);
    TelemetryGuarded(s1, |data|, id, g);
    TelemetryGuarded(s2, |data|, id, g);
  }

  lemma RegisterGuarded(s0: State, cid: Bytes, peers: seq<Bytes>, local: bool, id: nat, g: Option<nat>)
    requires Guarded(s0, id, g)
    ensures Guarded(RegisterStep(s0, cid, peers, local), id, g)
  {
    PruneGuarded(s0, id, g);
  }

  predicate InstallsLimit(e: Event, id: nat) {
    e.InstallLimit? && e.id == id
  }

  predicate TracksPath(e: Event, id: nat) {
    e.TrackPath? && e.id == id
  }

  lemma StepGuarded(s: State, e: Event, id: nat, g: Option<nat>)
    requires Guarded(s, id, g) && !InstallsLimit(e, id) && (TracksPath(e, id) ==> g.Some?)
    ensures Guarded(Step(s, e), id, g)
  {
    match e
    case Register(cid, peers, local) => RegisterGuarded(s, cid, peers, local, id, g);
    case InstallLimit(i, bytes) => EditGuarded(SetLimit(i, bytes), s, id, g);
    case TrackPath(i, room) => EditGuarded(AddPath(i, room), s, id, g);
    case UntrackPath(i, room) =>
      EditGuarded(DropPath(i, room), s, id, g);
      PruneGuarded(s.(pending := EditPending(DropPath(i, room), s.pending)), id, g);
    case ReceiverCloses(i) => EditGuarded(CloseReceiver(i), s, id, g);
    case Have(key, data) => HaveGuarded(s, key, data, id, g);
    case HaveChunk(key, index, total, data) => ChunkGuarded(s, key, index, total, data, id, g);
    case ResetPath(from, room) =>
      PruneGuarded(s, id, g);
      EditGuarded(NoteReset(from, room), Prune(s).(assemblies := ResetStep(s, from, room).assemblies), id, g);
    case CancelClosed => PruneGuarded(s, id, g);
    case Cancel(cid) =>
      var gone := map k | k in s.assemblies && k.cid != cid :: s.assemblies[k];
      PruneGuarded(s.(pending := s.pending - {cid}, assemblies := gone), id, g);
  }

  lemma {:induction false} RunGuarded(s: State, events: seq<Event>, id: nat, g: Option<nat>)
    requires Guarded(s, id, g)
    requires forall e | e in events :: !InstallsLimit(e, id) && (TracksPath(e, id) ==> g.Some?)
    ensures Guarded(Run(s, events), id, g)
    decreases |events|
  {
    if events != [] {
      StepGuarded(s, events[0], id, g);
      RunGuarded(Step(s, events[0]), events[1..], id, g);
    }
  }

  lemma FreshIsGuarded(s: State, cid: Bytes, peers: seq<Bytes>)
    requires Inv(s)
    ensures Guarded(RegisterStep(s, cid, peers, false), s.nextAttempt + 1, None)
  {
    hide Inv, Guarded, Enrolled, OpenPending, Authorised;
    PruneKeeps(s);
    var p := Prune(s);
    var id := p.nextAttempt + 1;
    UnusedIsGuarded(p);
    if Admissible(p, cid, peers) {
      EnrolGuards(p.(nextAttempt := id), cid, NewWant(id, peers, false), id);
    }
  }

  /** Nobody waits or was sent data under a number not yet given. */
  lemma UnusedIsGuarded(s: State)
    requires Inv(s)
    ensures Guarded(s.(nextAttempt := s.nextAttempt + 1), s.nextAttempt + 1, None)
  {
    hide AssembliesOk, AllAuthorised;
    forall c | c in s.pending ensures GuardedList(s.pending[c], s.nextAttempt + 1, None) {
      assert ListOk(s.pending[c], s.nextAttempt);
    }
  }

  lemma EnrolGuards(s: State, cid: Bytes, w: Want, id: nat)
    requires Guarded(s, id, None) && w.paths == {}
    ensures Guarded(Enrolled(s, cid, w), id, None)
  {
  }

  lemma InstallGuards(s: State, id: nat, bytes: nat)
    requires Guarded(s, id, None)
    ensures Guarded(Step(s, InstallLimit(id, bytes)), id, Some(Min(bytes, MAX_WANT_BLOCK_BYTES)))
  {
    var after := EditPending(SetLimit(id, bytes), s.pending);
    forall c | c in after
      ensures GuardedList(after[c], id, Some(Min(bytes, MAX_WANT_BLOCK_BYTES)))
    {
    }
  }

  /**
   The two-step bounded registration: number the attempt, let any other operations run, install the
   limit, and only then attach paths. Whatever is ever sent to the attempt is within the limit, and
   nothing is sent to it before the limit is in place.
   */
  lemma BoundedAttempt(s: State, cid: Bytes, peer: Bytes, bytes: nat, between: seq<Event>, rest: seq<Event>)
    requires Inv(s)
    requires
      var id := s.nextAttempt + 1;
      && (forall e | e in between :: !InstallsLimit(e, id) && !TracksPath(e, id))
      && (forall e | e in rest :: !InstallsLimit(e, id))
    ensures
      var id := s.nextAttempt + 1;
      var waiting := Run(Step(s, Register(cid, [peer], false)), between);
      var end := Run(Step(waiting, InstallLimit(id, bytes)), rest);
      && (forall d | d in waiting.delivered :: d.id != id)
      && (forall d | d in end.delivered && d.id == id :: |d.data| <= Min(bytes, MAX_WANT_BLOCK_BYTES))
  {
    hide Inv, Run, Guarded;
    var id := s.nextAttempt + 1;
    var first := Step(s, Register(cid, [peer], false));
    NothingSent(s, cid, peer, between);
    StepInv(s, Register(cid, [peer], false));
    FreshIsGuarded(s, cid, [peer]);
    RunInv(first, between);
    RunGuarded(first, between, id, None);
    var waiting := Run(first, between);
    InstallGuards(waiting, id, bytes);
    StepInv(waiting, InstallLimit(id, bytes));
    var bounded := Step(waiting, InstallLimit(id, bytes));
    RunInv(bounded, rest);
    RunGuarded(bounded, rest, id, Some(Min(bytes, MAX_WANT_BLOCK_BYTES)));
    LimitRespected(Run(bounded, rest), id, Min(bytes, MAX_WANT_BLOCK_BYTES));
  }

  lemma NothingSent(s: State, cid: Bytes, peer: Bytes, between: seq<Event>)
    requires Inv(s)
    requires forall e | e in between :: !InstallsLimit(e, s.nextAttempt + 1) && !TracksPath(e, s.nextAttempt + 1)
    ensures
      var waiting := Run(Step(s, Register(cid, [peer], false)), between);
      forall d | d in waiting.delivered :: d.id != s.nextAttempt + 1
  {
    hide Inv, Run, RegisterStep;
    var first := Step(s, Register(cid, [peer], false));
    StepInv(s, Register(cid, [peer], false));
    FreshIsGuarded(s, cid, [peer]);
    RunGuarded(first, between, s.nextAttempt + 1, None);
  }

  lemma LimitRespected(s: State, id: nat, limit: nat)
    requires Inv(s) && Guarded(s, id, Some(limit))
    ensures forall d | d in s.delivered && d.id == id :: |d.data| <= limit
  {
    forall d | d in s.delivered && d.id == id ensures |d.data| <= limit {
      assert DeliveryOk(d, s.nextAttempt);
    }
  }
}
