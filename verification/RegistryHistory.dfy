/**
 A registration as its history: what each event makes of it, what ends it, and what its caller is told,
 stated from the events alone and proved of every run of the registry.
 */
module RegistryHistory {
  import opened Common
  import opened WantModel
  import opened RegistryInvariant
  import opened RegistryProperties
  import opened RegistryFates

  ghost predicate On(s: State, c: Bytes, w: Want) {
    c in s.pending && w in s.pending[c]
  }

  // ---- no registration comes from nowhere ----

  /** Whatever waits in `t` is new, or waited in `s` and is as open as it was. */
  ghost predicate From(s: State, t: State) {
    && s.nextAttempt <= t.nextAttempt
    && forall c, x | On(t, c, x) :: (x.id > s.nextAttempt && !x.closed) || exists y :: On(s, c, y) && y.id == x.id && y.closed == x.closed
  }

  lemma FromTrans(s: State, t: State, u: State)
    requires From(s, t) && From(t, u)
    ensures From(s, u)
  {
    forall c, x | On(u, c, x)
      ensures (x.id > s.nextAttempt && !x.closed) || exists y :: On(s, c, y) && y.id == x.id && y.closed == x.closed
    {
      if !(x.id > t.nextAttempt && !x.closed) {
        var y :| On(t, c, y) && y.id == x.id && y.closed == x.closed;
        assert (y.id > s.nextAttempt && !y.closed) || exists z :: On(s, c, z) && z.id == y.id && z.closed == y.closed;
      }
    }
  }

  lemma SameFrom(s: State, t: State)
    requires t.pending == s.pending && t.nextAttempt == s.nextAttempt
    ensures From(s, t)
  {
    forall c, x | On(t, c, x)
      ensures On(s, c, x)
    {
    }
  }

  lemma FewerFrom(s: State, t: State)
    requires t.nextAttempt == s.nextAttempt && forall c, x | On(t, c, x) :: On(s, c, x)
    ensures From(s, t)
  {
  }

  lemma PruneFrom(s: State)
    ensures From(s, Prune(s))
    ensures forall c, x | On(Prune(s), c, x) :: !x.closed
  {
    FewerFrom(s, Prune(s));
  }

  lemma EditFrom(e: Edit, s: State)
    requires !e.CloseReceiver?
    ensures From(s, s.(pending := EditPending(e, s.pending)))
  {
    var t := s.(pending := EditPending(e, s.pending));
    forall c, x | On(t, c, x)
      ensures exists y :: On(s, c, y) && y.id == x.id && y.closed == x.closed
    {
      var i :| 0 <= i < |t.pending[c]| && t.pending[c][i] == x;
      assert On(s, c, s.pending[c][i]);
    }
  }

  lemma ObserveFrom(s: State, key: Key, accepted: bool)
    ensures From(s, Observe(s, key, accepted))
  {
    EditFrom(if accepted then CountAccepted(key) else CountReceived(key), s);
  }

  lemma EnforceFrom(s: State, key: Key, bytes: nat)
    ensures From(s, EnforceByteLimits(s, key, bytes))
  {
    if key.cid in s.pending {
      var t := s.(pending := s.pending[key.cid := Keep(s.pending[key.cid], WithinLimit(key.sender, key.room, bytes))],
                  exceeded := EnforceByteLimits(s, key, bytes).exceeded);
      FewerFrom(s, t);
      PruneFrom(t);
      FromTrans(s, t, Prune(t));
    } else {
      PruneFrom(s);
    }
  }

  lemma FulfillFrom(s: State, key: Key, data: Bytes)
    ensures From(s, Fulfill(s, key, data))
  {
    if key.cid in s.pending {
      var t := s.(pending := s.pending[key.cid := Keep(s.pending[key.cid], Unaddressed(key.sender, key.room))],
                  delivered := Fulfill(s, key, data).delivered);
      FewerFrom(s, t);
      PruneFrom(t);
      FromTrans(s, t, Prune(t));
    } else {
      SameFrom(s, Fulfill(s, key, data));
    }
  }

  lemma HaveFrom(s: State, key: Key, data: Bytes)
    ensures From(Prune(s), HaveStep(s, key, data))
  {
    hide From, Prune, Observe, EnforceByteLimits, Fulfill, Accepts;
    var p := Prune(s);
    ObserveFrom(p, key, false);
    var s1 := Observe(p, key, false);
    EnforceFrom(s1, key, |data|);
    var t := EnforceByteLimits(s1, key, |data|);
    FromTrans(p, s1, t);
    var a := Completed(Admitted(t, |data|));
    SameFrom(t, a);
    SameFrom(t, Rejected(t));
    ObserveFrom(a, key, true);
    FulfillFrom(Observe(a, key, true), key, data);
    FromTrans(p, t, a);
    FromTrans(p, t, Rejected(t));
    FromTrans(p, a, Observe(a, key, true));
    FromTrans(p, Observe(a, key, true), Fulfill(Observe(a, key, true), key, data));
  }

  lemma StoreFrom(s: State, key: Key, index: nat, total: nat, data: Bytes)
    ensures From(s, StoreStep(s, key, index, total, data))
  {
    hide From, Observe, Fulfill, AssemblyAt, StoreChunk, Concat;
    var a := StoreChunk(AssemblyAt(s, key, total), index, data);
    var s1 := Admitted(s.(assemblies := s.assemblies[key := a]), |data|);
    SameFrom(s, s1);
    ObserveFrom(s1, key, true);
    var s2 := Observe(s1, key, true);
    FromTrans(s, s1, s2);
    var s3 := Completed(s2.(assemblies := s2.assemblies - {key}));
    SameFrom(s2, s3);
    FulfillFrom(s3, key, Concat(a.chunks));
    FromTrans(s, s2, s3);
    FromTrans(s, s3, Fulfill(s3, key, Concat(a.chunks)));
  }

  lemma ChunkFrom(s: State, key: Key, index: nat, total: nat, data: Bytes)
    ensures From(Prune(s), ChunkStep(s, key, index, total, data))
  {
    hide From, Prune, Observe, EnforceByteLimits, StoreStep, Accepts, HasRoom, HasChunk, AssemblyAt, SoundHeader;
    var p := Prune(s);
    ObserveFrom(p, key, false);
    var t := Observe(p, key, false);
    SameFrom(t, Rejected(t));
    SameFrom(t, Duplicated(t, |data|));
    FromTrans(p, t, Rejected(t));
    FromTrans(p, t, Duplicated(t, |data|));
    var bytes := AssemblyAt(t, key, total).bytes + |data|;
    EnforceFrom(t, key, bytes);
    var u := EnforceByteLimits(t, key, bytes);
    FromTrans(p, t, u);
    SameFrom(u, Rejected(u));
    FromTrans(p, u, Rejected(u));
    StoreFrom(u, key, index, total, data);
    FromTrans(p, u, StoreStep(u, key, index, total, data));
  }

  lemma RegisterFrom(s: State, cid: Bytes, peers: seq<Bytes>, local: bool)
    ensures From(Prune(s), RegisterStep(s, cid, peers, local))
  {
    hide Prune, Admissible;
    var p, u := Prune(s), RegisterStep(s, cid, peers, local);
    forall c, x | On(u, c, x)
      ensures (x.id > p.nextAttempt && !x.closed) || On(p, c, x)
    {
    }
  }

  /** Does the event drop abandoned registrations? */
  predicate Prunes(e: Event) {
    !e.InstallLimit? && !e.TrackPath? && !e.ReceiverCloses?
  }

  lemma PrunedFrom(s: State, u: State)
    requires From(Prune(s), u)
    ensures From(s, u) && forall c, x | On(u, c, x) :: !x.closed
  {
    hide Prune;
    PruneFrom(s);
    FromTrans(s, Prune(s), u);
    forall c, x | On(u, c, x)
      ensures !x.closed
    {
      assert !x.closed || exists y :: On(Prune(s), c, y) && y.id == x.id && y.closed == x.closed;
    }
  }

  lemma CancelFrom(s: State, cid: Bytes)
    ensures From(s, CancelStep(s, cid)) && forall c, x | On(CancelStep(s, cid), c, x) :: !x.closed && c != cid
  {
    var t := s.(pending := s.pending - {cid}, assemblies := map k | k in s.assemblies && k.cid != cid :: s.assemblies[k]);
    FewerFrom(s, t);
    PruneFrom(t);
    FromTrans(s, t, Prune(t));
    assert forall c, x | On(Prune(t), c, x) :: On(t, c, x);
  }

  lemma StepFrom(s: State, e: Event)
    requires !e.ReceiverCloses?
    ensures From(s, Step(s, e))
    ensures Prunes(e) ==> forall c, x | On(Step(s, e), c, x) :: !x.closed
  {
    hide From, Prune, HaveStep, ChunkStep, RegisterStep, EditPending, CancelStep;
    match e
    case Register(cid, peers, local) =>
      RegisterFrom(s, cid, peers, local);
      PrunedFrom(s, Step(s, e));
    case InstallLimit(id, bytes) => EditFrom(SetLimit(id, bytes), s);
    case TrackPath(id, room) => EditFrom(AddPath(id, room), s);
    case UntrackPath(id, room) =>
      var t := s.(pending := EditPending(DropPath(id, room), s.pending));
      EditFrom(DropPath(id, room), s);
      PruneFrom(t);
      FromTrans(s, t, Prune(t));
    case Have(key, data) =>
      HaveFrom(s, key, data);
      PrunedFrom(s, Step(s, e));
    case HaveChunk(key, index, total, data) =>
      ChunkFrom(s, key, index, total, data);
      PrunedFrom(s, Step(s, e));
    case ResetPath(from, room) =>
      var p := Prune(s);
      var kept := p.(assemblies := ResetStep(s, from, room).assemblies);
      SameFrom(p, kept);
      EditFrom(NoteReset(from, room), kept);
      FromTrans(p, kept, Step(s, e));
      PrunedFrom(s, Step(s, e));
    case CancelClosed => PruneFrom(s);
    case Cancel(cid) => CancelFrom(s, cid);
  }

  // ---- what an event makes of a registration ----

  /** The frame raised the counter of accepted frames. */
  ghost predicate Accepted(s: State, e: Event) {
    Step(s, e).counters.accepted > s.counters.accepted
  }

  /** What a registration for `c` is after the event, if it still waits. */
  ghost function After(s: State, e: Event, c: Bytes, w: Want): Want {
    match e
    case InstallLimit(id, bytes) => if id == w.id then w.(limit := Some(Min(bytes, 8 * 1024 * 1024))) else w
    case TrackPath(id, room) => if id == w.id then w.(paths := w.paths + {room}) else w
    case UntrackPath(id, room) => if id == w.id then w.(paths := w.paths - {room}) else w
    case ReceiverCloses(id) => if id == w.id then w.(closed := true) else w
    case ResetPath(from, room) =>
      if room in w.paths && (from.None? || from.value in w.peers) then w.(resets := w.resets + 1) else w
    case Have(key, _) => if Addressed(key, c, w) then Counted(w, Accepted(s, e)) else w
    case HaveChunk(key, _, _, _) => if Addressed(key, c, w) then Counted(w, Accepted(s, e)) else w
    case _ => w
  }

  /** The registration asked this sender for this CID on this path. */
  predicate Addressed(key: Key, c: Bytes, w: Want) {
    key.cid == c && key.sender in w.peers && key.room in w.paths
  }

  function Counted(w: Want, accepted: bool): Want {
    w.(received := w.received + 1, accepted := w.accepted + if accepted then 1 else 0)
  }

  /** It still waits, as given, or its caller has been sent the payload, or told of the excess. */
  ghost predicate Goes(t: State, c: Bytes, w: Want) {
    On(t, c, w) || Served(t, w.id) || Told(t, w.id)
  }

  lemma PruneGoes(s: State, c: Bytes, w: Want)
    requires On(s, c, w) && !w.closed
    ensures On(Prune(s), c, w)
  {
    PruneUndisturbed(s, c, w, Key(c, [], []));
  }

  lemma EditGoes(e: Edit, s: State, c: Bytes, w: Want)
    requires On(s, c, w)
    ensures On(s.(pending := EditPending(e, s.pending)), c, Edited(e, c, w))
  {
    var i :| 0 <= i < |s.pending[c]| && s.pending[c][i] == w;
    assert EditPending(e, s.pending)[c][i] == Edited(e, c, w);
  }

  lemma ObserveGoes(s: State, key: Key, accepted: bool, c: Bytes, w: Want)
    requires On(s, c, w)
    ensures On(Observe(s, key, accepted), c,
               if !Addressed(key, c, w) then w
               else if accepted then w.(accepted := w.accepted + 1) else w.(received := w.received + 1))
  {
    EditGoes(if accepted then CountAccepted(key) else CountReceived(key), s, c, w);
  }

  lemma EnforceGoes(s: State, key: Key, bytes: nat, c: Bytes, w: Want)
    requires On(s, c, w) && !w.closed
    ensures
      var t := EnforceByteLimits(s, key, bytes);
      if Addressed(key, c, w) && w.limit.Some? && bytes > w.limit.value then Told(t, w.id) else On(t, c, w)
  {
    if key.cid in s.pending {
      var ws := s.pending[key.cid];
      var t := s.(pending := s.pending[key.cid := Keep(ws, WithinLimit(key.sender, key.room, bytes))],
                  exceeded := EnforceByteLimits(s, key, bytes).exceeded);
      if Addressed(key, c, w) && w.limit.Some? && bytes > w.limit.value {
        var gone := Keep(ws, OverLimit(key.sender, key.room, bytes));
        var i :| 0 <= i < |gone| && gone[i] == w;
        assert t.exceeded[|s.exceeded| + i] == Exceeded(w.id, bytes);
      } else {
        PruneGoes(t, c, w);
      }
    } else {
      PruneGoes(s, c, w);
    }
  }

  lemma FulfillGoes(s: State, key: Key, data: Bytes, c: Bytes, w: Want)
    requires On(s, c, w) && !w.closed
    ensures
      var t := Fulfill(s, key, data);
      if Addressed(key, c, w) then Served(t, w.id) else On(t, c, w)
  {
    if key.cid in s.pending {
      var ws := s.pending[key.cid];
      var t := s.(pending := s.pending[key.cid := Keep(ws, Unaddressed(key.sender, key.room))],
                  delivered := Fulfill(s, key, data).delivered);
      if Addressed(key, c, w) {
        var out := Keep(ws, Recipient(key.sender, key.room));
        var i :| 0 <= i < |out| && out[i] == w;
        assert t.delivered[|s.delivered| + i] == Delivery(w.id, key, data, w.limit);
      } else {
        PruneGoes(t, c, w);
      }
    }
  }

  /** The counter of accepted frames moves only where a frame is taken in. */
  lemma AcceptedWhen(s: State, key: Key, bytes: nat)
    ensures EnforceByteLimits(s, key, bytes).counters == s.counters && Prune(s).counters == s.counters
    ensures Observe(s, key, true).counters == s.counters && Observe(s, key, false).counters == s.counters
  {
  }

  lemma FulfillCounters(s: State, key: Key, data: Bytes)
    ensures Fulfill(s, key, data).counters == s.counters && Fulfill(s, key, data).exceeded == s.exceeded
    ensures s.delivered <= Fulfill(s, key, data).delivered
  {
  }

  lemma HaveGoes(s: State, e: Event, c: Bytes, w: Want)
    requires e.Have? && On(s, c, w) && !w.closed
    ensures Goes(Step(s, e), c, After(s, e, c, w))
  {
    hide On, Prune, Observe, EnforceByteLimits, Fulfill, Accepts, Told, Served;
    var key, data := e.key, e.data;
    var p := Prune(s);
    PruneGoes(s, c, w);
    ObserveGoes(p, key, false, c, w);
    var s1 := Observe(p, key, false);
    var w1 := if Addressed(key, c, w) then w.(received := w.received + 1) else w;
    EnforceGoes(s1, key, |data|, c, w1);
    var t := EnforceByteLimits(s1, key, |data|);
    AcceptedWhen(s, key, |data|);
    AcceptedWhen(p, key, |data|);
    AcceptedWhen(s1, key, |data|);
    if |data| <= MAX_WANT_BLOCK_BYTES && Accepts(t, key) {
      var a := Completed(Admitted(t, |data|));
      AcceptedWhen(a, key, |data|);
      FulfillCounters(Observe(a, key, true), key, data);
      if On(t, c, w1) {
        OnSame(t, a, c, w1);
        ObserveGoes(a, key, true, c, w1);
        var w2 := if Addressed(key, c, w1) then w1.(accepted := w1.accepted + 1) else w1;
        FulfillGoes(Observe(a, key, true), key, data, c, w2);
      } else {
        ToldStays(t, Step(s, e), w.id) by {
          ObserveSends(a, key, true);
        }
      }
    } else {
      OnSame(t, Rejected(t), c, w1);
      ToldStays(t, Rejected(t), w.id);
    }
  }

  lemma OnSame(s: State, t: State, c: Bytes, w: Want)
    requires t.pending == s.pending
    ensures On(s, c, w) <==> On(t, c, w)
  {
  }

  lemma ToldStays(s: State, t: State, id: nat)
    requires s.exceeded <= t.exceeded
    ensures Told(s, id) ==> Told(t, id)
  {
    if Told(s, id) {
      var x :| x in s.exceeded && x.id == id;
      assert x in t.exceeded;
    }
  }

  lemma ObserveSends(s: State, key: Key, accepted: bool)
    ensures Observe(s, key, accepted).exceeded == s.exceeded && Observe(s, key, accepted).delivered == s.delivered
  {
  }

  lemma StoreGoes(s: State, key: Key, index: nat, total: nat, data: Bytes, c: Bytes, w: Want)
    requires On(s, c, w) && !w.closed
    ensures
      var w2 := if Addressed(key, c, w) then w.(accepted := w.accepted + 1) else w;
      Goes(StoreStep(s, key, index, total, data), c, w2)
  {
    hide On, Observe, Fulfill, Told, Served, AssemblyAt, StoreChunk, Concat;
    var a := StoreChunk(AssemblyAt(s, key, total), index, data);
    var s1 := Admitted(s.(assemblies := s.assemblies[key := a]), |data|);
    OnSame(s, s1, c, w);
    ObserveGoes(s1, key, true, c, w);
    if a.received == a.total {
      var w2 := if Addressed(key, c, w) then w.(accepted := w.accepted + 1) else w;
      var s2 := Observe(s1, key, true);
      var s3 := Completed(s2.(assemblies := s2.assemblies - {key}));
      OnSame(s2, s3, c, w2);
      FulfillGoes(s3, key, Concat(a.chunks), c, w2);
    }
  }

  lemma StoreSends(s: State, key: Key, index: nat, total: nat, data: Bytes)
    ensures
      var t := StoreStep(s, key, index, total, data);
      t.exceeded == s.exceeded && s.delivered <= t.delivered && t.counters.accepted == s.counters.accepted + 1
  {
    hide Observe, Fulfill, AssemblyAt, StoreChunk, Concat;
    var a := StoreChunk(AssemblyAt(s, key, total), index, data);
    var s1 := Admitted(s.(assemblies := s.assemblies[key := a]), |data|);
    ObserveSends(s1, key, true);
    AcceptedWhen(s1, key, 0);
    var s2 := Observe(s1, key, true);
    FulfillCounters(Completed(s2.(assemblies := s2.assemblies - {key})), key, Concat(a.chunks));
  }

  lemma ChunkGoes(s: State, e: Event, c: Bytes, w: Want)
    requires e.HaveChunk? && On(s, c, w) && !w.closed
    ensures Goes(Step(s, e), c, After(s, e, c, w))
  {
    hide On, Prune, Observe, EnforceByteLimits, StoreStep, Accepts, HasRoom, HasChunk, AssemblyAt, SoundHeader, Told, Served;
    var key, data, total := e.key, e.data, e.total;
    var p := Prune(s);
    PruneGoes(s, c, w);
    ObserveGoes(p, key, false, c, w);
    var t := Observe(p, key, false);
    var w1 := if Addressed(key, c, w) then w.(received := w.received + 1) else w;
    AcceptedWhen(s, key, 0);
    AcceptedWhen(p, key, 0);
    OnSame(t, Rejected(t), c, w1);
    OnSame(t, Duplicated(t, |data|), c, w1);
    var bytes := AssemblyAt(t, key, total).bytes + |data|;
    EnforceGoes(t, key, bytes, c, w1);
    AcceptedWhen(t, key, bytes);
    var u := EnforceByteLimits(t, key, bytes);
    OnSame(u, Rejected(u), c, w1);
    ToldStays(u, Rejected(u), w.id);
    StoreSends(u, key, e.index, total, data);
    ToldStays(u, StoreStep(u, key, e.index, total, data), w.id);
    if On(u, c, w1) {
      StoreGoes(u, key, e.index, total, data, c, w1);
    }
  }

  /** An open registration goes on as `After` says, unless the event ends it. */
  lemma StepGoes(s: State, e: Event, c: Bytes, w: Want)
    requires On(s, c, w) && !w.closed && e != Cancel(c)
    ensures Goes(Step(s, e), c, After(s, e, c, w))
  {
    hide On, Prune, HaveStep, ChunkStep, EditPending, Told, Served;
    match e
    case Register(cid, peers, local) =>
      PruneGoes(s, c, w);
      EnrolGoes(s, cid, peers, local, c, w);
    case InstallLimit(id, bytes) => EditGoes(SetLimit(id, bytes), s, c, w);
    case TrackPath(id, room) => EditGoes(AddPath(id, room), s, c, w);
    case UntrackPath(id, room) =>
      EditGoes(DropPath(id, room), s, c, w);
      PruneGoes(s.(pending := EditPending(DropPath(id, room), s.pending)), c, Edited(DropPath(id, room), c, w));
    case ReceiverCloses(id) => EditGoes(CloseReceiver(id), s, c, w);
    case Have(_, _) => HaveGoes(s, e, c, w);
    case HaveChunk(_, _, _, _) => ChunkGoes(s, e, c, w);
    case ResetPath(from, room) =>
      PruneGoes(s, c, w);
      var kept := Prune(s).(assemblies := ResetStep(s, from, room).assemblies);
      OnSame(Prune(s), kept, c, w);
      EditGoes(NoteReset(from, room), kept, c, w);
    case CancelClosed => PruneGoes(s, c, w);
    case Cancel(cid) =>
      var t := s.(pending := s.pending - {cid}, assemblies := map k | k in s.assemblies && k.cid != cid :: s.assemblies[k]);
      assert On(t, c, w) by { OtherStays(s, t, cid, c, w); }
      PruneGoes(t, c, w);
  }

  lemma OtherStays(s: State, t: State, cid: Bytes, c: Bytes, w: Want)
    requires On(s, c, w) && t.pending == s.pending - {cid} && c != cid
    ensures On(t, c, w)
  {
  }

  lemma EnrolGoes(s: State, cid: Bytes, peers: seq<Bytes>, local: bool, c: Bytes, w: Want)
    requires On(Prune(s), c, w)
    ensures On(RegisterStep(s, cid, peers, local), c, w)
  {
    hide Prune, Admissible;
  }

  /** Under its number a registration is the only one. */
  lemma OnlyOne(s: State, c: Bytes, d: Bytes, w: Want, x: Want)
    requires Inv(s) && On(s, c, w) && On(s, d, x) && w.id == x.id
    ensures w == x && c == d
  {
    assert DistinctIds(s.pending);
    assert c != d ==> DisjointIds(s.pending[c], s.pending[d]);
    assert DistinctIn(s.pending[c]);
  }

  /**
   One event, one registration: if it still waits it is what the event makes of it. The limit, the paths
   and the counts of frames and resets are changed by nothing else.
   */
  lemma EventReflects(s: State, e: Event, c: Bytes, w: Want, x: Want)
    requires Inv(s) && ToldOk(s) && On(s, c, w) && On(Step(s, e), c, x) && x.id == w.id
    ensures x == After(s, e, c, w)
  {
    hide Inv, ToldOk, Step, On;
    StepInv(s, e);
    StepTold(s, e);
    if w.closed && Prunes(e) {
      ClosedLeaves(s, e, c, w);
    } else if w.closed {
      ClosedEdits(s, e, c, w);
      OnlyOne(Step(s, e), c, c, After(s, e, c, w), x);
    } else if e == Cancel(c) {
      CancelFrom(s, c);
      CancelledGone(s, c, x);
    } else {
      StepGoes(s, e, c, w);
      WaitsOnly(Step(s, e), c, x);
      AfterId(s, e, c, w);
      OnlyOne(Step(s, e), c, c, After(s, e, c, w), x);
    }
  }

  lemma AfterId(s: State, e: Event, c: Bytes, w: Want)
    ensures After(s, e, c, w).id == w.id
  {
  }

  lemma CancelledGone(s: State, c: Bytes, x: Want)
    ensures !On(Step(s, Cancel(c)), c, x)
  {
    CancelFrom(s, c);
  }

  lemma WaitsOnly(s: State, c: Bytes, x: Want)
    requires Inv(s) && ToldOk(s) && On(s, c, x)
    ensures !Served(s, x.id) && !Told(s, x.id)
  {
    assert Untold(s.pending[c], s.exceeded) && Undelivered(s.pending[c], s.delivered);
  }

  lemma ClosedLeaves(s: State, e: Event, c: Bytes, w: Want)
    requires Inv(s) && On(s, c, w) && w.closed && Prunes(e)
    ensures forall x :: On(Step(s, e), c, x) ==> x.id != w.id
  {
    hide Inv, Step, On;
    StepFrom(s, e);
    WithinNext(s, c, w);
    forall x | On(Step(s, e), c, x)
      ensures x.id != w.id
    {
      assert x.id > s.nextAttempt || exists y :: On(s, c, y) && y.id == x.id && y.closed == x.closed;
      forall y | On(s, c, y) && y.id == w.id
        ensures y == w
      {
        OnlyOne(s, c, c, w, y);
      }
    }
  }

  lemma WithinNext(s: State, c: Bytes, w: Want)
    requires Inv(s) && On(s, c, w)
    ensures 0 < w.id <= s.nextAttempt
  {
    assert ListOk(s.pending[c], s.nextAttempt);
  }

  lemma ClosedEdits(s: State, e: Event, c: Bytes, w: Want)
    requires On(s, c, w) && !Prunes(e)
    ensures On(Step(s, e), c, After(s, e, c, w)) && After(s, e, c, w).id == w.id
  {
    match e
    case InstallLimit(id, bytes) => EditGoes(SetLimit(id, bytes), s, c, w);
    case TrackPath(id, room) => EditGoes(AddPath(id, room), s, c, w);
    case ReceiverCloses(id) => EditGoes(CloseReceiver(id), s, c, w);
  }

  // ---- over a run ----

  /** What the events of a run make of a registration. */
  ghost function Follow(s: State, events: seq<Event>, c: Bytes, w: Want): Want
    decreases |events|
  {
    if events == [] then w else Follow(Step(s, events[0]), events[1..], c, After(s, events[0], c, w))
  }

  lemma NeverBack(s: State, e: Event, c: Bytes, id: nat)
    requires Inv(s) && id <= s.nextAttempt && Waits(Step(s, e), c, id)
    ensures Waits(s, c, id)
  {
    hide Inv, Step;
    var x :| On(Step(s, e), c, x) && x.id == id;
    if e.ReceiverCloses? {
      CloseBack(s, e.id, c, x);
    } else {
      StepFrom(s, e);
      var y :| On(s, c, y) && y.id == x.id && y.closed == x.closed;
    }
  }

  lemma CloseBack(s: State, id: nat, c: Bytes, x: Want)
    requires On(Step(s, ReceiverCloses(id)), c, x)
    ensures Waits(s, c, x.id)
  {
    var t := Step(s, ReceiverCloses(id));
    var i :| 0 <= i < |t.pending[c]| && t.pending[c][i] == x;
    assert s.pending[c][i] in s.pending[c];
  }

  lemma NumbersGrow(s: State, e: Event)
    ensures s.nextAttempt <= Step(s, e).nextAttempt
  {
    hide Step;
    if e.ReceiverCloses? {
      CloseKeepsNumbers(s, e.id);
    } else {
      StepFrom(s, e);
    }
  }

  lemma CloseKeepsNumbers(s: State, id: nat)
    ensures Step(s, ReceiverCloses(id)).nextAttempt == s.nextAttempt
  {
  }

  lemma {:induction false} RunNeverBack(s: State, events: seq<Event>, c: Bytes, id: nat)
    requires Inv(s) && id <= s.nextAttempt && Waits(Run(s, events), c, id)
    ensures Waits(s, c, id)
    decreases |events|
  {
    hide Inv, Step, Waits;
    if events != [] {
      StepInv(s, events[0]);
      NumbersGrow(s, events[0]);
      RunNeverBack(Step(s, events[0]), events[1..], c, id);
      NeverBack(s, events[0], c, id);
    }
  }

  /** In every run a registration that still waits is what the events so far have made of it. */
  lemma {:induction false} RunReflects(s: State, events: seq<Event>, c: Bytes, w: Want, x: Want)
    requires Inv(s) && ToldOk(s) && On(s, c, w) && On(Run(s, events), c, x) && x.id == w.id
    ensures x == Follow(s, events, c, w)
    decreases |events|
  {
    hide Inv, ToldOk, Step, On, After;
    if events == [] {
      OnlyOne(s, c, c, w, x);
    } else {
      var e := events[0];
      var u := Step(s, e);
      StepInv(s, e);
      StepTold(s, e);
      WithinNext(s, c, w);
      NumbersGrow(s, e);
      OnWaits(Run(s, events), c, x);
      RunNeverBack(u, events[1..], c, w.id);
      var y := WaitsOn(u, c, w.id);
      EventReflects(s, e, c, w, y);
      RunReflects(u, events[1..], c, y, x);
    }
  }

  lemma OnWaits(s: State, c: Bytes, x: Want)
    requires On(s, c, x)
    ensures Waits(s, c, x.id)
  {
  }

  lemma WaitsOn(s: State, c: Bytes, id: nat) returns (x: Want)
    requires Waits(s, c, id)
    ensures On(s, c, x) && x.id == id
  {
    x :| x in s.pending[c] && x.id == id;
  }

  /** Resets that hit the registration: of its room, by anyone or by a sender it asked. */
  ghost function ResetsHit(s: State, events: seq<Event>, c: Bytes, w: Want): nat
    decreases |events|
  {
    if events == [] then 0
    else
      var e := events[0];
      (if e.ResetPath? && e.room in w.paths && (e.from.None? || e.from.value in w.peers) then 1 else 0)
      + ResetsHit(Step(s, e), events[1..], c, After(s, e, c, w))
  }

  lemma {:induction false} FollowResets(s: State, events: seq<Event>, c: Bytes, w: Want)
    ensures Follow(s, events, c, w).resets == w.resets + ResetsHit(s, events, c, w)
    decreases |events|
  {
    hide Step, Accepted;
    if events != [] {
      FollowResets(Step(s, events[0]), events[1..], c, After(s, events[0], c, w));
    }
  }

  /** A registration that still waits has counted exactly the resets that hit it. */
  lemma ResetsCounted(s: State, events: seq<Event>, c: Bytes, w: Want, x: Want)
    requires Inv(s) && ToldOk(s) && On(s, c, w) && On(Run(s, events), c, x) && x.id == w.id
    ensures x.resets == w.resets + ResetsHit(s, events, c, w)
  {
    hide Inv, ToldOk, Run, On, Follow, ResetsHit;
    RunReflects(s, events, c, w, x);
    FollowResets(s, events, c, w);
  }

  // ---- what ends a registration ----

  /**
   An open registration survives an event, or is served, or is told of an excess: exactly one of these,
   except that cancelling its CID ends it without a word.
   */
  lemma OneFate(s: State, e: Event, c: Bytes, w: Want)
    requires Inv(s) && ToldOk(s) && On(s, c, w) && !w.closed
    ensures
      var u := Step(s, e);
      && (e == Cancel(c) ==> !Waits(u, c, w.id) && !Served(u, w.id) && !Told(u, w.id))
      && (e != Cancel(c) ==> Waits(u, c, w.id) || Served(u, w.id) || Told(u, w.id))
      && !(Waits(u, c, w.id) && (Served(u, w.id) || Told(u, w.id))) && !(Served(u, w.id) && Told(u, w.id))
  {
    hide Inv, ToldOk, Step, On, Served, Told, Waits, After;
    var u := Step(s, e);
    StepInv(s, e);
    StepTold(s, e);
    NotBoth(u, w.id);
    if Waits(u, c, w.id) {
      var x := WaitsOn(u, c, w.id);
      WaitsOnly(u, c, x);
    }
    if e == Cancel(c) {
      if Waits(u, c, w.id) {
        var x := WaitsOn(u, c, w.id);
        CancelledGone(s, c, x);
      }
      WaitsOnly(s, c, w);
      CancelSilent(s, c, w.id);
    } else {
      StepGoes(s, e, c, w);
      AfterId(s, e, c, w);
      if On(u, c, After(s, e, c, w)) {
        OnWaits(u, c, After(s, e, c, w));
      }
    }
  }

  lemma CancelSilent(s: State, c: Bytes, id: nat)
    ensures Step(s, Cancel(c)).exceeded == s.exceeded && Step(s, Cancel(c)).delivered == s.delivered
    ensures Served(Step(s, Cancel(c)), id) == Served(s, id) && Told(Step(s, Cancel(c)), id) == Told(s, id)
  {
  }

  lemma NotBoth(s: State, id: nat)
    requires ToldOk(s)
    ensures !(Served(s, id) && Told(s, id))
  {
    assert NotServed(s.exceeded, s.delivered);
  }

  // ---- notices ----

  ghost predicate Asked(s: State, key: Key, w: Want) {
    On(s, key.cid, w) && !w.closed && key.sender in w.peers && key.room in w.paths
  }

  /** Bytes a data frame stands for: with the assembly it joins, if it is a chunk. */
  function FrameBytes(s: State, e: Event): nat
    requires IsData(e)
  {
    |e.data| + if e.HaveChunk? && e.key in s.assemblies then s.assemblies[e.key].bytes else 0
  }

  /** A chunk with a sound header, for the same number of chunks as those before it, that is not there yet. */
  predicate Counts(s: State, e: Event)
    requires IsData(e)
  {
    e.HaveChunk? ==>
      && 0 < e.total <= 8192 && e.index < e.total
      && (e.key in s.assemblies ==>
            var a := s.assemblies[e.key];
            a.total == e.total && (e.index < |a.chunks| ==> a.chunks[e.index].None?))
  }

  /** The frame exceeds the limit of this open registration on its path. */
  ghost predicate Overruns(s: State, e: Event, w: Want) {
    IsData(e) && Counts(s, e) && Asked(s, e.key, w) && w.limit.Some? && FrameBytes(s, e) > w.limit.value
  }

  /** The frame is the reason for this notice. */
  ghost predicate Causes(s: State, e: Event, x: Exceeded) {
    exists w :: Overruns(s, e, w) && x == Exceeded(w.id, FrameBytes(s, e))
  }

  /** After pruning and counting the frame, who listens is who was asked, and with the same limits. */
  lemma Listeners(s: State, key: Key, bytes: nat, x: Exceeded)
    ensures
      var t := Observe(Prune(s), key, false);
      (exists v :: On(t, key.cid, v) && Exceeds(v, key.sender, key.room, bytes) && x == Exceeded(v.id, bytes))
      <==> (exists w :: Asked(s, key, w) && w.limit.Some? && bytes > w.limit.value && x == Exceeded(w.id, bytes))
  {
    hide On, Prune, Observe;
    var t := Observe(Prune(s), key, false);
    forall v | On(t, key.cid, v) && Exceeds(v, key.sender, key.room, bytes) && x == Exceeded(v.id, bytes)
      ensures exists w :: Asked(s, key, w) && w.limit.Some? && bytes > w.limit.value && x == Exceeded(w.id, bytes)
    {
      var w := ListenedBefore(s, key, v);
      assert Asked(s, key, w);
    }
    forall w | Asked(s, key, w) && w.limit.Some? && bytes > w.limit.value && x == Exceeded(w.id, bytes)
      ensures exists v :: On(t, key.cid, v) && Exceeds(v, key.sender, key.room, bytes) && x == Exceeded(v.id, bytes)
    {
      PruneGoes(s, key.cid, w);
      ObserveGoes(Prune(s), key, false, key.cid, w);
      var v := if Addressed(key, key.cid, w) then w.(received := w.received + 1) else w;
      assert On(t, key.cid, v);
    }
  }

  lemma ListenedBefore(s: State, key: Key, v: Want) returns (w: Want)
    requires On(Observe(Prune(s), key, false), key.cid, v)
    ensures On(s, key.cid, w) && !w.closed
    ensures w.id == v.id && w.limit == v.limit && w.peers == v.peers && w.paths == v.paths
  {
    var t := Observe(Prune(s), key, false);
    var i :| 0 <= i < |t.pending[key.cid]| && t.pending[key.cid][i] == v;
    w := Prune(s).pending[key.cid][i];
  }

  /** What enforcing the limits adds to the notices. */
  lemma EnforceNotices(s: State, key: Key, bytes: nat, x: Exceeded)
    requires Inv(s)
    ensures
      var t := EnforceByteLimits(s, key, bytes);
      && s.exceeded <= t.exceeded
      && (x in t.exceeded[|s.exceeded|..] <==>
            exists v :: On(s, key.cid, v) && Exceeds(v, key.sender, key.room, bytes) && x == Exceeded(v.id, bytes))
  {
    if key.cid in s.pending {
      NoticesOf(s.pending[key.cid], key, bytes, s.nextAttempt);
      var notices := Notices(Keep(s.pending[key.cid], OverLimit(key.sender, key.room, bytes)), bytes);
      assert EnforceByteLimits(s, key, bytes).exceeded[|s.exceeded|..] == notices;
    }
  }

  lemma HaveNotices(s: State, e: Event, x: Exceeded)
    requires Inv(s) && e.Have?
    ensures
      && s.exceeded <= Step(s, e).exceeded
      && (x in Step(s, e).exceeded[|s.exceeded|..] <==> Causes(s, e, x))
  {
    hide Inv, On, Prune, Observe, EnforceByteLimits, Fulfill, Accepts, Exceeds;
    var key, data := e.key, e.data;
    PruneKeeps(s);
    ObserveInv(Prune(s), key, false);
    var t := Observe(Prune(s), key, false);
    ObserveSends(Prune(s), key, false);
    PruneSends(s);
    EnforceNotices(t, key, |data|, x);
    Listeners(s, key, |data|, x);
    var a := Completed(Admitted(EnforceByteLimits(t, key, |data|), |data|));
    ObserveSends(a, key, true);
    FulfillCounters(Observe(a, key, true), key, data);
    HaveCauses(s, e, x);
  }

  lemma PruneSends(s: State)
    ensures Prune(s).exceeded == s.exceeded && Prune(s).delivered == s.delivered
  {
  }

  lemma HaveCauses(s: State, e: Event, x: Exceeded)
    requires e.Have?
    ensures Causes(s, e, x) <==>
      exists w :: Asked(s, e.key, w) && w.limit.Some? && |e.data| > w.limit.value && x == Exceeded(w.id, |e.data|)
  {
    hide Asked;
    if w :| Asked(s, e.key, w) && w.limit.Some? && |e.data| > w.limit.value && x == Exceeded(w.id, |e.data|) {
      assert Overruns(s, e, w);
    }
  }

  /** A path somebody asked for is accepted, and its assembly is live. */
  lemma AskedIsAccepted(s: State, key: Key, total: nat)
    ensures
      var t := Observe(Prune(s), key, false);
      && (Accepts(t, key) <==> exists w :: Asked(s, key, w))
      && (Accepts(t, key) ==> AssemblyAt(t, key, total) == AssemblyAt(s, key, total))
  {
    var t := Observe(Prune(s), key, false);
    PruneKeepsAccepted(s, key);
    if Accepts(t, key) {
      var v :| v in t.pending[key.cid] && !v.closed && Authorises(v, key.sender, key.room);
      var i :| 0 <= i < |t.pending[key.cid]| && t.pending[key.cid][i] == v;
      assert Asked(s, key, Prune(s).pending[key.cid][i]);
    }
    if w :| Asked(s, key, w) {
      PruneGoes(s, key.cid, w);
      ObserveGoes(Prune(s), key, false, key.cid, w);
    }
  }

  lemma ChunkCauses(s: State, e: Event, x: Exceeded)
    requires e.HaveChunk?
    ensures Causes(s, e, x) <==>
      Counts(s, e)
      && exists w :: Asked(s, e.key, w) && w.limit.Some? && FrameBytes(s, e) > w.limit.value && x == Exceeded(w.id, FrameBytes(s, e))
  {
    hide Asked, Counts, FrameBytes;
    if Counts(s, e) {
      if w :| Asked(s, e.key, w) && w.limit.Some? && FrameBytes(s, e) > w.limit.value && x == Exceeded(w.id, FrameBytes(s, e)) {
        assert Overruns(s, e, w);
      }
    }
  }

  lemma ChunkNotices(s: State, e: Event, x: Exceeded)
    requires Inv(s) && e.HaveChunk?
    ensures
      && s.exceeded <= Step(s, e).exceeded
      && (x in Step(s, e).exceeded[|s.exceeded|..] <==> Causes(s, e, x))
  {
    hide Inv, On, Prune, Observe, EnforceByteLimits, StoreStep, Accepts, HasRoom, Exceeds, Asked, Causes;
    var key, data := e.key, e.data;
    PruneKeeps(s);
    ObserveInv(Prune(s), key, false);
    var t := Observe(Prune(s), key, false);
    ObserveSends(Prune(s), key, false);
    PruneSends(s);
    AskedIsAccepted(s, key, e.total);
    var bytes := AssemblyAt(t, key, e.total).bytes + |data|;
    EnforceNotices(t, key, bytes, x);
    Listeners(s, key, bytes, x);
    StoreSends(EnforceByteLimits(t, key, bytes), key, e.index, e.total, data);
    ChunkCauses(s, e, x);
  }

  lemma OtherSilent(s: State, e: Event)
    requires !IsData(e)
    ensures Step(s, e).exceeded == s.exceeded && Step(s, e).delivered == s.delivered
  {
    hide OpenPending, EditPending, Authorised, Admissible, Waiting;
  }

  /**
   An event adds a notice exactly if it is a data frame that exceeds the limit of an open registration
   on its path; the notice goes to that registration and says how many bytes there were.
   */
  lemma NoticeExactly(s: State, e: Event, x: Exceeded)
    requires Inv(s)
    ensures s.exceeded <= Step(s, e).exceeded
    ensures x in Step(s, e).exceeded[|s.exceeded|..] <==> Causes(s, e, x)
  {
    hide Inv, Step, Overruns;
    if e.Have? {
      HaveNotices(s, e, x);
    } else if e.HaveChunk? {
      ChunkNotices(s, e, x);
    } else {
      OtherSilent(s, e);
      assert !Causes(s, e, x) by { DataCauses(s, e, x); }
    }
  }

  lemma DataCauses(s: State, e: Event, x: Exceeded)
    ensures Causes(s, e, x) ==> IsData(e)
  {
  }

  ghost predicate CausedAt(s: State, events: seq<Event>, i: nat, x: Exceeded)
    requires i < |events|
  {
    Causes(Run(s, events[..i]), events[i], x)
  }

  lemma {:induction false} RunNotices(s: State, events: seq<Event>, x: Exceeded)
    requires Inv(s)
    ensures x in Run(s, events).exceeded <==>
      x in s.exceeded || exists i: nat :: i < |events| && CausedAt(s, events, i, x)
    decreases |events|
  {
    hide Inv, Step, Causes;
    if events != [] {
      var e, rest := events[0], events[1..];
      var u := Step(s, e);
      StepInv(s, e);
      NoticeExactly(s, e, x);
      RunNotices(u, rest, x);
      assert u.exceeded == s.exceeded + u.exceeded[|s.exceeded|..];
      assert events[..0] == [] && Run(s, []) == s;
      assert CausedAt(s, events, 0, x) <==> Causes(s, e, x);
      forall i: nat | i < |rest|
        ensures CausedAt(u, rest, i, x) <==> CausedAt(s, events, i + 1, x)
      {
        assert events[..i + 1][1..] == rest[..i] && events[..i + 1][0] == e;
      }
      if i: nat :| i < |rest| && CausedAt(u, rest, i, x) {
        assert CausedAt(s, events, i + 1, x);
      }
      if i: nat :| i < |events| && CausedAt(s, events, i, x) {
        assert i > 0 ==> CausedAt(u, rest, i - 1, x);
      }
    }
  }

  /**
   Over every run the notices are exactly those that some frame of the run caused; with OneOutcomeEach,
   each registration gets at most one, and then nothing else.
   */
  lemma NoticeHistory(events: seq<Event>, x: Exceeded)
    ensures x in Run(Initial, events).exceeded <==> exists i: nat :: i < |events| && CausedAt(Initial, events, i, x)
  {
    hide Run, CausedAt;
    EmptyInv();
    RunNotices(Initial, events, x);
  }

  lemma EmptyInv()
    ensures Inv(Initial) && ToldOk(Initial)
  {
  }

  /** The registration a frame overruns is told, once, and leaves. */
  lemma OverrunLeaves(s: State, e: Event, w: Want)
    requires Inv(s) && ToldOk(s) && Overruns(s, e, w)
    ensures Exceeded(w.id, FrameBytes(s, e)) in Step(s, e).exceeded
    ensures !Waits(Step(s, e), e.key.cid, w.id) && !Served(Step(s, e), w.id)
  {
    hide Inv, ToldOk, Step;
    var x := Exceeded(w.id, FrameBytes(s, e));
    NoticeExactly(s, e, x);
    var u := Step(s, e);
    assert x in u.exceeded[|s.exceeded|..];
    assert x in u.exceeded;
    assert Told(u, w.id);
    OneFate(s, e, e.key.cid, w);
  }

  // ---- what is counted, and who is admitted ----

  /** The frame raised the counter of duplicates. */
  ghost predicate Repeated(s: State, e: Event) {
    Step(s, e).counters.duplicate > s.counters.duplicate
  }

  lemma FulfillServes(s: State, key: Key, data: Bytes)
    ensures |Fulfill(s, key, data).delivered| > |s.delivered| <==> Accepts(s, key)
    ensures Fulfill(s, key, data).counters == s.counters
  {
    if key.cid in s.pending {
      var out := Keep(s.pending[key.cid], Recipient(key.sender, key.room));
      if Accepts(s, key) {
        var w :| w in s.pending[key.cid] && !w.closed && Authorises(w, key.sender, key.room);
        assert w in out;
      }
      if out != [] {
        assert out[0] in out;
      }
    }
  }

  lemma StillAccepts(s: State, key: Key, accepted: bool)
    requires Accepts(s, key)
    ensures Accepts(Observe(s, key, accepted), key)
  {
    var w :| w in s.pending[key.cid] && !w.closed && Authorises(w, key.sender, key.room);
    ObserveGoes(s, key, accepted, key.cid, w);
  }

  lemma StoreCounts(s: State, key: Key, index: nat, total: nat, data: Bytes)
    requires Accepts(s, key)
    ensures
      var t := StoreStep(s, key, index, total, data);
      var (b, a) := (s.counters, t.counters);
      && a == b.(accepted := b.accepted + 1, acceptedBytes := b.acceptedBytes + |data|,
                 completed := b.completed + if |t.delivered| > |s.delivered| then 1 else 0)
  {
    hide Accepts, Observe, Fulfill, AssemblyAt, StoreChunk, Concat;
    var a := StoreChunk(AssemblyAt(s, key, total), index, data);
    var s1 := Admitted(s.(assemblies := s.assemblies[key := a]), |data|);
    SameAccepts(s, s1, key);
    StillAccepts(s1, key, true);
    AcceptedWhen(s1, key, 0);
    ObserveSends(s1, key, true);
    var s2 := Observe(s1, key, true);
    var s3 := Completed(s2.(assemblies := s2.assemblies - {key}));
    SameAccepts(s2, s3, key);
    FulfillServes(s3, key, Concat(a.chunks));
  }

  lemma SameAccepts(s: State, t: State, key: Key)
    requires t.pending == s.pending
    ensures Accepts(t, key) == Accepts(s, key)
  {
  }

  lemma HaveCounts(s: State, e: Event)
    requires e.Have?
    ensures Telemetry(s, e)
  {
    hide Prune, Observe, EnforceByteLimits, Fulfill, Accepts;
    var key, data := e.key, e.data;
    var p := Prune(s);
    var s1 := Observe(p, key, false);
    var t := EnforceByteLimits(s1, key, |data|);
    AcceptedWhen(s, key, |data|);
    AcceptedWhen(p, key, |data|);
    AcceptedWhen(s1, key, |data|);
    PruneSends(s);
    ObserveSends(p, key, false);
    EnforceSends(s1, key, |data|);
    if |data| <= MAX_WANT_BLOCK_BYTES && Accepts(t, key) {
      var a := Completed(Admitted(t, |data|));
      SameAccepts(t, a, key);
      StillAccepts(a, key, true);
      AcceptedWhen(a, key, 0);
      ObserveSends(a, key, true);
      FulfillServes(Observe(a, key, true), key, data);
    }
  }

  lemma EnforceSends(s: State, key: Key, bytes: nat)
    ensures EnforceByteLimits(s, key, bytes).delivered == s.delivered
  {
  }

  lemma ChunkCounts(s: State, e: Event)
    requires e.HaveChunk?
    ensures Telemetry(s, e)
  {
    hide Prune, Observe, EnforceByteLimits, StoreStep, Accepts, HasRoom, HasChunk, AssemblyAt, SoundHeader;
    var key, data := e.key, e.data;
    var p := Prune(s);
    var t := Observe(p, key, false);
    var bytes := AssemblyAt(t, key, e.total).bytes + |data|;
    AcceptedWhen(s, key, 0);
    AcceptedWhen(p, key, 0);
    AcceptedWhen(t, key, bytes);
    PruneSends(s);
    ObserveSends(p, key, false);
    EnforceSends(t, key, bytes);
    var u := EnforceByteLimits(t, key, bytes);
    if Accepts(u, key) {
      StoreCounts(u, key, e.index, e.total, data);
    }
  }

  /** Bytes go with the frames they are counted for, and completions with payloads sent. */
  ghost predicate Telemetry(s: State, e: Event)
    requires IsData(e)
  {
    var (b, a) := (s.counters, Step(s, e).counters);
    && a.acceptedBytes == b.acceptedBytes + (if Accepted(s, e) then |e.data| else 0)
    && a.duplicateBytes == b.duplicateBytes + (if Repeated(s, e) then |e.data| else 0)
    && a.completed == b.completed + (if |Step(s, e).delivered| > |s.delivered| then 1 else 0)
  }

  /** What a data frame adds to the byte counters and to the completions. */
  lemma TelemetryExactly(s: State, e: Event)
    requires IsData(e)
    ensures Telemetry(s, e)
  {
    hide Telemetry;
    if e.Have? {
      HaveCounts(s, e);
    } else {
      ChunkCounts(s, e);
    }
  }

  /** Somebody asked for the path who takes a block of this size. */
  ghost predicate Takes(s: State, key: Key, bytes: nat) {
    exists w :: Asked(s, key, w) && (w.limit.Some? ==> bytes <= w.limit.value)
  }

  /** After pruning, counting the frame and enforcing the limits. */
  function Enforced(s: State, key: Key, bytes: nat): State {
    EnforceByteLimits(Observe(Prune(s), key, false), key, bytes)
  }

  lemma EnforceAccepts(s: State, key: Key, bytes: nat)
    ensures Accepts(EnforceByteLimits(s, key, bytes), key) <==>
      exists v :: On(s, key.cid, v) && !v.closed && Authorises(v, key.sender, key.room) && !Exceeds(v, key.sender, key.room, bytes)
  {
    var t := EnforceByteLimits(s, key, bytes);
    if v :| On(s, key.cid, v) && !v.closed && Authorises(v, key.sender, key.room) && !Exceeds(v, key.sender, key.room, bytes) {
      var kept := Keep(s.pending[key.cid], WithinLimit(key.sender, key.room, bytes));
      assert v in kept && v in Keep(kept, Open);
      assert v in t.pending[key.cid];
    }
  }

  lemma TakersStay(s: State, key: Key, bytes: nat)
    ensures Accepts(Enforced(s, key, bytes), key) <==> Takes(s, key, bytes)
  {
    hide On, Prune, Observe, EnforceByteLimits, Accepts;
    var t := Observe(Prune(s), key, false);
    EnforceAccepts(t, key, bytes);
    if v :| On(t, key.cid, v) && !v.closed && Authorises(v, key.sender, key.room) && !Exceeds(v, key.sender, key.room, bytes) {
      var w := ListenedBefore(s, key, v);
      assert Asked(s, key, w);
    }
    if w :| Asked(s, key, w) && (w.limit.Some? ==> bytes <= w.limit.value) {
      PruneGoes(s, key.cid, w);
      ObserveGoes(Prune(s), key, false, key.cid, w);
      var v := w.(received := w.received + 1);
      assert On(t, key.cid, v) && Authorises(v, key.sender, key.room);
    }
  }

  /** A block is accepted exactly if it has at most 8 MiB and somebody who asked for the path takes it. */
  lemma HaveOutcome(s: State, e: Event)
    requires e.Have?
    ensures Accepted(s, e) <==> |e.data| <= 8 * 1024 * 1024 && Takes(s, e.key, |e.data|)
    ensures !Repeated(s, e)
  {
    hide Prune, Observe, EnforceByteLimits, Fulfill, Accepts, Takes;
    var key, data := e.key, e.data;
    var p := Prune(s);
    var s1 := Observe(p, key, false);
    TakersStay(s, key, |data|);
    AcceptedWhen(s, key, |data|);
    AcceptedWhen(p, key, |data|);
    AcceptedWhen(s1, key, |data|);
    var a := Completed(Admitted(EnforceByteLimits(s1, key, |data|), |data|));
    AcceptedWhen(a, key, 0);
    FulfillCounters(Observe(a, key, true), key, data);
  }

  /** A chunk with a sound header of an assembly for as many chunks, which has it already. */
  predicate Present(s: State, e: Event)
    requires e.HaveChunk?
  {
    && 0 < e.total <= 8192 && e.index < e.total && e.key in s.assemblies
    && var a := s.assemblies[e.key];
       a.total == e.total && e.index < |a.chunks| && a.chunks[e.index].Some?
  }

  /**
   A chunk is a duplicate exactly if somebody open asked for the path and the chunk is there. It is
   accepted exactly if it counts, the assembly stays within 8 MiB with it, somebody who asked takes that
   much, and the registry has room: for one of 256 assemblies, and for the bytes within 64 MiB in all.
   */
  lemma ChunkOutcomes(s: State, e: Event)
    requires e.HaveChunk?
    ensures Repeated(s, e) <==> Present(s, e) && exists w :: Asked(s, e.key, w)
    ensures
      var t := Enforced(s, e.key, FrameBytes(s, e));
      Accepted(s, e) <==>
        && Counts(s, e) && FrameBytes(s, e) <= 8 * 1024 * 1024 && Takes(s, e.key, FrameBytes(s, e))
        && (e.key in t.assemblies || |t.assemblies| < 256)
        && Sum(t.assemblies, BytesOf) + |e.data| <= 64 * 1024 * 1024
  {
    hide Prune, Observe, EnforceByteLimits, StoreStep, Accepts, Takes, Asked;
    var key, data := e.key, e.data;
    var p := Prune(s);
    var t := Observe(p, key, false);
    AcceptedWhen(s, key, 0);
    AcceptedWhen(p, key, 0);
    AskedIsAccepted(s, key, e.total);
    TakersAsked(s, key, FrameBytes(s, e));
    if Accepts(t, key) {
      var bytes := AssemblyAt(t, key, e.total).bytes + |data|;
      assert bytes == FrameBytes(s, e);
      AcceptedWhen(t, key, bytes);
      TakersStay(s, key, bytes);
      StoreSends(EnforceByteLimits(t, key, bytes), key, e.index, e.total, data);
      StoreRepeats(EnforceByteLimits(t, key, bytes), key, e.index, e.total, data);
    }
  }

  lemma TakersAsked(s: State, key: Key, bytes: nat)
    ensures Takes(s, key, bytes) ==> exists w :: Asked(s, key, w)
  {
  }

  lemma StoreRepeats(s: State, key: Key, index: nat, total: nat, data: Bytes)
    ensures StoreStep(s, key, index, total, data).counters.duplicate == s.counters.duplicate
  {
    hide Observe, Fulfill, AssemblyAt, StoreChunk, Concat;
    var a := StoreChunk(AssemblyAt(s, key, total), index, data);
    var s1 := Admitted(s.(assemblies := s.assemblies[key := a]), |data|);
    AcceptedWhen(s1, key, 0);
    var s2 := Observe(s1, key, true);
    FulfillCounters(Completed(s2.(assemblies := s2.assemblies - {key})), key, Concat(a.chunks));
  }

  /**
   A registration is admitted exactly if its CID has at most 255 bytes, it names 1 to 1024 peers of at
   most 256 bytes each, and fewer than 1024 open registrations wait. It starts without a limit, and
   without paths unless it is local; the open ones go on as they were.
   */
  lemma RegisteredExactly(s: State, cid: Bytes, peers: seq<Bytes>, local: bool)
    requires Inv(s)
    ensures
      var u := Step(s, Register(cid, peers, local));
      var id := s.nextAttempt + 1;
      var w := Want(id, if local then {[]} else {}, set p | p in peers, false, None, 0, 0, 0);
      && u.nextAttempt == id
      && (On(u, cid, w) <==>
            |cid| <= 255 && 1 <= |peers| <= 1024 && (forall p <- peers :: |p| <= 256) && Sum(Prune(s).pending, Count) < 1024)
      && (Waits(u, cid, id) <==> On(u, cid, w))
      && (forall c, x :: On(s, c, x) && !x.closed ==> On(u, c, x))
  {
    hide Prune, Inv, On, RegisterStep, Admissible;
    PruneKeeps(s);
    forall c, x | On(s, c, x) && !x.closed
      ensures On(Step(s, Register(cid, peers, local)), c, x)
    {
      PruneGoes(s, c, x);
      EnrolGoes(s, cid, peers, local, c, x);
    }
    Enrolment(s, cid, peers, local);
  }

  lemma Enrolment(s: State, cid: Bytes, peers: seq<Bytes>, local: bool)
    requires Inv(Prune(s))
    ensures
      var u := Step(s, Register(cid, peers, local));
      var id := s.nextAttempt + 1;
      var w := Want(id, if local then {[]} else {}, set p | p in peers, false, None, 0, 0, 0);
      && u.nextAttempt == id
      && (On(u, cid, w) <==>
            |cid| <= 255 && 1 <= |peers| <= 1024 && (forall p <- peers :: |p| <= 256) && Sum(Prune(s).pending, Count) < 1024)
      && (Waits(u, cid, id) <==> On(u, cid, w))
  {
    hide Prune, Inv, On, Waits, Enrolled;
    var p := Prune(s);
    var next := p.(nextAttempt := s.nextAttempt + 1);
    var w := NewWant(s.nextAttempt + 1, peers, local);
    NextUnused(s, cid);
    LastIn(next, cid, w);
    if Waits(next, cid, w.id) {
      var x := WaitsOn(next, cid, w.id);
    }
    if On(next, cid, w) {
      OnWaits(next, cid, w);
    }
  }

  lemma NextUnused(s: State, cid: Bytes)
    requires Inv(Prune(s))
    ensures
      var next := Prune(s).(nextAttempt := s.nextAttempt + 1);
      !Waits(next, cid, s.nextAttempt + 1) && Prune(s).nextAttempt == s.nextAttempt
  {
    hide Inv;
    forall x | On(Prune(s), cid, x)
      ensures x.id <= s.nextAttempt
    {
      WithinNext(Prune(s), cid, x);
    }
    hide Prune;
  }

  lemma LastIn(s: State, cid: Bytes, w: Want)
    ensures On(Enrolled(s, cid, w), cid, w) && Waits(Enrolled(s, cid, w), cid, w.id)
    ensures Enrolled(s, cid, w).nextAttempt == s.nextAttempt
  {
    var t := Enrolled(s, cid, w);
    assert t.pending[cid][|t.pending[cid]| - 1] == w;
  }
}
