/**
 What becomes of a registration: how each event changes it, which event ends it and how, and what its
 caller is told, over every run of the registry.
 */
module RegistryFates {
  import opened Common
  import opened WantModel
  import opened RegistryInvariant
  import opened RegistryProperties

  // ---- outcomes ----

  ghost predicate Waits(s: State, c: Bytes, id: nat) {
    c in s.pending && exists w :: w in s.pending[c] && w.id == id
  }

  /** A payload was sent to the attempt. */
  ghost predicate Served(s: State, id: nat) {
    exists d :: d in s.delivered && d.id == id
  }

  /** The attempt was told of an excess. */
  ghost predicate Told(s: State, id: nat) {
    exists x :: x in s.exceeded && x.id == id
  }

  ghost predicate Untold(ws: seq<Want>, exceeded: seq<Exceeded>) {
    forall w <- ws, x <- exceeded :: w.id != x.id
  }

  ghost predicate Numbered(exceeded: seq<Exceeded>, next: nat) {
    && (forall x <- exceeded :: x.id <= next)
    && forall i, j :: 0 <= i < j < |exceeded| ==> exceeded[i].id != exceeded[j].id
  }

  ghost predicate NotServed(exceeded: seq<Exceeded>, delivered: seq<Delivery>) {
    forall x <- exceeded, d <- delivered :: x.id != d.id
  }

  /** No attempt is told twice, or told and served, or told while it waits. */
  ghost predicate ToldOk(s: State) {
    && Numbered(s.exceeded, s.nextAttempt)
    && NotServed(s.exceeded, s.delivered)
    && forall c <- s.pending :: Untold(s.pending[c], s.exceeded)
  }

  /** Fewer registrations, nothing sent. */
  lemma FewerTold(s: State, t: State)
    requires ToldOk(s) && t.exceeded == s.exceeded && t.delivered == s.delivered && t.nextAttempt >= s.nextAttempt
    requires forall c <- t.pending :: forall w <- t.pending[c] ::
               w.id > s.nextAttempt || (c in s.pending && exists x :: x in s.pending[c] && x.id == w.id)
    ensures ToldOk(t)
  {
    forall c | c in t.pending
      ensures Untold(t.pending[c], t.exceeded)
    {
      assert c in s.pending ==> Untold(s.pending[c], s.exceeded);
    }
  }

  lemma PruneTold(s: State)
    requires ToldOk(s)
    ensures ToldOk(Prune(s))
  {
    FewerTold(s, Prune(s));
  }

  lemma EditTold(e: Edit, s: State)
    requires ToldOk(s)
    ensures ToldOk(s.(pending := EditPending(e, s.pending)))
  {
    var t := s.(pending := EditPending(e, s.pending));
    forall c, w | c in t.pending && w in t.pending[c]
      ensures exists x :: x in s.pending[c] && x.id == w.id
    {
      var i :| 0 <= i < |t.pending[c]| && t.pending[c][i] == w;
      assert s.pending[c][i] in s.pending[c];
    }
    FewerTold(s, t);
  }

  lemma ObserveTold(s: State, key: Key, accepted: bool)
    requires ToldOk(s)
    ensures ToldOk(Observe(s, key, accepted))
  {
    EditTold(if accepted then CountAccepted(key) else CountReceived(key), s);
  }

  /** The notices of a list: one for each registration over its limit, which is then not kept. */
  lemma NoticesOf(ws: seq<Want>, key: Key, bytes: nat, next: nat)
    requires DistinctIn(ws) && ListOk(ws, next)
    ensures
      var gone := Keep(ws, OverLimit(key.sender, key.room, bytes));
      var kept := Keep(ws, WithinLimit(key.sender, key.room, bytes));
      var notices := Notices(gone, bytes);
      && Numbered(notices, next) && Untold(kept, notices)
      && (forall x <- notices :: exists w :: w in ws && w.id == x.id)
      && (forall x :: x in notices <==>
            exists w :: w in ws && Exceeds(w, key.sender, key.room, bytes) && x == Exceeded(w.id, bytes))
  {
    var gone := Keep(ws, OverLimit(key.sender, key.room, bytes));
    var notices := Notices(gone, bytes);
    KeepDistinct(ws, OverLimit(key.sender, key.room, bytes));
    forall x | x in notices
      ensures exists w :: w in gone && w in ws && Exceeds(w, key.sender, key.room, bytes) && x == Exceeded(w.id, bytes)
    {
      var i :| 0 <= i < |notices| && notices[i] == x;
      assert gone[i] in gone;
    }
    forall w | w in ws && Exceeds(w, key.sender, key.room, bytes)
      ensures Exceeded(w.id, bytes) in notices
    {
      var i :| 0 <= i < |gone| && gone[i] == w;
      assert notices[i] == Exceeded(w.id, bytes);
    }
    NoticesApart(ws, key, bytes);
  }

  lemma NoticesApart(ws: seq<Want>, key: Key, bytes: nat)
    requires DistinctIn(ws)
    ensures Untold(Keep(ws, WithinLimit(key.sender, key.room, bytes)),
                   Notices(Keep(ws, OverLimit(key.sender, key.room, bytes)), bytes))
  {
    var gone := Keep(ws, OverLimit(key.sender, key.room, bytes));
    var notices := Notices(gone, bytes);
    forall x | x in notices
      ensures exists w :: w in ws && w in gone && w.id == x.id
    {
      var i :| 0 <= i < |notices| && notices[i] == x;
      assert gone[i] in gone;
    }
  }

  lemma MoreNotices(ws: seq<Want>, before: seq<Exceeded>, notices: seq<Exceeded>, delivered: seq<Delivery>, next: nat)
    requires Numbered(before, next) && Numbered(notices, next) && NotServed(before, delivered)
    requires Untold(ws, before) && Undelivered(ws, delivered)
    requires forall x <- notices :: exists w :: w in ws && w.id == x.id
    ensures Numbered(before + notices, next) && NotServed(before + notices, delivered)
  {
    forall i, j | 0 <= i < |before| && 0 <= j < |notices|
      ensures before[i].id != notices[j].id
    {
      assert before[i] in before && notices[j] in notices;
    }
  }

  lemma OthersUntold(xs: seq<Want>, ws: seq<Want>, notices: seq<Exceeded>)
    requires DisjointIds(xs, ws) && forall x <- notices :: exists w :: w in ws && w.id == x.id
    ensures Untold(xs, notices)
  {
  }

  lemma UntoldConcat(ws: seq<Want>, before: seq<Exceeded>, notices: seq<Exceeded>)
    requires Untold(ws, before) && Untold(ws, notices)
    ensures Untold(ws, before + notices)
  {
  }

  lemma EnforceTold(s: State, key: Key, bytes: nat)
    requires Inv(s) && ToldOk(s)
    ensures ToldOk(EnforceByteLimits(s, key, bytes))
  {
    hide Keep, AssembliesOk, AllAuthorised, Notices, DistinctIn, ListOk;
    if key.cid in s.pending {
      var ws := s.pending[key.cid];
      var kept := Keep(ws, WithinLimit(key.sender, key.room, bytes));
      var notices := Notices(Keep(ws, OverLimit(key.sender, key.room, bytes)), bytes);
      NoticesOf(ws, key, bytes, s.nextAttempt);
      MoreNotices(ws, s.exceeded, notices, s.delivered, s.nextAttempt);
      var t := s.(pending := s.pending[key.cid := kept], exceeded := s.exceeded + notices);
      forall c | c in t.pending
        ensures Untold(t.pending[c], t.exceeded)
      {
        assert Untold(s.pending[c], s.exceeded);
        if c != key.cid {
          OthersUntold(s.pending[c], ws, notices);
        }
        UntoldConcat(t.pending[c], s.exceeded, notices);
      }
      PruneTold(t);
    } else {
      PruneTold(s);
    }
  }

  lemma ServedUntold(ws: seq<Want>, key: Key, data: Bytes, exceeded: seq<Exceeded>)
    requires DistinctIn(ws) && Untold(ws, exceeded)
    ensures NotServed(exceeded, Deliveries(Keep(ws, Recipient(key.sender, key.room)), key, data))
  {
    var sent := Deliveries(Keep(ws, Recipient(key.sender, key.room)), key, data);
    SplitDeliveries(ws, key, data);
    assert SentFrom(sent, ws);
  }

  lemma FulfillTold(s: State, key: Key, data: Bytes)
    requires Inv(s) && ToldOk(s)
    ensures ToldOk(Fulfill(s, key, data))
  {
    hide AssembliesOk, AllAuthorised, Deliveries, ListOk;
    if key.cid in s.pending {
      var ws := s.pending[key.cid];
      var sent := Deliveries(Keep(ws, Recipient(key.sender, key.room)), key, data);
      ServedUntold(ws, key, data, s.exceeded);
      var t := s.(pending := s.pending[key.cid := Keep(ws, Unaddressed(key.sender, key.room))]);
      FewerTold(s, t);
      PruneTold(t.(delivered := s.delivered + sent));
    }
  }

  lemma SameTold(s: State, t: State)
    requires ToldOk(s) && t.pending == s.pending && t.exceeded == s.exceeded && t.delivered == s.delivered
    requires t.nextAttempt == s.nextAttempt
    ensures ToldOk(t)
  {
  }

  lemma HaveTold(s0: State, key: Key, data: Bytes)
    requires Inv(s0) && ToldOk(s0)
    ensures ToldOk(HaveStep(s0, key, data))
  {
    hide Inv, ToldOk, Prune, Observe, EnforceByteLimits, Accepts, Fulfill;
    PruneKeeps(s0);
    PruneTold(s0);
    var p := Prune(s0);
    ObserveInv(p, key, false);
    ObserveTold(p, key, false);
    var s1 := Observe(p, key, false);
    EnforceInv(s1, key, |data|);
    EnforceTold(s1, key, |data|);
    var s := EnforceByteLimits(s1, key, |data|);
    SameTold(s, Rejected(s));
    var s2 := Completed(Admitted(s, |data|));
    SameTold(s, s2);
    CountersFree(s, |data|);
    CountersFree(Admitted(s, |data|), 0);
    ObserveInv(s2, key, true);
    ObserveTold(s2, key, true);
    FulfillTold(Observe(s2, key, true), key, data);
  }

  lemma StoreTold(s: State, key: Key, index: nat, total: nat, data: Bytes)
    requires Inv(s) && ToldOk(s) && Storable(s, key, index, total, data)
    ensures ToldOk(StoreStep(s, key, index, total, data))
  {
    hide Inv, ToldOk, Observe, LimitsAllow, Accepts, HasChunk, StoreChunk, Concat, Fulfill;
    var a := StoreChunk(AssemblyAt(s, key, total), index, data);
    var s1 := Admitted(s.(assemblies := s.assemblies[key := a]), |data|);
    SameTold(s, s1);
    ObserveTold(s1, key, true);
    if a.received == a.total {
      var dropped := Dropped(s, key, |data|);
      CompletionOrder(s, key, a, |data|);
      StoredAssembly(s, key, index, total, data);
      DroppedInv(s, key, |data|, AssemblyAt(s, key, total).bytes + |data|);
      SameTold(s, dropped);
      ObserveInv(dropped, key, true);
      ObserveTold(dropped, key, true);
      FulfillTold(Observe(dropped, key, true), key, Concat(a.chunks));
    }
  }

  lemma AdmitTold(s: State, key: Key, index: nat, total: nat, data: Bytes)
    requires Inv(s) && ToldOk(s) && SoundHeader(index, total)
    requires AssemblyAt(s, key, total).total == total && !HasChunk(AssemblyAt(s, key, total), index)
    ensures ToldOk(AdmitStep(s, key, index, total, data))
  {
    hide Inv, ToldOk, EnforceByteLimits, StoreStep, Accepts, LimitsAllow, HasChunk;
    var bytes := AssemblyAt(s, key, total).bytes + |data|;
    EnforceInv(s, key, bytes);
    EnforceAllows(s, key, bytes);
    EnforceTold(s, key, bytes);
    var s1 := EnforceByteLimits(s, key, bytes);
    SameTold(s1, Rejected(s1));
    if Accepts(s1, key) && bytes <= MAX_WANT_BLOCK_BYTES && HasRoom(s1, key, |data|) {
      EnforceKeepsAssembly(s, key, bytes);
      assert AssemblyAt(s1, key, total) == AssemblyAt(s, key, total);
      StoreTold(s1, key, index, total, data);
    }
  }

  lemma ChunkTold(s0: State, key: Key, index: nat, total: nat, data: Bytes)
    requires Inv(s0) && ToldOk(s0)
    ensures ToldOk(ChunkStep(s0, key, index, total, data))
  {
    hide Inv, ToldOk, Prune, Observe, AdmitStep, Accepts, HasChunk, SoundHeader, AssemblyAt;
    PruneKeeps(s0);
    PruneTold(s0);
    ObserveInv(Prune(s0), key, false);
    ObserveTold(Prune(s0), key, false);
    var s := Observe(Prune(s0), key, false);
    SameTold(s, Rejected(s));
    SameTold(s, Duplicated(s, |data|));
    if SoundHeader(index, total) && AssemblyAt(s, key, total).total == total && !HasChunk(AssemblyAt(s, key, total), index) {
      AdmitTold(s, key, index, total, data);
    }
  }

  lemma RegisterTold(s0: State, cid: Bytes, peers: seq<Bytes>, local: bool)
    requires Inv(s0) && ToldOk(s0)
    ensures ToldOk(RegisterStep(s0, cid, peers, local))
  {
    hide Prune, Inv, Admissible;
    PruneTold(s0);
    FewerTold(Prune(s0), RegisterStep(s0, cid, peers, local));
  }

  lemma StepTold(s: State, e: Event)
    requires Inv(s) && ToldOk(s)
    ensures ToldOk(Step(s, e))
  {
    hide Inv, ToldOk, Prune, EditPending, RegisterStep, HaveStep, ChunkStep;
    match e
    case Register(cid, peers, local) => RegisterTold(s, cid, peers, local);
    case InstallLimit(id, bytes) => EditTold(SetLimit(id, bytes), s);
    case TrackPath(id, room) => EditTold(AddPath(id, room), s);
    case UntrackPath(id, room) =>
      EditTold(DropPath(id, room), s);
      PruneTold(s.(pending := EditPending(DropPath(id, room), s.pending)));
    case ReceiverCloses(id) => EditTold(CloseReceiver(id), s);
    case Have(key, data) => HaveTold(s, key, data);
    case HaveChunk(key, index, total, data) => ChunkTold(s, key, index, total, data);
    case ResetPath(from, room) =>
      PruneTold(s);
      var kept := Prune(s).(assemblies := ResetStep(s, from, room).assemblies);
      SameTold(Prune(s), kept);
      EditTold(NoteReset(from, room), kept);
    case CancelClosed => PruneTold(s);
    case Cancel(cid) =>
      CancelTold(s, cid);
  }

  lemma CancelTold(s: State, cid: Bytes)
    requires ToldOk(s)
    ensures ToldOk(CancelStep(s, cid))
  {
    var t := s.(pending := s.pending - {cid}, assemblies := map k | k in s.assemblies && k.cid != cid :: s.assemblies[k]);
    FewerTold(s, t);
    PruneTold(t);
  }

  lemma {:induction false} RunTold(s: State, events: seq<Event>)
    requires Inv(s) && ToldOk(s)
    ensures ToldOk(Run(s, events)) && Inv(Run(s, events))
    decreases |events|
  {
    hide Inv, ToldOk, Step;
    if events != [] {
      StepInv(s, events[0]);
      StepTold(s, events[0]);
      RunTold(Step(s, events[0]), events[1..]);
    }
  }

  /** In every run no attempt is sent two payloads, told twice, or both; and neither while it waits. */
  lemma OneOutcomeEach(events: seq<Event>)
    ensures ToldOk(Run(Initial, events)) && DistinctDeliveries(Run(Initial, events).delivered)
    ensures forall c, id: nat | Waits(Run(Initial, events), c, id) ::
              !Served(Run(Initial, events), id) && !Told(Run(Initial, events), id)
  {
    hide Run;
    RunTold(Initial, events);
    var s := Run(Initial, events);
    forall c, id: nat | Waits(s, c, id)
      ensures !Served(s, id) && !Told(s, id)
    {
      assert Untold(s.pending[c], s.exceeded) && Undelivered(s.pending[c], s.delivered);
    }
  }
}
