/** What every operation of the want registry keeps, over every run. */
module RegistryInvariant {
  import opened Common
  import opened WantModel

  ghost predicate DistinctIn(ws: seq<Want>) {
    forall i, j :: 0 <= i < j < |ws| ==> ws[i].id != ws[j].id
  }

  ghost predicate DisjointIds(ws: seq<Want>, xs: seq<Want>) {
    forall w, x | w in ws && x in xs :: w.id != x.id
  }

  /** Attempt numbers identify registrations, across CIDs too. */
  ghost predicate DistinctIds(pending: map<Bytes, seq<Want>>) {
    && (forall c | c in pending :: DistinctIn(pending[c]))
    && (forall c, d | c in pending && d in pending && c != d :: DisjointIds(pending[c], pending[d]))
  }

  ghost predicate WantOk(w: Want, next: nat) {
    && 0 < w.id <= next
    && (w.limit.Some? ==> w.limit.value <= MAX_WANT_BLOCK_BYTES)
  }

  ghost predicate ListOk(ws: seq<Want>, next: nat) {
    forall w | w in ws :: WantOk(w, next)
  }

  ghost predicate PendingOk(pending: map<Bytes, seq<Want>>, next: nat) {
    && DistinctIds(pending)
    && (forall c | c in pending :: ListOk(pending[c], next))
    && Sum(pending, Count) <= MAX_PENDING_WANTS
  }

  ghost predicate NoEmptyLists(pending: map<Bytes, seq<Want>>) {
    forall c | c in pending :: pending[c] != []
  }

  /** The cached totals are the real ones, and the assembly is still incomplete. */
  ghost predicate AssemblyOk(a: Assembly) {
    && |a.chunks| == a.total
    && 0 < a.total <= MAX_WANT_CHUNKS
    && a.bytes == |Concat(a.chunks)| <= MAX_WANT_BLOCK_BYTES
    && a.received == Present(a.chunks) < a.total
  }

  ghost predicate AssembliesOk(assemblies: map<Key, Assembly>) {
    && |assemblies| <= MAX_WANT_ASSEMBLIES
    && Sum(assemblies, BytesOf) <= MAX_WANT_ASSEMBLY_BYTES
    && (forall k | k in assemblies :: AssemblyOk(assemblies[k]))
  }

  ghost predicate AllAuthorised(s: State) {
    forall k | k in s.assemblies :: Authorised(s.pending, k)
  }

  ghost predicate DeliveryOk(d: Delivery, next: nat) {
    && d.id <= next
    && |d.data| <= MAX_WANT_BLOCK_BYTES
    && (d.limit.Some? ==> |d.data| <= d.limit.value)
  }

  ghost predicate Undelivered(ws: seq<Want>, delivered: seq<Delivery>) {
    forall w, d | w in ws && d in delivered :: w.id != d.id
  }

  /** Each registration is sent at most one payload, within its limit, and then is gone. */
  ghost predicate DeliveredOk(s: State) {
    && (forall d | d in s.delivered :: DeliveryOk(d, s.nextAttempt))
    && DistinctDeliveries(s.delivered)
    && (forall c | c in s.pending :: Undelivered(s.pending[c], s.delivered))
  }

  /** The part that also holds between the internal operations of one step. */
  ghost predicate Core(s: State) {
    && PendingOk(s.pending, s.nextAttempt)
    && AssembliesOk(s.assemblies)
    && DeliveredOk(s)
  }

  ghost predicate Inv(s: State) {
    && Core(s)
    && NoEmptyLists(s.pending)
    && AllAuthorised(s)
  }

  // ---- chunk sequences ----

  lemma {:induction false} UpdateChunk(chunks: seq<Option<Bytes>>, i: nat, data: Bytes)
    requires i < |chunks| && chunks[i].None?
    ensures |Concat(chunks[i := Some(data)])| == |Concat(chunks)| + |data|
    ensures Present(chunks[i := Some(data)]) == Present(chunks) + 1
  {
    var last := |chunks| - 1;
    var after := chunks[i := Some(data)];
    if i == last {
      assert after[..last] == chunks[..last];
    } else {
      assert after[..last] == chunks[..last][i := Some(data)];
      UpdateChunk(chunks[..last], i, data);
    }
  }

  lemma {:induction false} PresentBound(chunks: seq<Option<Bytes>>)
    ensures Present(chunks) <= |chunks|
    ensures Present(chunks) == |chunks| <==> forall i :: 0 <= i < |chunks| ==> chunks[i].Some?
  {
    if chunks != [] {
      var front := chunks[..|chunks| - 1];
      PresentBound(front);
      assert forall i :: 0 <= i < |front| ==> front[i] == chunks[i];
      if forall i :: 0 <= i < |front| ==> front[i].Some? {
        assert chunks[|chunks| - 1].Some? ==> forall i :: 0 <= i < |chunks| ==> chunks[i].Some?;
      }
    }
  }

  lemma {:induction false} EmptyTotals(n: nat)
    ensures Concat(seq(n, _ => None)) == [] && Present(seq(n, _ => None)) == 0
  {
    if n > 0 {
      var chunks: seq<Option<Bytes>> := seq(n, _ => None);
      var fewer: seq<Option<Bytes>> := seq(n - 1, _ => None);
      assert chunks[..n - 1] == fewer;
      EmptyTotals(n - 1);
    }
  }

  // ---- selections and edits keep the registrations in order ----

  lemma {:induction false} KeepDistinct(ws: seq<Want>, t: Test)
    requires DistinctIn(ws)
    ensures DistinctIn(Keep(ws, t))
  {
    if ws != [] {
      var front, last := ws[..|ws| - 1], ws[|ws| - 1];
      KeepDistinct(front, t);
      assert forall w | w in Keep(front, t) :: w in front;
      assert forall w | w in front :: w.id != last.id;
    }
  }

  ghost predicate Subset(small: map<Bytes, seq<Want>>, big: map<Bytes, seq<Want>>) {
    forall c | c in small ::
      c in big && |small[c]| <= |big[c]| && DistinctIn(small[c]) && (forall w | w in small[c] :: w in big[c])
  }

  lemma SubsetOk(small: map<Bytes, seq<Want>>, big: map<Bytes, seq<Want>>, next: nat)
    requires PendingOk(big, next) && Subset(small, big)
    ensures PendingOk(small, next)
  {
    SumShrinks(small, big, Count);
  }

  lemma KeepAtOk(pending: map<Bytes, seq<Want>>, next: nat, cid: Bytes, t: Test)
    requires PendingOk(pending, next) && cid in pending
    ensures PendingOk(pending[cid := Keep(pending[cid], t)], next)
    ensures Subset(pending[cid := Keep(pending[cid], t)], pending)
  {
    KeepDistinct(pending[cid], t);
    SubsetOk(pending[cid := Keep(pending[cid], t)], pending, next);
  }

  /** An edit changes no attempt number and keeps limits within the block bound. */
  lemma EditListOk(e: Edit, cid: Bytes, ws: seq<Want>, next: nat)
    requires ListOk(ws, next)
    ensures ListOk(EditList(e, cid, ws), next)
    ensures DistinctIn(ws) ==> DistinctIn(EditList(e, cid, ws))
    ensures forall w | w in EditList(e, cid, ws) :: exists x :: x in ws && x.id == w.id
  {
    var after := EditList(e, cid, ws);
    forall w | w in after ensures WantOk(w, next) && exists x :: x in ws && x.id == w.id {
      var i :| 0 <= i < |after| && after[i] == w;
      assert ws[i] in ws && ws[i].id == w.id;
    }
  }

  lemma EditOk(e: Edit, pending: map<Bytes, seq<Want>>, next: nat)
    requires PendingOk(pending, next)
    ensures PendingOk(EditPending(e, pending), next)
  {
    var after := EditPending(e, pending);
    SumShrinks(after, pending, Count);
    forall c | c in pending ensures DistinctIn(after[c]) && ListOk(after[c], next) {
      EditListOk(e, c, pending[c], next);
    }
    forall c, d | c in after && d in after && c != d ensures DisjointIds(after[c], after[d]) {
      EditListOk(e, c, pending[c], next);
      EditListOk(e, d, pending[d], next);
      assert DisjointIds(pending[c], pending[d]);
    }
  }

  lemma EditKeepsAuthority(e: Edit, pending: map<Bytes, seq<Want>>, key: Key)
    requires !e.DropPath? && Authorised(pending, key)
    ensures Authorised(EditPending(e, pending), key)
  {
    var w :| w in pending[key.cid] && Authorises(w, key.sender, key.room);
    var i :| 0 <= i < |pending[key.cid]| && pending[key.cid][i] == w;
    var x := EditPending(e, pending)[key.cid][i];
    assert x in EditPending(e, pending)[key.cid] && Authorises(x, key.sender, key.room);
  }

  lemma EditCore(e: Edit, s: State)
    requires Core(s)
    ensures Core(s.(pending := EditPending(e, s.pending)))
    ensures NoEmptyLists(s.pending) ==> NoEmptyLists(EditPending(e, s.pending))
    ensures !e.DropPath? && AllAuthorised(s) ==> AllAuthorised(s.(pending := EditPending(e, s.pending)))
  {
    EditOk(e, s.pending, s.nextAttempt);
    var after := EditPending(e, s.pending);
    forall c | c in after ensures Undelivered(after[c], s.delivered) {
      EditListOk(e, c, s.pending[c], s.nextAttempt);
      assert Undelivered(s.pending[c], s.delivered);
    }
    if !e.DropPath? && AllAuthorised(s) {
      forall k | k in s.assemblies ensures Authorised(after, k) {
        EditKeepsAuthority(e, s.pending, k);
      }
    }
  }

  // ---- the internal operations ----

  lemma FewerAssemblies(small: map<Key, Assembly>, big: map<Key, Assembly>)
    requires AssembliesOk(big)
    requires forall k | k in small :: k in big && small[k] == big[k]
    ensures AssembliesOk(small)
  {
    SumShrinks(small, big, BytesOf);
    SubmapSize(small, big);
  }

  lemma PruneInv(s: State)
    requires Core(s)
    ensures Inv(Prune(s))
  {
    forall c | c in s.pending { KeepDistinct(s.pending[c], Open); }
    SubsetOk(OpenPending(s.pending), s.pending, s.nextAttempt);
    FewerAssemblies(Prune(s).assemblies, s.assemblies);
  }

  lemma PruneKeeps(s: State)
    requires Inv(s)
    ensures Inv(Prune(s))
  {
    PruneInv(s);
  }

  lemma ObserveInv(s: State, key: Key, accepted: bool)
    requires Inv(s)
    ensures Inv(Observe(s, key, accepted))
  {
    EditCore(if accepted then CountAccepted(key) else CountReceived(key), s);
  }

  lemma EnforceInv(s: State, key: Key, bytes: nat)
    requires Inv(s)
    ensures Inv(EnforceByteLimits(s, key, bytes))
  {
    if key.cid in s.pending {
      var t := WithinLimit(key.sender, key.room, bytes);
      KeepAtOk(s.pending, s.nextAttempt, key.cid, t);
      PruneInv(s.(
        pending := s.pending[key.cid := Keep(s.pending[key.cid], t)],
        exceeded := EnforceByteLimits(s, key, bytes).exceeded));
    } else {
      PruneInv(s);
    }
  }

  /** No bounded registration on the path is below `bytes`. */
  ghost predicate LimitsAllow(s: State, key: Key, bytes: nat) {
    key.cid in s.pending ==> forall w | w in s.pending[key.cid] :: !Exceeds(w, key.sender, key.room, bytes)
  }

  lemma EnforceAllows(s: State, key: Key, bytes: nat)
    ensures LimitsAllow(EnforceByteLimits(s, key, bytes), key, bytes)
  {
  }

  lemma ObserveAllows(s: State, key: Key, accepted: bool, bytes: nat)
    requires LimitsAllow(s, key, bytes)
    ensures LimitsAllow(Observe(s, key, accepted), key, bytes)
  {
    var after := Observe(s, key, accepted).pending;
    if key.cid in after {
      forall w | w in after[key.cid] ensures !Exceeds(w, key.sender, key.room, bytes) {
        var i :| 0 <= i < |after[key.cid]| && after[key.cid][i] == w;
        assert s.pending[key.cid][i] in s.pending[key.cid];
      }
    }
  }

  ghost predicate DistinctDeliveries(ds: seq<Delivery>) {
    forall i, j :: 0 <= i < j < |ds| ==> ds[i].id != ds[j].id
  }

  ghost predicate SentFrom(ds: seq<Delivery>, ws: seq<Want>) {
    forall d | d in ds :: exists w :: w in ws && w.id == d.id
  }

  /** One list splits into the registrations served, each once, and the others. */
  lemma SplitDeliveries(ws: seq<Want>, key: Key, data: Bytes)
    requires DistinctIn(ws)
    ensures
      var sent := Deliveries(Keep(ws, Recipient(key.sender, key.room)), key, data);
      DistinctDeliveries(sent) && SentFrom(sent, ws)
      && Undelivered(Keep(ws, Unaddressed(key.sender, key.room)), sent)
  {
    var out := Keep(ws, Recipient(key.sender, key.room));
    var sent := Deliveries(out, key, data);
    KeepDistinct(ws, Recipient(key.sender, key.room));
    forall d | d in sent ensures exists w :: w in ws && w in out && w.id == d.id {
      var i :| 0 <= i < |sent| && sent[i] == d;
      assert out[i] in out;
    }
    KeptApart(ws, key, data);
  }

  lemma KeptApart(ws: seq<Want>, key: Key, data: Bytes)
    requires DistinctIn(ws)
    ensures Undelivered(Keep(ws, Unaddressed(key.sender, key.room)),
                        Deliveries(Keep(ws, Recipient(key.sender, key.room)), key, data))
  {
    var out := Keep(ws, Recipient(key.sender, key.room));
    var sent := Deliveries(out, key, data);
    forall d | d in sent ensures exists w :: w in ws && w in out && w.id == d.id {
      var i :| 0 <= i < |sent| && sent[i] == d;
      assert out[i] in out;
    }
  }

  lemma DeliveriesOk(ws: seq<Want>, key: Key, data: Bytes, next: nat)
    requires ListOk(ws, next) && |data| <= MAX_WANT_BLOCK_BYTES
    requires forall w | w in ws :: !Exceeds(w, key.sender, key.room, |data|)
    ensures forall d | d in Deliveries(Keep(ws, Recipient(key.sender, key.room)), key, data) :: DeliveryOk(d, next)
  {
    var out := Keep(ws, Recipient(key.sender, key.room));
    var sent := Deliveries(out, key, data);
    forall d | d in sent ensures DeliveryOk(d, next) {
      var i :| 0 <= i < |sent| && sent[i] == d;
      assert out[i] in out;
    }
  }

  lemma OthersUndelivered(xs: seq<Want>, ws: seq<Want>, sent: seq<Delivery>)
    requires DisjointIds(xs, ws) && SentFrom(sent, ws)
    ensures Undelivered(xs, sent)
  {
  }

  lemma UndeliveredConcat(ws: seq<Want>, before: seq<Delivery>, sent: seq<Delivery>)
    requires Undelivered(ws, before) && Undelivered(ws, sent)
    ensures Undelivered(ws, before + sent)
  {
  }

  lemma DistinctConcat(ws: seq<Want>, before: seq<Delivery>, sent: seq<Delivery>)
    requires Undelivered(ws, before) && SentFrom(sent, ws)
    requires DistinctDeliveries(before) && DistinctDeliveries(sent)
    ensures DistinctDeliveries(before + sent)
  {
    forall i, j | 0 <= i < |before| && 0 <= j < |sent| ensures before[i].id != sent[j].id {
      assert before[i] in before && sent[j] in sent;
      var w :| w in ws && w.id == sent[j].id;
    }
  }

  lemma FulfillDelivered(s: State, key: Key, data: Bytes)
    requires Core(s) && key.cid in s.pending
    requires |data| <= MAX_WANT_BLOCK_BYTES && LimitsAllow(s, key, |data|)
    ensures
      var ws := s.pending[key.cid];
      DeliveredOk(s.(
        pending := s.pending[key.cid := Keep(ws, Unaddressed(key.sender, key.room))],
        delivered := s.delivered + Deliveries(Keep(ws, Recipient(key.sender, key.room)), key, data)))
  {
    var ws := s.pending[key.cid];
    var kept := Keep(ws, Unaddressed(key.sender, key.room));
    var sent := Deliveries(Keep(ws, Recipient(key.sender, key.room)), key, data);
    SplitDeliveries(ws, key, data);
    DeliveriesOk(ws, key, data, s.nextAttempt);
    DistinctConcat(ws, s.delivered, sent);
    var after := s.pending[key.cid := kept];
    forall c | c in after ensures Undelivered(after[c], s.delivered + sent) {
      if c != key.cid {
        OthersUndelivered(after[c], ws, sent);
      } else {
        assert Undelivered(ws, s.delivered);
      }
      UndeliveredConcat(after[c], s.delivered, sent);
    }
  }

  lemma FulfillInv(s: State, key: Key, data: Bytes)
    requires Inv(s) && |data| <= MAX_WANT_BLOCK_BYTES && LimitsAllow(s, key, |data|)
    ensures Inv(Fulfill(s, key, data))
  {
    if key.cid in s.pending {
      var t := Unaddressed(key.sender, key.room);
      KeepAtOk(s.pending, s.nextAttempt, key.cid, t);
      FulfillDelivered(s, key, data);
      PruneInv(s.(
        pending := s.pending[key.cid := Keep(s.pending[key.cid], t)],
        delivered := Fulfill(s, key, data).delivered));
    }
  }

  // ---- the public operations ----

  /** A registration with a number above all the others. */
  lemma NewIsDisjoint(ws: seq<Want>, w: Want, xs: seq<Want>, next: nat)
    requires DisjointIds(ws, xs) && ListOk(xs, next) && next < w.id
    ensures DisjointIds(ws + [w], xs) && DisjointIds(xs, ws + [w])
  {
  }

  lemma NewIsDistinct(ws: seq<Want>, w: Want, next: nat)
    requires DistinctIn(ws) && ListOk(ws, next) && w.id == next + 1 && w.limit.None?
    ensures DistinctIn(ws + [w]) && ListOk(ws + [w], next + 1)
  {
    forall i | 0 <= i < |ws| ensures ws[i].id <= next { assert ws[i] in ws; }
    assert forall x | x in ws + [w] :: x in ws || x == w;
  }

  lemma NewIsUndelivered(ws: seq<Want>, w: Want, delivered: seq<Delivery>)
    requires Undelivered(ws, delivered) && forall d | d in delivered :: d.id < w.id
    ensures Undelivered(ws + [w], delivered)
  {
  }

  lemma RegisterPending(s: State, cid: Bytes, w: Want)
    requires PendingOk(s.pending, s.nextAttempt) && w.id == s.nextAttempt + 1 && w.limit.None?
    requires Sum(s.pending, Count) < MAX_PENDING_WANTS
    ensures PendingOk(s.pending[cid := Waiting(s.pending, cid) + [w]], s.nextAttempt + 1)
  {
    var ws := Waiting(s.pending, cid);
    var after := s.pending[cid := ws + [w]];
    SumUpdate(s.pending, Count, cid, ws + [w]);
    NewIsDistinct(ws, w, s.nextAttempt);
    forall c | c in after ensures ListOk(after[c], s.nextAttempt + 1) && DistinctIn(after[c]) {
      assert c != cid ==> ListOk(s.pending[c], s.nextAttempt);
    }
    forall c | c in s.pending && c != cid
      ensures DisjointIds(after[c], after[cid]) && DisjointIds(after[cid], after[c])
    {
      NewIsDisjoint(ws, w, s.pending[c], s.nextAttempt);
    }
  }

  lemma EnrolInv(s: State, cid: Bytes, w: Want)
    requires Inv(s) && Sum(s.pending, Count) < MAX_PENDING_WANTS
    requires w.id == s.nextAttempt + 1 && w.limit.None?
    ensures Inv(Enrolled(s.(nextAttempt := w.id), cid, w))
  {
    hide PendingOk, DisjointIds, ListOk, AssemblyOk;
    RegisterPending(s, cid, w);
    var after := s.pending[cid := Waiting(s.pending, cid) + [w]];
    NewIsUndelivered(Waiting(s.pending, cid), w, s.delivered);
    forall k | k in s.assemblies ensures Authorised(after, k) {
      var x :| x in s.pending[k.cid] && Authorises(x, k.sender, k.room);
      assert x in after[k.cid];
    }
  }

  lemma SkipNumber(s: State)
    requires Inv(s)
    ensures Inv(s.(nextAttempt := s.nextAttempt + 1))
  {
    forall c | c in s.pending ensures ListOk(s.pending[c], s.nextAttempt + 1) {
      assert ListOk(s.pending[c], s.nextAttempt);
    }
  }

  lemma RegisterInv(s0: State, cid: Bytes, peers: seq<Bytes>, local: bool)
    requires Inv(s0)
    ensures Inv(RegisterStep(s0, cid, peers, local))
  {
    hide Inv, Prune, Enrolled;
    PruneKeeps(s0);
    var s := Prune(s0);
    SkipNumber(s);
    if Admissible(s, cid, peers) {
      EnrolInv(s, cid, NewWant(s.nextAttempt + 1, peers, local));
    }
  }

  lemma HaveInv(s0: State, key: Key, data: Bytes)
    requires Inv(s0)
    ensures Inv(HaveStep(s0, key, data))
  {
    PruneInv(s0);
    ObserveInv(Prune(s0), key, false);
    EnforceInv(Observe(Prune(s0), key, false), key, |data|);
    EnforceAllows(Observe(Prune(s0), key, false), key, |data|);
    var s := EnforceByteLimits(Observe(Prune(s0), key, false), key, |data|);
    if |data| <= MAX_WANT_BLOCK_BYTES && Accepts(s, key) {
      var s1 := Completed(Admitted(s, |data|));
      ObserveInv(s1, key, true);
      ObserveAllows(s1, key, true, |data|);
      FulfillInv(Observe(s1, key, true), key, data);
    }
  }

  lemma StoreChunkOk(a: Assembly, index: nat, data: Bytes)
    requires |a.chunks| == a.total && a.bytes == |Concat(a.chunks)| && a.received == Present(a.chunks)
    requires index < a.total && !HasChunk(a, index)
    ensures
      var b := StoreChunk(a, index, data);
      |b.chunks| == b.total == a.total
      && b.bytes == |Concat(b.chunks)| == a.bytes + |data|
      && b.received == Present(b.chunks) <= b.total
  {
    UpdateChunk(a.chunks, index, data);
    PresentBound(StoreChunk(a, index, data).chunks);
  }

  ghost predicate Storable(s: State, key: Key, index: nat, total: nat, data: Bytes) {
    && 0 < total <= MAX_WANT_CHUNKS
    && index < total
    && Accepts(s, key)
    && AssemblyAt(s, key, total).total == total
    && !HasChunk(AssemblyAt(s, key, total), index)
    && AssemblyAt(s, key, total).bytes + |data| <= MAX_WANT_BLOCK_BYTES
    && HasRoom(s, key, |data|)
    && LimitsAllow(s, key, AssemblyAt(s, key, total).bytes + |data|)
  }

  /** The assembly after storing: its totals are the real ones, with the new chunk counted. */
  lemma StoredAssembly(s: State, key: Key, index: nat, total: nat, data: Bytes)
    requires Inv(s) && Storable(s, key, index, total, data)
    ensures
      var a := StoreChunk(AssemblyAt(s, key, total), index, data);
      |a.chunks| == a.total == total
      && a.bytes == |Concat(a.chunks)| == AssemblyAt(s, key, total).bytes + |data|
      && a.received == Present(a.chunks) <= a.total
  {
    EmptyTotals(total);
    StoreChunkOk(AssemblyAt(s, key, total), index, data);
  }

  lemma AddedAssembly(assemblies: map<Key, Assembly>, key: Key, a: Assembly)
    requires AssembliesOk(assemblies) && AssemblyOk(a)
    requires key in assemblies || |assemblies| < MAX_WANT_ASSEMBLIES
    requires Sum(assemblies[key := a], BytesOf) <= MAX_WANT_ASSEMBLY_BYTES
    ensures AssembliesOk(assemblies[key := a])
  {
    UpdateSize(assemblies, key, a);
  }

  function Dropped(s: State, key: Key, bytes: nat): State {
    Completed(Admitted(s.(assemblies := s.assemblies - {key}), bytes))
  }

  lemma DroppedInv(s: State, key: Key, bytes: nat, limit: nat)
    requires Inv(s) && LimitsAllow(s, key, limit)
    ensures Inv(Dropped(s, key, bytes)) && LimitsAllow(Dropped(s, key, bytes), key, limit)
  {
    FewerAssemblies(s.assemblies - {key}, s.assemblies);
  }

  lemma CompletionOrder(s: State, key: Key, a: Assembly, bytes: nat)
    ensures CompleteStep(Observe(Admitted(s.(assemblies := s.assemblies[key := a]), bytes), key, true), key, a)
         == Fulfill(Observe(Dropped(s, key, bytes), key, true), key, Concat(a.chunks))
  {
    assert (s.assemblies[key := a]) - {key} == s.assemblies - {key};
  }

  lemma StoreLastInv(s: State, key: Key, a: Assembly, bytes: nat)
    requires Inv(s) && LimitsAllow(s, key, |Concat(a.chunks)|) && |Concat(a.chunks)| <= MAX_WANT_BLOCK_BYTES
    ensures Inv(CompleteStep(Observe(Admitted(s.(assemblies := s.assemblies[key := a]), bytes), key, true), key, a))
  {
    hide Inv, LimitsAllow, Concat, Fulfill, Observe, Dropped, CompleteStep;
    CompletionOrder(s, key, a, bytes);
    DroppedInv(s, key, bytes, |Concat(a.chunks)|);
    ObserveInv(Dropped(s, key, bytes), key, true);
    ObserveAllows(Dropped(s, key, bytes), key, true, |Concat(a.chunks)|);
    FulfillInv(Observe(Dropped(s, key, bytes), key, true), key, Concat(a.chunks));
  }

  lemma StoreMoreInv(s: State, key: Key, a: Assembly, bytes: nat)
    requires Inv(s) && Accepts(s, key) && AssemblyOk(a)
    requires key in s.assemblies || |s.assemblies| < MAX_WANT_ASSEMBLIES
    requires Sum(s.assemblies[key := a], BytesOf) <= MAX_WANT_ASSEMBLY_BYTES
    ensures Inv(Observe(Admitted(s.(assemblies := s.assemblies[key := a]), bytes), key, true))
  {
    assert Authorised(s.pending, key);
    AddedAssembly(s.assemblies, key, a);
    ObserveInv(Admitted(s.(assemblies := s.assemblies[key := a]), bytes), key, true);
  }

  lemma StoreInv(s: State, key: Key, index: nat, total: nat, data: Bytes)
    requires Inv(s) && Storable(s, key, index, total, data)
    ensures Inv(StoreStep(s, key, index, total, data))
  {
    hide Inv, Observe, CompleteStep, LimitsAllow, Accepts, HasChunk, StoreChunk, Concat, Present;
    StoredAssembly(s, key, index, total, data);
    var a := StoreChunk(AssemblyAt(s, key, total), index, data);
    if a.received == a.total {
      StoreLastInv(s, key, a, |data|);
    } else {
      SumUpdate(s.assemblies, BytesOf, key, a);
      StoreMoreInv(s, key, a, |data|);
    }
  }

  /** An enforcement that leaves a path accepted leaves its assembly in place. */
  lemma EnforceKeepsAssembly(s: State, key: Key, bytes: nat)
    requires Inv(s) && Accepts(EnforceByteLimits(s, key, bytes), key)
    ensures AssemblyAt(EnforceByteLimits(s, key, bytes), key, 0) == AssemblyAt(s, key, 0)
    ensures key in EnforceByteLimits(s, key, bytes).assemblies <==> key in s.assemblies
  {
  }

  lemma AdmitInv(s: State, key: Key, index: nat, total: nat, data: Bytes)
    requires Inv(s) && SoundHeader(index, total)
    requires AssemblyAt(s, key, total).total == total && !HasChunk(AssemblyAt(s, key, total), index)
    ensures Inv(AdmitStep(s, key, index, total, data))
  {
    hide Inv, EnforceByteLimits, StoreStep, Accepts, LimitsAllow, HasChunk;
    var bytes := AssemblyAt(s, key, total).bytes + |data|;
    EnforceInv(s, key, bytes);
    EnforceAllows(s, key, bytes);
    var s1 := EnforceByteLimits(s, key, bytes);
    CountersFree(s1, 0);
    if Accepts(s1, key) && bytes <= MAX_WANT_BLOCK_BYTES && HasRoom(s1, key, |data|) {
      EnforceKeepsAssembly(s, key, bytes);
      assert AssemblyAt(s1, key, total) == AssemblyAt(s, key, total);
      StoreInv(s1, key, index, total, data);
    }
  }

  lemma ChunkInv(s0: State, key: Key, index: nat, total: nat, data: Bytes)
    requires Inv(s0)
    ensures Inv(ChunkStep(s0, key, index, total, data))
  {
    hide Inv, Prune, Observe, AdmitStep, Accepts, HasChunk, SoundHeader, AssemblyAt;
    PruneKeeps(s0);
    ObserveInv(Prune(s0), key, false);
    var s := Observe(Prune(s0), key, false);
    var a := AssemblyAt(s, key, total);
    CountersFree(s, 0);
    CountersFree(s, |data|);
    if SoundHeader(index, total) && Accepts(s, key) && a.total == total && !HasChunk(a, index) {
      AdmitInv(s, key, index, total, data);
    }
  }

  /** The invariant says nothing about the telemetry. */
  lemma CountersFree(s: State, bytes: nat)
    requires Inv(s)
    ensures Inv(Rejected(s)) && Inv(Duplicated(s, bytes)) && Inv(Admitted(s, bytes)) && Inv(Completed(s))
  {
  }

  lemma ResetInv(s0: State, from: Option<Bytes>, room: Bytes)
    requires Inv(s0)
    ensures Inv(ResetStep(s0, from, room))
  {
    PruneInv(s0);
    var s := Prune(s0);
    var kept := s.(assemblies := ResetStep(s0, from, room).assemblies);
    FewerAssemblies(kept.assemblies, s.assemblies);
    EditCore(NoteReset(from, room), kept);
  }

  lemma CancelInv(s: State, cid: Bytes)
    requires Inv(s)
    ensures Inv(CancelStep(s, cid))
  {
    SubsetOk(s.pending - {cid}, s.pending, s.nextAttempt);
    var fewer := map k | k in s.assemblies && k.cid != cid :: s.assemblies[k];
    FewerAssemblies(fewer, s.assemblies);
    PruneInv(s.(pending := s.pending - {cid}, assemblies := fewer));
  }

  lemma EditInv(e: Edit, s: State)
    requires Inv(s) && !e.DropPath?
    ensures Inv(s.(pending := EditPending(e, s.pending)))
  {
    EditCore(e, s);
  }

  lemma UntrackInv(s: State, id: nat, room: Bytes)
    requires Inv(s)
    ensures Inv(Prune(s.(pending := EditPending(DropPath(id, room), s.pending))))
  {
    EditCore(DropPath(id, room), s);
    PruneInv(s.(pending := EditPending(DropPath(id, room), s.pending)));
  }

  lemma StepInv(s: State, e: Event)
    requires Inv(s)
    ensures Inv(Step(s, e))
  {
    hide Inv, Prune, EditPending, RegisterStep, HaveStep, ChunkStep, ResetStep, CancelStep;
    match e
    case Register(cid, peers, local) => RegisterInv(s, cid, peers, local);
    case InstallLimit(id, bytes) => EditInv(SetLimit(id, bytes), s);
    case TrackPath(id, room) => EditInv(AddPath(id, room), s);
    case UntrackPath(id, room) => UntrackInv(s, id, room);
    case ReceiverCloses(id) => EditInv(CloseReceiver(id), s);
    case Have(key, data) => HaveInv(s, key, data);
    case HaveChunk(key, index, total, data) => ChunkInv(s, key, index, total, data);
    case ResetPath(from, room) => ResetInv(s, from, room);
    case CancelClosed => PruneKeeps(s);
    case Cancel(cid) => CancelInv(s, cid);
  }

  lemma {:induction false} RunInv(s: State, events: seq<Event>)
    requires Inv(s)
    ensures Inv(Run(s, events))
    decreases |events|
  {
    hide Inv, Step;
    if events != [] {
      StepInv(s, events[0]);
      RunInv(Step(s, events[0]), events[1..]);
    }
  }

  /** The registry's bounds and bookkeeping hold after every run from a new registry. */
  lemma RegistryInvariant(events: seq<Event>)
    ensures Inv(Run(Initial, events))
  {
    RunInv(Initial, events);
  }
}
