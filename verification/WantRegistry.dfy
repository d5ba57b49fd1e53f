/** The want registry itself: in-place tables and loops, each operation proved to be one model step. */
module WantRegistryImpl {
  import opened Common
  import opened WantModel
  import opened RegistryInvariant

  lemma KeepNext(ws: seq<Want>, j: nat, t: Test)
    requires j < |ws|
    ensures Keep(ws[..j + 1], t) == if Keeps(t, ws[j]) then Keep(ws[..j], t) + [ws[j]] else Keep(ws[..j], t)
  {
    assert ws[..j + 1][..j] == ws[..j];
  }

  lemma ConcatNext(chunks: seq<Option<Bytes>>, j: nat)
    requires j < |chunks|
    ensures Concat(chunks[..j + 1]) == Concat(chunks[..j]) + Contents(chunks[j])
  {
    assert chunks[..j + 1][..j] == chunks[..j];
  }

  predicate Names(e: Edit, id: nat) {
    (e.AddPath? || e.DropPath? || e.SetLimit?) && e.id == id
  }

  lemma EditOther(e: Edit, c: Bytes, ws: seq<Want>, id: nat)
    requires Names(e, id) && forall j :: 0 <= j < |ws| ==> ws[j].id != id
    ensures EditList(e, c, ws) == ws
  {
  }

  lemma EditWithin(e: Edit, c: Bytes, ws: seq<Want>, id: nat, i: nat)
    requires Names(e, id) && DistinctIn(ws) && i < |ws| && ws[i].id == id
    ensures EditList(e, c, ws) == ws[i := Edited(e, c, ws[i])]
  {
  }

  /** With distinct attempt numbers, editing the one registration found is editing them all. */
  lemma EditOne(e: Edit, pending: map<Bytes, seq<Want>>, id: nat, c: Bytes, i: nat)
    requires DistinctIds(pending) && c in pending && i < |pending[c]| && pending[c][i].id == id
    requires Names(e, id)
    ensures pending[c := pending[c][i := Edited(e, c, pending[c][i])]] == EditPending(e, pending)
  {
    hide EditList, Edited, Names;
    EditWithin(e, c, pending[c], id, i);
    forall d | d in pending && d != c
      ensures EditList(e, d, pending[d]) == pending[d]
    {
      assert DisjointIds(pending[c], pending[d]);
      forall j | 0 <= j < |pending[d]|
        ensures pending[d][j].id != id
      {
        assert pending[c][i] in pending[c] && pending[d][j] in pending[d];
      }
      EditOther(e, d, pending[d], id);
    }
  }

  lemma EditNone(e: Edit, pending: map<Bytes, seq<Want>>)
    requires e.AddPath? || e.DropPath? || e.SetLimit?
    requires forall c, i | c in pending && 0 <= i < |pending[c]| :: pending[c][i].id != e.id
    ensures EditPending(e, pending) == pending
  {
    forall c | c in pending ensures EditList(e, c, pending[c]) == pending[c] {
    }
  }

  lemma NoNotices(bytes: nat)
    ensures Notices([], bytes) == []
  {
  }

  lemma NoDeliveries(key: Key, data: Bytes)
    ensures Deliveries([], key, data) == []
  {
  }

  lemma NoticesNext(ws: seq<Want>, w: Want, bytes: nat)
    ensures Notices(ws + [w], bytes) == Notices(ws, bytes) + [Exceeded(w.id, bytes)]
  {
  }

  lemma DeliveriesNext(ws: seq<Want>, w: Want, key: Key, data: Bytes)
    ensures Deliveries(ws + [w], key, data) == Deliveries(ws, key, data) + [Delivery(w.id, key, data, w.limit)]
  {
  }

  lemma RemoveAt(wants: seq<Want>, i: nat)
    requires i < |wants|
    ensures
      var left := wants[..i] + wants[i + 1..];
      left[..i] == wants[..i] && left[i..] == wants[i + 1..]
  {
  }

  lemma KeepAt(wants: seq<Want>, i: nat)
    requires i < |wants|
    ensures wants[..i + 1] == wants[..i] + [wants[i]]
  {
  }

  /** Take the registrations that `bytes` would exceed out of the list, noting each. */
  method TakeOversized(all: seq<Want>, key: Key, bytes: nat) returns (wants: seq<Want>, notices: seq<Exceeded>)
    ensures wants == Keep(all, WithinLimit(key.sender, key.room, bytes))
    ensures notices == Notices(Keep(all, OverLimit(key.sender, key.room, bytes)), bytes)
  {
    hide Keep, Notices, Authorises;
    NoNotices(bytes);
    wants, notices := all, [];
    var index := 0;
    ghost var seen := 0;
    ghost var within, over := WithinLimit(key.sender, key.room, bytes), OverLimit(key.sender, key.room, bytes);
    while index < |wants|
      invariant 0 <= index <= |wants| && 0 <= seen <= |all| && wants[index..] == all[seen..]
      invariant wants[..index] == Keep(all[..seen], within)
      invariant notices == Notices(Keep(all[..seen], over), bytes)
      decreases |wants| - index
    {
      var want := wants[index];
      assert want == all[seen] && all[seen + 1..] == wants[index..][1..] == wants[index + 1..];
      KeepNext(all, seen, within);
      KeepNext(all, seen, over);
      if Exceeds(want, key.sender, key.room, bytes) {
        NoticesNext(Keep(all[..seen], over), want, bytes);
        RemoveAt(wants, index);
        wants := wants[..index] + wants[index + 1..];
        notices := notices + [Exceeded(want.id, bytes)];
      } else {
        KeepAt(wants, index);
        index := index + 1;
      }
      seen := seen + 1;
    }
    assert all[..seen] == all && wants[..index] == wants;
  }

  /** Split the list into payloads for the registrations asked on this path, and the others. */
  method Partition(wants: seq<Want>, key: Key, data: Bytes) returns (remaining: seq<Want>, sent: seq<Delivery>)
    ensures remaining == Keep(wants, Unaddressed(key.sender, key.room))
    ensures sent == Deliveries(Keep(wants, Recipient(key.sender, key.room)), key, data)
  {
    hide Keep, Deliveries, Authorises;
    NoDeliveries(key, data);
    remaining, sent := [], [];
    ghost var rest, out := Unaddressed(key.sender, key.room), Recipient(key.sender, key.room);
    for i := 0 to |wants|
      invariant remaining == Keep(wants[..i], rest)
      invariant sent == Deliveries(Keep(wants[..i], out), key, data)
    {
      KeepNext(wants, i, rest);
      KeepNext(wants, i, out);
      if !Authorises(wants[i], key.sender, key.room) {
        remaining := remaining + [wants[i]];
      } else if !wants[i].closed {
        DeliveriesNext(Keep(wants[..i], out), wants[i], key, data);
        sent := sent + [Delivery(wants[i].id, key, data, wants[i].limit)];
      }
    }
    assert wants[..|wants|] == wants;
  }

  /** The chunks of a full assembly, end to end. */
  method Join(chunks: seq<Option<Bytes>>) returns (full: Bytes)
    ensures full == Concat(chunks)
  {
    full := [];
    for i := 0 to |chunks|
      invariant full == Concat(chunks[..i])
    {
      ConcatNext(chunks, i);
      full := full + Contents(chunks[i]);
    }
    assert chunks[..|chunks|] == chunks;
  }

  class WantRegistry {
    var pending: map<Bytes, seq<Want>>
    var assemblies: map<Key, Assembly>
    var nextAttempt: nat
    var counters: Counters
    var delivered: seq<Delivery>
    var exceeded: seq<Exceeded>

    ghost function View(): State
      reads this
    {
      State(pending, assemblies, nextAttempt, counters, delivered, exceeded)
    }

    constructor ()
      ensures View() == Initial
    {
      pending, assemblies, nextAttempt := map[], map[], 0;
      counters := Counters(0, 0, 0, 0, 0, 0);
      delivered, exceeded := [], [];
    }

    // ---- internal operations ----

    method DropAbandoned()
      modifies this
      ensures View() == Prune(old(View()))
    {
      pending := OpenPending(pending);
      assemblies := map k | k in assemblies && Authorised(pending, k) :: assemblies[k];
    }

    method NoteFrame(key: Key, accepted: bool)
      modifies `pending
      ensures View() == Observe(old(View()), key, accepted)
    {
      ghost var e := if accepted then CountAccepted(key) else CountReceived(key);
      if key.cid in pending {
        var ws := pending[key.cid];
        for i := 0 to |ws|
          invariant |ws| == |pending[key.cid]|
          invariant forall j :: 0 <= j < i ==> ws[j] == Edited(e, key.cid, pending[key.cid][j])
          invariant forall j :: i <= j < |ws| ==> ws[j] == pending[key.cid][j]
        {
          if Authorises(ws[i], key.sender, key.room) {
            if accepted {
              ws := ws[i := ws[i].(accepted := ws[i].accepted + 1)];
            } else {
              ws := ws[i := ws[i].(received := ws[i].received + 1)];
            }
          }
        }
        assert ws == EditList(e, key.cid, pending[key.cid]);
        OthersUnedited(e, pending, key);
        pending := pending[key.cid := ws];
      } else {
        OthersUnedited(e, pending, key);
      }
      assert pending == EditPending(e, old(pending));
    }

    static lemma OthersUnedited(e: Edit, pending: map<Bytes, seq<Want>>, key: Key)
      requires (e.CountAccepted? || e.CountReceived?) && e.key == key
      ensures forall c | c in pending && c != key.cid :: EditList(e, c, pending[c]) == pending[c]
    {
    }

    /** Fail only the bounded callers on this path; everything else stays. */
    method FailOversized(key: Key, bytes: nat)
      modifies this
      ensures View() == EnforceByteLimits(old(View()), key, bytes)
    {
      if key.cid in pending {
        var wants, notices := TakeOversized(pending[key.cid], key, bytes);
        pending := pending[key.cid := wants];
        exceeded := exceeded + notices;
      }
      DropAbandoned();
    }

    /** Send the payload to the registrations that asked this sender on this path. */
    method Complete(key: Key, data: Bytes)
      modifies this
      ensures View() == Fulfill(old(View()), key, data)
    {
      if key.cid in pending {
        var remaining, sent := Partition(pending[key.cid], key, data);
        pending := pending[key.cid := remaining];
        delivered := delivered + sent;
        DropAbandoned();
      }
    }

    method RaiseRejected()
      modifies `counters
      ensures View() == Rejected(old(View()))
    {
      counters := counters.(rejected := counters.rejected + 1);
    }

    method RaiseAccepted(bytes: nat)
      modifies `counters
      ensures View() == Admitted(old(View()), bytes)
    {
      counters := counters.(accepted := counters.accepted + 1, acceptedBytes := counters.acceptedBytes + bytes);
    }

    method RaiseCompleted()
      modifies `counters
      ensures View() == Completed(old(View()))
    {
      counters := counters.(completed := counters.completed + 1);
    }

    /** Some open registration asked this sender on this path. */
    method Wanted(key: Key) returns (wanted: bool)
      ensures wanted == Accepts(View(), key)
    {
      wanted := false;
      if key.cid in pending {
        var ws := pending[key.cid];
        for i := 0 to |ws|
          invariant wanted <==> exists w :: w in ws[..i] && !w.closed && Authorises(w, key.sender, key.room)
        {
          assert ws[..i + 1] == ws[..i] + [ws[i]];
          if !ws[i].closed && Authorises(ws[i], key.sender, key.room) {
            assert ws[i] in ws[..i + 1];
            wanted := true;
          }
        }
        assert ws[..|ws|] == ws;
      }
    }

    method TotalBytes() returns (total: nat)
      ensures total == Sum(assemblies, BytesOf)
    {
      total := 0;
      var rest := assemblies;
      while rest != map[]
        invariant total + Sum(rest, BytesOf) == Sum(assemblies, BytesOf)
        decreases |rest|
      {
        var k :| k in rest;
        SumRemove(rest, BytesOf, k);
        total := total + rest[k].bytes;
        rest := rest - {k};
      }
    }

    method TotalWants() returns (total: nat)
      ensures total == Sum(pending, Count)
    {
      total := 0;
      var rest := pending;
      while rest != map[]
        invariant total + Sum(rest, Count) == Sum(pending, Count)
        decreases |rest|
      {
        var c :| c in rest;
        SumRemove(rest, Count, c);
        total := total + |rest[c]|;
        rest := rest - {c};
      }
    }

    /** The registration with this number, wherever it waits. */
    method FindAttempt(id: nat) returns (found: Option<(Bytes, nat)>)
      ensures found.Some? ==>
                var (c, i) := found.value;
                c in pending && i < |pending[c]| && pending[c][i].id == id
      ensures found.None? ==> forall c, i | c in pending && 0 <= i < |pending[c]| :: pending[c][i].id != id
    {
      var rest := pending;
      while rest != map[]
        invariant forall c | c in rest :: c in pending && rest[c] == pending[c]
        invariant forall c, i | c in pending && c !in rest && 0 <= i < |pending[c]| :: pending[c][i].id != id
        decreases |rest|
      {
        var c :| c in rest;
        for i := 0 to |rest[c]|
          invariant forall j :: 0 <= j < i ==> rest[c][j].id != id
        {
          if rest[c][i].id == id {
            return Some((c, i));
          }
        }
        rest := rest - {c};
      }
      return None;
    }

    // ---- public operations ----

    method Register(cid: Bytes, peers: seq<Bytes>, local: bool) returns (id: nat)
      requires Inv(View())
      modifies this
      ensures View() == Step(old(View()), Event.Register(cid, peers, local)) && Inv(View())
      ensures id == old(nextAttempt) + 1
    {
      hide Inv, RegisterStep;
      StepInv(View(), Event.Register(cid, peers, local));
      id := Enrol(cid, peers, local);
    }

    /** An attempt that is not admitted is numbered but not kept. */
    method Enrol(cid: Bytes, peers: seq<Bytes>, local: bool) returns (id: nat)
      modifies this
      ensures View() == RegisterStep(old(View()), cid, peers, local)
      ensures id == old(nextAttempt) + 1
    {
      hide OpenPending, Sum, Keep;
      DropAbandoned();
      var total := TotalWants();
      nextAttempt := nextAttempt + 1;
      id := nextAttempt;
      if |cid| > 255 || |peers| == 0 || |peers| > MAX_WANT_PEERS
         || (exists p :: p in peers && |p| > 256) || total >= MAX_PENDING_WANTS {
        return;
      }
      var waiting := if cid in pending then pending[cid] else [];
      pending := pending[cid := waiting + [NewWant(id, peers, local)]];
    }

    method InstallLimit(id: nat, bytes: nat)
      requires Inv(View())
      modifies `pending
      ensures View() == Step(old(View()), Event.InstallLimit(id, bytes)) && Inv(View())
    {
      hide Inv, EditPending;
      StepInv(View(), Event.InstallLimit(id, bytes));
      DistinctAttempts(View());
      EditPaths(SetLimit(id, bytes));
    }

    /** Whether the path is newly attached to a live attempt. */
    method TrackPath(id: nat, room: Bytes) returns (attached: bool)
      requires Inv(View())
      modifies `pending
      ensures View() == Step(old(View()), Event.TrackPath(id, room)) && Inv(View())
      ensures attached <==> exists c, w :: c in old(pending) && w in old(pending)[c] && w.id == id && room !in w.paths
    {
      hide Inv, EditPending, DistinctIds;
      StepInv(View(), Event.TrackPath(id, room));
      DistinctAttempts(View());
      var found := FindAttempt(id);
      if found.Some? {
        var (c, i) := found.value;
        OnlyOne(pending, c, i);
        attached := room !in pending[c][i].paths;
      } else {
        attached := false;
      }
      EditPaths(AddPath(id, room));
    }

    static lemma OnlyOne(pending: map<Bytes, seq<Want>>, c: Bytes, i: nat)
      requires DistinctIds(pending) && c in pending && i < |pending[c]|
      ensures pending[c][i] in pending[c]
      ensures forall d, w | d in pending && w in pending[d] && w.id == pending[c][i].id :: w == pending[c][i]
    {
      assert pending[c][i] in pending[c];
      assert forall d | d in pending && d != c :: DisjointIds(pending[c], pending[d]);
    }

    method UntrackPath(id: nat, room: Bytes)
      requires Inv(View())
      modifies this
      ensures View() == Step(old(View()), Event.UntrackPath(id, room)) && Inv(View())
    {
      hide Inv, Prune;
      StepInv(View(), Event.UntrackPath(id, room));
      DistinctAttempts(View());
      EditPaths(DropPath(id, room));
      DropAbandoned();
    }

    static lemma DistinctAttempts(s: State)
      requires Inv(s)
      ensures DistinctIds(s.pending)
    {
    }

    /** Apply an edit to the one registration it names, if that still waits. */
    method EditPaths(e: Edit)
      requires DistinctIds(pending) && (e.AddPath? || e.DropPath? || e.SetLimit?)
      modifies `pending
      ensures pending == EditPending(e, old(pending))
    {
      hide EditPending, DistinctIds;
      var found := FindAttempt(e.id);
      match found
      case None => EditNone(e, pending);
      case Some((c, i)) =>
        EditOne(e, pending, e.id, c, i);
        pending := pending[c := pending[c][i := Edited(e, c, pending[c][i])]];
    }

    /** A whole block from `key.sender` in `key.room`. */
    method FulfillData(key: Key, data: Bytes)
      requires Inv(View())
      modifies this
      ensures View() == Step(old(View()), Have(key, data)) && Inv(View())
    {
      hide Inv, Prune, Observe, WantModel.EnforceByteLimits, Accepts, WantModel.Fulfill;
      StepInv(View(), Have(key, data));
      DropAbandoned();
      NoteFrame(key, false);
      FailOversized(key, |data|);
      var wanted := Wanted(key);
      if |data| <= MAX_WANT_BLOCK_BYTES && wanted {
        RaiseAccepted(|data|);
        RaiseCompleted();
        NoteFrame(key, true);
        Complete(key, data);
      } else {
        RaiseRejected();
      }
    }

    /** One chunk of a block. */
    method FulfillChunkData(key: Key, index: nat, total: nat, data: Bytes)
      requires Inv(View())
      modifies this
      ensures View() == Step(old(View()), HaveChunk(key, index, total, data)) && Inv(View())
    {
      hide Inv, Prune, Observe;
      StepInv(View(), HaveChunk(key, index, total, data));
      PruneKeeps(View());
      ObserveInv(Prune(View()), key, false);
      DropAbandoned();
      NoteFrame(key, false);
      JudgeChunk(key, index, total, data);
    }

    /** Header, path and assembly checks, in this order. */
    method JudgeChunk(key: Key, index: nat, total: nat, data: Bytes)
      requires Inv(View())
      modifies this
      ensures
        var s := old(View());
        var a := AssemblyAt(s, key, total);
        View() == if !SoundHeader(index, total) || !Accepts(s, key) || a.total != total then Rejected(s)
                  else if HasChunk(a, index) then Duplicated(s, |data|)
                  else AdmitStep(s, key, index, total, data)
    {
      hide Inv, AdmitStep, Accepts;
      ChunksInRange(View());
      if total == 0 || total > MAX_WANT_CHUNKS || index >= total {
        RaiseRejected();
        return;
      }
      var wanted := Wanted(key);
      if !wanted {
        RaiseRejected();
        return;
      }
      if key in assemblies {
        if assemblies[key].total != total {
          RaiseRejected();
          return;
        }
        if assemblies[key].chunks[index].Some? {
          counters := counters.(duplicate := counters.duplicate + 1,
                                duplicateBytes := counters.duplicateBytes + |data|);
          return;
        }
      }
      AdmitChunk(key, index, total, data);
    }

    static lemma ChunksInRange(s: State)
      requires Inv(s)
      ensures forall k | k in s.assemblies :: |s.assemblies[k].chunks| == s.assemblies[k].total
    {
    }

    method AdmitChunk(key: Key, index: nat, total: nat, data: Bytes)
      requires index < total && (key in assemblies ==> |assemblies[key].chunks| == assemblies[key].total == total)
      modifies this
      ensures View() == AdmitStep(old(View()), key, index, total, data)
    {
      hide WantModel.EnforceByteLimits, StoreStep, Accepts, HasRoom;
      var bytes := (if key in assemblies then assemblies[key].bytes else 0) + |data|;
      EnforceOnlyDrops(View(), key, bytes);
      FailOversized(key, bytes);
      StoreOrReject(key, index, total, data, bytes);
    }

    method StoreOrReject(key: Key, index: nat, total: nat, data: Bytes, bytes: nat)
      requires index < total && (key in assemblies ==> |assemblies[key].chunks| == assemblies[key].total == total)
      modifies this
      ensures
        var s := old(View());
        View() == if Accepts(s, key) && bytes <= MAX_WANT_BLOCK_BYTES && HasRoom(s, key, |data|)
                  then StoreStep(s, key, index, total, data) else Rejected(s)
    {
      hide StoreStep, Accepts, Sum;
      var wanted := Wanted(key);
      var held := TotalBytes();
      if wanted && bytes <= MAX_WANT_BLOCK_BYTES
         && (key in assemblies || |assemblies| < MAX_WANT_ASSEMBLIES)
         && held + |data| <= MAX_WANT_ASSEMBLY_BYTES {
        StoreAdmitted(key, index, total, data);
      } else {
        RaiseRejected();
      }
    }

    static lemma EnforceOnlyDrops(s: State, key: Key, bytes: nat)
      ensures
        var t := EnforceByteLimits(s, key, bytes);
        key in t.assemblies ==> key in s.assemblies && t.assemblies[key] == s.assemblies[key]
    {
      hide Keep, Authorised;
    }

    method StoreAdmitted(key: Key, index: nat, total: nat, data: Bytes)
      requires index < total && (key in assemblies ==> |assemblies[key].chunks| == assemblies[key].total == total)
      modifies this
      ensures View() == StoreStep(old(View()), key, index, total, data)
    {
      hide Observe, CompleteStep;
      var entry := if key in assemblies then assemblies[key] else EmptyAssembly(total);
      RaiseAccepted(|data|);
      entry := entry.(bytes := entry.bytes + |data|, chunks := entry.chunks[index := Some(data)],
                      received := entry.received + 1);
      assemblies := assemblies[key := entry];
      NoteFrame(key, true);
      if entry.received == entry.total {
        FinishAssembly(key, entry);
      }
    }

    method FinishAssembly(key: Key, entry: Assembly)
      modifies this
      ensures View() == CompleteStep(old(View()), key, entry)
    {
      hide WantModel.Fulfill, Concat;
      RaiseCompleted();
      var full := Join(entry.chunks);
      assemblies := assemblies - {key};
      Complete(key, full);
    }

    method ResetPath(from: Option<Bytes>, room: Bytes)
      requires Inv(View())
      modifies this
      ensures View() == Step(old(View()), Event.ResetPath(from, room)) && Inv(View())
    {
      hide Inv, OpenPending;
      StepInv(View(), Event.ResetPath(from, room));
      DropAbandoned();
      assemblies := map k | k in assemblies && !ResetHits(from, room, k) :: assemblies[k];
      NotifyReset(from, room);
    }

    /** Advance the reset counter of every registration on the path, once. */
    method NotifyReset(from: Option<Bytes>, room: Bytes)
      modifies `pending
      ensures pending == EditPending(NoteReset(from, room), old(pending))
    {
      var todo := pending.Keys;
      while todo != {}
        invariant todo <= pending.Keys == old(pending).Keys
        invariant forall c | c in pending ::
          pending[c] == if c in todo then old(pending)[c] else EditList(NoteReset(from, room), c, old(pending)[c])
        decreases |todo|
      {
        var c :| c in todo;
        pending := pending[c := EditList(NoteReset(from, room), c, pending[c])];
        todo := todo - {c};
      }
    }

    method CancelClosed()
      requires Inv(View())
      modifies this
      ensures View() == Step(old(View()), Event.CancelClosed) && Inv(View())
    {
      hide Inv, Prune;
      StepInv(View(), Event.CancelClosed);
      DropAbandoned();
    }

    method Cancel(cid: Bytes)
      requires Inv(View())
      modifies this
      ensures View() == Step(old(View()), Event.Cancel(cid)) && Inv(View())
    {
      hide Inv, OpenPending;
      StepInv(View(), Event.Cancel(cid));
      pending := pending - {cid};
      assemblies := map k | k in assemblies && k.cid != cid :: assemblies[k];
      DropAbandoned();
    }
  }
}
