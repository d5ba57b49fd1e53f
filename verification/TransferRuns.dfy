/** Whole transfers in the middle of other traffic: an attempt that stays open is sent its block. */
module TransferRuns {
  import opened Common
  import opened WantModel
  import opened RegistryInvariant
  import opened RegistryProperties
  import opened Transfer
  import opened TransferCompletion
  import Cid
  import Frames

  // ---- other operations keep the path's assembly ----

  /** If a registration still asks for the path, one did before, and the path kept its assembly. */
  ghost predicate Holds(s: State, t: State, k: Key) {
    Authorised(t.pending, k) ==> Authorised(s.pending, k) && (k in s.assemblies ==> k in t.assemblies)
  }

  lemma HoldsTrans(s: State, t: State, u: State, k: Key)
    requires Holds(s, t, k) && Holds(t, u, k)
    ensures Holds(s, u, k)
  {
  }

  /** Fewer registrations, then a prune. */
  lemma PruneHolds(s: State, pending: map<Bytes, seq<Want>>, k: Key)
    requires forall c | c in pending :: c in s.pending && forall w | w in pending[c] :: w in s.pending[c]
    ensures Holds(s, Prune(s.(pending := pending)), k)
  {
    var t := Prune(s.(pending := pending));
    if Authorised(t.pending, k) {
      var w :| w in t.pending[k.cid] && Authorises(w, k.sender, k.room);
      assert w in pending[k.cid];
      assert w in s.pending[k.cid];
    }
  }

  lemma PlainPruneHolds(s: State, k: Key)
    ensures Holds(s, Prune(s), k)
  {
    PruneHolds(s, s.pending, k);
    assert s.(pending := s.pending) == s;
  }

  lemma ObserveHolds(s: State, key: Key, accepted: bool, k: Key)
    ensures Holds(s, Observe(s, key, accepted), k)
  {
    var t := Observe(s, key, accepted);
    if Authorised(t.pending, k) {
      var w :| w in t.pending[k.cid] && Authorises(w, k.sender, k.room);
      var i :| 0 <= i < |t.pending[k.cid]| && t.pending[k.cid][i] == w;
      assert s.pending[k.cid][i] in s.pending[k.cid] && Authorises(s.pending[k.cid][i], k.sender, k.room);
    }
  }

  lemma EnforceHolds(s: State, key: Key, bytes: nat, k: Key)
    ensures Holds(s, EnforceByteLimits(s, key, bytes), k)
  {
    if key.cid !in s.pending {
      PlainPruneHolds(s, k);
    } else {
      var pending := s.pending[key.cid := Keep(s.pending[key.cid], WithinLimit(key.sender, key.room, bytes))];
      var told := s.(exceeded := EnforceByteLimits(s, key, bytes).exceeded);
      PruneHolds(told, pending, k);
      assert told.(pending := pending) == s.(pending := pending, exceeded := told.exceeded);
    }
  }

  lemma SameBefore(s: State, told: State, t: State, k: Key)
    requires told.pending == s.pending && told.assemblies == s.assemblies && Holds(told, t, k)
    ensures Holds(s, t, k)
  {
  }

  lemma FulfillHolds(s: State, key: Key, data: Bytes, k: Key)
    ensures Holds(s, Fulfill(s, key, data), k)
  {
    hide Authorised, Prune, Deliveries;
    if key.cid in s.pending {
      var pending := s.pending[key.cid := Keep(s.pending[key.cid], Unaddressed(key.sender, key.room))];
      var told := s.(delivered := s.delivered
        + Deliveries(Keep(s.pending[key.cid], Recipient(key.sender, key.room)), key, data));
      PruneHolds(told, pending, k);
      SameBefore(s, told, Prune(told.(pending := pending)), k);
    }
  }

  lemma StoreHolds(s: State, key: Key, index: nat, total: nat, data: Bytes, k: Key)
    requires key != k
    ensures Holds(s, StoreStep(s, key, index, total, data), k)
  {
    hide Observe, Fulfill, Concat, StoreChunk, AssemblyAt, Authorised;
    var a := StoreChunk(AssemblyAt(s, key, total), index, data);
    var s1 := Admitted(s.(assemblies := s.assemblies[key := a]), |data|);
    var s2 := Observe(s1, key, true);
    ObserveHolds(s1, key, true, k);
    var s3 := Completed(s2.(assemblies := s2.assemblies - {key}));
    FulfillHolds(s3, key, Concat(a.chunks), k);
    assert Holds(s, s1, k) && Holds(s2, s3, k);
    HoldsTrans(s, s1, s2, k);
    HoldsTrans(s, s2, s3, k);
    HoldsTrans(s, s3, Fulfill(s3, key, Concat(a.chunks)), k);
  }

  lemma HaveHolds(s: State, key: Key, data: Bytes, k: Key)
    ensures Holds(s, HaveStep(s, key, data), k)
  {
    hide Holds, Prune, Observe, EnforceByteLimits, Fulfill, Accepts;
    var s1 := Prune(s);
    var s2 := Observe(s1, key, false);
    var s3 := EnforceByteLimits(s2, key, |data|);
    var s4 := Completed(Admitted(s3, |data|));
    var s5 := Observe(s4, key, true);
    PlainPruneHolds(s, k);
    ObserveHolds(s1, key, false, k);
    EnforceHolds(s2, key, |data|, k);
    SameHolds(s3, s4, k);
    SameHolds(s3, Rejected(s3), k);
    ObserveHolds(s4, key, true, k);
    FulfillHolds(s5, key, data, k);
    HoldsTrans(s, s1, s2, k);
    HoldsTrans(s, s2, s3, k);
    HoldsTrans(s, s3, s4, k);
    HoldsTrans(s, s4, s5, k);
    HoldsTrans(s, s5, Fulfill(s5, key, data), k);
    HoldsTrans(s, s3, Rejected(s3), k);
  }

  lemma SameHolds(s: State, t: State, k: Key)
    requires t.pending == s.pending && t.assemblies == s.assemblies
    ensures Holds(s, t, k)
  {
  }

  lemma ChunkHolds(s: State, key: Key, index: nat, total: nat, data: Bytes, k: Key)
    requires key != k
    ensures Holds(s, ChunkStep(s, key, index, total, data), k)
  {
    hide Holds, Prune, Observe, EnforceByteLimits, StoreStep, Accepts, AssemblyAt, HasChunk, HasRoom, SoundHeader;
    var s1 := Prune(s);
    var s2 := Observe(s1, key, false);
    var bytes := AssemblyAt(s2, key, total).bytes + |data|;
    var s3 := EnforceByteLimits(s2, key, bytes);
    PlainPruneHolds(s, k);
    ObserveHolds(s1, key, false, k);
    EnforceHolds(s2, key, bytes, k);
    SameHolds(s2, Rejected(s2), k);
    SameHolds(s2, Duplicated(s2, |data|), k);
    SameHolds(s3, Rejected(s3), k);
    StoreHolds(s3, key, index, total, data, k);
    HoldsTrans(s, s1, s2, k);
    HoldsTrans(s, s2, Rejected(s2), k);
    HoldsTrans(s, s2, Duplicated(s2, |data|), k);
    HoldsTrans(s, s2, s3, k);
    HoldsTrans(s, s3, Rejected(s3), k);
    HoldsTrans(s, s3, StoreStep(s3, key, index, total, data), k);
  }

  /** Whatever happens elsewhere, a path that somebody waits for before and after keeps its assembly. */
  lemma OtherKeepsAssembly(s: State, e: Event, k: Key)
    requires !DataOn(e, k) && !Clears(e, k) && k in s.assemblies
    requires Accepts(s, k) && Authorised(Step(s, e).pending, k)
    ensures k in Step(s, e).assemblies
  {
    hide Accepts, Authorised, HaveStep, ChunkStep, Keep, EditPending, OpenPending, Admissible;
    PruneKeepsAccepted(s, k);
    match e
    case Have(key, data) => HaveHolds(s, key, data, k);
    case HaveChunk(key, index, total, data) => ChunkHolds(s, key, index, total, data, k);
    case _ =>
  }

  lemma OtherCollects(s: State, e: Event, k: Key, id: nat, block: Bytes, size: nat)
    requires Collecting(s, k, id, block, size) && !DataOn(e, k) && !Clears(e, k)
    requires Waits(Step(s, e), k, id, |block|) && Roomy(Step(s, e), k, |block|)
    ensures Collecting(Step(s, e), k, id, block, size)
    ensures forall i :: Has(Step(s, e), k, i) <==> Has(s, k, i)
  {
    hide Step, Matches, Totals, Roomy, HasChunk;
    OtherStepCalm(s, e, k);
    if k in s.assemblies {
      OtherKeepsAssembly(s, e, k);
    }
  }

  // ---- a transfer under way ----

  /**
   The path's frames are frames of the layout, and until the attempt is served nothing else closes it,
   clears the path, or takes up its room.
   */
  ghost predicate Underway(s: State, events: seq<Event>, k: Key, id: nat, block: Bytes, size: nat)
    decreases |events|
  {
    events == []
    || (var e, t := events[0], Step(s, events[0]);
        && (DataOn(e, k) ==> IsFrame(e, k, block, size))
        && (!DataOn(e, k) && !Done(s, k, id) ==>
              !Clears(e, k) && Waits(t, k, id, |block|) && Roomy(t, k, |block|))
        && Underway(t, events[1..], k, id, block, size))
  }

  ghost predicate IsFrame(e: Event, k: Key, block: Bytes, size: nat) {
    exists index :: FrameOf(e, k, block, size, index)
  }

  ghost predicate Arrives(events: seq<Event>, k: Key, block: Bytes, size: nat, index: nat) {
    exists j :: 0 <= j < |events| && FrameOf(events[j], k, block, size, index)
  }

  lemma ArrivesLater(events: seq<Event>, k: Key, block: Bytes, size: nat, i: nat)
    requires events != [] && Arrives(events, k, block, size, i) && !FrameOf(events[0], k, block, size, i)
    ensures Arrives(events[1..], k, block, size, i)
  {
    hide FrameOf;
    var j :| 0 <= j < |events| && FrameOf(events[j], k, block, size, i);
    assert FrameOf(events[1..][j - 1], k, block, size, i);
  }

  /** A chunk frame is of one index, and on the path. */
  lemma FrameIndex(e: Event, k: Key, block: Bytes, size: nat, i: nat)
    requires FrameOf(e, k, block, size, i) && Frames.DivCeil(|block|, size) > 1
    ensures DataOn(e, k) && e.HaveChunk? && e.index == i
  {
    FrameShape(e, k, block, size, i);
  }

  lemma {:induction false} ChunksComplete(s: State, events: seq<Event>, k: Key, id: nat, block: Bytes, size: nat)
    requires Inv(s) && size > 0 && Collecting(s, k, id, block, size) && Underway(s, events, k, id, block, size)
    requires 1 < Frames.DivCeil(|block|, size) <= MAX_WANT_CHUNKS
    requires forall i: nat :: i < Frames.DivCeil(|block|, size) ==> Has(s, k, i) || Arrives(events, k, block, size, i)
    ensures Done(Run(s, events), k, id)
    decreases |events|
  {
    hide Inv, Step, FrameOf, Has, Collecting, Waits, Roomy, Arrives, IsFrame;
    var total := Frames.DivCeil(|block|, size);
    if Done(s, k, id) {
      DoneStays(s, k, id, events);
    } else if events == [] {
      NotAllStored(s, k, id, block, size);
      NothingArrives(k, block, size);
    } else {
      var e, t := events[0], Step(s, events[0]);
      StepInv(s, e);
      if DataOn(e, k) {
        var index := FrameFound(e, k, block, size);
        FrameProgress(s, k, id, block, size, e, index);
        if Done(t, k, id) {
          DoneStays(t, k, id, events[1..]);
        } else {
          forall i: nat | i < total ensures Has(t, k, i) || Arrives(events[1..], k, block, size, i) {
            StillToCome(s, t, events, k, block, size, index, i);
          }
          ChunksComplete(t, events[1..], k, id, block, size);
        }
      } else {
        OtherCollects(s, e, k, id, block, size);
        forall i: nat | i < total ensures Has(t, k, i) || Arrives(events[1..], k, block, size, i) {
          NotThisOne(s, events, k, block, size, i);
        }
        ChunksComplete(t, events[1..], k, id, block, size);
      }
    }
  }

  lemma NothingArrives(k: Key, block: Bytes, size: nat)
    ensures forall i: nat :: !Arrives([], k, block, size, i)
  {
  }

  lemma FrameFound(e: Event, k: Key, block: Bytes, size: nat) returns (index: nat)
    requires IsFrame(e, k, block, size)
    ensures FrameOf(e, k, block, size, index)
  {
    hide FrameOf;
    index :| FrameOf(e, k, block, size, index);
  }

  lemma StillToCome(
    s: State, t: State, events: seq<Event>, k: Key, block: Bytes, size: nat, index: nat, i: nat)
    requires events != [] && FrameOf(events[0], k, block, size, index) && Frames.DivCeil(|block|, size) > 1
    requires Gains(s, t, k, index) && (Has(s, k, i) || Arrives(events, k, block, size, i))
    ensures Has(t, k, i) || Arrives(events[1..], k, block, size, i)
  {
    hide FrameOf, Has, Arrives;
    FrameIndex(events[0], k, block, size, index);
    if !Has(t, k, i) {
      if FrameOf(events[0], k, block, size, i) {
        FrameIndex(events[0], k, block, size, i);
      } else {
        ArrivesLater(events, k, block, size, i);
      }
    }
  }

  lemma NotThisOne(s: State, events: seq<Event>, k: Key, block: Bytes, size: nat, i: nat)
    requires events != [] && !DataOn(events[0], k) && size > 0 && Frames.DivCeil(|block|, size) > 1
    ensures Arrives(events, k, block, size, i) ==> Arrives(events[1..], k, block, size, i)
  {
    hide FrameOf, Arrives;
    if Arrives(events, k, block, size, i) {
      if FrameOf(events[0], k, block, size, i) {
        FrameIndex(events[0], k, block, size, i);
      } else {
        ArrivesLater(events, k, block, size, i);
      }
    }
  }

  lemma {:induction false} WholeArrives(s: State, events: seq<Event>, k: Key, id: nat, block: Bytes, size: nat)
    requires Waits(s, k, id, |block|) && |block| <= MAX_WANT_BLOCK_BYTES && Underway(s, events, k, id, block, size)
    requires size > 0 && Frames.DivCeil(|block|, size) <= 1 && Arrives(events, k, block, size, 0)
    ensures Done(Run(s, events), k, id)
    decreases |events|
  {
    hide FrameOf, Waits, Roomy, Arrives, IsFrame, HaveStep;
    if Done(s, k, id) {
      DoneStays(s, k, id, events);
    } else {
      SomethingArrives(events, k, block, size);
      var e, t := events[0], Step(s, events[0]);
      if DataOn(e, k) {
        var index := FrameFound(e, k, block, size);
        FrameShape(e, k, block, size, index);
        WholeCompletes(s, k, id, block);
        DoneStays(t, k, id, events[1..]);
      } else {
        NotThisWhole(events, k, block, size);
        WholeArrives(t, events[1..], k, id, block, size);
      }
    }
  }

  lemma SomethingArrives(events: seq<Event>, k: Key, block: Bytes, size: nat)
    requires Arrives(events, k, block, size, 0)
    ensures events != []
  {
  }

  lemma NotThisWhole(events: seq<Event>, k: Key, block: Bytes, size: nat)
    requires Arrives(events, k, block, size, 0) && events != [] && !DataOn(events[0], k)
    ensures Arrives(events[1..], k, block, size, 0)
  {
    hide FrameOf, Arrives;
    if FrameOf(events[0], k, block, size, 0) {
      FrameShape(events[0], k, block, size, 0);
    } else {
      ArrivesLater(events, k, block, size, 0);
    }
  }

  lemma {:induction false} UnderwayConforms(s: State, events: seq<Event>, k: Key, id: nat, block: Bytes, size: nat)
    requires size > 0 && Underway(s, events, k, id, block, size)
    ensures Conforms(s, events, k, block, map[Frames.DivCeil(|block|, size) := size])
    decreases |events|
  {
    hide Step, FrameOf, Waits, Roomy, Frames.DivCeil, Done;
    if events != [] {
      UnderwayConforms(Step(s, events[0]), events[1..], k, id, block, size);
      FramesFromLayout(events[0], k, block, size);
    }
  }

  lemma FramesFromLayout(e: Event, k: Key, block: Bytes, size: nat)
    requires size > 0
    ensures IsFrame(e, k, block, size) ==> FromLayout(e, k, block, map[Frames.DivCeil(|block|, size) := size])
  {
    hide FrameOf, Frames.DivCeil;
    if IsFrame(e, k, block, size) {
      var index := FrameFound(e, k, block, size);
      assert FrameOf(e, k, block, size, index) && Frames.DivCeil(|block|, size) in map[Frames.DivCeil(|block|, size) := size];
    }
  }

  lemma AllArrive(s: State, events: seq<Event>, k: Key, id: nat, block: Bytes, size: nat)
    requires Inv(s) && k !in s.assemblies && Waits(s, k, id, |block|) && Roomy(s, k, |block|)
    requires size > 0 && Frames.DivCeil(|block|, size) <= MAX_WANT_CHUNKS && Underway(s, events, k, id, block, size)
    requires forall i: nat :: i < Max(Frames.DivCeil(|block|, size), 1) ==> Arrives(events, k, block, size, i)
    ensures Done(Run(s, events), k, id)
  {
    hide Inv, Underway, Arrives, Frames.DivCeil;
    if Frames.DivCeil(|block|, size) <= 1 {
      WholeArrives(s, events, k, id, block, size);
    } else {
      ChunksComplete(s, events, k, id, block, size);
    }
  }

  /**
   A transfer whose every frame arrives at least once, in any order, with any repetition and between
   any other operations, sends the waiting attempt exactly the block, as long as the attempt stays open
   and its room free: for every block within the bound and every negotiated limit.
   */
  lemma TransferCompletes(s: State, events: seq<Event>, k: Key, id: nat, block: Bytes, limit: Option<nat>)
    requires Inv(s) && k !in s.assemblies && DeliveredBlock(s, k, block)
    requires Waits(s, k, id, |block|) && Roomy(s, k, |block|)
    requires
      var size := Frames.ChunkSizeForLimit(k.cid, limit);
      Underway(s, events, k, id, block, size)
      && forall i: nat :: i < Max(Frames.DivCeil(|block|, size), 1) ==> Arrives(events, k, block, size, i)
    ensures exists d :: d in Run(s, events).delivered && d.id == id && d.key == k && d.data == block
  {
    hide Inv, Run, Conforms, Underway, Arrives, MatchesSome, Frames.DivCeil;
    var size := Frames.ChunkSizeForLimit(k.cid, limit);
    Frames.LayoutFits(k.cid, limit, |block|);
    CountFits(|block|, size);
    AllArrive(s, events, k, id, block, size);
    UnderwayConforms(s, events, k, id, block, size);
    RunFaithful(s, events, k, block, map[Frames.DivCeil(|block|, size) := size]);
  }
}
