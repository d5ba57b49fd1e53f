/** A block written out by the responder and read back by the registry at the other end. */
module EndToEnd {
  import opened Common
  import opened WantModel
  import opened RegistryInvariant
  import opened Transfer
  import opened TransferCompletion
  import opened TransferRuns
  import Cid
  import Frames
  import Responder

  function LayoutFrames(k: Key, block: Bytes, limit: Option<nat>): (frames: seq<Bytes>)
    requires |block| <= MAX_WANT_BLOCK_BYTES
    ensures |frames| == Max(Frames.DivCeil(|block|, Frames.ChunkSizeForLimit(k.cid, limit)), 1)
  {
    var size := Frames.ChunkSizeForLimit(k.cid, limit);
    Frames.LayoutFits(k.cid, limit, |block|);
    Responder.SubmittedLayout(|block|, size);
    Responder.BlockFrames(k.cid, block, Frames.DivCeil(|block|, size), size)
  }

  /** The event is the arrival on the path of a frame the responder writes, the one numbered `i`. */
  ghost predicate ArrivalOf(e: Event, k: Key, sent: seq<Bytes>, i: nat) {
    i < |sent| && Received(k.room, k.sender, sent[i]) == Some(e)
  }

  ghost predicate Arrived(events: seq<Event>, k: Key, sent: seq<Bytes>, i: nat) {
    exists j :: 0 <= j < |events| && ArrivalOf(events[j], k, sent, i)
  }

  /** What the responder sends is the layout the registry was proved against. */
  lemma ArrivalIsFrame(e: Event, k: Key, block: Bytes, limit: Option<nat>, i: nat)
    requires |block| <= MAX_WANT_BLOCK_BYTES && Cid.IsValidCid(k.cid)
    requires ArrivalOf(e, k, LayoutFrames(k, block, limit), i)
    ensures FrameOf(e, k, block, Frames.ChunkSizeForLimit(k.cid, limit), i)
  {
    hide Cid.IsValidCid, Received, Frames.BuildHavePayload, Responder.BlockFrames, Frames.DivCeil;
    var size := Frames.ChunkSizeForLimit(k.cid, limit);
    Frames.LayoutFits(k.cid, limit, |block|);
    Frames.CountIsDivCeil(|block|, size);
    Responder.SubmittedLayout(|block|, size);
  }

  /**
   The path receives only frames the responder writes; until the attempt is served nothing else closes
   it, clears the path, or takes up its room.
   */
  ghost predicate Receiving(s: State, events: seq<Event>, k: Key, id: nat, bytes: nat, sent: seq<Bytes>)
    decreases |events|
  {
    events == []
    || (var e, t := events[0], Step(s, events[0]);
        && (DataOn(e, k) ==> exists i :: ArrivalOf(e, k, sent, i))
        && (!DataOn(e, k) && !Done(s, k, id) ==> !Clears(e, k) && Waits(t, k, id, bytes) && Roomy(t, k, bytes))
        && Receiving(t, events[1..], k, id, bytes, sent))
  }

  lemma {:induction false} ReceivingUnderway(s: State, events: seq<Event>, k: Key, id: nat, block: Bytes, limit: Option<nat>)
    requires |block| <= MAX_WANT_BLOCK_BYTES && Cid.IsValidCid(k.cid)
    requires Receiving(s, events, k, id, |block|, LayoutFrames(k, block, limit))
    ensures Underway(s, events, k, id, block, Frames.ChunkSizeForLimit(k.cid, limit))
    decreases |events|
  {
    hide Step, FrameOf, Waits, Roomy, Done, ArrivalOf, LayoutFrames, Cid.IsValidCid;
    if events != [] {
      ReceivingUnderway(Step(s, events[0]), events[1..], k, id, block, limit);
      if DataOn(events[0], k) {
        var i :| ArrivalOf(events[0], k, LayoutFrames(k, block, limit), i);
        ArrivalIsFrame(events[0], k, block, limit, i);
        assert FrameOf(events[0], k, block, Frames.ChunkSizeForLimit(k.cid, limit), i);
      }
    }
  }

  /**
   Once every frame the responder wrote has arrived, in whatever order, however often, and whatever
   else goes on meanwhile, the waiting attempt has been sent the block.
   */
  lemma SentBlockArrives(s: State, events: seq<Event>, k: Key, id: nat, block: Bytes, limit: Option<nat>)
    requires Inv(s) && k !in s.assemblies && DeliveredBlock(s, k, block) && Cid.IsValidCid(k.cid)
    requires |block| <= MAX_WANT_BLOCK_BYTES && Waits(s, k, id, |block|) && Roomy(s, k, |block|)
    requires
      var sent := LayoutFrames(k, block, limit);
      Receiving(s, events, k, id, |block|, sent)
      && forall i: nat :: i < |sent| ==> Arrived(events, k, sent, i)
    ensures exists d :: d in Run(s, events).delivered && d.id == id && d.key == k && d.data == block
  {
    hide Inv, Underway, Receiving, Waits, Roomy, DeliveredBlock, ArrivalOf, FrameOf, Cid.IsValidCid, LayoutFrames;
    hide Run, Frames.DivCeil;
    var size := Frames.ChunkSizeForLimit(k.cid, limit);
    var sent := LayoutFrames(k, block, limit);
    ReceivingUnderway(s, events, k, id, block, limit);
    forall i: nat | i < |sent|
      ensures Arrives(events, k, block, size, i)
    {
      assert Arrived(events, k, sent, i);
      var j :| 0 <= j < |events| && ArrivalOf(events[j], k, sent, i);
      ArrivalIsFrame(events[j], k, block, limit, i);
      assert FrameOf(events[j], k, block, size, i);
    }
    TransferCompletes(s, events, k, id, block, limit);
  }
}
