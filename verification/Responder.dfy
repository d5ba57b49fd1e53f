/** The sending side: admission of WANTs per peer, and writing out one block across route losses. */
module Responder {
  import opened Common
  import Cid
  import Frames

  // ---- admission ----

  const MAX_ACTIVE := 4
  const MAX_PENDING := 64

  datatype Work<D> = Work(active: nat, pending: seq<D>)

  datatype Admission<D> = Start(descriptor: D) | Queued | Dropped

  function WorkOf<K, D>(peers: map<K, Work<D>>, key: K): Work<D> {
    if key in peers then peers[key] else Work(0, [])
  }

  function Enqueued<K, D>(peers: map<K, Work<D>>, key: K, d: D): (map<K, Work<D>>, Admission<D>) {
    var w := WorkOf(peers, key);
    if w.active < MAX_ACTIVE then (peers[key := w.(active := w.active + 1)], Start(d))
    else if |w.pending| < MAX_PENDING then (peers[key := w.(pending := w.pending + [d])], Queued)
    else (peers[key := w], Dropped)
  }

  function Advanced<K, D>(peers: map<K, Work<D>>, key: K): (map<K, Work<D>>, Option<D>)
    requires key in peers ==> peers[key].active > 0
  {
    if key !in peers then (peers, None)
    else
      var w := peers[key];
      if w.pending != [] then (peers[key := w.(pending := w.pending[1..])], Some(w.pending[0]))
      else if w.active == 1 then (peers - {key}, None)
      else (peers[key := w.(active := w.active - 1)], None)
  }

  predicate WorkOk<D>(w: Work<D>) {
    1 <= w.active <= MAX_ACTIVE && |w.pending| <= MAX_PENDING && (w.pending != [] ==> w.active == MAX_ACTIVE)
  }

  ghost predicate PeersOk<K, D>(peers: map<K, Work<D>>) {
    forall key <- peers :: WorkOk(peers[key])
  }

  class WantQueue<K(==), D(0)> {
    var peers: map<K, Work<D>>

    constructor ()
      ensures peers == map[] && PeersOk(peers)
    {
      peers := map[];
    }

    method Enqueue(key: K, descriptor: D) returns (r: Admission<D>)
      requires PeersOk(peers)
      modifies this
      ensures (peers, r) == Enqueued(old(peers), key, descriptor) && PeersOk(peers)
    {
      var work := if key in peers then peers[key] else Work(0, []);
      if work.active < MAX_ACTIVE {
        work := work.(active := work.active + 1);
        r := Start(descriptor);
      } else if |work.pending| < MAX_PENDING {
        work := work.(pending := work.pending + [descriptor]);
        r := Queued;
      } else {
        r := Dropped;
      }
      peers := peers[key := work];
    }

    method Next(key: K) returns (r: Option<D>)
      requires PeersOk(peers)
      modifies this
      ensures (peers, r) == Advanced(old(peers), key) && PeersOk(peers)
    {
      if key !in peers {
        return None;
      }
      var work := peers[key];
      if work.pending != [] {
        r := Some(work.pending[0]);
        peers := peers[key := work.(pending := work.pending[1..])];
        return;
      }
      if work.active == 1 {
        peers := peers - {key};
      } else {
        peers := peers[key := work.(active := work.active - 1)];
      }
      r := None;
    }
  }

  // ---- runs in which every worker asks once after each job ----

  /** Per peer: jobs running now, jobs accepted in order, and jobs started in order. */
  datatype Log<D> = Log(running: nat, accepted: seq<D>, started: seq<D>)

  datatype System<K, D> = System(peers: map<K, Work<D>>, logs: map<K, Log<D>>)

  datatype Event<K, D> = Want(key: K, descriptor: D) | Finish(key: K)

  function LogOf<K, D>(s: System<K, D>, key: K): Log<D> {
    if key in s.logs then s.logs[key] else Log(0, [], [])
  }

  /** A worker that finishes a job either takes the next one or ends. */
  ghost function Step<K, D>(s: System<K, D>, e: Event<K, D>): System<K, D>
    requires PeersOk(s.peers)
  {
    var log := LogOf(s, e.key);
    match e
    case Want(key, d) =>
      var (peers, r) := Enqueued(s.peers, key, d);
      System(peers, s.logs[key :=
        match r
        case Start(_) => Log(log.running + 1, log.accepted + [d], log.started + [d])
        case Queued => log.(accepted := log.accepted + [d])
        case Dropped => log])
    case Finish(key) =>
      if log.running == 0 then s
      else
        var (peers, r) := Advanced(s.peers, key);
        System(peers, s.logs[key :=
          if r.Some? then log.(started := log.started + [r.value]) else log.(running := log.running - 1)])
  }

  ghost predicate PeerInv<K(!new), D>(s: System<K, D>, key: K) {
    var w, log := WorkOf(s.peers, key), LogOf(s, key);
    w.active == log.running && log.accepted == log.started + w.pending
  }

  /** An entry means work: idle peers have none. */
  ghost predicate Inv<K(!new), D>(s: System<K, D>) {
    PeersOk(s.peers) && forall key: K {:trigger WorkOf(s.peers, key)} {:trigger LogOf(s, key)} :: PeerInv(s, key)
  }

  lemma StepInv<K(!new), D>(s: System<K, D>, e: Event<K, D>)
    requires Inv(s)
    ensures Inv(Step(s, e))
  {
    var u := Step(s, e);
    assert PeerInv(s, e.key);
    forall key: K
      ensures PeerInv(u, key)
    {
      assert PeerInv(s, key);
      if key == e.key {
        StepPeer(s, e);
      }
    }
  }

  lemma StepPeer<K(!new), D>(s: System<K, D>, e: Event<K, D>)
    requires Inv(s)
    ensures PeersOk(Step(s, e).peers) && PeerInv(Step(s, e), e.key)
  {
    var w, log := WorkOf(s.peers, e.key), LogOf(s, e.key);
    assert PeerInv(s, e.key);
    if e.Want? {
      assert log.started + (w.pending + [e.descriptor]) == log.started + w.pending + [e.descriptor];
    } else if w.pending != [] {
      assert log.started + [w.pending[0]] + w.pending[1..] == log.started + w.pending;
    }
  }

  ghost function Run<K(!new), D>(s: System<K, D>, events: seq<Event<K, D>>): System<K, D>
    requires Inv(s)
    decreases |events|
  {
    if events == [] then s
    else
      StepInv(s, events[0]);
      Run(Step(s, events[0]), events[1..])
  }

  function Empty<K, D>(): System<K, D> {
    System(map[], map[])
  }

  lemma {:induction false} RunInv<K(!new), D>(s: System<K, D>, events: seq<Event<K, D>>)
    requires Inv(s)
    ensures Inv(Run(s, events))
    decreases |events|
  {
    hide PeerInv, Step;
    if events != [] {
      StepInv(s, events[0]);
      RunInv(Step(s, events[0]), events[1..]);
    }
  }

  lemma EmptyInv<K(!new), D>()
    ensures Inv(Empty<K, D>())
  {
    var s := Empty<K, D>();
    forall key: K ensures PeerInv(s, key) {
      assert WorkOf(s.peers, key) == Work(0, []) && LogOf(s, key) == Log(0, [], []);
    }
  }

  /**
   In every run: at most four workers and 64 waiting jobs per peer, waiting jobs only behind four
   workers, an entry exactly while somebody works, and jobs started in the order they were accepted,
   each once.
   */
  lemma Admissions<K(!new), D>(events: seq<Event<K, D>>, key: K)
    ensures Inv(Empty<K, D>())
    ensures
      var s := Run(Empty<K, D>(), events);
      var w, log := WorkOf(s.peers, key), LogOf(s, key);
      && log.running == w.active <= MAX_ACTIVE && |w.pending| <= MAX_PENDING
      && (w.pending != [] ==> log.running == MAX_ACTIVE)
      && (key in s.peers <==> log.running > 0)
      && log.accepted == log.started + w.pending
  {
    EmptyInv<K, D>();
    RunInv(Empty<K, D>(), events);
    var s := Run(Empty<K, D>(), events);
    assert PeerInv(s, key);
  }

  /**
   What becomes of a want, in terms of what the peer has running and waiting: it starts at once while
   fewer than four run, waits while fewer than 64 do, and is dropped otherwise.
   */
  lemma WantExactly<K(!new), D>(s: System<K, D>, key: K, d: D)
    requires Inv(s)
    ensures
      var (before, after) := (LogOf(s, key), LogOf(Step(s, Want(key, d)), key));
      var waiting := |before.accepted| - |before.started|;
      after ==
        if before.running < 4 then Log(before.running + 1, before.accepted + [d], before.started + [d])
        else if waiting < 64 then Log(before.running, before.accepted + [d], before.started)
        else before
  {
    assert PeerInv(s, key);
  }

  /** A worker that is done goes on with the job that has waited longest, or ends if none does. */
  lemma FinishExactly<K(!new), D>(s: System<K, D>, key: K)
    requires Inv(s) && LogOf(s, key).running > 0
    ensures
      var (before, after) := (LogOf(s, key), LogOf(Step(s, Finish(key)), key));
      after ==
        if |before.started| < |before.accepted|
        then Log(before.running, before.accepted, before.started + [before.accepted[|before.started|]])
        else Log(before.running - 1, before.accepted, before.started)
  {
    assert PeerInv(s, key);
  }

  /** Peers do not affect each other. */
  lemma OtherPeers<K(!new), D>(s: System<K, D>, e: Event<K, D>, key: K)
    requires Inv(s) && key != e.key
    ensures LogOf(Step(s, e), key) == LogOf(s, key) && WorkOf(Step(s, e).peers, key) == WorkOf(s.peers, key)
  {
  }

  function Finishes<K, D>(key: K, n: nat): seq<Event<K, D>> {
    seq(n, i => Finish(key))
  }

  /** With no new WANTs a peer's work drains: every accepted job is started and the entry disappears. */
  lemma {:induction false} WorkDrains<K(!new), D>(s: System<K, D>, key: K)
    requires Inv(s)
    ensures
      var w := WorkOf(s.peers, key);
      var u := Run(s, Finishes(key, |w.pending| + w.active));
      key !in u.peers && LogOf(u, key).accepted == LogOf(u, key).started == LogOf(s, key).accepted
    decreases |WorkOf(s.peers, key).pending| + WorkOf(s.peers, key).active
  {
    var w := WorkOf(s.peers, key);
    var n := |w.pending| + w.active;
    var events := Finishes<K, D>(key, n);
    assert PeerInv(s, key);
    if n > 0 {
      var u := Step(s, Finish(key));
      StepInv(s, Finish(key));
      assert events[0] == Finish(key) && events[1..] == Finishes(key, n - 1);
      WorkDrains(u, key);
    }
  }

  // ---- sending one block ----

  const RECOVERY := 5000
  const RETRY_INTERVAL := 200

  datatype Outcome = Sent | RouteLost | Failed

  /** Bytes counted for chunk `index`. */
  function Submitted(len: nat, index: nat, total: nat, size: nat): nat {
    if total <= 1 then len else Min(Max(len - index * size, 0), size)
  }

  function SubmittedBefore(len: nat, n: nat, total: nat, size: nat): nat {
    if n == 0 then 0 else SubmittedBefore(len, n - 1, total, size) + Submitted(len, n - 1, total, size)
  }

  /** The frames of the block in order. */
  function BlockFrames(cid: Bytes, data: Bytes, total: nat, size: nat): (frames: seq<Bytes>)
    requires total <= 1 || (total - 1) * size <= |data|
    ensures |frames| == Max(total, 1)
    ensures forall i :: 0 <= i < |frames| ==>
      (total <= 1 || i * size <= |data|) && frames[i] == Frames.BuildHavePayload(cid, data, i, total, size)
  {
    Starts(|data|, total, size);
    seq(Max(total, 1), i requires 0 <= i < Max(total, 1) => Frames.BuildHavePayload(cid, data, i, total, size))
  }

  lemma Starts(len: nat, total: nat, size: nat)
    requires total <= 1 || (total - 1) * size <= len
    ensures forall i: nat :: i < Max(total, 1) && total > 1 ==> i * size <= len
  {
    forall i: nat | i < Max(total, 1) && total > 1
      ensures i * size <= len
    {
      MulMonotone(i, total - 1, size);
    }
  }

  /** How many of the first `n` attempts ended like this. */
  function Count(outcomes: nat -> Outcome, n: nat, o: Outcome): nat {
    if n == 0 then 0 else Count(outcomes, n - 1, o) + (if outcomes(n - 1) == o then 1 else 0)
  }

  lemma {:induction false} CountGrows(outcomes: nat -> Outcome, m: nat, n: nat, o: Outcome)
    requires m <= n
    ensures Count(outcomes, m, o) <= Count(outcomes, n, o)
  {
    if m < n {
      CountGrows(outcomes, m, n - 1, o);
    }
  }

  ghost predicate DeliveredBy(outcomes: nat -> Outcome, frames: nat, n: nat) {
    && Count(outcomes, n, Sent) == frames && Count(outcomes, n, RouteLost) <= 25
    && Count(outcomes, n, Failed) == 0
  }

  /** The transport takes this many frames before it fails, and before it loses its route once too often. */
  ghost predicate Deliverable(outcomes: nat -> Outcome, frames: nat) {
    exists n: nat :: DeliveredBy(outcomes, frames, n)
  }

  /** What one call did: frames taken by the transport in order, write attempts, retries, and time slept. */
  datatype Report = Report(accepted: seq<Bytes>, attempts: nat, retries: nat, slept: nat, bytes: nat)

  /** The call stops at the first failure, or at the route loss after the last one it may wait out. */
  ghost predicate GivesUp(outcomes: nat -> Outcome, n: nat) {
    Count(outcomes, n, Failed) > 0 || Count(outcomes, n, RouteLost) > 25
  }

  lemma NotDeliverable(outcomes: nat -> Outcome, frames: nat, n: nat)
    requires GivesUp(outcomes, n) && Count(outcomes, n, Sent) < frames
    ensures !Deliverable(outcomes, frames)
  {
    forall m: nat
      ensures !DeliveredBy(outcomes, frames, m)
    {
      if m < n {
        CountGrows(outcomes, m, n, Sent);
      } else {
        CountGrows(outcomes, n, m, Failed);
        CountGrows(outcomes, n, m, RouteLost);
      }
    }
  }

  /**
   The n-th write attempt ends as `outcomes` says. The block is sent exactly if the transport takes all
   of its frames in time; up to there each attempt is the next frame, or the last one again after a route
   loss, for which the call sleeps.
   */
  method SendBlock(cid: Bytes, data: Bytes, size: nat, total: nat, outcomes: nat -> Outcome) returns (ok: bool, report: Report)
    requires total <= 1 || (total - 1) * size <= |data|
    ensures ok <==> Deliverable(outcomes, Max(total, 1))
    ensures |report.accepted| == Count(outcomes, report.attempts, Sent) <= Max(total, 1)
    ensures report.accepted == BlockFrames(cid, data, total, size)[..|report.accepted|]
    ensures ok ==> report.accepted == BlockFrames(cid, data, total, size)
    ensures if ok then DeliveredBy(outcomes, Max(total, 1), report.attempts)
            else report.attempts > 0 && GivesUp(outcomes, report.attempts) && !GivesUp(outcomes, report.attempts - 1)
    ensures report.retries == Min(Count(outcomes, report.attempts, RouteLost), 25)
    ensures report.slept == report.retries * 200
    ensures report.bytes == SubmittedBefore(|data|, |report.accepted|, total, size)
  {
    hide Frames.BuildHavePayload, BlockFrames, Submitted, SubmittedBefore;
    var accepted: seq<Bytes> := [];
    var attempts, retries, wait, bytes := 0, 0, 0, 0;
    Starts(|data|, total, size);
    NothingSubmitted(|data|, total, size);
    for index := 0 to Max(total, 1)
      invariant accepted == BlockFrames(cid, data, total, size)[..index]
      invariant DeliveredBy(outcomes, index, attempts)
      invariant retries == Count(outcomes, attempts, RouteLost) && wait == retries * RETRY_INTERVAL
      invariant bytes == SubmittedBefore(|data|, index, total, size)
    {
      var frame := Frames.BuildHavePayload(cid, data, index, total, size);
      while true
        invariant DeliveredBy(outcomes, index, attempts)
        invariant retries == Count(outcomes, attempts, RouteLost) && wait == retries * RETRY_INTERVAL
        decreases RECOVERY - wait
      {
        var outcome := outcomes(attempts);
        attempts := attempts + 1;
        if outcome.Sent? {
          break;
        }
        if !outcome.RouteLost? || wait >= RECOVERY {
          NotDeliverable(outcomes, Max(total, 1), attempts);
          return false, Report(accepted, attempts, retries, wait, bytes);
        }
        wait := wait + Min(RETRY_INTERVAL, RECOVERY - wait);
        retries := retries + 1;
      }
      assert frame == BlockFrames(cid, data, total, size)[index];
      accepted := accepted + [frame];
      NextSubmitted(|data|, index, total, size);
      bytes := bytes + Submitted(|data|, index, total, size);
    }
    assert accepted == BlockFrames(cid, data, total, size);
    return true, Report(accepted, attempts, retries, wait, bytes);
  }

  lemma NothingSubmitted(len: nat, total: nat, size: nat)
    ensures SubmittedBefore(len, 0, total, size) == 0
  {
  }

  lemma NextSubmitted(len: nat, n: nat, total: nat, size: nat)
    ensures SubmittedBefore(len, n + 1, total, size) == SubmittedBefore(len, n, total, size) + Submitted(len, n, total, size)
  {
  }

  lemma {:induction false} SubmittedSum(len: nat, n: nat, total: nat, size: nat)
    requires 1 < total && n <= total && (total - 1) * size <= len
    ensures SubmittedBefore(len, n, total, size) == Min(len, n * size)
  {
    if n > 0 {
      SubmittedSum(len, n - 1, total, size);
      MulMonotone(n - 1, total - 1, size);
      assert n * size == (n - 1) * size + size;
    }
  }

  /** The counted bytes of a fully sent block are its length exactly when the chunks cover it. */
  lemma SubmittedWhole(len: nat, total: nat, size: nat)
    requires total <= 1 || (total - 1) * size <= len
    ensures SubmittedBefore(len, Max(total, 1), total, size) == len <==> total <= 1 || len <= total * size
  {
    if total <= 1 {
      assert SubmittedBefore(len, 1, total, size) == SubmittedBefore(len, 0, total, size) + len;
    } else {
      SubmittedSum(len, total, total, size);
    }
  }

  /** With the chunk count callers compute, a fully sent block is counted in full. */
  lemma SubmittedLayout(len: nat, size: nat)
    requires size > 0 && Frames.HaveChunkCount(len, size).Some?
    ensures
      var total := Frames.HaveChunkCount(len, size).value;
      && (total <= 1 || (total - 1) * size <= len)
      && SubmittedBefore(len, Max(total, 1), total, size) == len
  {
    Frames.DivCeilBounds(len, size);
    SubmittedWhole(len, Frames.HaveChunkCount(len, size).value, size);
  }

  // ---- what the frames carry ----

  function Payload(raw: Bytes): Bytes {
    match Frames.Classify(raw)
    case Some(Have(_, data)) => data
    case Some(HaveChunk(_, _, _, data)) => data
    case _ => []
  }

  function Carried(frames: seq<Bytes>): Bytes {
    if frames == [] then [] else Carried(frames[..|frames| - 1]) + Payload(frames[|frames| - 1])
  }

  lemma FrameCarries(cid: Bytes, data: Bytes, total: nat, size: nat, i: nat)
    requires Cid.IsValidCid(cid) && size > 0 && total == Frames.DivCeil(|data|, size) <= MAX_WANT_CHUNKS
    requires i < Max(total, 1) && (total <= 1 || i * size <= |data|)
    ensures Frames.Classify(Frames.BuildHavePayload(cid, data, i, total, size)) == Some(Frames.HaveFrame(cid, data, i, total, size))
    ensures Payload(Frames.BuildHavePayload(cid, data, i, total, size))
         == if total <= 1 then data else Frames.Slice(data, size, i)
  {
    hide Cid.IsValidCid, Frames.Classify, Frames.Build, Frames.DivCeil, Frames.Slice;
    Frames.ClassifyBuilt(Frames.HaveFrame(cid, data, i, total, size));
  }

  ghost predicate CarriesSlice(raw: Bytes, data: Bytes, size: nat, i: nat) {
    i * size <= |data| && Payload(raw) == Frames.Slice(data, size, i)
  }

  lemma {:induction false} SlicesJoin(frames: seq<Bytes>, data: Bytes, size: nat, k: nat)
    requires k <= |frames| && forall i: nat :: i < k ==> CarriesSlice(frames[i], data, size, i)
    ensures Carried(frames[..k]) == data[..Min(k * size, |data|)]
  {
    hide Payload, Frames.Slice;
    if k > 0 {
      SlicesJoin(frames, data, size, k - 1);
      assert CarriesSlice(frames[k - 1], data, size, k - 1);
      Frames.NextSlice(data, size, k - 1);
      assert frames[..k][..k - 1] == frames[..k - 1];
    }
  }

  /** The frames of a block, in order, each say which chunk they are, and together carry the block. */
  lemma FramesCarryBlock(cid: Bytes, data: Bytes, size: nat)
    requires Cid.IsValidCid(cid) && size > 0 && Frames.DivCeil(|data|, size) <= MAX_WANT_CHUNKS
    ensures
      var total := Frames.DivCeil(|data|, size);
      && (total <= 1 || (total - 1) * size <= |data|)
      && Carried(BlockFrames(cid, data, total, size)) == data
      && forall i: nat :: i < Max(total, 1) ==>
           (total <= 1 || i * size <= |data|)
           && Frames.Classify(BlockFrames(cid, data, total, size)[i]) == Some(Frames.HaveFrame(cid, data, i, total, size))
  {
    hide Payload, Frames.BuildHavePayload, Frames.DivCeil, Cid.IsValidCid, Frames.HaveFrame, Frames.Classify;
    var total := Frames.DivCeil(|data|, size);
    Frames.DivCeilBounds(|data|, size);
    Starts(|data|, total, size);
    var frames := BlockFrames(cid, data, total, size);
    forall i: nat | i < Max(total, 1)
      ensures Frames.Classify(frames[i]) == Some(Frames.HaveFrame(cid, data, i, total, size))
      ensures total > 1 ==> CarriesSlice(frames[i], data, size, i)
    {
      FrameCarries(cid, data, total, size, i);
      assert total > 1 ==> CarriesSlice(frames[i], data, size, i);
    }
    if total <= 1 {
      FrameCarries(cid, data, total, size, 0);
      assert frames == [frames[0]];
      assert Carried(frames[..0]) == [];
    } else {
      SlicesJoin(frames, data, size, total);
      assert frames[..total] == frames;
    }
  }
}
