/**
 Sequence numbers per destination, drawn and committed under one lock together with the admission of
 the frame that carries them, and the order in which the send queues then start those frames.
 */
module SeqCounters {
  import opened Common
  import opened LaneQueue
  import SendQueues
  import SendQueueInvariant

  const MAX_DESTINATIONS := 1024

  type Peer = SendQueues.Peer

  datatype Counter = Counter(value: nat, lastUsed: int)

  function NextSeq(counters: map<Peer, Counter>, to: Peer): nat {
    if to in counters then counters[to].value + 1 else 1
  }

  predicate Evicts(counters: map<Peer, Counter>, to: Peer) {
    |counters| >= MAX_DESTINATIONS && to !in counters
  }

  predicate Oldest(counters: map<Peer, Counter>, victim: Peer) {
    victim in counters && forall p <- counters :: counters[victim].lastUsed <= counters[p].lastUsed
  }

  /** A successful draw. Among equally old counters any may be the victim. */
  function Committed(counters: map<Peer, Counter>, to: Peer, now: int, victim: Peer): map<Peer, Counter> {
    var kept := if Evicts(counters, to) then counters - {victim} else counters;
    kept[to := Counter(NextSeq(counters, to), now)]
  }

  class Sequencer {
    var counters: map<Peer, Counter>

    constructor ()
      ensures counters == map[]
    {
      counters := map[];
    }

    method FindOldest() returns (victim: Peer)
      requires counters != map[]
      ensures Oldest(counters, victim)
    {
      var rest := counters.Keys;
      victim :| victim in rest;
      rest := rest - {victim};
      while rest != {}
        invariant rest <= counters.Keys && victim in counters
        invariant forall p <- counters :: p !in rest ==> counters[victim].lastUsed <= counters[p].lastUsed
        decreases |rest|
      {
        var p :| p in rest;
        if counters[p].lastUsed < counters[victim].lastUsed {
          victim := p;
        }
        rest := rest - {p};
      }
    }

    /** `accepts` says whether building and committing the frame with that number succeeds. */
    method WithNextSeq(to: Peer, now: int, accepts: nat -> bool) returns (r: Result<nat>)
      requires |counters| <= MAX_DESTINATIONS
      modifies this
      ensures |counters| <= MAX_DESTINATIONS
      ensures var number := NextSeq(old(counters), to);
        if accepts(number) then
          && r == Ok(number)
          && exists victim :: (Evicts(old(counters), to) ==> Oldest(old(counters), victim))
                           && counters == Committed(old(counters), to, now, victim)
        else r == Err && counters == old(counters)
    {
      var number := if to in counters then counters[to].value + 1 else 1;
      if !accepts(number) {
        return Err;
      }
      var victim := to;
      if |counters| >= MAX_DESTINATIONS && to !in counters {
        victim := FindOldest();
        CommittedSize(counters, to, now, victim);
        counters := counters - {victim};
      } else {
        CommittedSize(counters, to, now, victim);
      }
      counters := counters[to := Counter(number, now)];
      return Ok(number);
    }
  }

  lemma CommittedSize(counters: map<Peer, Counter>, to: Peer, now: int, victim: Peer)
    requires |counters| <= MAX_DESTINATIONS && (Evicts(counters, to) ==> victim in counters)
    ensures |Committed(counters, to, now, victim)| <= MAX_DESTINATIONS
  {
    if Evicts(counters, to) {
      assert (counters - {victim}).Keys == counters.Keys - {victim};
      UpdateSize(counters - {victim}, to, Counter(NextSeq(counters, to), now));
    } else {
      UpdateSize(counters, to, Counter(NextSeq(counters, to), now));
    }
  }

  // ---- building a frame ----

  datatype Delivery = ReliableOrdered | ReliableUnordered | Unreliable

  datatype Message = Message(to: Peer, broadcast: bool, delivery: Delivery, lane: Lane, tag: nat)

  datatype Flags = Flags(unsequencedBulk: bool, bulkChannel: bool)

  function StorageDelivery(delivery: Delivery, lane: Lane, number: nat, bulkChannel: bool): Delivery {
    if bulkChannel && delivery == ReliableOrdered && lane == Bulk && number == 0 then ReliableUnordered else delivery
  }

  predicate Sequenced(m: Message, flags: Flags) {
    m.delivery == ReliableOrdered && !m.broadcast && !(flags.unsequencedBulk && m.lane == Bulk)
  }

  function FrameOf(m: Message, flags: Flags, stamp: Option<Stamp>, number: nat): Frame {
    Frame(m.tag, stamp, m.lane, m.lane == Bulk && number == 0,
          StorageDelivery(m.delivery, m.lane, number, flags.bulkChannel) == ReliableUnordered)
  }

  // ---- the router on top of the send queues ----

  /** `epochs` counts the evictions of each destination and `log` the numbers handed out, in order. */
  datatype System = System(
    net: SendQueues.State,
    counters: map<Peer, Counter>,
    epochs: map<Peer, nat>,
    log: seq<Stamp>)

  const Initial := System(SendQueues.Initial, map[], map[], [])

  /** `valid` is false when encoding or the caller's validation fails before the commit. */
  datatype Event =
    | Queue(event: SendQueues.Event)
    | Dispatch(message: Message, flags: Flags, now: int, victim: Peer, lease: nat, valid: bool)

  function Epoch(s: System, to: Peer): nat {
    if to in s.epochs then s.epochs[to] else 0
  }

  function NextStamp(s: System, to: Peer): Stamp {
    Stamp(to, Epoch(s, to), NextSeq(s.counters, to))
  }

  predicate Admits(net: SendQueues.State, l: nat) {
    SendQueues.LeaseIn(net, l, {SendQueues.Held}) && !net.queues[net.leases[l].queue].closed
  }

  function Drawn(s: System, to: Peer, now: int, victim: Peer): System {
    s.(counters := Committed(s.counters, to, now, victim),
       epochs := if Evicts(s.counters, to) then s.epochs[victim := Epoch(s, victim) + 1] else s.epochs,
       log := s.log + [NextStamp(s, to)])
  }

  function DispatchFrame(s: System, m: Message, flags: Flags): Frame {
    if Sequenced(m, flags) then FrameOf(m, flags, Some(NextStamp(s, m.to)), NextSeq(s.counters, m.to))
    else FrameOf(m, flags, None, 0)
  }

  function Step(s: System, e: Event): System {
    match e
    case Queue(n) =>
      if n.Admit? && n.frame.stamp.Some? then s else s.(net := SendQueues.Step(s.net, n))
    case Dispatch(m, flags, now, victim, l, valid) =>
      if !valid || (Evicts(s.counters, m.to) && !Oldest(s.counters, victim)) then s
      else
        var after := s.(net := SendQueues.Step(s.net, SendQueues.Admit(l, DispatchFrame(s, m, flags))));
        if Sequenced(m, flags) && Admits(s.net, l) then Drawn(after, m.to, now, victim) else after
  }

  function Run(s: System, events: seq<Event>): System
    decreases |events|
  {
    if events == [] then s else Run(Step(s, events[0]), events[1..])
  }

  // ---- order ----

  /** The numbers of one destination among some frames. */
  function Stamps(frames: seq<Frame>, to: Peer): seq<Stamp> {
    if frames == [] then []
    else
      var last := frames[|frames| - 1].stamp;
      Stamps(frames[..|frames| - 1], to) + (if last.Some? && last.value.dest == to then [last.value] else [])
  }

  predicate Before(a: Stamp, b: Stamp) {
    a.epoch < b.epoch || (a.epoch == b.epoch && a.number < b.number)
  }

  ghost predicate Increasing(stamps: seq<Stamp>) {
    forall i, j :: 0 <= i < j < |stamps| ==> Before(stamps[i], stamps[j])
  }

  /** Sequenced frames never qualify for the independent writer. */
  ghost predicate StampedStayOrdered(frames: seq<Frame>) {
    forall f <- frames :: f.stamp.Some? ==> !f.reliableUnordered && !f.unsequencedBulk
  }

  ghost predicate QueueOrdered(s: System, q: SendQueues.Queue) {
    && StampedStayOrdered(q.pushed)
    && forall to: Peer {:trigger Stamps(q.pushed, to)} ::
         && Increasing(Stamps(q.pushed, to))
         && forall x <- Stamps(q.pushed, to) :: Before(x, NextStamp(s, to))
  }

  ghost predicate Inv(s: System) {
    && SendQueueInvariant.Inv(s.net)
    && |s.counters| <= MAX_DESTINATIONS
    && forall q <- s.net.queues :: QueueOrdered(s, s.net.queues[q])
  }

  lemma StampsNext(frames: seq<Frame>, f: Frame, to: Peer)
    ensures Stamps(frames + [f], to)
         == Stamps(frames, to) + (if f.stamp.Some? && f.stamp.value.dest == to then [f.stamp.value] else [])
  {
    assert (frames + [f])[..|frames|] == frames;
  }

  lemma {:induction false} StampsAppend(xs: seq<Frame>, ys: seq<Frame>, to: Peer)
    ensures Stamps(xs + ys, to) == Stamps(xs, to) + Stamps(ys, to)
  {
    hide Stamps;
    if ys == [] {
      assert xs + ys == xs;
      StampsOfNone(to);
    } else {
      var last := ys[|ys| - 1];
      var rest := ys[..|ys| - 1];
      StampsAppend(xs, rest, to);
      StampsNext(xs + rest, last, to);
      StampsNext(rest, last, to);
      assert (xs + rest) + [last] == xs + ys && rest + [last] == ys;
    }
  }

  lemma StampsOfNone(to: Peer)
    ensures Stamps([], to) == []
  {
  }

  lemma StampOfOne(f: Frame, priority: bool, to: Peer)
    requires f.stamp.Some? ==> !f.reliableUnordered && !f.unsequencedBulk
    ensures Stamps(Class([f], priority, false), to) == Stamps([f], to)
    ensures Stamps(Class([f], priority, true), to) == []
  {
    assert [f][1..] == [] && [f][..0] == [];
    assert Class([f], priority, Independent(priority, f)) == [f];
    assert Class([f], priority, !Independent(priority, f)) == [];
    StampsNext([], f, to);
  }

  /** All stamped frames of a queue are in its ordered lane. */
  lemma {:induction false} StampsOfClass(frames: seq<Frame>, priority: bool, to: Peer)
    requires StampedStayOrdered(frames)
    ensures Stamps(Class(frames, priority, false), to) == Stamps(frames, to)
    ensures Stamps(Class(frames, priority, true), to) == []
  {
    hide Class, Stamps;
    if frames == [] {
      StampsOfNone(to);
      ClassOfNone(priority);
    } else {
      var n := |frames| - 1;
      var front, last := frames[..n], frames[n];
      assert frames == front + [last];
      StampsOfClass(front, priority, to);
      StampOfOne(last, priority, to);
      StampsAppend(front, [last], to);
      forall bulk: bool
        ensures Stamps(Class(frames, priority, bulk), to)
             == Stamps(Class(front, priority, bulk), to) + Stamps(Class([last], priority, bulk), to)
      {
        ClassAppend(front, [last], priority, bulk);
        StampsAppend(Class(front, priority, bulk), Class([last], priority, bulk), to);
      }
    }
  }

  lemma ClassOfNone(priority: bool)
    ensures Class([], priority, false) == [] && Class([], priority, true) == []
  {
  }

  // ---- every run ----

  /** Numbers only move forward: a draw, an eviction or a failed attempt never repeats a stamp. */
  lemma NextMoves(s: System, e: Event, to: Peer)
    ensures NextStamp(Step(s, e), to) == NextStamp(s, to) || Before(NextStamp(s, to), NextStamp(Step(s, e), to))
  {
    hide SendQueues.Step;
  }

  lemma OrderedLater(s: System, u: System, q: SendQueues.Queue)
    requires QueueOrdered(s, q)
    requires forall to: Peer {:trigger NextStamp(u, to)} ::
               NextStamp(u, to) == NextStamp(s, to) || Before(NextStamp(s, to), NextStamp(u, to))
    ensures QueueOrdered(u, q)
  {
    hide NextStamp, Stamps;
    forall to: Peer, x | x in Stamps(q.pushed, to)
      ensures Before(x, NextStamp(u, to))
    {
    }
  }

  /** The queues are as they were, or new and without frames. */
  ghost predicate SameFrames(net: SendQueues.State, u: SendQueues.State) {
    && SendQueueInvariant.Indexed(u) && net.queues.Keys <= u.queues.Keys && net.unused <= u.unused
    && forall q <- u.queues :: u.queues[q].pushed == if q in net.queues then net.queues[q].pushed else []
  }

  lemma ReplacedFrames(net: SendQueues.State, p: Peer, g: Option<nat>)
    requires SendQueueInvariant.Indexed(net)
    ensures SameFrames(net, SendQueues.Replaced(net, p, g))
  {
  }

  lemma PrunedFrames(net: SendQueues.State, spared: set<Peer>)
    requires SendQueueInvariant.Indexed(net)
    ensures SameFrames(net, SendQueues.Pruned(net, spared))
  {
  }

  lemma EnteredFrames(net: SendQueues.State, p: Peer, g: Option<nat>, priority: bool)
    requires SendQueueInvariant.Indexed(net)
    ensures SameFrames(net, SendQueues.Entered(net, p, g, priority))
  {
  }

  lemma LeasedFrames(net: SendQueues.State, p: Peer)
    requires SendQueueInvariant.Indexed(net)
    ensures SameFrames(net, SendQueues.Leased(net, p))
  {
  }

  lemma LeaseKeepsPushed(net: SendQueues.State, e: SendQueues.Event, q: nat)
    requires SendQueueInvariant.Indexed(net) && q in SendQueues.Step(net, e).queues && e.TakeLease?
    ensures SendQueues.Step(net, e).queues[q].pushed == if q in net.queues then net.queues[q].pushed else []
  {
    hide SendQueues.Replaced, SendQueues.Pruned, SendQueues.Entered, SendQueues.Leased, SendQueueInvariant.Indexed;
    var a := SendQueues.Replaced(net, e.peer, e.generation);
    var b := SendQueues.Pruned(a, e.spared);
    var c := SendQueues.Entered(b, e.peer, e.generation, e.priority);
    ReplacedFrames(net, e.peer, e.generation);
    PrunedFrames(a, e.spared);
    EnteredFrames(b, e.peer, e.generation, e.priority);
    LeasedFrames(c, e.peer);
  }

  /** Of all events only an admission changes what a queue has been given, and it adds one frame. */
  lemma PushedOnly(net: SendQueues.State, e: SendQueues.Event, q: nat)
    requires SendQueueInvariant.Inv(net) && q in SendQueues.Step(net, e).queues
    ensures
      var was := if q in net.queues then net.queues[q].pushed else [];
      SendQueues.Step(net, e).queues[q].pushed ==
        was + (if e.Admit? && Admits(net, e.lease) && net.leases[e.lease].queue == q then [e.frame] else [])
  {
    hide SendQueueInvariant.QueueOk, SendQueueInvariant.TaskOk, SendQueueInvariant.Accounted;
    hide SendQueueInvariant.Indexed, SendQueueInvariant.OneTask, Pop, Push, SendQueues.MayExit;
    hide SendQueues.Leased, SendQueues.Entered, SendQueues.Pruned, SendQueues.Replaced;
    if e.TakeLease? {
      LeaseKeepsPushed(net, e, q);
    }
  }

  lemma PushStamped(s: System, u: System, q: SendQueues.Queue, r: SendQueues.Queue, f: Frame, to: Peer)
    requires QueueOrdered(s, q) && f.stamp == Some(NextStamp(s, to)) && !f.reliableUnordered && !f.unsequencedBulk
    requires r.pushed == q.pushed + [f] && Before(NextStamp(s, to), NextStamp(u, to))
    requires forall d: Peer {:trigger NextStamp(u, d)} ::
               NextStamp(u, d) == NextStamp(s, d) || Before(NextStamp(s, d), NextStamp(u, d))
    ensures QueueOrdered(u, r)
  {
    hide Stamps;
    forall d: Peer
      ensures Increasing(Stamps(r.pushed, d)) && forall x <- Stamps(r.pushed, d) :: Before(x, NextStamp(u, d))
    {
      StampsNext(q.pushed, f, d);
      assert Increasing(Stamps(q.pushed, d));
      assert forall x <- Stamps(q.pushed, d) :: Before(x, NextStamp(s, d));
    }
  }

  lemma PushUnstamped(s: System, q: SendQueues.Queue, r: SendQueues.Queue, f: Frame)
    requires QueueOrdered(s, q) && f.stamp == None && r.pushed == q.pushed + [f]
    ensures QueueOrdered(s, r)
  {
    hide Stamps, NextStamp;
    forall d: Peer
      ensures Stamps(r.pushed, d) == Stamps(q.pushed, d)
    {
      StampsNext(q.pushed, f, d);
    }
  }

  lemma NewOrdered(s: System, q: SendQueues.Queue)
    requires q.pushed == []
    ensures QueueOrdered(s, q)
  {
  }

  lemma SamePushed(s: System, q: SendQueues.Queue, r: SendQueues.Queue)
    requires QueueOrdered(s, q) && r.pushed == q.pushed
    ensures QueueOrdered(s, r)
  {
  }

  lemma QueueEventOrdered(s: System, n: SendQueues.Event, q: nat)
    requires Inv(s) && q in SendQueues.Step(s.net, n).queues && (n.Admit? ==> n.frame.stamp == None)
    ensures QueueOrdered(s, SendQueues.Step(s.net, n).queues[q])
  {
    hide SendQueues.Step, QueueOrdered, SendQueueInvariant.Inv;
    PushedOnly(s.net, n, q);
    var r := SendQueues.Step(s.net, n).queues[q];
    if q !in s.net.queues {
      FreshQueue(s.net, n, q);
      NewOrdered(s, r);
    } else if n.Admit? && Admits(s.net, n.lease) && s.net.leases[n.lease].queue == q {
      PushUnstamped(s, s.net.queues[q], r, n.frame);
    } else {
      SamePushed(s, s.net.queues[q], r);
    }
  }

  lemma FreshQueue(net: SendQueues.State, e: SendQueues.Event, q: nat)
    requires SendQueueInvariant.Inv(net) && q in SendQueues.Step(net, e).queues && q !in net.queues
    ensures !e.Admit?
  {
    hide SendQueueInvariant.Inv, Pop, Push, SendQueues.MayExit;
  }

  lemma DispatchOrdered(s: System, e: Event, q: nat)
    requires Inv(s) && e.Dispatch? && Sequenced(e.message, e.flags) && Admits(s.net, e.lease)
    requires e.valid && (Evicts(s.counters, e.message.to) ==> Oldest(s.counters, e.victim))
    requires q in Step(s, e).net.queues
    ensures QueueOrdered(Step(s, e), Step(s, e).net.queues[q])
  {
    hide SendQueues.Step, QueueOrdered, SendQueueInvariant.Inv, Oldest;
    var n := SendQueues.Admit(e.lease, DispatchFrame(s, e.message, e.flags));
    var u := Step(s, e);
    PushedOnly(s.net, n, q);
    if q !in s.net.queues {
      FreshQueue(s.net, n, q);
    }
    forall to: Peer
      ensures NextStamp(u, to) == NextStamp(s, to) || Before(NextStamp(s, to), NextStamp(u, to))
    {
      NextMoves(s, e, to);
    }
    if s.net.leases[e.lease].queue == q {
      PushStamped(s, u, s.net.queues[q], u.net.queues[q], n.frame, e.message.to);
    } else {
      OrderedLater(s, u, s.net.queues[q]);
      SamePushed(u, s.net.queues[q], u.net.queues[q]);
    }
  }

  lemma RefusedFrame(net: SendQueues.State, l: nat, f: Frame, g: Frame)
    requires !Admits(net, l)
    ensures SendQueues.Step(net, SendQueues.Admit(l, f)) == SendQueues.Step(net, SendQueues.Admit(l, g))
  {
  }

  lemma StepInv(s: System, e: Event)
    requires Inv(s)
    ensures Inv(Step(s, e))
  {
    hide SendQueues.Step, QueueOrdered, SendQueueInvariant.Inv, Oldest;
    var u := Step(s, e);
    match e
    case Queue(n) =>
      SendQueueInvariant.StepInv(s.net, n);
      forall q | q in u.net.queues ensures QueueOrdered(u, u.net.queues[q]) {
        if u.net != s.net {
          QueueEventOrdered(s, n, q);
          SameNext(s, u, u.net.queues[q]);
        }
      }
    case Dispatch(m, flags, now, victim, l, valid) =>
      DispatchInv(s, e);
  }

  lemma SameNext(s: System, u: System, q: SendQueues.Queue)
    requires QueueOrdered(s, q) && u.counters == s.counters && u.epochs == s.epochs
    ensures QueueOrdered(u, q)
  {
    hide Stamps, Before;
    assert forall to: Peer :: NextStamp(u, to) == NextStamp(s, to);
  }

  lemma DispatchInv(s: System, e: Event)
    requires Inv(s) && e.Dispatch?
    ensures Inv(Step(s, e))
  {
    hide SendQueues.Step, QueueOrdered, SendQueueInvariant.Inv;
    var u := Step(s, e);
    var m := e.message;
    var f := DispatchFrame(s, m, e.flags);
    SendQueueInvariant.StepInv(s.net, SendQueues.Admit(e.lease, f));
    if u != s {
      if Sequenced(m, e.flags) && Admits(s.net, e.lease) {
        CommittedSize(s.counters, m.to, e.now, e.victim);
        forall q | q in u.net.queues ensures QueueOrdered(u, u.net.queues[q]) {
          DispatchOrdered(s, e, q);
        }
      } else {
        var plain := f.(stamp := None);
        if f.stamp.Some? {
          RefusedFrame(s.net, e.lease, f, plain);
        }
        forall q | q in u.net.queues ensures QueueOrdered(u, u.net.queues[q]) {
          QueueEventOrdered(s, SendQueues.Admit(e.lease, plain), q);
          SameNext(s, u, u.net.queues[q]);
        }
      }
    }
  }

  lemma {:induction false} RunInv(s: System, events: seq<Event>)
    requires Inv(s)
    ensures Inv(Run(s, events))
    decreases |events|
  {
    hide Inv, Step;
    if events != [] {
      StepInv(s, events[0]);
      RunInv(Step(s, events[0]), events[1..]);
    }
  }

  /** The counters of at most 1024 destinations are kept, whatever happens. */
  lemma CountersBounded(events: seq<Event>)
    ensures |Run(Initial, events).counters| <= MAX_DESTINATIONS
  {
    RunInv(Initial, events);
  }

  /**
   Sequenced frames of one destination start on one queue in strictly increasing order, epoch by
   epoch, and never on the independent writer.
   */
  lemma OrderedSubmission(events: seq<Event>, q: nat, to: Peer)
    requires q in Run(Initial, events).net.queues
    ensures
      var popped := Run(Initial, events).net.queues[q].popped;
      Increasing(Stamps(Taken(popped, false), to)) && Stamps(Taken(popped, true), to) == []
  {
    hide SendQueues.Run, Taken, Class, Stamps;
    RunInv(Initial, events);
    var s := Run(Initial, events);
    var queue := s.net.queues[q];
    LanePrefix(s.net, q, false);
    LanePrefix(s.net, q, true);
    assert QueueOrdered(s, queue);
    assert Increasing(Stamps(queue.pushed, to));
    StampsOfClass(queue.pushed, queue.priority, to);
    StampsPrefix(Taken(queue.popped, false), Class(queue.pushed, queue.priority, false), to);
    StampsPrefix(Taken(queue.popped, true), Class(queue.pushed, queue.priority, true), to);
  }

  lemma LanePrefix(net: SendQueues.State, q: nat, bulk: bool)
    requires SendQueueInvariant.Inv(net) && q in net.queues
    ensures Taken(net.queues[q].popped, bulk) <= Class(net.queues[q].pushed, net.queues[q].priority, bulk)
  {
    hide Taken, Class;
    assert SendQueueInvariant.Accounted(net.queues[q]);
  }

  lemma StampsPrefix(xs: seq<Frame>, ys: seq<Frame>, to: Peer)
    requires xs <= ys
    ensures Stamps(xs, to) <= Stamps(ys, to)
  {
    StampsAppend(xs, ys[|xs|..], to);
    assert ys == xs + ys[|xs|..];
  }

  // ---- nothing is skipped ----

  function ForDest(log: seq<Stamp>, to: Peer): seq<Stamp> {
    if log == [] then []
    else ForDest(log[..|log| - 1], to) + (if log[|log| - 1].dest == to then [log[|log| - 1]] else [])
  }

  predicate Follows(a: Stamp, b: Stamp) {
    (b.epoch == a.epoch && b.number == a.number + 1) || (b.epoch > a.epoch && b.number == 1)
  }

  ghost predicate Chain(stamps: seq<Stamp>) {
    && (stamps != [] ==> stamps[0].number == 1)
    && forall i :: 0 < i < |stamps| ==> Follows(stamps[i - 1], stamps[i])
  }

  /** The numbers a destination was given, then the one it gets next: 1, 2, 3 and so on in every epoch. */
  ghost predicate Gapless(s: System, to: Peer) {
    Chain(ForDest(s.log, to) + [NextStamp(s, to)])
  }

  lemma GaplessStep(s: System, e: Event, to: Peer)
    requires Gapless(s, to)
    ensures Gapless(Step(s, e), to)
  {
    var u := Step(s, e);
    LogStep(s, e, to);
    hide Step, Chain, ForDest, NextStamp, Follows;
    if u.log != s.log {
      GaplessNext(s, e, to);
      ChainNext(ForDest(s.log, to), NextStamp(s, to), NextStamp(u, to), e.message.to == to);
    }
  }

  /** A number is logged when it is drawn; without a draw the next number stays what it is. */
  lemma LogStep(s: System, e: Event, to: Peer)
    ensures
      var u := Step(s, e);
      if u.log == s.log then NextStamp(u, to) == NextStamp(s, to)
      else e.Dispatch?
           && ForDest(u.log, to) == ForDest(s.log, to) + (if e.message.to == to then [NextStamp(s, to)] else [])
  {
    hide Step;
    var u := Step(s, e);
    if Draws(s, e) {
      DrawShape(s, e);
      assert u.log[..|s.log|] == s.log;
    } else {
      NoDraw(s, e);
    }
  }

  lemma GaplessNext(s: System, e: Event, to: Peer)
    requires Step(s, e).log != s.log
    ensures
      var a, b := NextStamp(s, to), NextStamp(Step(s, e), to);
      if e.message.to == to then Follows(a, b) else a == b || (b.epoch == a.epoch + 1 && b.number == 1)
  {
    hide SendQueues.Step, FrameOf;
  }

  lemma ChainNext(xs: seq<Stamp>, a: Stamp, b: Stamp, drawn: bool)
    requires Chain(xs + [a])
    requires if drawn then Follows(a, b) else a == b || (b.epoch == a.epoch + 1 && b.number == 1)
    ensures Chain(xs + (if drawn then [a] else []) + [b])
  {
    var ys := xs + [a];
    var zs := xs + (if drawn then [a] else []) + [b];
    if xs != [] {
      assert Follows(ys[|xs| - 1], ys[|xs|]);
    }
    assert ys[0].number == 1;
    forall i | 0 < i < |zs|
      ensures Follows(zs[i - 1], zs[i])
    {
      if i < |xs| {
        assert Follows(ys[i - 1], ys[i]);
      }
    }
  }

  /** Failed attempts use up no number: in every epoch a destination's numbers are 1, 2, 3, and so on. */
  lemma {:induction false} NumbersGapless(s: System, events: seq<Event>, to: Peer)
    requires Gapless(s, to)
    ensures Gapless(Run(s, events), to)
    decreases |events|
  {
    hide Gapless, Step;
    if events != [] {
      GaplessStep(s, events[0], to);
      NumbersGapless(Step(s, events[0]), events[1..], to);
    }
  }

  lemma NumbersStartAtOne(events: seq<Event>, to: Peer)
    ensures Gapless(Run(Initial, events), to)
  {
    assert ForDest([], to) == [];
    NumbersGapless(Initial, events, to);
  }

  // ---- which counter is given up ----

  /** Position of the last number drawn for this destination, or -1. */
  function Last(log: seq<Stamp>, to: Peer): (i: int)
    ensures -1 <= i < |log| && (i >= 0 ==> log[i].dest == to)
    ensures forall j :: i < j < |log| ==> log[j].dest != to
  {
    if log == [] then -1
    else if log[|log| - 1].dest == to then |log| - 1
    else Last(log[..|log| - 1], to)
  }

  predicate Draws(s: System, e: Event) {
    Step(s, e).log != s.log
  }

  /** When each number of the run was drawn. */
  function DrawTimes(s: System, events: seq<Event>): seq<int>
    decreases |events|
  {
    if events == [] then []
    else (if events[0].Dispatch? && Draws(s, events[0]) then [events[0].now] else []) + DrawTimes(Step(s, events[0]), events[1..])
  }

  /** A counter carries the time of the last draw for its destination. */
  ghost predicate Dated(s: System, times: seq<int>) {
    && |times| == |s.log|
    && forall p <- s.counters :: Last(s.log, p) >= 0 && s.counters[p].lastUsed == times[Last(s.log, p)]
  }

  lemma LastNext(log: seq<Stamp>, x: Stamp, to: Peer)
    ensures Last(log + [x], to) == if x.dest == to then |log| else Last(log, to)
  {
    assert (log + [x])[..|log|] == log;
  }

  /** What a draw does to the log and to the counters of the other destinations. */
  lemma DrawShape(s: System, e: Event)
    requires Draws(s, e)
    ensures
      var u := Step(s, e);
      && e.Dispatch? && u.log == s.log + [NextStamp(s, e.message.to)]
      && e.message.to in u.counters && u.counters[e.message.to].lastUsed == e.now
      && (forall p <- u.counters :: p != e.message.to ==> p in s.counters && u.counters[p] == s.counters[p])
      && (forall v <- s.counters :: v !in u.counters ==>
            |s.counters| >= 1024 && e.message.to !in s.counters && v == e.victim && Oldest(s.counters, v))
  {
    hide SendQueues.Step, FrameOf, Oldest;
  }

  lemma NoDraw(s: System, e: Event)
    requires !Draws(s, e)
    ensures Step(s, e).counters == s.counters && Step(s, e).epochs == s.epochs && Step(s, e).log == s.log
  {
    hide SendQueues.Step, FrameOf, Oldest;
  }

  lemma StepDated(s: System, e: Event, times: seq<int>)
    requires Dated(s, times)
    ensures Dated(Step(s, e), times + (if e.Dispatch? && Draws(s, e) then [e.now] else []))
  {
    hide Step, Draws, Last;
    if Draws(s, e) {
      DrawShape(s, e);
      var u := Step(s, e);
      forall p | p in u.counters
        ensures Last(u.log, p) >= 0 && u.counters[p].lastUsed == (times + [e.now])[Last(u.log, p)]
      {
        LastNext(s.log, NextStamp(s, e.message.to), p);
      }
    } else {
      NoDraw(s, e);
    }
  }

  lemma {:induction false} RunDated(s: System, events: seq<Event>, times: seq<int>)
    requires Dated(s, times)
    ensures Dated(Run(s, events), times + DrawTimes(s, events))
    decreases |events|
  {
    hide Dated, Step, Draws;
    if events == [] {
      assert times + [] == times;
    } else {
      var e := events[0];
      StepDated(s, e, times);
      var drawn := if e.Dispatch? && Draws(s, e) then [e.now] else [];
      RunDated(Step(s, e), events[1..], times + drawn);
      assert times + drawn + DrawTimes(Step(s, e), events[1..]) == times + DrawTimes(s, events);
    }
  }

  predicate NotBack(times: seq<int>) {
    forall i, j :: 0 <= i < j < |times| ==> times[i] <= times[j]
  }

  /**
   In every run whose clock does not step back, a counter is given up only for a new destination when
   1024 have one; and no destination with a counter was drawn for longer ago than the one given up,
   except at the same instant.
   */
  lemma EvictsLeastRecent(events: seq<Event>, e: Event, victim: Peer)
    requires NotBack(DrawTimes(Initial, events))
    requires victim in Run(Initial, events).counters && victim !in Step(Run(Initial, events), e).counters
    ensures
      var s := Run(Initial, events);
      var times := DrawTimes(Initial, events);
      && |times| == |s.log| && |s.counters| == 1024 && e.Dispatch? && e.message.to !in s.counters
      && forall p <- s.counters ::
           && 0 <= Last(s.log, p) && 0 <= Last(s.log, victim)
           && (Last(s.log, victim) <= Last(s.log, p) || times[Last(s.log, victim)] == times[Last(s.log, p)])
  {
    hide Step, Draws, Last, Run, DrawTimes;
    var s := Run(Initial, events);
    var times := DrawTimes(Initial, events);
    RunDated(Initial, events, []);
    assert [] + times == times;
    CountersBounded(events);
    if !Draws(s, e) {
      NoDraw(s, e);
    }
    DrawShape(s, e);
  }

  /** Only the victim leaves, so exactly one counter goes for each new one at the bound. */
  lemma OneLeaves(s: System, e: Event, v: Peer, w: Peer)
    requires v in s.counters && w in s.counters && v !in Step(s, e).counters && w !in Step(s, e).counters
    ensures v == w
  {
    hide Step, Draws, Oldest;
    if !Draws(s, e) {
      NoDraw(s, e);
    }
    DrawShape(s, e);
  }

  // ---- which frames are numbered, and which may use the independent writer ----

  /** A number is drawn exactly for an admitted reliable ordered unicast frame, unless unsequenced Bulk is on and it is Bulk. */
  lemma DrawnExactly(s: System, e: Event)
    requires e.Dispatch? && e.valid && (Evicts(s.counters, e.message.to) ==> Oldest(s.counters, e.victim))
    ensures
      var m := e.message;
      Draws(s, e) <==>
        m.delivery == ReliableOrdered && !m.broadcast && !(e.flags.unsequencedBulk && m.lane == Bulk) && Admits(s.net, e.lease)
  {
    hide SendQueues.Step, FrameOf, Oldest;
    assert |s.log + [NextStamp(s, e.message.to)]| == |s.log| + 1;
  }

  /**
   A frame is for the independent writer exactly if it was asked to be unordered, or is unnumbered Bulk
   with the bulk channel on; and it is unsequenced Bulk exactly if it is Bulk without a number.
   */
  lemma IndependentExactly(s: System, m: Message, flags: Flags)
    ensures
      var f := DispatchFrame(s, m, flags);
      var numbered := m.delivery == ReliableOrdered && !m.broadcast && !(flags.unsequencedBulk && m.lane == Bulk);
      && f.lane == m.lane && f.tag == m.tag
      && (f.stamp.Some? <==> numbered)
      && (f.unsequencedBulk <==> m.lane == Bulk && !numbered)
      && (f.reliableUnordered <==>
            m.delivery == ReliableUnordered
            || (flags.bulkChannel && m.delivery == ReliableOrdered && m.lane == Bulk && !numbered))
  {
  }
}
