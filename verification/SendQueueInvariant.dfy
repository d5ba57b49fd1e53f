/** What every interleaving of the send queues keeps. */
module SendQueueInvariant {
  import opened Common
  import opened SendQueues
  import LaneQueue

  // ---- the invariant ----

  predicate Counted(l: Lease, q: nat) {
    l.queue == q && l.phase != Dropped
  }

  function OnQueue(q: nat): Lease -> nat {
    (l: Lease) => if Counted(l, q) then 1 else 0
  }

  /** Leases that can still admit to a queue or have yet to be dropped. */
  ghost function Leases(s: State, q: nat): nat {
    Sum(s.leases, OnQueue(q))
  }

  ghost predicate HasTask(s: State, q: nat) {
    exists t :: t in s.tasks && s.tasks[t].queue == q
  }

  predicate InMap(s: State, q: nat)
    requires q in s.queues
  {
    s.queues[q].peer in s.entries && s.entries[s.queues[q].peer] == q
  }

  /** A wake-up is stored, or some lease is about to store one. */
  ghost predicate Alerted(s: State, q: nat)
    requires q in s.queues
  {
    s.queues[q].permit || exists l :: l in s.leases && Alerting(s.leases[l], q)
  }

  predicate Alerting(l: Lease, q: nat) {
    l.queue == q && l.phase in {Admitted, Dropped}
  }

  function InFlight(writes: seq<LaneQueue.Popped>, bulk: bool): nat {
    if writes == [] then 0
    else InFlight(writes[..|writes| - 1], bulk) + (if writes[|writes| - 1].bulk == bulk then 1 else 0)
  }

  ghost predicate Indexed(s: State) {
    && (forall p <- s.entries :: s.entries[p] in s.queues
          && s.queues[s.entries[p]].peer == p && !s.queues[s.entries[p]].closed)
    && (forall q <- s.queues :: q < s.unused)
    && (forall l <- s.leases :: l < s.unused && s.leases[l].queue in s.queues)
    && (forall t <- s.tasks :: t < s.unused && s.tasks[t].queue in s.queues)
  }

  ghost predicate OneTask(s: State) {
    forall t, u :: t in s.tasks && u in s.tasks && s.tasks[t].queue == s.tasks[u].queue ==> t == u
  }

  /** Admitted frames are the started ones followed by the waiting ones, lane by lane. */
  ghost predicate Ledger(q: Queue, bulk: bool) {
    if q.closed then LaneQueue.Taken(q.popped, bulk) <= LaneQueue.Class(q.pushed, q.priority, bulk)
    else q.lanes.priority == q.priority && LaneQueue.Fifo(LaneQueue.Trace(q.lanes, q.pushed, q.popped), bulk)
  }

  ghost predicate Accounted(q: Queue) {
    && (!q.running || q.closed ==> q.lanes.frames == [])
    && (!q.running ==> q.pushed == [] && q.popped == [])
    && Ledger(q, true) && Ledger(q, false)
  }

  /** A queue whose worker is gone is out of reach: closed, or out of the map with no lease and no frame. */
  ghost predicate QueueOk(s: State, q: nat)
    requires q in s.queues
  {
    && s.queues[q].reservations == Leases(s, q)
    && (HasTask(s, q) ==> s.queues[q].running)
    && (s.queues[q].running && !HasTask(s, q) && !s.queues[q].closed ==>
          !InMap(s, q) && s.queues[q].reservations == 0 && s.queues[q].lanes.frames == [])
  }

  ghost predicate StartOk(s: State, t: Task) {
    t.phase.Starting? ==>
      && t.writes == [] && t.phase.lease < s.unused
      && (t.phase.lease in s.leases ==>
            s.leases[t.phase.lease].queue == t.queue && s.leases[t.phase.lease].phase != Held)
  }

  ghost predicate BusyOk(t: Task) {
    && InFlight(t.writes, true) == (if t.bulkBusy then 1 else 0)
    && InFlight(t.writes, false) == (if t.orderedBusy then 1 else 0)
  }

  predicate CanPop(q: Queue, t: Task) {
    LaneQueue.Pop(q.lanes, !t.orderedBusy, !t.bulkBusy).1.Some?
  }

  /** No wake-up is lost: a worker past its check with a reason to look again has been, or will be, woken. */
  ghost predicate WakeOk(s: State, t: Task)
    requires t.queue in s.queues
  {
    var q := s.queues[t.queue];
    && ((t.phase.Popping? || t.phase.Parked?) && (q.closed || MayExit(q, t)) ==> Alerted(s, t.queue))
    && (t.phase.Parked? && CanPop(q, t) ==> Alerted(s, t.queue))
  }

  ghost predicate TaskOk(s: State, t: Task)
    requires t.queue in s.queues
  {
    StartOk(s, t) && BusyOk(t) && WakeOk(s, t)
  }

  ghost predicate Inv(s: State) {
    && Indexed(s)
    && OneTask(s)
    && (forall q <- s.queues :: QueueOk(s, q) && Accounted(s.queues[q]))
    && (forall t <- s.tasks :: TaskOk(s, s.tasks[t]))
  }

  // ---- counting ----

  lemma LeaseUpdate(s: State, l: nat, v: Lease, q: nat)
    ensures Sum(s.leases[l := v], OnQueue(q))
         == Leases(s, q) - (if l in s.leases && Counted(s.leases[l], q) then 1 else 0) + OnQueue(q)(v)
  {
    SumUpdate(s.leases, OnQueue(q), l, v);
  }

  lemma LeaseRemove(s: State, l: nat, q: nat)
    requires l in s.leases && s.leases[l].phase == Dropped
    ensures Sum(s.leases - {l}, OnQueue(q)) == Leases(s, q)
  {
    SumRemove(s.leases, OnQueue(q), l);
  }

  lemma {:induction false} NoLease(m: map<nat, Lease>, q: nat)
    requires forall l <- m :: m[l].queue != q
    ensures Sum(m, OnQueue(q)) == 0
    decreases |m|
  {
    if m != map[] {
      var l :| l in m;
      SumRemove(m, OnQueue(q), l);
      NoLease(m - {l}, q);
    }
  }

  lemma InFlightNext(writes: seq<LaneQueue.Popped>, p: LaneQueue.Popped, bulk: bool)
    ensures InFlight(writes + [p], bulk) == InFlight(writes, bulk) + (if p.bulk == bulk then 1 else 0)
  {
    assert (writes + [p])[..|writes|] == writes;
  }

  lemma {:induction false} InFlightRemove(writes: seq<LaneQueue.Popped>, i: nat, bulk: bool)
    requires i < |writes|
    ensures InFlight(writes[..i] + writes[i + 1..], bulk)
         == InFlight(writes, bulk) - (if writes[i].bulk == bulk then 1 else 0)
  {
    var n := |writes| - 1;
    if i < n {
      InFlightRemove(writes[..n], i, bulk);
      var rest := writes[..n][..i] + writes[..n][i + 1..];
      assert writes[..i] + writes[i + 1..] == rest + [writes[n]];
      InFlightNext(rest, writes[n], bulk);
    } else {
      assert writes[..i] + writes[i + 1..] == writes[..n];
    }
  }

  // ---- steps that touch one queue ----

  ghost predicate SameLeases(s: State, u: State, k: nat) {
    && (forall l <- s.leases :: s.leases[l].queue != k ==> l in u.leases && u.leases[l] == s.leases[l])
    && (forall l <- u.leases :: u.leases[l].queue != k ==> l in s.leases && u.leases[l] == s.leases[l])
    && (forall q <- s.queues :: q != k ==> Leases(u, q) == Leases(s, q))
  }

  ghost predicate SameTasks(s: State, u: State, k: nat) {
    && (forall t <- s.tasks :: s.tasks[t].queue != k ==> t in u.tasks && u.tasks[t] == s.tasks[t])
    && (forall t <- u.tasks :: u.tasks[t].queue != k ==> t in s.tasks && u.tasks[t] == s.tasks[t])
  }

  /** Everything that belongs to other queues is as it was, except that entries may have left the map. */
  ghost predicate Local(s: State, u: State, k: nat) {
    && s.unused <= u.unused
    && u.queues.Keys == s.queues.Keys && k in s.queues
    && (forall q <- s.queues :: q != k ==> u.queues[q] == s.queues[q])
    && u.queues[k].peer == s.queues[k].peer
    && (forall p <- u.entries :: p in s.entries && u.entries[p] == s.entries[p])
    && SameLeases(s, u, k)
    && SameTasks(s, u, k)
  }

  lemma LocalQueue(s: State, u: State, k: nat, q: nat)
    requires Indexed(s) && Local(s, u, k) && q in s.queues && q != k && QueueOk(s, q)
    ensures QueueOk(u, q)
  {
    if t :| t in s.tasks && s.tasks[t].queue == q {
      assert u.tasks[t].queue == q;
    }
  }

  lemma LocalTask(s: State, u: State, k: nat, t: Task)
    requires Indexed(s) && Local(s, u, k) && t.queue in s.queues && t.queue != k && TaskOk(s, t)
    requires t.phase.Starting? && t.phase.lease in u.leases ==>
               t.phase.lease in s.leases && u.leases[t.phase.lease].queue == s.leases[t.phase.lease].queue
    ensures TaskOk(u, t)
  {
    hide CanPop, MayExit, InFlight;
    if Alerted(s, t.queue) && !s.queues[t.queue].permit {
      var l :| l in s.leases && Alerting(s.leases[l], t.queue);
      assert Alerting(u.leases[l], t.queue);
    }
  }

  /** Leases keep their queue, and new ones get numbers no task waits for. */
  ghost predicate LeasesStay(s: State, u: State) {
    forall l <- u.leases :: if l in s.leases then u.leases[l].queue == s.leases[l].queue else s.unused <= l
  }

  lemma LocalInv(s: State, u: State, k: nat)
    requires Inv(s) && Local(s, u, k) && LeasesStay(s, u) && Indexed(u)
    requires QueueOk(u, k) && Accounted(u.queues[k])
    requires forall t, v :: t in u.tasks && v in u.tasks && u.tasks[t].queue == k == u.tasks[v].queue ==> t == v
    requires forall t <- u.tasks :: u.tasks[t].queue == k ==> TaskOk(u, u.tasks[t])
    ensures Inv(u)
  {
    hide TaskOk, QueueOk, Accounted;
    forall q | q in u.queues
      ensures QueueOk(u, q) && Accounted(u.queues[q])
    {
      if q != k {
        LocalQueue(s, u, k, q);
      }
    }
    forall t | t in u.tasks
      ensures TaskOk(u, u.tasks[t])
    {
      if u.tasks[t].queue != k {
        assert TaskOk(s, u.tasks[t]);
        StartsBelow(s, u.tasks[t]);
        LocalTask(s, u, k, u.tasks[t]);
      }
    }
  }

  lemma StartsBelow(s: State, t: Task)
    requires t.queue in s.queues && TaskOk(s, t)
    ensures t.phase.Starting? ==> t.phase.lease < s.unused
  {
  }

  // ---- leases ----

  lemma LeasesLocal(s: State, u: State, l: nat, v: Lease)
    requires u.leases == s.leases[l := v] && (l in s.leases ==> s.leases[l].queue == v.queue)
    ensures SameLeases(s, u, v.queue)
    ensures Leases(u, v.queue) == Leases(s, v.queue)
              - (if l in s.leases && Counted(s.leases[l], v.queue) then 1 else 0) + OnQueue(v.queue)(v)
  {
    LeaseUpdate(s, l, v, v.queue);
    forall q | q in s.queues && q != v.queue
      ensures Leases(u, q) == Leases(s, q)
    {
      LeaseUpdate(s, l, v, q);
    }
  }

  lemma TasksStay(s: State, u: State, k: nat)
    requires u.tasks == s.tasks
    ensures HasTask(u, k) == HasTask(s, k)
  {
  }

  lemma LedgerSame(a: Queue, b: Queue)
    requires a.closed == b.closed && a.popped == b.popped && a.pushed == b.pushed && a.priority == b.priority
    requires a.lanes == b.lanes && a.running == b.running && Accounted(a)
    ensures Accounted(b)
  {
  }

  /** A lease of queue `k` changes phase or ends; of the queue only the permit and the count may change. */
  ghost predicate LeaseMove(s: State, u: State, l: nat, k: nat) {
    && l in s.leases && s.leases[l].queue == k && k in s.queues && k in u.queues
    && u.queues == s.queues[k := u.queues[k]]
    && u.queues[k] == s.queues[k].(permit := u.queues[k].permit, reservations := u.queues[k].reservations)
    && u.entries == s.entries && u.unused == s.unused && u.tasks == s.tasks
    && if l in u.leases then u.leases[l].queue == k && u.leases[l].phase != Held && u.leases == s.leases[l := u.leases[l]]
       else s.leases[l].phase == Dropped && u.leases == s.leases - {l}
  }

  function Contribution(s: State, l: nat): nat {
    if l in s.leases && s.leases[l].phase != Dropped then 1 else 0
  }

  lemma LeaseMoveCount(s: State, u: State, l: nat, k: nat)
    requires LeaseMove(s, u, l, k)
    ensures SameLeases(s, u, k)
    ensures Leases(u, k) == Leases(s, k) - Contribution(s, l) + Contribution(u, l)
  {
    if l in u.leases {
      LeasesLocal(s, u, l, u.leases[l]);
    } else {
      forall q
        ensures Leases(u, q) == Leases(s, q)
      {
        LeaseRemove(s, l, q);
      }
    }
  }

  lemma LeaseMoveLocal(s: State, u: State, l: nat, k: nat)
    requires Indexed(s) && LeaseMove(s, u, l, k)
    ensures Local(s, u, k) && LeasesStay(s, u) && Indexed(u)
  {
    LeaseMoveCount(s, u, l, k);
  }

  lemma LeaseMoveQueue(s: State, u: State, l: nat, k: nat)
    requires LeaseMove(s, u, l, k) && QueueOk(s, k) && Accounted(s.queues[k])
    requires u.queues[k].reservations == s.queues[k].reservations - Contribution(s, l) + Contribution(u, l)
    requires Contribution(u, l) <= Contribution(s, l)
    ensures QueueOk(u, k) && Accounted(u.queues[k])
  {
    hide LaneQueue.Fifo, LaneQueue.Taken, LaneQueue.Class;
    LeaseMoveCount(s, u, l, k);
    TasksStay(s, u, k);
    if Contribution(s, l) == 1 {
      LeasePositive(s, l);
    }
  }

  /** What a task of queue `k` relies on when only leases and the wake-up permit change. */
  lemma LeaseMoveTasks(s: State, u: State, l: nat, k: nat)
    requires Indexed(s) && (forall t <- s.tasks :: TaskOk(s, s.tasks[t]))
    requires LeaseMove(s, u, l, k) && Alerted(u, k)
    ensures forall t <- u.tasks :: u.tasks[t].queue == k ==> TaskOk(u, u.tasks[t])
  {
    hide InFlight, MayExit, CanPop;
  }

  lemma LeaseMoveInv(s: State, u: State, l: nat, k: nat)
    requires Inv(s) && LeaseMove(s, u, l, k) && Alerted(u, k)
    requires u.queues[k].reservations == s.queues[k].reservations - Contribution(s, l) + Contribution(u, l)
    requires Contribution(u, l) <= Contribution(s, l)
    ensures Inv(u)
  {
    hide Indexed, Local, LeasesStay, QueueOk, TaskOk, Accounted, Contribution;
    LeaseMoveLocal(s, u, l, k);
    LeaseMoveQueue(s, u, l, k);
    LeaseMoveTasks(s, u, l, k);
    LocalInv(s, u, k);
  }

  lemma SignalAdmitInv(s: State, l: nat)
    requires Inv(s) && LeaseIn(s, l, {Admitted})
    ensures Inv(AdmitSignalled(s, l))
  {
    hide Inv;
    LeaseMoveInv(s, AdmitSignalled(s, l), l, s.leases[l].queue);
  }

  lemma SignalDropInv(s: State, l: nat)
    requires Inv(s) && LeaseIn(s, l, {Dropped})
    ensures Inv(DropSignalled(s, l))
  {
    hide Inv;
    LeaseMoveInv(s, DropSignalled(s, l), l, s.leases[l].queue);
  }

  lemma DropLeaseInv(s: State, l: nat)
    requires Inv(s) && LeaseIn(s, l, {Held, Signalled})
    ensures Inv(LeaseDropped(s, l))
  {
    hide Inv;
    var u := LeaseDropped(s, l);
    assert Alerting(u.leases[l], s.leases[l].queue);
    LeaseMoveInv(s, u, l, s.leases[l].queue);
  }

  lemma LeasePositive(s: State, l: nat)
    requires l in s.leases && s.leases[l].phase != Dropped
    ensures Leases(s, s.leases[l].queue) > 0
  {
    SumRemove(s.leases, OnQueue(s.leases[l].queue), l);
  }

  lemma AdmitLedger(q: Queue, f: Frame)
    requires Accounted(q) && !q.closed
    ensures Accounted(q.(lanes := LaneQueue.Push(q.lanes, f), running := true, pushed := q.pushed + [f]))
  {
    hide LaneQueue.Pop, LaneQueue.Taken, LaneQueue.Class;
    var t := LaneQueue.Trace(q.lanes, q.pushed, q.popped);
    LaneQueue.PushFifo(t, f, true);
    LaneQueue.PushFifo(t, f, false);
  }

  lemma RefuseInv(s: State, l: nat, f: Frame)
    requires Inv(s) && LeaseIn(s, l, {Held}) && s.queues[s.leases[l].queue].closed
    ensures Inv(Admission(s, l, f))
  {
    hide Indexed, Local, LeasesStay, QueueOk, TaskOk, Accounted;
    var u := Admission(s, l, f);
    var k := s.leases[l].queue;
    assert LeaseMove(s, u, l, k);
    LeaseMoveLocal(s, u, l, k);
    LeaseMoveQueue(s, u, l, k);
    TasksRefused(s, u, l, k);
    LocalInv(s, u, k);
  }

  lemma TasksRefused(s: State, u: State, l: nat, k: nat)
    requires Inv(s) && LeaseIn(s, l, {Held}) && u == s.(leases := InPhase(s, l, Signalled))
    ensures forall t <- u.tasks :: u.tasks[t].queue == k ==> TaskOk(u, u.tasks[t])
  {
    hide Accounted, QueueOk, LaneQueue.Pop, MayExit, CanPop, InFlight;
    forall t | t in u.tasks && u.tasks[t].queue == k
      ensures TaskOk(u, u.tasks[t])
    {
      assert TaskOk(s, s.tasks[t]);
      if Alerted(s, k) && !s.queues[k].permit {
        var j :| j in s.leases && Alerting(s.leases[j], k);
        assert Alerting(u.leases[j], k);
      }
    }
  }

  /** Admission starts a worker exactly when the queue had none. */
  lemma AdmitWorker(s: State, l: nat, f: Frame)
    requires Indexed(s) && OneTask(s) && LeaseIn(s, l, {Held}) && !s.queues[s.leases[l].queue].closed
    requires QueueOk(s, s.leases[l].queue)
    ensures
      var u, k := Admission(s, l, f), s.leases[l].queue;
      && HasTask(u, k)
      && (forall t, v :: t in u.tasks && v in u.tasks && u.tasks[t].queue == k == u.tasks[v].queue ==> t == v)
      && (!s.queues[k].running ==> !HasTask(s, k))
  {
    hide LaneQueue.Push;
    var u, k := Admission(s, l, f), s.leases[l].queue;
    LeasePositive(s, l);
    if s.queues[k].running {
      var t :| t in s.tasks && s.tasks[t].queue == k;
      assert u.tasks[t].queue == k;
    } else {
      assert u.tasks[s.unused].queue == k;
    }
  }

  lemma AdmitTasks(s: State, l: nat, f: Frame, t: nat)
    requires Indexed(s) && (forall t <- s.tasks :: TaskOk(s, s.tasks[t]))
    requires LeaseIn(s, l, {Held}) && !s.queues[s.leases[l].queue].closed
    requires t in Admission(s, l, f).tasks && Admission(s, l, f).tasks[t].queue == s.leases[l].queue
    ensures TaskOk(Admission(s, l, f), Admission(s, l, f).tasks[t])
  {
    hide CanPop, MayExit, LaneQueue.Push;
    var u, k := Admission(s, l, f), s.leases[l].queue;
    assert Alerting(u.leases[l], k);
    if t in s.tasks {
      assert TaskOk(s, s.tasks[t]);
    }
  }

  lemma AdmitFrame(s: State, l: nat, f: Frame)
    requires Indexed(s) && LeaseIn(s, l, {Held}) && !s.queues[s.leases[l].queue].closed
    ensures
      var u, k := Admission(s, l, f), s.leases[l].queue;
      Local(s, u, k) && LeasesStay(s, u) && Leases(u, k) == Leases(s, k)
  {
    hide LaneQueue.Push, SameLeases, SameTasks, Leases, Sum, Indexed;
    var u, k := Admission(s, l, f), s.leases[l].queue;
    LeasesLocal(s, u, l, u.leases[l]);
    AdmitSameTasks(s, l, f);
  }

  lemma AdmitSameTasks(s: State, l: nat, f: Frame)
    requires Indexed(s) && LeaseIn(s, l, {Held}) && !s.queues[s.leases[l].queue].closed
    ensures SameTasks(s, Admission(s, l, f), s.leases[l].queue)
  {
    hide LaneQueue.Push;
  }

  lemma AdmitIndexed(s: State, l: nat, f: Frame)
    requires Indexed(s) && LeaseIn(s, l, {Held}) && !s.queues[s.leases[l].queue].closed
    ensures Indexed(Admission(s, l, f))
  {
    hide LaneQueue.Push;
  }

  lemma AdmitInv(s: State, l: nat, f: Frame)
    requires Inv(s) && LeaseIn(s, l, {Held}) && !s.queues[s.leases[l].queue].closed
    ensures Inv(Admission(s, l, f))
  {
    hide Accounted, TaskOk, LaneQueue.Push, Local, Indexed, LeasesStay;
    var u, k := Admission(s, l, f), s.leases[l].queue;
    AdmitLedger(s.queues[k], f);
    AdmitWorker(s, l, f);
    AdmitFrame(s, l, f);
    AdmitIndexed(s, l, f);
    forall t | t in u.tasks && u.tasks[t].queue == k
      ensures TaskOk(u, u.tasks[t])
    {
      AdmitTasks(s, l, f, t);
    }
    LocalInv(s, u, k);
  }

  // ---- the worker ----

  /** A task of queue `k` moves; of the queue only frames, history and permit may change. */
  ghost predicate TaskMove(s: State, u: State, t: nat, k: nat) {
    && t in s.tasks && s.tasks[t].queue == k && k in s.queues && k in u.queues
    && u.queues == s.queues[k := u.queues[k]]
    && u.queues[k] == s.queues[k].(permit := u.queues[k].permit, lanes := u.queues[k].lanes, popped := u.queues[k].popped)
    && u.entries == s.entries && u.unused == s.unused && u.leases == s.leases
    && t in u.tasks && u.tasks[t].queue == k && u.tasks == s.tasks[t := u.tasks[t]]
  }

  lemma TaskMoveLocal(s: State, u: State, t: nat, k: nat)
    requires Indexed(s) && TaskMove(s, u, t, k)
    ensures Local(s, u, k) && LeasesStay(s, u) && Indexed(u)
  {
    hide LaneQueue.Pop;
    assert forall q :: Leases(u, q) == Leases(s, q);
  }

  lemma TaskMoveInv(s: State, u: State, t: nat, k: nat)
    requires Inv(s) && TaskMove(s, u, t, k)
    requires Accounted(u.queues[k]) && TaskOk(u, u.tasks[t])
    ensures Inv(u)
  {
    hide Accounted, TaskOk, Local, LeasesStay, Indexed;
    TaskMoveLocal(s, u, t, k);
    assert QueueOk(s, k);
    assert HasTask(u, k);
    LocalInv(s, u, k);
  }

  lemma StartInv(s: State, t: nat)
    requires Inv(s) && Enabled(s, Start(t))
    ensures Inv(Started(s, t))
  {
    hide Accounted, QueueOk, InFlight, MayExit, CanPop;
    TaskMoveInv(s, Started(s, t), t, s.tasks[t].queue);
  }

  lemma WakeInv(s: State, t: nat)
    requires Inv(s) && TaskIn(s, t, Parked)
    ensures Inv(Woken(s, t))
  {
    hide QueueOk, InFlight, MayExit, CanPop, Ledger;
    var k := s.tasks[t].queue;
    LedgerSame(s.queues[k], Woken(s, t).queues[k]);
    TaskMoveInv(s, Woken(s, t), t, k);
  }

  lemma FinishInv(s: State, t: nat, i: nat)
    requires Inv(s) && TaskIn(s, t, Parked) && i < |s.tasks[t].writes|
    ensures Inv(Completed(s, t, i))
  {
    hide Accounted, QueueOk, InFlight, MayExit, CanPop;
    InFlightRemove(s.tasks[t].writes, i, true);
    InFlightRemove(s.tasks[t].writes, i, false);
    TaskMoveInv(s, Completed(s, t, i), t, s.tasks[t].queue);
  }

  lemma PopLedger(q: Queue, orderedReady: bool, bulkReady: bool)
    requires Accounted(q)
    requires LaneQueue.Pop(q.lanes, orderedReady, bulkReady).1.Some?
    ensures
      var (lanes, next) := LaneQueue.Pop(q.lanes, orderedReady, bulkReady);
      !q.closed && q.running && Accounted(q.(lanes := lanes, popped := q.popped + [next.value]))
  {
    hide LaneQueue.Pop, LaneQueue.Taken, LaneQueue.Class;
    PopEmpty(q.lanes, orderedReady, bulkReady);
    var t := LaneQueue.Trace(q.lanes, q.pushed, q.popped);
    LaneQueue.ApplyFifo(t, LaneQueue.PopOp(orderedReady, bulkReady), true);
    LaneQueue.ApplyFifo(t, LaneQueue.PopOp(orderedReady, bulkReady), false);
  }

  lemma PopEmpty(lanes: LaneQueue.Lanes, orderedReady: bool, bulkReady: bool)
    requires LaneQueue.Pop(lanes, orderedReady, bulkReady).1.Some?
    ensures lanes.frames != []
  {
  }

  /** A started write makes its own writer busy, and that writer was free. */
  lemma WritingOk(t: Task, lanes: LaneQueue.Lanes)
    requires BusyOk(t) && LaneQueue.Pop(lanes, !t.orderedBusy, !t.bulkBusy).1.Some?
    ensures BusyOk(Writing(t, LaneQueue.Pop(lanes, !t.orderedBusy, !t.bulkBusy).1.value))
  {
    hide LaneQueue.Pop, InFlight;
    LaneQueue.PopRefines(lanes, !t.orderedBusy, !t.bulkBusy);
    var p := LaneQueue.Pop(lanes, !t.orderedBusy, !t.bulkBusy).1.value;
    InFlightNext(t.writes, p, true);
    InFlightNext(t.writes, p, false);
  }

  lemma PopInv(s: State, t: nat)
    requires Inv(s) && TaskIn(s, t, Popping)
    ensures Inv(Popped(s, t))
  {
    hide QueueOk, InFlight, LaneQueue.Pop, Ledger, Accounted;
    var k := s.tasks[t].queue;
    var u := Popped(s, t);
    if CanPop(s.queues[k], s.tasks[t]) {
      PopLedger(s.queues[k], !s.tasks[t].orderedBusy, !s.tasks[t].bulkBusy);
      WritingOk(s.tasks[t], s.queues[k].lanes);
    }
    TaskMoveInv(s, u, t, k);
  }

  /** A worker that passes its check without leaving. */
  lemma StayInv(s: State, t: nat)
    requires Inv(s) && TaskIn(s, t, AtTop)
    requires !s.queues[s.tasks[t].queue].closed && !MayExit(s.queues[s.tasks[t].queue], s.tasks[t])
    ensures Inv(Checked(s, t))
  {
    hide Accounted, QueueOk, InFlight, CanPop;
    TaskMoveInv(s, Checked(s, t), t, s.tasks[t].queue);
  }

  lemma ExitLocal(s: State, t: nat)
    requires Indexed(s) && TaskIn(s, t, AtTop)
    requires s.queues[s.tasks[t].queue].closed || MayExit(s.queues[s.tasks[t].queue], s.tasks[t])
    ensures Local(s, Checked(s, t), s.tasks[t].queue)
    ensures LeasesStay(s, Checked(s, t)) && Indexed(Checked(s, t))
  {
    assert forall q :: Leases(Checked(s, t), q) == Leases(s, q);
  }

  /** A worker that leaves puts its queue out of reach: closed, or out of the map, empty and without a lease. */
  lemma ExitInv(s: State, t: nat)
    requires Inv(s) && TaskIn(s, t, AtTop)
    requires s.queues[s.tasks[t].queue].closed || MayExit(s.queues[s.tasks[t].queue], s.tasks[t])
    ensures Inv(Checked(s, t))
    ensures !HasTask(Checked(s, t), s.tasks[t].queue)
  {
    hide Accounted, TaskOk, Indexed, Local, LeasesStay;
    var u, k := Checked(s, t), s.tasks[t].queue;
    assert !HasTask(u, k);
    ExitLocal(s, t);
    assert QueueOk(s, k);
    LocalInv(s, u, k);
  }

  // ---- closing ----

  lemma ClosedLedger(q: Queue)
    requires Accounted(q)
    ensures Accounted(q.(closed := true, lanes := LaneQueue.Lanes([], false, 0), permit := true))
  {
  }

  lemma ClosingLocal(s: State, p: Peer)
    requires Indexed(s) && p in s.entries
    ensures
      var u, k := Closing(s, p), s.entries[p];
      Local(s, u, k) && LeasesStay(s, u) && Indexed(u) && Leases(u, k) == Leases(s, k)
  {
    assert forall q :: Leases(Closing(s, p), q) == Leases(s, q);
  }

  lemma CloseInv(s: State, p: Peer)
    requires Inv(s) && p in s.entries
    ensures Inv(Closing(s, p))
  {
    hide Accounted, Indexed, Local, LeasesStay, MayExit, CanPop, InFlight;
    assert s.entries[p] in s.queues by { EntryQueue(s, p); }
    var u, k := Closing(s, p), s.entries[p];
    ClosedLedger(s.queues[k]);
    ClosingLocal(s, p);
    assert QueueOk(s, k);
    TasksStay(s, u, k);
    forall t | t in u.tasks && u.tasks[t].queue == k
      ensures TaskOk(u, u.tasks[t])
    {
      assert TaskOk(s, s.tasks[t]);
    }
    LocalInv(s, u, k);
  }

  lemma EntryQueue(s: State, p: Peer)
    requires Indexed(s) && p in s.entries
    ensures s.entries[p] in s.queues
  {
  }

  // ---- taking a lease ----

  lemma ReplacedLocal(s: State, p: Peer, g: Option<nat>)
    requires Indexed(s) && Stale(s, p, g)
    ensures
      var u, k := Replaced(s, p, g), s.entries[p];
      Local(s, u, k) && LeasesStay(s, u) && Indexed(u) && Leases(u, k) == Leases(s, k)
  {
    assert forall q :: Leases(Replaced(s, p, g), q) == Leases(s, q);
  }

  lemma ReplacedInv(s: State, p: Peer, g: Option<nat>)
    requires Inv(s)
    ensures Inv(Replaced(s, p, g))
  {
    hide Accounted, Indexed, Local, LeasesStay, TaskOk;
    if Stale(s, p, g) {
      var u, k := Replaced(s, p, g), s.entries[p];
      LedgerSame(s.queues[k], u.queues[k]);
      ReplacedLocal(s, p, g);
      assert QueueOk(s, k);
      TasksStay(s, u, k);
      forall t | t in u.tasks && u.tasks[t].queue == k
        ensures TaskOk(u, u.tasks[t])
      {
        ReplacedTask(s, p, g, s.tasks[t]);
      }
      LocalInv(s, u, k);
    }
  }

  lemma ReplacedTask(s: State, p: Peer, g: Option<nat>, t: Task)
    requires Stale(s, p, g) && t.queue == s.entries[p] && TaskOk(s, t)
    ensures TaskOk(Replaced(s, p, g), t)
  {
    hide MayExit, CanPop, InFlight;
  }

  lemma PrunedInv(s: State, spared: set<Peer>)
    requires Inv(s)
    ensures Inv(Pruned(s, spared))
  {
    hide Accounted, MayExit, CanPop, InFlight;
    var u := Pruned(s, spared);
    forall q | q in u.queues
      ensures QueueOk(u, q)
    {
      assert QueueOk(s, q);
      assert HasTask(u, q) == HasTask(s, q) && Leases(u, q) == Leases(s, q);
    }
    forall t | t in u.tasks
      ensures TaskOk(u, u.tasks[t])
    {
      assert TaskOk(s, s.tasks[t]);
    }
  }

  lemma NewAccounted(p: Peer, g: Option<nat>, priority: bool)
    ensures Accounted(NewQueue(p, g, priority))
  {
  }

  lemma EnteredQueue(s: State, p: Peer, g: Option<nat>, priority: bool, q: nat)
    requires Indexed(s) && p !in s.entries && (q == s.unused || (q in s.queues && QueueOk(s, q)))
    ensures QueueOk(Entered(s, p, g, priority), q)
  {
    var u := Entered(s, p, g, priority);
    NoLease(s.leases, s.unused);
    assert HasTask(u, q) == HasTask(s, q) && Leases(u, q) == Leases(s, q);
  }

  lemma EnteredTask(s: State, p: Peer, g: Option<nat>, priority: bool, t: Task)
    requires Indexed(s) && p !in s.entries && t.queue in s.queues && TaskOk(s, t)
    ensures TaskOk(Entered(s, p, g, priority), t)
  {
    hide MayExit, CanPop, InFlight;
  }

  lemma EnteredInv(s: State, p: Peer, g: Option<nat>, priority: bool)
    requires Inv(s)
    ensures Inv(Entered(s, p, g, priority)) && p in Entered(s, p, g, priority).entries
  {
    hide Accounted, TaskOk, QueueOk;
    var u := Entered(s, p, g, priority);
    if p !in s.entries {
      NewAccounted(p, g, priority);
      forall q | q in u.queues
        ensures QueueOk(u, q) && Accounted(u.queues[q])
      {
        EnteredQueue(s, p, g, priority, q);
      }
      forall t | t in u.tasks
        ensures TaskOk(u, u.tasks[t])
      {
        EnteredTask(s, p, g, priority, s.tasks[t]);
      }
    }
  }

  lemma LeasedLocal(s: State, p: Peer)
    requires Indexed(s) && p in s.entries
    ensures
      var u, k := Leased(s, p), s.entries[p];
      Local(s, u, k) && LeasesStay(s, u) && Indexed(u) && Leases(u, k) == Leases(s, k) + 1
  {
    LeasesLocal(s, Leased(s, p), s.unused, Lease(s.entries[p], Held));
  }

  lemma LeasedTask(s: State, p: Peer, t: Task)
    requires Indexed(s) && p in s.entries && t.queue == s.entries[p] && TaskOk(s, t) && QueueOk(s, t.queue)
    ensures TaskOk(Leased(s, p), t)
  {
    hide LaneQueue.Pop, InFlight;
    var u, k := Leased(s, p), s.entries[p];
    if Alerted(s, k) && !s.queues[k].permit {
      var l :| l in s.leases && Alerting(s.leases[l], k);
      assert Alerting(u.leases[l], k);
    }
  }

  lemma LeasedInv(s: State, p: Peer)
    requires Inv(s) && p in s.entries
    ensures Inv(Leased(s, p))
  {
    hide Accounted, TaskOk, Indexed, Local, LeasesStay;
    EntryQueue(s, p);
    var u, k := Leased(s, p), s.entries[p];
    LedgerSame(s.queues[k], u.queues[k]);
    LeasedLocal(s, p);
    assert QueueOk(s, k);
    TasksStay(s, u, k);
    forall t | t in u.tasks && u.tasks[t].queue == k
      ensures TaskOk(u, u.tasks[t])
    {
      LeasedTask(s, p, s.tasks[t]);
    }
    LocalInv(s, u, k);
  }

  // ---- every run ----

  lemma StepInv(s: State, e: Event)
    requires Inv(s)
    ensures Inv(Step(s, e))
  {
    hide Inv, Replaced, Pruned, Entered, Leased, Admission, Checked, Popped, Completed, Woken, Started, Closing;
    if Enabled(s, e) {
      match e
      case TakeLease(p, g, priority, spared) =>
        ReplacedInv(s, p, g);
        PrunedInv(Replaced(s, p, g), spared);
        EnteredInv(Pruned(Replaced(s, p, g), spared), p, g, priority);
        LeasedInv(Entered(Pruned(Replaced(s, p, g), spared), p, g, priority), p);
      case Admit(l, f) =>
        if s.queues[s.leases[l].queue].closed { RefuseInv(s, l, f); } else { AdmitInv(s, l, f); }
      case SignalAdmit(l) => SignalAdmitInv(s, l);
      case DropLease(l) => DropLeaseInv(s, l);
      case SignalDrop(l) => SignalDropInv(s, l);
      case Start(t) => StartInv(s, t);
      case Check(t) =>
        if s.queues[s.tasks[t].queue].closed || MayExit(s.queues[s.tasks[t].queue], s.tasks[t]) {
          ExitInv(s, t);
        } else {
          StayInv(s, t);
        }
      case PopNext(t) => PopInv(s, t);
      case Finish(t, i) => FinishInv(s, t, i);
      case Wake(t) => WakeInv(s, t);
      case Close(p) => CloseInv(s, p);
    }
  }

  lemma {:induction false} RunInv(s: State, events: seq<Event>)
    requires Inv(s)
    ensures Inv(Run(s, events))
    decreases |events|
  {
    hide Inv, Step;
    if events != [] {
      StepInv(s, events[0]);
      RunInv(Step(s, events[0]), events[1..]);
    }
  }

  /** The invariant holds in every state any interleaving reaches. */
  lemma SchedulerInvariant(events: seq<Event>)
    ensures Inv(Run(Initial, events))
  {
    RunInv(Initial, events);
  }
}
