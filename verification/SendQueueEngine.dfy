/** The send-queue part of the engine as it is run: each method is one section the code runs under a lock. */
module SendQueueEngine {
  import opened Common
  import opened SendQueues
  import opened SendQueueInvariant
  import LaneQueue

  class SendEngine {
    var entries: map<Peer, nat>
    var queues: map<nat, Queue>
    var leases: map<nat, Lease>
    var tasks: map<nat, Task>
    var unused: nat

    ghost function View(): State
      reads this
    {
      State(entries, queues, leases, tasks, unused)
    }

    constructor ()
      ensures View() == Initial && Inv(View())
    {
      entries, queues, leases, tasks, unused := map[], map[], map[], map[], 0;
      new;
      SchedulerInvariant([]);
    }

    /** A lease on the peer's current queue; a queue of an older generation is left to its worker. */
    method SendQueue(peer: Peer, generation: Option<nat>, priority: bool) returns (lease: nat)
      requires Inv(View())
      modifies this
      ensures View() == Step(old(View()), TakeLease(peer, generation, priority, {})) && Inv(View())
      ensures lease in leases && lease !in old(leases) && leases[lease].phase == Held
      ensures peer in entries && leases[lease].queue == entries[peer]
      ensures queues[entries[peer]].generation == generation && !queues[entries[peer]].closed
    {
      hide Inv, Step, Replaced, Pruned;
      ghost var before := View();
      StepInv(before, TakeLease(peer, generation, priority, {}));
      LeaseIsCurrent(before, peer, generation, priority);
      ReplaceStale(peer, generation);
      PruneIdle();
      ghost var pruned := View();
      EnteredInv(pruned, peer, generation, priority);
      EntryIn(Entered(pruned, peer, generation, priority), peer);
      if peer !in entries {
        queues := queues[unused := NewQueue(peer, generation, priority)];
        entries := entries[peer := unused];
        unused := unused + 1;
      }
      assert View() == Entered(pruned, peer, generation, priority);
      LeaseIsNew(View());
      TakesLease(before, peer, generation, priority, pruned);
      var q := entries[peer];
      queues := queues[q := queues[q].(reservations := queues[q].reservations + 1)];
      lease := unused;
      leases := leases[lease := Lease(q, Held)];
      unused := unused + 1;
    }

    method ReplaceStale(peer: Peer, generation: Option<nat>)
      requires Inv(View())
      modifies `entries, `queues
      ensures View() == Replaced(old(View()), peer, generation) && Inv(View())
    {
      hide QueueOk, TaskOk, Accounted;
      ReplacedInv(View(), peer, generation);
      if peer in entries && queues[entries[peer]].generation != generation {
        var was := entries[peer];
        entries := entries - {peer};
        queues := queues[was := queues[was].(permit := true)];
      }
    }

    method PruneIdle()
      requires Inv(View())
      modifies `entries
      ensures View() == Pruned(old(View()), {}) && Inv(View())
    {
      hide Inv;
      PrunedInv(View(), {});
      EntriesIn(View());
      var kept: map<Peer, nat> := map[];
      var rest := entries.Keys;
      while rest != {}
        invariant rest <= entries.Keys
        invariant kept == map p | p in entries && p !in rest && !Idle(queues[entries[p]]) :: entries[p]
        decreases |rest|
      {
        var p :| p in rest;
        rest := rest - {p};
        if queues[entries[p]].running || queues[entries[p]].reservations != 0 {
          kept := kept[p := entries[p]];
        }
      }
      entries := kept;
    }

    /** The frame joins the queue unless that is closed; the first frame of a queue starts its worker. */
    method AdmitToQueue(lease: nat, frame: Frame) returns (ok: bool, start: bool)
      requires Inv(View()) && LeaseIn(View(), lease, {Held})
      modifies this
      ensures View() == Step(old(View()), Admit(lease, frame)) && Inv(View())
      ensures ok <==> !old(queues[leases[lease].queue].closed)
      ensures start <==> ok && !old(queues[leases[lease].queue].running)
    {
      hide Inv;
      StepInv(View(), Admit(lease, frame));
      var id := leases[lease].queue;
      var q := queues[id];
      if q.closed {
        leases := leases[lease := Lease(id, Signalled)];
        return false, false;
      }
      start := !q.running;
      queues := queues[id := q.(lanes := LaneQueue.Push(q.lanes, frame), running := true, pushed := q.pushed + [frame])];
      leases := leases[lease := Lease(id, Admitted)];
      if start {
        tasks := tasks[unused := Task(id, Starting(lease), false, false, [])];
      }
      unused := unused + 1;
      ok := true;
    }

    method DropLease(lease: nat)
      requires Inv(View()) && LeaseIn(View(), lease, {Held, Signalled})
      modifies this
      ensures View() == Step(old(View()), Event.DropLease(lease)) && Inv(View())
      ensures old(queues[leases[lease].queue].reservations) > 0
    {
      hide Inv;
      StepInv(View(), Event.DropLease(lease));
      HeldCounts(View(), lease);
      var q := leases[lease].queue;
      queues := queues[q := queues[q].(reservations := queues[q].reservations - 1)];
      leases := leases[lease := Lease(q, Dropped)];
    }

    /** The worker's look at its queue: it leaves for good when there is nothing left to wait for. */
    method WorkerCheck(task: nat) returns (gone: bool)
      requires Inv(View()) && TaskIn(View(), task, AtTop)
      modifies this
      ensures View() == Step(old(View()), Check(task)) && Inv(View())
      ensures gone <==> task !in tasks
    {
      hide Inv;
      StepInv(View(), Check(task));
      var t := tasks[task];
      var q := queues[t.queue];
      if q.closed {
        tasks := tasks - {task};
        return true;
      }
      if q.lanes.frames == [] && t.writes == [] && q.reservations == 0 {
        if q.peer in entries && entries[q.peer] == t.queue {
          entries := entries - {q.peer};
        }
        tasks := tasks - {task};
        return true;
      }
      tasks := tasks[task := t.(phase := Popping)];
      return false;
    }

    /** Starts writes until a lane is busy or there is nothing to start. */
    method WorkerPop(task: nat) returns (ghost events: seq<Event>)
      requires Inv(View()) && TaskIn(View(), task, Popping)
      modifies this
      ensures View() == Run(old(View()), events) && Inv(View())
      ensures forall e <- events :: e == PopNext(task)
      ensures TaskIn(View(), task, Parked)
    {
      hide Inv, LaneQueue.Pop;
      ghost var before := View();
      events := [];
      while true
        invariant View() == Run(before, events) && Inv(View()) && TaskIn(View(), task, Popping)
        invariant forall e <- events :: e == PopNext(task)
        decreases |queues[tasks[task].queue].lanes.frames|
      {
        var t := tasks[task];
        var q := queues[t.queue];
        StepInv(View(), PopNext(task));
        RunSnoc(before, events, PopNext(task));
        events := events + [PopNext(task)];
        PopShorter(q.lanes, !t.orderedBusy, !t.bulkBusy);
        var (lanes, next) := LaneQueue.Pop(q.lanes, !t.orderedBusy, !t.bulkBusy);
        if next == None {
          tasks := tasks[task := t.(phase := Parked)];
          return;
        }
        queues := queues[t.queue := q.(lanes := lanes, popped := q.popped + [next.value])];
        tasks := tasks[task := Writing(t, next.value)];
      }
    }

    /** Closes every queue in the map and forgets its waiting frames; the workers find out when woken. */
    method CloseSendQueues() returns (ghost events: seq<Event>)
      requires Inv(View())
      modifies this
      ensures View() == Run(old(View()), events) && Inv(View())
      ensures forall e <- events :: e.Close?
      ensures entries == map[] && leases == old(leases) && tasks == old(tasks)
      ensures forall p <- old(entries) :: old(entries)[p] in queues && Shut(queues[old(entries)[p]])
    {
      hide Inv;
      ghost var before := View();
      events := [];
      while entries != map[]
        invariant View() == Run(before, events) && Inv(View())
        invariant forall e <- events :: e.Close?
        invariant leases == old(leases) && tasks == old(tasks)
        invariant forall p <- old(entries) ::
          if p in entries then entries[p] == old(entries)[p]
          else old(entries)[p] in queues && Shut(queues[old(entries)[p]])
        decreases |entries|
      {
        var p :| p in entries;
        EntryIn(View(), p);
        StepInv(View(), Close(p));
        RunSnoc(before, events, Close(p));
        events := events + [Close(p)];
        var q := entries[p];
        entries := entries - {p};
        queues := queues[q := queues[q].(closed := true, lanes := LaneQueue.Lanes([], false, 0), permit := true)];
      }
    }
  }

  /** Closed, without frames, and its worker about to be woken. */
  predicate Shut(q: Queue) {
    q.closed && q.lanes.frames == [] && q.permit
  }

  /** Running or reserved. */
  predicate InUse(s: State, q: nat) {
    q in s.queues && (s.queues[q].running || s.queues[q].reservations != 0)
  }

  /** The peer's queue is of this generation and in use. */
  predicate Kept(s: State, p: Peer, g: Option<nat>) {
    p in s.entries && InUse(s, s.entries[p]) && s.queues[s.entries[p]].generation == g
  }

  lemma PrunedMap(s: State, p: Peer, g: Option<nat>)
    requires Inv(s)
    ensures
      var v := Pruned(Replaced(s, p, g), {});
      && (forall o :: o in v.entries && o != p <==> o != p && o in s.entries && InUse(s, s.entries[o]))
      && (forall o <- v.entries :: o in s.entries && v.entries[o] == s.entries[o])
      && (p in v.entries <==> Kept(s, p, g))
      && v.unused == s.unused && v.queues.Keys == s.queues.Keys
      && forall q <- s.queues ::
           v.queues[q] ==
             if p in s.entries && q == s.entries[p] && s.queues[q].generation != g then s.queues[q].(permit := true)
             else s.queues[q]
  {
    hide QueueOk, TaskOk, Accounted, OneTask;
    EntriesIn(s);
    DistinctQueues(s);
  }

  lemma DistinctQueues(s: State)
    requires Inv(s)
    ensures forall o <- s.entries, p <- s.entries :: s.entries[o] == s.entries[p] ==> o == p
  {
  }

  /**
   What taking a lease does to the map: of the queues of other peers those that run or are reserved stay,
   the peer's own stays if it is of this generation and in use, and otherwise a new one takes its place.
   No queue loses a frame, is closed, or gets one, and only the worker of a replaced one is woken.
   */
  lemma MapExactly(s: State, p: Peer, g: Option<nat>, priority: bool)
    requires Inv(s)
    ensures
      var u := Step(s, TakeLease(p, g, priority, {}));
      && (forall o :: o in u.entries && o != p <==> o != p && o in s.entries && InUse(s, s.entries[o]))
      && (forall o <- u.entries :: o != p ==> u.entries[o] == s.entries[o])
      && p in u.entries && u.entries[p] in u.queues
      && (if Kept(s, p, g) then u.entries[p] == s.entries[p]
          else u.entries[p] !in s.queues && u.queues[u.entries[p]].lanes.frames == [] && !u.queues[u.entries[p]].closed)
      && forall q <- s.queues ::
           q in u.queues && u.queues[q] ==
             var r := s.queues[q].(reservations := s.queues[q].reservations + if q == u.entries[p] then 1 else 0);
             if p in s.entries && q == s.entries[p] && r.generation != g then r.(permit := true) else r
  {
    hide Inv, Replaced, Pruned, InUse, Kept, Leased, Entered;
    PrunedMap(s, p, g);
    UnusedIsNew(s);
    EntriesIn(s);
    LeasedMap(Pruned(Replaced(s, p, g), {}), p, g, priority);
    TakesLease(s, p, g, priority, Pruned(Replaced(s, p, g), {}));
  }

  lemma LeasedMap(v: State, p: Peer, g: Option<nat>, priority: bool)
    requires v.unused !in v.queues && (p in v.entries ==> v.entries[p] in v.queues)
    ensures
      var u := Leased(Entered(v, p, g, priority), p);
      && u.entries == (if p in v.entries then v.entries else v.entries[p := v.unused])
      && u.entries[p] in u.queues
      && (p !in v.entries ==> u.queues[v.unused].lanes.frames == [] && !u.queues[v.unused].closed)
      && forall q <- v.queues ::
           q in u.queues
           && u.queues[q] == v.queues[q].(reservations := v.queues[q].reservations + if q == u.entries[p] then 1 else 0)
  {
  }

  lemma UnusedIsNew(s: State)
    requires Inv(s)
    ensures s.unused !in s.queues
  {
  }

  lemma LeaseIsCurrent(s: State, p: Peer, g: Option<nat>, priority: bool)
    requires Inv(s)
    ensures
      var u := Step(s, TakeLease(p, g, priority, {}));
      p in u.entries && u.entries[p] in u.queues
      && u.queues[u.entries[p]].generation == g && !u.queues[u.entries[p]].closed
  {
    hide QueueOk, TaskOk, Accounted, OneTask;
    var r := Replaced(s, p, g);
    assert p in r.entries ==> r.entries[p] in r.queues && r.queues[r.entries[p]].generation == g;
    var v := Pruned(r, {});
    assert p in v.entries ==> p in r.entries && v.entries[p] == r.entries[p];
  }

  lemma LeaseIsNew(s: State)
    requires Inv(s)
    ensures forall l <- s.leases :: l < s.unused
  {
  }

  /** A lease that is not dropped is counted, so the count cannot go below zero. */
  lemma HeldCounts(s: State, l: nat)
    requires Inv(s) && LeaseIn(s, l, {Held, Signalled})
    ensures s.queues[s.leases[l].queue].reservations > 0
  {
    LeasePositive(s, l);
    assert QueueOk(s, s.leases[l].queue);
  }

  lemma TakesLease(s: State, p: Peer, g: Option<nat>, priority: bool, pruned: State)
    requires pruned == Pruned(Replaced(s, p, g), {})
    ensures Step(s, TakeLease(p, g, priority, {})) == Leased(Entered(pruned, p, g, priority), p)
  {
  }

  lemma EntriesIn(s: State)
    requires Inv(s)
    ensures forall p <- s.entries :: s.entries[p] in s.queues
  {
  }

  lemma PopShorter(lanes: LaneQueue.Lanes, orderedReady: bool, bulkReady: bool)
    ensures
      var (after, next) := LaneQueue.Pop(lanes, orderedReady, bulkReady);
      next.Some? ==> |after.frames| < |lanes.frames|
  {
  }

  lemma EntryIn(s: State, p: Peer)
    requires Inv(s) && p in s.entries
    ensures s.entries[p] in s.queues
  {
  }

  lemma {:induction false} RunSnoc(s: State, events: seq<Event>, e: Event)
    ensures Run(s, events + [e]) == Step(Run(s, events), e)
    decreases |events|
  {
    hide Step;
    if events == [] {
      assert ([] + [e])[1..] == [];
    } else {
      assert (events + [e])[1..] == events[1..] + [e];
      RunSnoc(Step(s, events[0]), events[1..], e);
    }
  }
}
