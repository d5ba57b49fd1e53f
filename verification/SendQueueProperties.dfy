/** What the send queues promise: one worker per queue, final exits, no lost wake-up, and every frame started. */
module SendQueueProperties {
  import opened Common
  import opened SendQueues
  import opened SendQueueInvariant
  import LaneQueue

  // ---- one worker ----

  /** An open queue with frames has a worker, and only one. */
  lemma ExactlyOneWorker(events: seq<Event>, q: nat)
    requires
      var s := Run(Initial, events);
      q in s.queues && s.queues[q].lanes.frames != []
    ensures
      var s := Run(Initial, events);
      && !s.queues[q].closed
      && exists t :: t in s.tasks && s.tasks[t].queue == q
                  && forall u :: u in s.tasks && s.tasks[u].queue == q ==> u == t
  {
    SchedulerInvariant(events);
    var s := Run(Initial, events);
    assert QueueOk(s, q) && Accounted(s.queues[q]);
    var t :| t in s.tasks && s.tasks[t].queue == q;
  }

  /** The busy flags tell the truth: at most one ordered and one independent write are in flight. */
  lemma AtMostOneWriteEach(events: seq<Event>, t: nat)
    requires t in Run(Initial, events).tasks
    ensures
      var w := Run(Initial, events).tasks[t];
      InFlight(w.writes, true) <= 1 && InFlight(w.writes, false) <= 1 && |w.writes| <= 2
  {
    SchedulerInvariant(events);
    var w := Run(Initial, events).tasks[t];
    assert TaskOk(Run(Initial, events), w);
    InFlightTotal(w.writes);
  }

  lemma {:induction false} InFlightTotal(writes: seq<LaneQueue.Popped>)
    ensures |writes| == InFlight(writes, true) + InFlight(writes, false)
  {
    if writes != [] {
      InFlightTotal(writes[..|writes| - 1]);
    }
  }

  /** Each lane of a queue starts frames in the order they were admitted, even when it is closed under way. */
  lemma StartsInOrder(events: seq<Event>, q: nat, bulk: bool)
    requires q in Run(Initial, events).queues
    ensures
      var queue := Run(Initial, events).queues[q];
      LaneQueue.Taken(queue.popped, bulk) <= LaneQueue.Class(queue.pushed, queue.priority, bulk)
  {
    hide LaneQueue.Taken, LaneQueue.Class;
    SchedulerInvariant(events);
    assert Accounted(Run(Initial, events).queues[q]);
  }

  /** Nothing can reach the queue any more: no entry of the map, and no lease that could still admit. */
  ghost predicate Unreachable(s: State, q: nat) {
    && (forall p <- s.entries :: s.entries[p] != q)
    && (forall l <- s.leases :: s.leases[l].queue == q ==> s.leases[l].phase == Dropped)
  }

  /** A worker leaves only a closed queue, which refuses every admission, or an empty one out of reach. */
  lemma ExitsUnreachable(events: seq<Event>, t: nat)
    requires TaskIn(Run(Initial, events), t, AtTop)
    ensures
      var s := Run(Initial, events);
      var q, u := s.tasks[t].queue, Step(s, Check(t));
      t !in u.tasks ==>
        q in u.queues && (u.queues[q].closed || (Unreachable(u, q) && u.queues[q].lanes.frames == []))
  {
    hide Inv, Run, Unreachable;
    SchedulerInvariant(events);
    var s := Run(Initial, events);
    if t !in Checked(s, t).tasks && !s.queues[s.tasks[t].queue].closed {
      ExitInv(s, t);
      WorkerRuns(s, t);
      OutOfReach(Checked(s, t), s.tasks[t].queue);
    }
  }

  lemma WorkerRuns(s: State, t: nat)
    requires Inv(s) && t in s.tasks
    ensures s.tasks[t].queue in s.queues && s.queues[s.tasks[t].queue].running
  {
    hide Accounted, TaskOk;
    assert HasTask(s, s.tasks[t].queue);
    assert QueueOk(s, s.tasks[t].queue);
  }

  /** A queue that lost its worker without being closed is out of reach. */
  lemma OutOfReach(s: State, q: nat)
    requires Inv(s) && q in s.queues && s.queues[q].running && !s.queues[q].closed && !HasTask(s, q)
    ensures Unreachable(s, q) && s.queues[q].lanes.frames == []
  {
    hide Accounted, TaskOk, HasTask, Leases, OneTask;
    assert QueueOk(s, q);
    NoLeaseLeft(s, q);
  }

  lemma NoLeaseLeft(s: State, q: nat)
    requires Leases(s, q) == 0
    ensures forall l <- s.leases :: s.leases[l].queue == q ==> s.leases[l].phase == Dropped
  {
    forall l | l in s.leases && s.leases[l].queue == q
      ensures s.leases[l].phase == Dropped
    {
      if s.leases[l].phase != Dropped {
        LeasePositive(s, l);
      }
    }
  }

  // ---- exits are final ----

  ghost predicate Gone(s: State, q: nat) {
    q in s.queues && s.queues[q].running && !HasTask(s, q)
  }

  ghost predicate SameHistory(s: State, u: State, q: nat) {
    && q in s.queues && q in u.queues
    && u.queues[q].pushed == s.queues[q].pushed && u.queues[q].popped == s.queues[q].popped
  }

  lemma GoneLease(s: State, e: Event, q: nat)
    requires Indexed(s) && Gone(s, q) && e.TakeLease?
    ensures Gone(Step(s, e), q) && SameHistory(s, Step(s, e), q)
  {
    hide HasTask;
    assert Step(s, e).tasks == s.tasks;
    assert HasTask(Step(s, e), q) == HasTask(s, q) by { TasksStay(s, Step(s, e), q); }
  }

  lemma GoneAdmit(s: State, l: nat, f: Frame, q: nat)
    requires Indexed(s) && Gone(s, q) && QueueOk(s, q) && LeaseIn(s, l, {Held})
    requires s.leases[l].queue != q ==> QueueOk(s, s.leases[l].queue)
    ensures Gone(Admission(s, l, f), q) && SameHistory(s, Admission(s, l, f), q)
  {
    hide LaneQueue.Push;
    if s.leases[l].queue == q {
      LeasePositive(s, l);
    }
  }

  lemma GoneOther(s: State, e: Event, q: nat)
    requires Indexed(s) && Gone(s, q) && !e.TakeLease? && !e.Admit? && Enabled(s, e)
    ensures Gone(Step(s, e), q) && SameHistory(s, Step(s, e), q)
  {
    hide LaneQueue.Pop, MayExit;
    if e.Start? || e.Check? || e.PopNext? || e.Finish? || e.Wake? {
      assert s.tasks[e.task].queue != q;
    }
  }

  lemma GoneStep(s: State, e: Event, q: nat)
    requires Inv(s) && Gone(s, q)
    ensures Gone(Step(s, e), q) && SameHistory(s, Step(s, e), q)
  {
    hide Gone, QueueOk, Accounted, TaskOk;
    assert q in s.queues by { GoneIn(s, q); }
    if !Enabled(s, e) {
    } else if e.TakeLease? {
      GoneLease(s, e, q);
    } else if e.Admit? {
      GoneAdmit(s, e.lease, e.frame, q);
    } else {
      GoneOther(s, e, q);
    }
  }

  lemma GoneIn(s: State, q: nat)
    requires Gone(s, q)
    ensures q in s.queues
  {
  }

  /** After a worker leaves, its queue never admits or starts a frame again. */
  lemma {:induction false} ExitIsFinal(s: State, events: seq<Event>, q: nat)
    requires Inv(s) && Gone(s, q)
    ensures Gone(Run(s, events), q) && SameHistory(s, Run(s, events), q)
    decreases |events|
  {
    hide Inv, HasTask, Step;
    if events != [] {
      GoneStep(s, events[0], q);
      StepInv(s, events[0]);
      ExitIsFinal(Step(s, events[0]), events[1..], q);
    }
  }

  // ---- progress ----

  /** What the system does by itself: signals and drops that follow an admission, and worker steps. */
  predicate Internal(s: State, e: Event) {
    match e
    case DropLease(l) => l in s.leases && s.leases[l].phase == Signalled
    case SignalAdmit(_) | SignalDrop(_) | Start(_) | Check(_) | PopNext(_) | Finish(_, _) | Wake(_) => true
    case _ => false
  }

  function Owner(s: State, e: Event): Option<nat> {
    match e
    case DropLease(l) => if l in s.leases then Some(s.leases[l].queue) else None
    case SignalAdmit(l) => if l in s.leases then Some(s.leases[l].queue) else None
    case SignalDrop(l) => if l in s.leases then Some(s.leases[l].queue) else None
    case Start(t) => if t in s.tasks then Some(s.tasks[t].queue) else None
    case Check(t) => if t in s.tasks then Some(s.tasks[t].queue) else None
    case PopNext(t) => if t in s.tasks then Some(s.tasks[t].queue) else None
    case Finish(t, _) => if t in s.tasks then Some(s.tasks[t].queue) else None
    case Wake(t) => if t in s.tasks then Some(s.tasks[t].queue) else None
    case _ => None
  }

  predicate Moves(s: State, e: Event, q: nat) {
    Enabled(s, e) && Internal(s, e) && Owner(s, e) == Some(q)
  }

  lemma WorkerOf(s: State, q: nat) returns (t: nat)
    requires Inv(s) && q in s.queues && !s.queues[q].closed && s.queues[q].lanes.frames != []
    ensures t in s.tasks && s.tasks[t].queue == q && TaskOk(s, s.tasks[t])
  {
    hide TaskOk, Ledger;
    assert QueueOk(s, q) && Accounted(s.queues[q]);
    t :| t in s.tasks && s.tasks[t].queue == q;
  }

  /** The queue's worker, or a thread that will start or wake it, always has a step to take. */
  lemma NextMove(s: State, q: nat) returns (e: Event)
    requires Inv(s) && q in s.queues && !s.queues[q].closed && s.queues[q].lanes.frames != []
    ensures Moves(s, e, q)
  {
    hide Inv, TaskOk;
    var t := WorkerOf(s, q);
    match s.tasks[t].phase
    case Starting(l) => e := StartMove(s, q, t);
    case AtTop => e := Check(t);
    case Popping => e := PopNext(t);
    case Parked =>
      if s.tasks[t].writes != [] {
        e := Finish(t, 0);
      } else {
        e := WakeMove(s, q, t);
      }
  }

  lemma StartMove(s: State, q: nat, t: nat) returns (e: Event)
    requires q in s.queues && t in s.tasks && s.tasks[t].queue == q && TaskOk(s, s.tasks[t])
    requires s.tasks[t].phase.Starting?
    ensures Moves(s, e, q)
  {
    hide BusyOk, WakeOk;
    var l := s.tasks[t].phase.lease;
    if l !in s.leases {
      e := Start(t);
    } else {
      e := match s.leases[l].phase
        case Admitted => SignalAdmit(l)
        case Signalled => DropLease(l)
        case _ => SignalDrop(l);
    }
  }

  /** A worker parked with nothing in flight while frames wait has been signalled, or is about to be. */
  lemma WakeMove(s: State, q: nat, t: nat) returns (e: Event)
    requires q in s.queues && s.queues[q].lanes.frames != []
    requires TaskIn(s, t, Parked) && s.tasks[t].queue == q && s.tasks[t].writes == [] && TaskOk(s, s.tasks[t])
    ensures Moves(s, e, q)
  {
    hide LaneQueue.Pop;
    LaneQueue.PopTotal(s.queues[q].lanes);
    assert CanPop(s.queues[q], s.tasks[t]);
    assert Alerted(s, q);
    if s.queues[q].permit {
      e := Wake(t);
    } else {
      var l :| l in s.leases && Alerting(s.leases[l], q);
      e := if s.leases[l].phase == Admitted then SignalAdmit(l) else SignalDrop(l);
    }
  }

  // ---- the measure ----

  function LeaseRank(q: nat): Lease -> nat {
    (l: Lease) =>
      if l.queue != q then 0
      else match l.phase
        case Held => 0
        case Admitted => 11
        case Signalled => 6
        case Dropped => 5
  }

  function PhaseRank(p: TaskPhase): nat {
    match p
    case Starting(_) => 4
    case AtTop => 3
    case Popping => 2
    case Parked => 1
  }

  function TaskRank(q: nat): Task -> nat {
    (t: Task) => if t.queue != q then 0 else 4 * |t.writes| + PhaseRank(t.phase)
  }

  function QueueRank(q: Queue): nat {
    8 * |q.lanes.frames| + (if q.permit then 4 else 0)
  }

  /** How many internal steps a queue can still take. */
  ghost function Rank(s: State, q: nat): nat
    requires q in s.queues
  {
    QueueRank(s.queues[q]) + Sum(s.leases, LeaseRank(q)) + Sum(s.tasks, TaskRank(q))
  }

  lemma LeaseMoves(s: State, e: Event, q: nat)
    requires Inv(s) && Enabled(s, e) && Internal(s, e) && q in s.queues
    requires e.DropLease? || e.SignalAdmit? || e.SignalDrop?
    ensures q in Step(s, e).queues
    ensures if Owner(s, e) == Some(q) then Rank(Step(s, e), q) < Rank(s, q) else Rank(Step(s, e), q) == Rank(s, q)
  {
    hide Inv;
    var l := e.lease;
    var u := Step(s, e);
    SumRemove(s.leases, LeaseRank(q), l);
    if e.SignalDrop? {
      assert u.leases == s.leases - {l};
    } else {
      SumUpdate(s.leases, LeaseRank(q), l, u.leases[l]);
    }
  }

  lemma PopShrinks(lanes: LaneQueue.Lanes, orderedReady: bool, bulkReady: bool)
    ensures
      var (after, next) := LaneQueue.Pop(lanes, orderedReady, bulkReady);
      next.Some? ==> |after.frames| + 1 == |lanes.frames|
  {
  }

  lemma TaskSum(s: State, u: State, t: nat, q: nat)
    requires t in s.tasks && (if t in u.tasks then u.tasks == s.tasks[t := u.tasks[t]] else u.tasks == s.tasks - {t})
    ensures Sum(u.tasks, TaskRank(q))
         == Sum(s.tasks, TaskRank(q)) - TaskRank(q)(s.tasks[t]) + (if t in u.tasks then TaskRank(q)(u.tasks[t]) else 0)
  {
    SumRemove(s.tasks, TaskRank(q), t);
    if t in u.tasks {
      SumUpdate(s.tasks, TaskRank(q), t, u.tasks[t]);
    }
  }

  lemma PopMoves(s: State, t: nat, q: nat)
    requires TaskIn(s, t, Popping) && q in s.queues
    ensures q in Popped(s, t).queues
    ensures if s.tasks[t].queue == q then Rank(Popped(s, t), q) < Rank(s, q) else Rank(Popped(s, t), q) == Rank(s, q)
  {
    hide LaneQueue.Pop, Sum;
    var task := s.tasks[t];
    var lanes := s.queues[task.queue].lanes;
    PopShrinks(lanes, !task.orderedBusy, !task.bulkBusy);
    TaskSum(s, Popped(s, t), t, q);
    var (after, next) := LaneQueue.Pop(lanes, !task.orderedBusy, !task.bulkBusy);
    if next.Some? {
      assert Popped(s, t).tasks[t] == Writing(task, next.value);
      assert Popped(s, t).queues[task.queue].lanes == after;
    }
  }

  lemma TaskMoves(s: State, e: Event, q: nat)
    requires Enabled(s, e) && q in s.queues
    requires e.Start? || e.Check? || e.PopNext? || e.Finish? || e.Wake?
    ensures q in Step(s, e).queues
    ensures if Owner(s, e) == Some(q) then Rank(Step(s, e), q) < Rank(s, q) else Rank(Step(s, e), q) == Rank(s, q)
  {
    hide LaneQueue.Pop, Sum, Popped, MayExit;
    if e.PopNext? {
      PopMoves(s, e.task, q);
    } else {
      TaskSum(s, Step(s, e), e.task, q);
    }
  }

  /** Every internal step of a queue lowers its rank, and no other queue's. */
  lemma MoveLowersRank(s: State, e: Event, q: nat)
    requires Inv(s) && Enabled(s, e) && Internal(s, e) && q in s.queues
    ensures q in Step(s, e).queues
    ensures if Owner(s, e) == Some(q) then Rank(Step(s, e), q) < Rank(s, q) else Rank(Step(s, e), q) == Rank(s, q)
  {
    hide Inv, Step, Rank;
    if e.DropLease? || e.SignalAdmit? || e.SignalDrop? {
      LeaseMoves(s, e, q);
    } else {
      TaskMoves(s, e, q);
    }
  }

  /** A run of internal steps only, of this queue or others. */
  ghost predicate Working(s: State, events: seq<Event>)
    decreases |events|
  {
    events == [] || (Enabled(s, events[0]) && Internal(s, events[0]) && Working(Step(s, events[0]), events[1..]))
  }

  function Count(s: State, events: seq<Event>, q: nat): nat
    decreases |events|
  {
    if events == [] then 0
    else (if Owner(s, events[0]) == Some(q) then 1 else 0) + Count(Step(s, events[0]), events[1..], q)
  }

  /** Left to themselves, a queue and its worker come to rest after at most `Rank` steps. */
  lemma {:induction false} WorkIsBounded(s: State, events: seq<Event>, q: nat)
    requires Inv(s) && q in s.queues && Working(s, events)
    ensures q in Run(s, events).queues
    ensures Count(s, events, q) + Rank(Run(s, events), q) <= Rank(s, q)
    decreases |events|
  {
    hide Inv, Step, Rank;
    if events != [] {
      MoveLowersRank(s, events[0], q);
      StepInv(s, events[0]);
      WorkIsBounded(Step(s, events[0]), events[1..], q);
    }
  }

  lemma MoveKeeps(s: State, e: Event, q: nat)
    requires Inv(s) && Enabled(s, e) && Internal(s, e) && q in s.queues
    ensures q in Step(s, e).queues
    ensures Step(s, e).queues[q].closed == s.queues[q].closed
    ensures Step(s, e).queues[q].pushed == s.queues[q].pushed
    ensures Step(s, e).queues[q].priority == s.queues[q].priority
  {
    hide Inv, LaneQueue.Pop;
  }

  /** Everything the queue admitted has been started, lane by lane in order. */
  ghost predicate AllStarted(q: Queue) {
    forall bulk: bool {:trigger LaneQueue.Taken(q.popped, bulk)} ::
      LaneQueue.Taken(q.popped, bulk) == LaneQueue.Class(q.pushed, q.priority, bulk)
  }

  lemma EmptyAllStarted(q: Queue)
    requires Accounted(q) && !q.closed && q.lanes.frames == []
    ensures AllStarted(q)
  {
    assert Ledger(q, true) && Ledger(q, false);
    assert LaneQueue.Class([], q.priority, true) == [] && LaneQueue.Class([], q.priority, false) == [];
    forall bulk: bool
      ensures LaneQueue.Taken(q.popped, bulk) == LaneQueue.Class(q.pushed, q.priority, bulk)
    {
      assert Ledger(q, bulk);
    }
  }

  /** Where no internal step of an open queue is left, no frame is left either. */
  lemma RestIsEmpty(s: State, q: nat)
    requires Inv(s) && q in s.queues && !s.queues[q].closed
    requires forall e :: !Moves(s, e, q)
    ensures s.queues[q].lanes.frames == [] && AllStarted(s.queues[q])
  {
    hide LaneQueue.Taken, LaneQueue.Class, Moves;
    if s.queues[q].lanes.frames != [] {
      var e := NextMove(s, q);
    }
    EmptyAllStarted(s.queues[q]);
  }

  /**
   No frame is stranded: from every reachable state, without any outside help, at most `Rank` steps
   of the worker and of threads already under way start every frame an open queue has admitted.
   */
  lemma {:induction false} NoStrandedFrame(s: State, q: nat) returns (work: seq<Event>)
    requires Inv(s) && q in s.queues && !s.queues[q].closed
    ensures Working(s, work) && |work| <= Rank(s, q) && q in Run(s, work).queues
    ensures Run(s, work).queues[q].pushed == s.queues[q].pushed
    ensures AllStarted(Run(s, work).queues[q])
    decreases Rank(s, q)
  {
    hide Inv, Step, Rank, AllStarted;
    if s.queues[q].lanes.frames == [] {
      work := [];
      AccountedIn(s, q);
      EmptyAllStarted(s.queues[q]);
    } else {
      var e := NextMove(s, q);
      MoveLowersRank(s, e, q);
      MoveKeeps(s, e, q);
      StepInv(s, e);
      var rest := NoStrandedFrame(Step(s, e), q);
      work := [e] + rest;
      assert work[1..] == rest;
    }
  }

  lemma AccountedIn(s: State, q: nat)
    requires Inv(s) && q in s.queues
    ensures Accounted(s.queues[q])
  {
  }
}
