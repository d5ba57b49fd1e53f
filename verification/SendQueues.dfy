/**
 The per-peer send queues and their spawn-on-demand workers, as a transition system. Every section
 the code runs under a lock is one event, and a wake-up is an event of its own, so a run is any
 interleaving of leases, admissions, lease drops, pruning, generation changes, closing and workers.
 */
module SendQueues {
  import opened Common
  import LaneQueue

  type Peer = Bytes

  type Frame = LaneQueue.Frame

  /** `pushed` and `popped` record what the queue admitted and what its worker started. */
  datatype Queue = Queue(
    peer: Peer,
    generation: Option<nat>,
    priority: bool,
    lanes: LaneQueue.Lanes,
    running: bool,
    reservations: int,
    closed: bool,
    permit: bool,
    pushed: seq<Frame>,
    popped: seq<LaneQueue.Popped>)

  /** Between two lock sections a lease is held, has admitted, has signalled, or is dropped but has not signalled. */
  datatype LeasePhase = Held | Admitted | Signalled | Dropped

  datatype Lease = Lease(queue: nat, phase: LeasePhase)

  datatype TaskPhase = Starting(lease: nat) | AtTop | Popping | Parked

  datatype Task = Task(queue: nat, phase: TaskPhase, orderedBusy: bool, bulkBusy: bool, writes: seq<LaneQueue.Popped>)

  /** Queues, leases and tasks are numbered from `unused`; a queue stays here after it leaves the map. */
  datatype State = State(
    entries: map<Peer, nat>,
    queues: map<nat, Queue>,
    leases: map<nat, Lease>,
    tasks: map<nat, Task>,
    unused: nat)

  const Initial := State(map[], map[], map[], map[], 0)

  /**
   `spared` are idle queues the pruning scan leaves: it looks at one queue at a time, so a lease that
   drops behind the scan leaves an idle entry in the map.
   */
  datatype Event =
    | TakeLease(peer: Peer, generation: Option<nat>, priority: bool, spared: set<Peer>)
    | Admit(lease: nat, frame: Frame)
    | SignalAdmit(lease: nat)
    | DropLease(lease: nat)
    | SignalDrop(lease: nat)
    | Start(task: nat)
    | Check(task: nat)
    | PopNext(task: nat)
    | Finish(task: nat, write: nat)
    | Wake(task: nat)
    | Close(peer: Peer)

  // ---- taking a lease ----

  predicate Idle(q: Queue) {
    !q.running && q.reservations == 0
  }

  predicate Stale(s: State, peer: Peer, generation: Option<nat>) {
    peer in s.entries && s.entries[peer] in s.queues && s.queues[s.entries[peer]].generation != generation
  }

  function Replaced(s: State, peer: Peer, generation: Option<nat>): State {
    if Stale(s, peer, generation) then
      var was := s.entries[peer];
      s.(entries := s.entries - {peer}, queues := s.queues[was := s.queues[was].(permit := true)])
    else s
  }

  function Pruned(s: State, spared: set<Peer>): State {
    s.(entries := map p | p in s.entries
        && (s.entries[p] in s.queues ==> !Idle(s.queues[s.entries[p]]) || p in spared) :: s.entries[p])
  }

  function NewQueue(peer: Peer, generation: Option<nat>, priority: bool): Queue {
    Queue(peer, generation, priority, LaneQueue.Lanes([], priority, 0), false, 0, false, false, [], [])
  }

  function Entered(s: State, peer: Peer, generation: Option<nat>, priority: bool): State {
    if peer in s.entries then s
    else s.(entries := s.entries[peer := s.unused],
            queues := s.queues[s.unused := NewQueue(peer, generation, priority)],
            unused := s.unused + 1)
  }

  function Leased(s: State, peer: Peer): State {
    if peer in s.entries && s.entries[peer] in s.queues then
      var q := s.entries[peer];
      s.(queues := s.queues[q := s.queues[q].(reservations := s.queues[q].reservations + 1)],
         leases := s.leases[s.unused := Lease(q, Held)],
         unused := s.unused + 1)
    else s
  }

  // ---- admission ----

  function Admission(s: State, l: nat, f: Frame): State
    requires LeaseIn(s, l, {Held})
  {
    var lease := s.leases[l];
    var q := s.queues[lease.queue];
    if q.closed then s.(leases := s.leases[l := lease.(phase := Signalled)])
    else
      s.(leases := s.leases[l := lease.(phase := Admitted)],
         queues := s.queues[lease.queue :=
           q.(lanes := LaneQueue.Push(q.lanes, f), running := true, pushed := q.pushed + [f])],
         tasks := if q.running then s.tasks
                  else s.tasks[s.unused := Task(lease.queue, Starting(l), false, false, [])],
         unused := s.unused + 1)
  }

  function InPhase(s: State, l: nat, phase: LeasePhase): map<nat, Lease>
    requires l in s.leases
  {
    s.leases[l := s.leases[l].(phase := phase)]
  }

  function Permitted(s: State, q: nat): map<nat, Queue>
    requires q in s.queues
  {
    s.queues[q := s.queues[q].(permit := true)]
  }

  function AdmitSignalled(s: State, l: nat): State
    requires LeaseIn(s, l, {Admitted})
  {
    s.(leases := InPhase(s, l, Signalled), queues := Permitted(s, s.leases[l].queue))
  }

  function LeaseDropped(s: State, l: nat): State
    requires LeaseIn(s, l, {Held, Signalled})
  {
    var q := s.leases[l].queue;
    s.(leases := InPhase(s, l, Dropped),
       queues := s.queues[q := s.queues[q].(reservations := s.queues[q].reservations - 1)])
  }

  function DropSignalled(s: State, l: nat): State
    requires LeaseIn(s, l, {Dropped})
  {
    s.(leases := s.leases - {l}, queues := Permitted(s, s.leases[l].queue))
  }

  // ---- the worker ----

  predicate MayExit(q: Queue, t: Task) {
    q.lanes.frames == [] && t.writes == [] && q.reservations == 0
  }

  function Checked(s: State, id: nat): State
    requires TaskIn(s, id, AtTop)
  {
    var t := s.tasks[id];
    var q := s.queues[t.queue];
    if q.closed then s.(tasks := s.tasks - {id})
    else if MayExit(q, t) then
      s.(tasks := s.tasks - {id},
         entries := if q.peer in s.entries && s.entries[q.peer] == t.queue then s.entries - {q.peer} else s.entries)
    else s.(tasks := s.tasks[id := t.(phase := Popping)])
  }

  function Popped(s: State, id: nat): State
    requires TaskIn(s, id, Popping)
  {
    var t := s.tasks[id];
    var q := s.queues[t.queue];
    var (lanes, next) := LaneQueue.Pop(q.lanes, !t.orderedBusy, !t.bulkBusy);
    match next
    case None => s.(tasks := s.tasks[id := t.(phase := Parked)])
    case Some(p) =>
      s.(tasks := s.tasks[id := Writing(t, p)],
         queues := s.queues[t.queue := q.(lanes := lanes, popped := q.popped + [p])])
  }

  function Writing(t: Task, p: LaneQueue.Popped): Task {
    t.(writes := t.writes + [p], bulkBusy := t.bulkBusy || p.bulk, orderedBusy := t.orderedBusy || !p.bulk)
  }

  function Finished(t: Task, i: nat): Task
    requires i < |t.writes|
  {
    Task(t.queue, AtTop,
         if t.writes[i].bulk then t.orderedBusy else false,
         if t.writes[i].bulk then false else t.bulkBusy,
         t.writes[..i] + t.writes[i + 1..])
  }

  function Completed(s: State, id: nat, i: nat): State
    requires TaskIn(s, id, Parked) && i < |s.tasks[id].writes|
  {
    s.(tasks := s.tasks[id := Finished(s.tasks[id], i)])
  }

  function Woken(s: State, id: nat): State
    requires TaskIn(s, id, Parked)
  {
    var q := s.tasks[id].queue;
    s.(tasks := s.tasks[id := s.tasks[id].(phase := AtTop)],
       queues := s.queues[q := s.queues[q].(permit := false)])
  }

  function Started(s: State, id: nat): State
    requires id in s.tasks
  {
    s.(tasks := s.tasks[id := s.tasks[id].(phase := AtTop)])
  }

  function Closing(s: State, peer: Peer): State
    requires peer in s.entries && s.entries[peer] in s.queues
  {
    var q := s.entries[peer];
    s.(entries := s.entries - {peer},
       queues := s.queues[q :=
         s.queues[q].(closed := true, lanes := LaneQueue.Lanes([], false, 0), permit := true)])
  }

  // ---- events ----

  predicate LeaseIn(s: State, l: nat, phases: set<LeasePhase>) {
    l in s.leases && s.leases[l].queue in s.queues && s.leases[l].phase in phases
  }

  predicate TaskIn(s: State, t: nat, phase: TaskPhase) {
    t in s.tasks && s.tasks[t].queue in s.queues && s.tasks[t].phase == phase
  }

  predicate Enabled(s: State, e: Event) {
    match e
    case TakeLease(_, _, _, _) => true
    case Admit(l, _) => LeaseIn(s, l, {Held})
    case SignalAdmit(l) => LeaseIn(s, l, {Admitted})
    case DropLease(l) => LeaseIn(s, l, {Held, Signalled})
    case SignalDrop(l) => LeaseIn(s, l, {Dropped})
    case Start(t) => t in s.tasks && s.tasks[t].queue in s.queues
                     && s.tasks[t].phase.Starting? && s.tasks[t].phase.lease !in s.leases
    case Check(t) => TaskIn(s, t, AtTop)
    case PopNext(t) => TaskIn(s, t, Popping)
    case Finish(t, i) => TaskIn(s, t, Parked) && i < |s.tasks[t].writes|
    case Wake(t) => TaskIn(s, t, Parked) && s.queues[s.tasks[t].queue].permit
    case Close(p) => p in s.entries && s.entries[p] in s.queues
  }

  function Step(s: State, e: Event): State {
    if !Enabled(s, e) then s
    else
      match e
      case TakeLease(p, g, priority, spared) => Leased(Entered(Pruned(Replaced(s, p, g), spared), p, g, priority), p)
      case Admit(l, f) => Admission(s, l, f)
      case SignalAdmit(l) => AdmitSignalled(s, l)
      case DropLease(l) => LeaseDropped(s, l)
      case SignalDrop(l) => DropSignalled(s, l)
      case Start(t) => Started(s, t)
      case Check(t) => Checked(s, t)
      case PopNext(t) => Popped(s, t)
      case Finish(t, i) => Completed(s, t, i)
      case Wake(t) => Woken(s, t)
      case Close(p) => Closing(s, p)
  }

  function Run(s: State, events: seq<Event>): State
    decreases |events|
  {
    if events == [] then s else Run(Step(s, events[0]), events[1..])
  }
}
