/**
 The want registry as a state machine: every public operation takes the registry's one lock,
 so each is a single step. `delivered` and `exceeded` are what has been sent on the one-shot
 channels handed out with the registrations.
 */
module WantModel {
  import opened Common

  const MAX_WANT_ASSEMBLY_BYTES := 64 * 1024 * 1024
  const MAX_WANT_ASSEMBLIES := 256
  const MAX_PENDING_WANTS := 1024
  const MAX_WANT_PEERS := 1024

  /** One assembly per requested CID, sender and room. */
  datatype Key = Key(cid: Bytes, sender: Bytes, room: Bytes)

  /** `closed` says that the caller dropped the receiving end. */
  datatype Want = Want(
    id: nat,
    paths: set<Bytes>,
    peers: set<Bytes>,
    closed: bool,
    limit: Option<nat>,
    resets: nat,
    received: nat,
    accepted: nat)

  datatype Assembly = Assembly(total: nat, received: nat, bytes: nat, chunks: seq<Option<Bytes>>)

  datatype Counters = Counters(
    accepted: nat,
    acceptedBytes: nat,
    duplicate: nat,
    duplicateBytes: nat,
    rejected: nat,
    completed: nat)

  /** A payload sent to registration `id`, with the limit that registration had. */
  datatype Delivery = Delivery(id: nat, key: Key, data: Bytes, limit: Option<nat>)

  datatype Exceeded = Exceeded(id: nat, bytes: nat)

  datatype State = State(
    pending: map<Bytes, seq<Want>>,
    assemblies: map<Key, Assembly>,
    nextAttempt: nat,
    counters: Counters,
    delivered: seq<Delivery>,
    exceeded: seq<Exceeded>)

  const Initial := State(map[], map[], 0, Counters(0, 0, 0, 0, 0, 0), [], [])

  predicate Authorises(w: Want, sender: Bytes, room: Bytes) {
    sender in w.peers && room in w.paths
  }

  /** Some registration for the key's CID, open or abandoned, names its sender and room. */
  predicate Authorised(pending: map<Bytes, seq<Want>>, key: Key) {
    key.cid in pending
    && exists w :: w in pending[key.cid] && Authorises(w, key.sender, key.room)
  }

  predicate Accepts(s: State, key: Key) {
    key.cid in s.pending
    && exists w :: w in s.pending[key.cid] && !w.closed && Authorises(w, key.sender, key.room)
  }

  // ---- selecting and editing registrations ----

  datatype Test =
    | Open
    | WithinLimit(sender: Bytes, room: Bytes, bytes: nat)
    | Unaddressed(sender: Bytes, room: Bytes)
    | Recipient(sender: Bytes, room: Bytes)
    | OverLimit(sender: Bytes, room: Bytes, bytes: nat)

  predicate Exceeds(w: Want, sender: Bytes, room: Bytes, bytes: nat) {
    Authorises(w, sender, room) && w.limit.Some? && bytes > w.limit.value
  }

  predicate Keeps(t: Test, w: Want) {
    match t
    case Open => !w.closed
    case WithinLimit(sender, room, bytes) => !Exceeds(w, sender, room, bytes)
    case Unaddressed(sender, room) => !Authorises(w, sender, room)
    case Recipient(sender, room) => Authorises(w, sender, room) && !w.closed
    case OverLimit(sender, room, bytes) => Exceeds(w, sender, room, bytes)
  }

  /** The registrations that pass the test, in order. */
  function Keep(ws: seq<Want>, t: Test): (r: seq<Want>)
    ensures |r| <= |ws|
    ensures forall w :: w in r <==> w in ws && Keeps(t, w)
  {
    if ws == [] then []
    else Keep(ws[..|ws| - 1], t) + (if Keeps(t, ws[|ws| - 1]) then [ws[|ws| - 1]] else [])
  }

  datatype Edit =
    | CountReceived(key: Key)
    | CountAccepted(key: Key)
    | AddPath(id: nat, room: Bytes)
    | DropPath(id: nat, room: Bytes)
    | SetLimit(id: nat, bytes: nat)
    | CloseReceiver(id: nat)
    | NoteReset(from: Option<Bytes>, room: Bytes)

  function Edited(e: Edit, cid: Bytes, w: Want): Want {
    match e
    case CountReceived(k) =>
      if cid == k.cid && Authorises(w, k.sender, k.room) then w.(received := w.received + 1) else w
    case CountAccepted(k) =>
      if cid == k.cid && Authorises(w, k.sender, k.room) then w.(accepted := w.accepted + 1) else w
    case AddPath(id, room) => if w.id == id then w.(paths := w.paths + {room}) else w
    case DropPath(id, room) => if w.id == id then w.(paths := w.paths - {room}) else w
    case SetLimit(id, bytes) =>
      if w.id == id then w.(limit := Some(Min(bytes, MAX_WANT_BLOCK_BYTES))) else w
    case CloseReceiver(id) => if w.id == id then w.(closed := true) else w
    case NoteReset(from, room) =>
      if (from == None || from.value in w.peers) && room in w.paths then w.(resets := w.resets + 1) else w
  }

  function EditList(e: Edit, cid: Bytes, ws: seq<Want>): seq<Want> {
    seq(|ws|, i requires 0 <= i < |ws| => Edited(e, cid, ws[i]))
  }

  function EditPending(e: Edit, pending: map<Bytes, seq<Want>>): map<Bytes, seq<Want>> {
    map c | c in pending :: EditList(e, c, pending[c])
  }

  // ---- the internal operations ----

  function OpenPending(pending: map<Bytes, seq<Want>>): map<Bytes, seq<Want>> {
    map c | c in pending && Keep(pending[c], Open) != [] :: Keep(pending[c], Open)
  }

  /** Drop abandoned registrations, then assemblies that no registration asks for. */
  function Prune(s: State): State {
    var pending := OpenPending(s.pending);
    s.(pending := pending,
       assemblies := map k | k in s.assemblies && Authorised(pending, k) :: s.assemblies[k])
  }

  function Observe(s: State, key: Key, accepted: bool): State {
    s.(pending := EditPending(if accepted then CountAccepted(key) else CountReceived(key), s.pending))
  }

  function Notices(ws: seq<Want>, bytes: nat): seq<Exceeded> {
    seq(|ws|, i requires 0 <= i < |ws| => Exceeded(ws[i].id, bytes))
  }

  /** Fail the bounded registrations on this path that `bytes` would exceed. */
  function EnforceByteLimits(s: State, key: Key, bytes: nat): State {
    if key.cid !in s.pending then Prune(s)
    else
      var ws := s.pending[key.cid];
      Prune(s.(
        pending := s.pending[key.cid := Keep(ws, WithinLimit(key.sender, key.room, bytes))],
        exceeded := s.exceeded + Notices(Keep(ws, OverLimit(key.sender, key.room, bytes)), bytes)))
  }

  function Deliveries(ws: seq<Want>, key: Key, data: Bytes): seq<Delivery> {
    seq(|ws|, i requires 0 <= i < |ws| => Delivery(ws[i].id, key, data, ws[i].limit))
  }

  /** Complete the registrations that asked this sender on this path; keep the others. */
  function Fulfill(s: State, key: Key, data: Bytes): State {
    if key.cid !in s.pending then s
    else
      var ws := s.pending[key.cid];
      Prune(s.(
        pending := s.pending[key.cid := Keep(ws, Unaddressed(key.sender, key.room))],
        delivered := s.delivered + Deliveries(Keep(ws, Recipient(key.sender, key.room)), key, data)))
  }

  function Rejected(s: State): State {
    s.(counters := s.counters.(rejected := s.counters.rejected + 1))
  }

  function Duplicated(s: State, bytes: nat): State {
    s.(counters := s.counters.(duplicate := s.counters.duplicate + 1,
                               duplicateBytes := s.counters.duplicateBytes + bytes))
  }

  function Admitted(s: State, bytes: nat): State {
    s.(counters := s.counters.(accepted := s.counters.accepted + 1,
                               acceptedBytes := s.counters.acceptedBytes + bytes))
  }

  function Completed(s: State): State {
    s.(counters := s.counters.(completed := s.counters.completed + 1))
  }

  // ---- assemblies ----

  function EmptyAssembly(total: nat): Assembly {
    Assembly(total, 0, 0, seq(total, _ => None))
  }

  predicate HasChunk(a: Assembly, index: nat) {
    index < |a.chunks| && a.chunks[index].Some?
  }

  function StoreChunk(a: Assembly, index: nat, data: Bytes): Assembly {
    if index < |a.chunks| then
      a.(bytes := a.bytes + |data|, received := a.received + 1, chunks := a.chunks[index := Some(data)])
    else a
  }

  function Contents(chunk: Option<Bytes>): Bytes {
    if chunk.Some? then chunk.value else []
  }

  /** The stored chunks in index order. */
  function Concat(chunks: seq<Option<Bytes>>): Bytes {
    if chunks == [] then []
    else Concat(chunks[..|chunks| - 1]) + Contents(chunks[|chunks| - 1])
  }

  function Present(chunks: seq<Option<Bytes>>): nat {
    if chunks == [] then 0
    else Present(chunks[..|chunks| - 1]) + (if chunks[|chunks| - 1].Some? then 1 else 0)
  }

  function BytesOf(a: Assembly): nat {
    a.bytes
  }

  function Count(ws: seq<Want>): nat {
    |ws|
  }

  function AssemblyAt(s: State, key: Key, total: nat): Assembly {
    if key in s.assemblies then s.assemblies[key] else EmptyAssembly(total)
  }

  // ---- the public operations ----

  datatype Event =
    | Register(cid: Bytes, peers: seq<Bytes>, local: bool)
    | InstallLimit(id: nat, bytes: nat)
    | TrackPath(id: nat, room: Bytes)
    | UntrackPath(id: nat, room: Bytes)
    | ReceiverCloses(id: nat)
    | Have(key: Key, data: Bytes)
    | HaveChunk(key: Key, index: nat, total: nat, data: Bytes)
    | ResetPath(from: Option<Bytes>, room: Bytes)
    | CancelClosed
    | Cancel(cid: Bytes)

  ghost predicate Admissible(s: State, cid: Bytes, peers: seq<Bytes>) {
    && |cid| <= 255
    && 0 < |peers| <= MAX_WANT_PEERS
    && (forall p | p in peers :: |p| <= 256)
    && Sum(s.pending, Count) < MAX_PENDING_WANTS
  }

  function NewWant(id: nat, peers: seq<Bytes>, local: bool): Want {
    Want(id, if local then {[]} else {}, set p | p in peers, false, None, 0, 0, 0)
  }

  function Waiting(pending: map<Bytes, seq<Want>>, cid: Bytes): seq<Want> {
    if cid in pending then pending[cid] else []
  }

  function Enrolled(s: State, cid: Bytes, w: Want): State {
    s.(pending := s.pending[cid := Waiting(s.pending, cid) + [w]])
  }

  ghost function RegisterStep(s0: State, cid: Bytes, peers: seq<Bytes>, local: bool): State {
    var s := Prune(s0);
    var id := s.nextAttempt + 1;
    var next := s.(nextAttempt := id);
    if Admissible(s, cid, peers) then Enrolled(next, cid, NewWant(id, peers, local)) else next
  }

  function HaveStep(s0: State, key: Key, data: Bytes): State {
    var s := EnforceByteLimits(Observe(Prune(s0), key, false), key, |data|);
    if |data| <= MAX_WANT_BLOCK_BYTES && Accepts(s, key)
    then Fulfill(Observe(Completed(Admitted(s, |data|)), key, true), key, data)
    else Rejected(s)
  }

  ghost predicate HasRoom(s: State, key: Key, bytes: nat) {
    && (key in s.assemblies || |s.assemblies| < MAX_WANT_ASSEMBLIES)
    && Sum(s.assemblies, BytesOf) + bytes <= MAX_WANT_ASSEMBLY_BYTES
  }

  /** The last chunk is in: drop the assembly and hand out the whole block. */
  function CompleteStep(s: State, key: Key, a: Assembly): State {
    Fulfill(Completed(s.(assemblies := s.assemblies - {key})), key, Concat(a.chunks))
  }

  function StoreStep(s: State, key: Key, index: nat, total: nat, data: Bytes): State {
    var a := StoreChunk(AssemblyAt(s, key, total), index, data);
    var s := Observe(Admitted(s.(assemblies := s.assemblies[key := a]), |data|), key, true);
    if a.received == a.total then CompleteStep(s, key, a) else s
  }

  /** A new chunk with a sound header: bound its path's callers, then the registry. */
  ghost function AdmitStep(s0: State, key: Key, index: nat, total: nat, data: Bytes): State {
    var bytes := AssemblyAt(s0, key, total).bytes + |data|;
    var s := EnforceByteLimits(s0, key, bytes);
    if Accepts(s, key) && bytes <= MAX_WANT_BLOCK_BYTES && HasRoom(s, key, |data|)
    then StoreStep(s, key, index, total, data)
    else Rejected(s)
  }

  predicate SoundHeader(index: nat, total: nat) {
    0 < total <= MAX_WANT_CHUNKS && index < total
  }

  ghost function ChunkStep(s0: State, key: Key, index: nat, total: nat, data: Bytes): State {
    var s := Observe(Prune(s0), key, false);
    var a := AssemblyAt(s, key, total);
    if !SoundHeader(index, total) || !Accepts(s, key) || a.total != total then Rejected(s)
    else if HasChunk(a, index) then Duplicated(s, |data|)
    else AdmitStep(s, key, index, total, data)
  }

  predicate ResetHits(from: Option<Bytes>, room: Bytes, key: Key) {
    key.room == room && (from == None || from.value == key.sender)
  }

  function ResetStep(s0: State, from: Option<Bytes>, room: Bytes): State {
    var s := Prune(s0);
    s.(assemblies := map k | k in s.assemblies && !ResetHits(from, room, k) :: s.assemblies[k],
       pending := EditPending(NoteReset(from, room), s.pending))
  }

  function CancelStep(s: State, cid: Bytes): State {
    Prune(s.(pending := s.pending - {cid},
             assemblies := map k | k in s.assemblies && k.cid != cid :: s.assemblies[k]))
  }

  ghost function Step(s: State, e: Event): State {
    match e
    case Register(cid, peers, local) => RegisterStep(s, cid, peers, local)
    case InstallLimit(id, bytes) => s.(pending := EditPending(SetLimit(id, bytes), s.pending))
    case TrackPath(id, room) => s.(pending := EditPending(AddPath(id, room), s.pending))
    case UntrackPath(id, room) => Prune(s.(pending := EditPending(DropPath(id, room), s.pending)))
    case ReceiverCloses(id) => s.(pending := EditPending(CloseReceiver(id), s.pending))
    case Have(key, data) => HaveStep(s, key, data)
    case HaveChunk(key, index, total, data) => ChunkStep(s, key, index, total, data)
    case ResetPath(from, room) => ResetStep(s, from, room)
    case CancelClosed => Prune(s)
    case Cancel(cid) => CancelStep(s, cid)
  }

  ghost function Run(s: State, events: seq<Event>): State
    decreases |events|
  {
    if events == [] then s else Run(Step(s, events[0]), events[1..])
  }
}
