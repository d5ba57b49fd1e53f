/**
 The resizable byte budget in front of a send queue: permits charge it, reservations wait in line,
 and a lowered limit can leave it in debt.
 */
module ByteBudget {
  import opened Common

  datatype Request = Request(bytes: nat, received: bool)

  /** `permits` holds the bytes each live permit is charged for; `waiting` is the line, its head trying. */
  datatype Budget = Budget(
    ceiling: nat,
    limit: nat,
    used: int,
    closed: bool,
    waiting: seq<Request>,
    permits: map<nat, nat>,
    unused: nat)

  function New(limit: nat): Budget {
    Budget(limit, limit, 0, false, [], map[], 0)
  }

  datatype Event =
    | SetLimit(limit: nat)
    | Reserve(bytes: nat)
    | ReserveReceived(bytes: nat)
    | Cancel(index: nat)
    | Attempt
    | TryReserve(bytes: nat)
    | Shrink(permit: nat, bytes: nat)
    | Release(permit: nat)
    | Close

  predicate Fits(b: Budget, r: Request) {
    b.used + r.bytes <= b.limit || (r.received && b.used == 0 && r.bytes > b.limit)
  }

  predicate Grants(b: Budget, r: Request) {
    !b.closed && Fits(b, r)
  }

  function Charged(b: Budget, bytes: nat): Budget {
    b.(used := b.used + bytes, permits := b.permits[b.unused := bytes], unused := b.unused + 1)
  }

  function Shrunk(b: Budget, permit: nat, bytes: nat): Budget
    requires permit in b.permits
  {
    var left := Min(bytes, b.permits[permit]);
    b.(used := b.used - (b.permits[permit] - left), permits := b.permits[permit := left])
  }

  function Attempted(b: Budget): Budget
    requires b.waiting != []
  {
    var next := b.(waiting := b.waiting[1..]);
    if b.closed then next
    else if Fits(b, b.waiting[0]) then Charged(next, b.waiting[0].bytes)
    else b
  }

  function Step(b: Budget, e: Event): Budget {
    match e
    case SetLimit(l) => b.(limit := Min(l, b.ceiling))
    case Reserve(n) => if n > b.ceiling then b else b.(waiting := b.waiting + [Request(n, false)])
    case ReserveReceived(n) => b.(waiting := b.waiting + [Request(Min(n, b.ceiling), true)])
    case Cancel(i) => if i < |b.waiting| then b.(waiting := b.waiting[..i] + b.waiting[i + 1..]) else b
    case Attempt => if b.waiting == [] then b else Attempted(b)
    case TryReserve(n) =>
      if n <= b.ceiling && b.waiting == [] && Grants(b, Request(n, false)) then Charged(b, n) else b
    case Shrink(p, n) => if p in b.permits then Shrunk(b, p, n) else b
    case Release(p) =>
      if p in b.permits then var s := Shrunk(b, p, 0); s.(permits := s.permits - {p}) else b
    case Close => b.(closed := true)
  }

  function Run(b: Budget, events: seq<Event>): Budget
    decreases |events|
  {
    if events == [] then b else Run(Step(b, events[0]), events[1..])
  }

  /** The shared state the permits and the waiting reservations all lock. */
  class BudgetShared {
    const ceiling: nat
    var limit: nat
    var used: int
    var closed: bool
    var waiting: seq<Request>
    var permits: map<nat, nat>
    var unused: nat

    ghost function View(): Budget
      reads this
    {
      Budget(ceiling, limit, used, closed, waiting, permits, unused)
    }

    constructor (limit: nat)
      ensures View() == New(limit) && Inv(View())
    {
      ceiling, this.limit, used, closed := limit, limit, 0, false;
      waiting, permits, unused := [], map[], 0;
    }

    method Acquire(bytes: nat, received: bool) returns (r: Result<Option<nat>>)
      requires Inv(View()) && bytes <= ceiling
      modifies this
      ensures Inv(View())
      ensures r == if closed then Err else if Fits(old(View()), Request(bytes, received)) then Ok(Some(old(unused))) else Ok(None)
      ensures View() == if r.Ok? && r.value.Some? then Charged(old(View()), bytes) else old(View())
    {
      if closed {
        return Err;
      }
      if used + bytes <= limit || (received && used == 0 && bytes > limit) {
        ChargeInv(View(), Request(bytes, received));
        r := Ok(Some(unused));
        used := used + bytes;
        permits := permits[unused := bytes];
        unused := unused + 1;
      } else {
        r := Ok(None);
      }
    }

    method SetLimit(limit: nat)
      requires Inv(View())
      modifies this`limit
      ensures View() == Step(old(View()), Event.SetLimit(limit)) && Inv(View())
    {
      this.limit := Min(limit, ceiling);
    }

    method Reserve(bytes: nat, received: bool) returns (queued: bool)
      requires Inv(View())
      modifies this`waiting
      ensures View() == Step(old(View()), if received then ReserveReceived(bytes) else Event.Reserve(bytes))
      ensures Inv(View())
      ensures queued <==> received || bytes <= ceiling
    {
      if !received && bytes > ceiling {
        return false;
      }
      waiting := waiting + [Request(if received then Min(bytes, ceiling) else bytes, received)];
      return true;
    }

    /** The reservation at the head of the line tries once; None leaves it waiting for a change. */
    method Attempt() returns (r: Result<Option<nat>>)
      requires Inv(View()) && waiting != []
      modifies this
      ensures View() == Step(old(View()), Event.Attempt) && Inv(View())
      ensures r.Err? <==> closed
      ensures r.Ok? && r.value.Some? <==> Grants(old(View()), old(waiting)[0])
    {
      var head := waiting[0];
      r := Acquire(head.bytes, head.received);
      if r.Err? || r.value.Some? {
        waiting := waiting[1..];
      }
    }

    method TryReserve(bytes: nat) returns (r: Result<nat>)
      requires Inv(View())
      modifies this
      ensures View() == Step(old(View()), Event.TryReserve(bytes)) && Inv(View())
      ensures r == if bytes <= ceiling && waiting == [] && Grants(old(View()), Request(bytes, false))
                   then Ok(old(unused)) else Err
    {
      if bytes > ceiling || waiting != [] {
        return Err;
      }
      var permit := Acquire(bytes, false);
      return if permit.Ok? && permit.value.Some? then Ok(permit.value.value) else Err;
    }

    method ShrinkTo(permit: nat, bytes: nat)
      requires Inv(View()) && permit in permits
      modifies this
      ensures View() == Step(old(View()), Shrink(permit, bytes)) && Inv(View())
    {
      StepInv(View(), Shrink(permit, bytes));
      var left := Min(bytes, permits[permit]);
      used := used - (permits[permit] - left);
      permits := permits[permit := left];
    }

    method DropPermit(permit: nat)
      requires Inv(View()) && permit in permits
      modifies this
      ensures View() == Step(old(View()), Release(permit)) && Inv(View())
    {
      StepInv(View(), Release(permit));
      ShrinkTo(permit, 0);
      permits := permits - {permit};
    }

    method CloseBudget()
      requires Inv(View())
      modifies this`closed
      ensures View() == Step(old(View()), Close) && Inv(View())
    {
      closed := true;
    }
  }

  // ---- what every run keeps ----

  ghost predicate Inv(b: Budget) {
    && b.used == Sum(b.permits, Amount)
    && b.used <= b.ceiling && b.limit <= b.ceiling
    && (forall r <- b.waiting :: r.bytes <= b.ceiling)
    && (forall p <- b.permits :: p < b.unused)
  }

  lemma ChargeInv(b: Budget, r: Request)
    requires Inv(b) && Fits(b, r) && r.bytes <= b.ceiling
    ensures Inv(Charged(b, r.bytes))
  {
    SumUpdate(b.permits, Amount, b.unused, r.bytes);
  }

  lemma ShrinkInv(b: Budget, p: nat, bytes: nat)
    requires Inv(b) && p in b.permits
    ensures Inv(Shrunk(b, p, bytes)) && Shrunk(b, p, bytes).used <= b.used
  {
    var left: nat := Min(bytes, b.permits[p]);
    SumUpdate(b.permits, Amount, p, left);
  }

  lemma StepInv(b: Budget, e: Event)
    requires Inv(b)
    ensures Inv(Step(b, e))
  {
    match e
    case Attempt =>
      if b.waiting != [] && Grants(b, b.waiting[0]) {
        ChargeInv(b.(waiting := b.waiting[1..]), b.waiting[0]);
      }
    case TryReserve(n) =>
      if n <= b.ceiling && Grants(b, Request(n, false)) {
        ChargeInv(b, Request(n, false));
      }
    case Shrink(p, n) =>
      if p in b.permits {
        ShrinkInv(b, p, n);
      }
    case Release(p) =>
      if p in b.permits {
        ShrinkInv(b, p, 0);
        SumRemove(Shrunk(b, p, 0).permits, Amount, p);
      }
    case _ =>
  }

  lemma {:induction false} RunInv(b: Budget, events: seq<Event>)
    requires Inv(b)
    ensures Inv(Run(b, events))
    decreases |events|
  {
    if events != [] {
      StepInv(b, events[0]);
      RunInv(Step(b, events[0]), events[1..]);
    }
  }

  /** The bytes in use are those of the live permits and stay under the ceiling, through any resizing. */
  lemma BudgetInvariant(limit: nat, events: seq<Event>)
    ensures
      var b := Run(New(limit), events);
      b.used == Sum(b.permits, Amount) && 0 <= b.used <= limit && b.limit <= limit
  {
    RunInv(New(limit), events);
    CeilingStays(New(limit), events);
  }

  lemma {:induction false} CeilingStays(b: Budget, events: seq<Event>)
    ensures Run(b, events).ceiling == b.ceiling
    decreases |events|
  {
    if events != [] {
      CeilingStays(Step(b, events[0]), events[1..]);
    }
  }

  predicate Granted(b: Budget, e: Event) {
    Step(b, e).unused > b.unused
  }

  /**
   A grant leaves the budget within its limit, except for a received frame larger than the limit,
   which then has the whole budget to itself.
   */
  lemma GrantWithinLimit(b: Budget, e: Event)
    requires Inv(b) && Granted(b, e)
    ensures
      var u := Step(b, e);
      || u.used <= u.limit
      || (e == Attempt && b.waiting[0].received && b.waiting[0].bytes > b.limit
          && b.used == 0 && u.used == b.waiting[0].bytes)
  {
  }

  /** A budget in debt takes on nothing more until permits are released or the limit is raised. */
  lemma DebtNeverGrows(b: Budget, e: Event)
    requires Inv(b) && b.used > b.limit && !e.SetLimit?
    ensures Step(b, e).used <= b.used && !Granted(b, e)
  {
    if (e.Shrink? || e.Release?) && e.permit in b.permits {
      ShrinkInv(b, e.permit, if e.Shrink? then e.bytes else 0);
    }
  }

  // ---- an idle budget ----

  function ReleaseAll(b: Budget, permits: seq<nat>): seq<Event> {
    seq(|permits|, i requires 0 <= i < |permits| => Release(permits[i]))
  }

  /** Releasing every live permit brings the budget back to idle, with line and limit as they were. */
  lemma {:induction false} ReleasedIsIdle(b: Budget, permits: seq<nat>)
    requires Inv(b) && (forall p <- b.permits :: p in permits)
    ensures Run(b, ReleaseAll(b, permits)) == b.(used := 0, permits := map[])
    decreases |permits|
  {
    if permits == [] {
      assert b.permits == map[];
    } else {
      var u := Step(b, Release(permits[0]));
      StepInv(b, Release(permits[0]));
      ReleasedIsIdle(u, permits[1..]);
      assert ReleaseAll(b, permits)[1..] == ReleaseAll(u, permits[1..]);
    }
  }

  /** With no permit left, the head of the line is granted unless it is local and above the lowered limit. */
  lemma IdleGrants(b: Budget)
    requires Inv(b) && b.permits == map[] && !b.closed && b.waiting != []
    ensures Granted(b, Attempt) <==> b.waiting[0].received || b.waiting[0].bytes <= b.limit
  {
  }

  /** A received frame is never stranded: once the live permits are released, it is granted at the head. */
  lemma ReceivedNeverStranded(b: Budget, permits: seq<nat>)
    requires Inv(b) && !b.closed && b.waiting != [] && b.waiting[0].received
    requires forall p <- b.permits :: p in permits
    ensures Granted(Run(b, ReleaseAll(b, permits)), Attempt)
  {
    ReleasedIsIdle(b, permits);
    RunInv(b, ReleaseAll(b, permits));
    IdleGrants(Run(b, ReleaseAll(b, permits)));
  }

  // ---- the line ----

  function Joins(b: Budget, e: Event): seq<Request> {
    match e
    case Reserve(n) => if n > b.ceiling then [] else [Request(n, false)]
    case ReserveReceived(n) => [Request(Min(n, b.ceiling), true)]
    case _ => []
  }

  function Joined(b: Budget, events: seq<Event>): seq<Request>
    decreases |events|
  {
    if events == [] then [] else Joins(b, events[0]) + Joined(Step(b, events[0]), events[1..])
  }

  /** The reservation that is answered, with a permit or an error. */
  function Answers(b: Budget, e: Event): seq<Request> {
    if e == Attempt && b.waiting != [] && (b.closed || Fits(b, b.waiting[0])) then [b.waiting[0]] else []
  }

  function Answered(b: Budget, events: seq<Event>): seq<Request>
    decreases |events|
  {
    if events == [] then [] else Answers(b, events[0]) + Answered(Step(b, events[0]), events[1..])
  }

  /** The reservation that gives up its place. */
  function Leaves(b: Budget, e: Event): seq<Request> {
    if e.Cancel? && e.index < |b.waiting| then [b.waiting[e.index]] else []
  }

  function Cancelled(b: Budget, events: seq<Event>): seq<Request>
    decreases |events|
  {
    if events == [] then [] else Leaves(b, events[0]) + Cancelled(Step(b, events[0]), events[1..])
  }

  /** All of `xs` occurs in `ys`, in the same order. */
  predicate Subsequence(xs: seq<Request>, ys: seq<Request>)
    decreases |ys|
  {
    if xs == [] then true
    else if ys == [] then false
    else (xs[0] == ys[0] && Subsequence(xs[1..], ys[1..])) || Subsequence(xs, ys[1..])
  }

  lemma {:induction false} SubsequenceSelf(xs: seq<Request>)
    ensures Subsequence(xs, xs)
  {
    if xs != [] {
      SubsequenceSelf(xs[1..]);
    }
  }

  lemma {:induction false} SubsequenceAfter(front: seq<Request>, xs: seq<Request>, ys: seq<Request>)
    requires Subsequence(xs, ys)
    ensures Subsequence(front + xs, front + ys)
  {
    if front == [] {
      assert front + xs == xs && front + ys == ys;
    } else {
      SubsequenceAfter(front[1..], xs, ys);
      assert (front + xs)[1..] == front[1..] + xs && (front + ys)[1..] == front[1..] + ys;
    }
  }

  lemma {:induction false} SubsequenceInsert(xs: seq<Request>, front: seq<Request>, z: Request, back: seq<Request>)
    requires Subsequence(xs, front + back)
    ensures Subsequence(xs, front + [z] + back)
    decreases |front|
  {
    var more := front + [z] + back;
    if xs == [] {
    } else if front == [] {
      assert front + back == back && more[1..] == back;
    } else {
      assert (front + back)[1..] == front[1..] + back && more[1..] == front[1..] + [z] + back;
      if xs[0] == front[0] && Subsequence(xs[1..], front[1..] + back) {
        SubsequenceInsert(xs[1..], front[1..], z, back);
      } else {
        SubsequenceInsert(xs, front[1..], z, back);
      }
    }
  }

  /** What is answered or still waits is what joined without what was cancelled, in the same order. */
  ghost predicate Serves(joined: seq<Request>, served: seq<Request>, gone: seq<Request>) {
    Subsequence(served, joined) && SameRequests(joined, served, gone)
  }

  ghost predicate SameRequests(joined: seq<Request>, served: seq<Request>, gone: seq<Request>) {
    multiset(joined) == multiset(served) + multiset(gone)
  }

  /** Reservations are answered in the order they joined the line, each once, except those cancelled. */
  lemma {:induction false} LineIsFifo(b: Budget, events: seq<Event>)
    ensures Serves(b.waiting + Joined(b, events), Answered(b, events) + Run(b, events).waiting, Cancelled(b, events))
    decreases |events|
  {
    hide Joins, Answers, Leaves, Step, Serves;
    if events == [] {
      AllWait(b.waiting);
      assert b.waiting + [] == b.waiting && [] + b.waiting == b.waiting;
    } else {
      var e, rest := events[0], events[1..];
      var u := Step(b, e);
      LineIsFifo(u, rest);
      LineStep(b, e, Joined(u, rest), Answered(u, rest) + Run(u, rest).waiting, Cancelled(u, rest));
      assert b.waiting + (Joins(b, e) + Joined(u, rest)) == b.waiting + Joins(b, e) + Joined(u, rest);
      assert Answers(b, e) + (Answered(u, rest) + Run(u, rest).waiting)
          == Answers(b, e) + Answered(u, rest) + Run(u, rest).waiting;
    }
  }

  lemma AllWait(line: seq<Request>)
    ensures Serves(line, line, [])
  {
    SubsequenceSelf(line);
  }

  /** One step in front of a line that is answered in order. */
  lemma LineStep(b: Budget, e: Event, joined: seq<Request>, served: seq<Request>, gone: seq<Request>)
    requires Serves(Step(b, e).waiting + joined, served, gone)
    ensures Serves(b.waiting + Joins(b, e) + joined, Answers(b, e) + served, Leaves(b, e) + gone)
  {
    hide Serves, Fits;
    if e.Cancel? && e.index < |b.waiting| {
      var front, back := b.waiting[..e.index], b.waiting[e.index + 1..];
      assert front + back + joined == front + (back + joined);
      CancelLine(front, b.waiting[e.index], back + joined, served, gone);
      assert b.waiting + [] + joined == front + [b.waiting[e.index]] + (back + joined) && [] + served == served;
    } else {
      LineMoves(b, e);
      ServeLine(Answers(b, e), Step(b, e).waiting + joined, served, gone);
      assert Answers(b, e) + (Step(b, e).waiting + joined) == b.waiting + Joins(b, e) + joined;
      assert [] + gone == gone;
    }
  }

  lemma LineMoves(b: Budget, e: Event)
    requires !(e.Cancel? && e.index < |b.waiting|)
    ensures b.waiting + Joins(b, e) == Answers(b, e) + Step(b, e).waiting
  {
  }

  lemma ServeLine(answered: seq<Request>, line: seq<Request>, served: seq<Request>, gone: seq<Request>)
    requires Serves(line, served, gone)
    ensures Serves(answered + line, answered + served, gone)
  {
    hide Subsequence;
    SubsequenceAfter(answered, served, line);
  }

  lemma CancelLine(front: seq<Request>, z: Request, back: seq<Request>, served: seq<Request>, gone: seq<Request>)
    requires Serves(front + back, served, gone)
    ensures Serves(front + [z] + back, served, [z] + gone)
  {
    hide Subsequence, SameRequests;
    SubsequenceInsert(served, front, z, back);
    CancelCounts(front, z, back, served, gone);
  }

  lemma CancelCounts(front: seq<Request>, z: Request, back: seq<Request>, served: seq<Request>, gone: seq<Request>)
    requires SameRequests(front + back, served, gone)
    ensures SameRequests(front + [z] + back, served, [z] + gone)
  {
    assert multiset(front + back) == multiset(front) + multiset(back);
    assert multiset(front + [z] + back) == multiset(front) + multiset{z} + multiset(back);
    assert multiset([z] + gone) == multiset{z} + multiset(gone);
    assert multiset(front) + multiset{z} + multiset(back) == (multiset(front) + multiset(back)) + multiset{z};
  }

  // ---- exactly when a reservation is granted ----

  /** The limit a run ends with: the last one set, up to the first. */
  function LastLimit(first: nat, events: seq<Event>): nat {
    if events == [] then first
    else
      var last := events[|events| - 1];
      if last.SetLimit? then Min(last.limit, first) else LastLimit(first, events[..|events| - 1])
  }

  predicate Closes(events: seq<Event>) {
    exists i :: 0 <= i < |events| && events[i] == Close
  }

  lemma {:induction false} RunNext(b: Budget, events: seq<Event>, e: Event)
    ensures Run(b, events + [e]) == Step(Run(b, events), e)
    decreases |events|
  {
    hide Step;
    if events != [] {
      RunNext(Step(b, events[0]), events[1..], e);
      assert (events + [e])[1..] == events[1..] + [e];
    }
  }

  lemma {:induction false} RunLimit(limit: nat, events: seq<Event>)
    ensures
      var b := Run(New(limit), events);
      b.limit == LastLimit(limit, events) && b.ceiling == limit && (b.closed <==> Closes(events))
  {
    hide Closes;
    if events == [] {
      NothingCloses();
    } else {
      var front, e := events[..|events| - 1], events[|events| - 1];
      RunLimit(limit, front);
      RunNext(New(limit), front, e);
      assert front + [e] == events;
      ClosesNext(front, e);
    }
  }

  lemma NothingCloses()
    ensures !Closes([])
  {
  }

  lemma ClosesNext(events: seq<Event>, e: Event)
    ensures Closes(events + [e]) <==> Closes(events) || e == Close
  {
    var all := events + [e];
    if i :| 0 <= i < |events| && events[i] == Close {
      assert all[i] == Close;
    }
    if e == Close {
      assert all[|events|] == Close;
    }
  }

  /**
   After every run the head of the line is granted exactly if the budget has not been closed and the live
   permits leave room for it under the last limit set; or it is received, nothing is charged, and the
   limit is below it. A permit for exactly its bytes is then live.
   */
  lemma GrantExactly(limit: nat, events: seq<Event>)
    requires Run(New(limit), events).waiting != []
    ensures
      var b := Run(New(limit), events);
      var head := b.waiting[0];
      var live := Sum(b.permits, Amount);
      var last := LastLimit(limit, events);
      && (Granted(b, Attempt) <==>
            !Closes(events) && (live + head.bytes <= last || (head.received && live == 0 && head.bytes > last)))
      && (Granted(b, Attempt) ==> Step(b, Attempt).permits == b.permits[b.unused := head.bytes] && b.unused !in b.permits)
  {
    hide Run, LastLimit, Closes;
    RunInv(New(limit), events);
    RunLimit(limit, events);
  }

  /** A reservation that does not wait is granted under the same condition, if nobody is in line. */
  lemma TryExactly(limit: nat, events: seq<Event>, bytes: nat)
    ensures
      var b := Run(New(limit), events);
      Granted(b, TryReserve(bytes)) <==>
        bytes <= limit && b.waiting == [] && !Closes(events) && Sum(b.permits, Amount) + bytes <= LastLimit(limit, events)
  {
    hide Run, LastLimit, Closes;
    RunInv(New(limit), events);
    RunLimit(limit, events);
  }

  /** Shrinking a permit gives back all bytes beyond the new size, and dropping it all of them, at once. */
  lemma GivesBack(b: Budget, permit: nat, bytes: nat)
    requires Inv(b) && permit in b.permits
    ensures
      var u, v := Step(b, Shrink(permit, bytes)), Step(b, Release(permit));
      && u.permits.Keys == b.permits.Keys && u.permits[permit] == Min(bytes, b.permits[permit])
      && u.used == b.used - Max(b.permits[permit] - bytes, 0)
      && v.permits == b.permits - {permit} && v.used == b.used - b.permits[permit]
      && forall p <- b.permits :: p != permit ==> u.permits[p] == b.permits[p]
  {
  }
}
