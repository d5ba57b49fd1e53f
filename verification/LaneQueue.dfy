/**
 The one-deque lane scheduler. Frames that may use the independent writer and frames that must keep
 their order share a deque; popping refines two first-in-first-out queues with bounded overtaking.
 */
module LaneQueue {
  import opened Common

  const MAX_BURST := 16

  datatype Lane = General | Control | Bulk

  /** A sequence number of one destination. An epoch ends when the destination's counter is evicted. */
  datatype Stamp = Stamp(dest: Bytes, epoch: nat, number: nat)

  /** `tag` and `stamp` identify the frame; the other fields are what the scheduler looks at. */
  datatype Frame = Frame(tag: nat, stamp: Option<Stamp>, lane: Lane, unsequencedBulk: bool, reliableUnordered: bool)

  datatype Lanes = Lanes(frames: seq<Frame>, priority: bool, burst: nat)

  datatype Popped = Popped(frame: Frame, bulk: bool)

  predicate Independent(priority: bool, f: Frame) {
    f.reliableUnordered || (priority && f.unsequencedBulk)
  }

  /** The frames of one class, in arrival order: one of the two queues the deque stands for. */
  function Class(frames: seq<Frame>, priority: bool, bulk: bool): seq<Frame> {
    if frames == [] then []
    else
      (if Independent(priority, frames[0]) == bulk then [frames[0]] else []) + Class(frames[1..], priority, bulk)
  }

  /** Position of the first frame that must keep its order, or the length. */
  function FirstOrdered(frames: seq<Frame>, priority: bool): (i: nat)
    ensures i <= |frames|
    ensures forall j :: 0 <= j < i ==> Independent(priority, frames[j])
    ensures i < |frames| ==> !Independent(priority, frames[i])
  {
    if frames == [] || !Independent(priority, frames[0]) then 0 else 1 + FirstOrdered(frames[1..], priority)
  }

  function Push(q: Lanes, f: Frame): Lanes {
    q.(frames := q.frames + [f])
  }

  function Without(frames: seq<Frame>, i: nat): seq<Frame>
    requires i < |frames|
  {
    frames[..i] + frames[i + 1..]
  }

  predicate MayOvertake(q: Lanes, i: nat)
    requires q.frames != [] && i < |q.frames|
  {
    !q.priority || (q.frames[0].reliableUnordered && q.frames[0].lane != Bulk) || q.frames[i].lane != Bulk
  }

  function PopFront(q: Lanes, bulk: bool, burst: nat): (Lanes, Option<Popped>)
    requires q.frames != []
  {
    (q.(frames := q.frames[1..], burst := burst), Some(Popped(q.frames[0], bulk)))
  }

  function Pop(q: Lanes, orderedReady: bool, bulkReady: bool): (Lanes, Option<Popped>) {
    if q.frames == [] then (q, None)
    else
      var first := q.frames[0];
      if !q.priority && !first.reliableUnordered then
        if orderedReady then PopFront(q, false, q.burst) else (q, None)
      else if first.reliableUnordered || first.unsequencedBulk then
        var i := FirstOrdered(q.frames, q.priority);
        if orderedReady && (q.burst < MAX_BURST || !bulkReady) && i < |q.frames| && MayOvertake(q, i) then
          (q.(frames := Without(q.frames, i), burst := q.burst + 1), Some(Popped(q.frames[i], false)))
        else if bulkReady then PopFront(q, true, 0)
        else (q, None)
      else if orderedReady then PopFront(q, false, if first.lane == Control then q.burst + 1 else 0)
      else (q, None)
  }

  /** The queue itself, with the search for the first ordered frame as a scan of the deque. */
  class LaneDeque {
    var frames: seq<Frame>
    const priority: bool
    var burst: nat

    ghost function View(): Lanes
      reads this
    {
      Lanes(frames, priority, burst)
    }

    constructor (priority: bool)
      ensures View() == Lanes([], priority, 0)
    {
      this.priority := priority;
      frames, burst := [], 0;
    }

    method PushBack(f: Frame)
      modifies this
      ensures View() == Push(old(View()), f)
    {
      frames := frames + [f];
    }

    method PositionOfOrdered() returns (index: nat)
      ensures index == FirstOrdered(frames, priority)
    {
      index := 0;
      while index < |frames| && Independent(priority, frames[index])
        invariant index <= |frames|
        invariant index + FirstOrdered(frames[index..], priority) == FirstOrdered(frames, priority)
      {
        assert frames[index..][1..] == frames[index + 1..];
        index := index + 1;
      }
    }

    method PopNext(orderedReady: bool, bulkReady: bool) returns (next: Option<Popped>)
      modifies this
      ensures (View(), next) == Pop(old(View()), orderedReady, bulkReady)
    {
      if |frames| == 0 {
        return None;
      }
      var first := frames[0];
      if !priority && !first.reliableUnordered {
        if !orderedReady {
          return None;
        }
        frames := frames[1..];
        return Some(Popped(first, false));
      }
      if first.reliableUnordered || first.unsequencedBulk {
        if orderedReady && (burst < MAX_BURST || !bulkReady) {
          var index := PositionOfOrdered();
          if index < |frames| {
            if !priority || (first.reliableUnordered && first.lane != Bulk) || frames[index].lane != Bulk {
              burst := burst + 1;
              next := Some(Popped(frames[index], false));
              frames := frames[..index] + frames[index + 1..];
              return;
            }
          }
        }
        if bulkReady {
          burst := 0;
          frames := frames[1..];
          return Some(Popped(first, true));
        }
        return None;
      }
      if !orderedReady {
        return None;
      }
      burst := if first.lane == Control then burst + 1 else 0;
      frames := frames[1..];
      return Some(Popped(first, false));
    }
  }

  // ---- one pop against the two queues ----

  lemma {:induction false} ClassAppend(xs: seq<Frame>, ys: seq<Frame>, priority: bool, bulk: bool)
    ensures Class(xs + ys, priority, bulk) == Class(xs, priority, bulk) + Class(ys, priority, bulk)
  {
    hide Independent;
    if xs == [] {
      assert xs + ys == ys;
    } else {
      assert (xs + ys)[1..] == xs[1..] + ys;
      ClassAppend(xs[1..], ys, priority, bulk);
    }
  }

  lemma {:induction false} ClassOfUniform(xs: seq<Frame>, priority: bool, bulk: bool)
    requires forall j :: 0 <= j < |xs| ==> Independent(priority, xs[j])
    ensures Class(xs, priority, bulk) == if bulk then xs else []
  {
    if xs != [] {
      ClassOfUniform(xs[1..], priority, bulk);
      assert xs == [xs[0]] + xs[1..];
    }
  }

  /** Taking out the first ordered frame takes the head of the ordered queue and nothing else. */
  lemma TakeOrdered(frames: seq<Frame>, priority: bool)
    requires FirstOrdered(frames, priority) < |frames|
    ensures
      var i := FirstOrdered(frames, priority);
      Class(frames, priority, false) == [frames[i]] + Class(Without(frames, i), priority, false)
      && Class(frames, priority, true) == Class(Without(frames, i), priority, true)
  {
    hide Class;
    var i := FirstOrdered(frames, priority);
    ClassSplit(frames, priority, false, i);
    ClassSplit(frames, priority, true, i);
    ClassOfUniform(frames[..i], priority, false);
  }

  lemma ClassSplit(frames: seq<Frame>, priority: bool, bulk: bool, i: nat)
    requires i < |frames|
    ensures Class(frames, priority, bulk)
         == Class(frames[..i], priority, bulk)
            + (if Independent(priority, frames[i]) == bulk then [frames[i]] else [])
            + Class(frames[i + 1..], priority, bulk)
    ensures Class(Without(frames, i), priority, bulk)
         == Class(frames[..i], priority, bulk) + Class(frames[i + 1..], priority, bulk)
  {
    var head, tail := frames[..i], frames[i..];
    assert frames == head + tail && tail[0] == frames[i] && tail[1..] == frames[i + 1..];
    ClassAppend(head, tail, priority, bulk);
    ClassAppend(head, frames[i + 1..], priority, bulk);
  }

  lemma PushRefines(q: Lanes, f: Frame, bulk: bool)
    ensures Class(Push(q, f).frames, q.priority, bulk)
         == Class(q.frames, q.priority, bulk) + (if Independent(q.priority, f) == bulk then [f] else [])
  {
    ClassAppend(q.frames, [f], q.priority, bulk);
  }

  /**
   A pop takes the head of the queue it says it takes from, and leaves the other queue alone.
   With nothing popped, nothing changes.
   */
  lemma PopRefines(q: Lanes, orderedReady: bool, bulkReady: bool)
    ensures
      var (after, next) := Pop(q, orderedReady, bulkReady);
      && after.priority == q.priority
      && (next.None? ==> after == q)
      && (next.Some? ==>
            var p := next.value;
            && Independent(q.priority, p.frame) == p.bulk
            && (if p.bulk then bulkReady else orderedReady)
            && Class(q.frames, q.priority, p.bulk) == [p.frame] + Class(after.frames, q.priority, p.bulk)
            && Class(q.frames, q.priority, !p.bulk) == Class(after.frames, q.priority, !p.bulk))
  {
    if q.frames != [] && FirstOrdered(q.frames, q.priority) < |q.frames| {
      TakeOrdered(q.frames, q.priority);
    }
  }

  /** With both writers ready, only an empty queue yields nothing. */
  lemma PopTotal(q: Lanes)
    ensures Pop(q, true, true).1.None? <==> q.frames == []
  {
  }

  // ---- whole runs ----

  datatype Op = PushOp(frame: Frame) | PopOp(orderedReady: bool, bulkReady: bool)

  datatype Trace = Trace(lanes: Lanes, pushed: seq<Frame>, popped: seq<Popped>)

  function Apply(t: Trace, op: Op): Trace {
    match op
    case PushOp(f) => t.(lanes := Push(t.lanes, f), pushed := t.pushed + [f])
    case PopOp(o, b) =>
      var (after, next) := Pop(t.lanes, o, b);
      Trace(after, t.pushed, if next.Some? then t.popped + [next.value] else t.popped)
  }

  function ApplyAll(t: Trace, ops: seq<Op>): Trace
    decreases |ops|
  {
    if ops == [] then t else ApplyAll(Apply(t, ops[0]), ops[1..])
  }

  function Taken(popped: seq<Popped>, bulk: bool): seq<Frame> {
    if popped == [] then []
    else Taken(popped[..|popped| - 1], bulk)
         + (if popped[|popped| - 1].bulk == bulk then [popped[|popped| - 1].frame] else [])
  }

  /** What was pushed on a lane is what was popped from it followed by what still waits, in order. */
  ghost predicate Fifo(t: Trace, bulk: bool) {
    Class(t.pushed, t.lanes.priority, bulk) == Taken(t.popped, bulk) + Class(t.lanes.frames, t.lanes.priority, bulk)
  }

  lemma TakenNext(popped: seq<Popped>, p: Popped, bulk: bool)
    ensures Taken(popped + [p], bulk) == Taken(popped, bulk) + (if p.bulk == bulk then [p.frame] else [])
  {
    assert (popped + [p])[..|popped|] == popped;
  }

  lemma ApplyFifo(t: Trace, op: Op, bulk: bool)
    requires Fifo(t, bulk)
    ensures Fifo(Apply(t, op), bulk) && Apply(t, op).lanes.priority == t.lanes.priority
  {
    hide Pop, Class, Taken, Independent;
    match op
    case PushOp(f) =>
      PushFifo(t, f, bulk);
    case PopOp(o, b) =>
      PopFifo(t, o, b, bulk);
  }

  lemma PopFifo(t: Trace, orderedReady: bool, bulkReady: bool, bulk: bool)
    requires Fifo(t, bulk)
    ensures
      var u := Apply(t, PopOp(orderedReady, bulkReady));
      Fifo(u, bulk) && u.lanes.priority == t.lanes.priority
  {
    hide Pop, Class, Taken, Independent;
    PopRefines(t.lanes, orderedReady, bulkReady);
    var (after, next) := Pop(t.lanes, orderedReady, bulkReady);
    if next.Some? {
      TakenNext(t.popped, next.value, bulk);
      var waits := Class(after.frames, t.lanes.priority, bulk);
      assert Taken(t.popped, bulk) + ([next.value.frame] + waits) == Taken(t.popped, bulk) + [next.value.frame] + waits;
    }
  }

  lemma PushFifo(t: Trace, f: Frame, bulk: bool)
    requires Fifo(t, bulk)
    ensures Fifo(Apply(t, PushOp(f)), bulk)
  {
    hide Pop, Class, Taken;
    PushRefines(Lanes(t.pushed, t.lanes.priority, 0), f, bulk);
    PushRefines(t.lanes, f, bulk);
  }

  /** Over any run from an empty queue, each lane is first-in first-out: nothing lost, repeated or reordered. */
  lemma {:induction false} LanesAreFifo(t: Trace, ops: seq<Op>, bulk: bool)
    requires Fifo(t, bulk)
    ensures Fifo(ApplyAll(t, ops), bulk)
    decreases |ops|
  {
    if ops != [] {
      ApplyFifo(t, ops[0], bulk);
      LanesAreFifo(Apply(t, ops[0]), ops[1..], bulk);
    }
  }

  /** Ordered frames popped while the bulk writer was ready. */
  function Passes(t: Trace, ops: seq<Op>): nat
    decreases |ops|
  {
    if ops == [] then 0
    else
      var op := ops[0];
      var passed := op.PopOp? && op.bulkReady && Pop(t.lanes, op.orderedReady, op.bulkReady).1.Some?;
      (if passed then 1 else 0) + Passes(Apply(t, op), ops[1..])
  }

  /** The same independent frame stays at the front from start to end. */
  ghost predicate FrontWaits(t: Trace, ops: seq<Op>, f: Frame)
    decreases |ops|
  {
    && t.lanes.frames != [] && t.lanes.frames[0] == f
    && (ops == [] ||
        (&& (ops[0].PopOp? ==>
               Pop(t.lanes, ops[0].orderedReady, ops[0].bulkReady).1 != Some(Popped(f, true)))
         && FrontWaits(Apply(t, ops[0]), ops[1..], f)))
  }

  /** Each pass uses up one unit of the burst, which starts at no less than zero. */
  lemma {:induction false} PassesBounded(t: Trace, ops: seq<Op>, f: Frame)
    requires FrontWaits(t, ops, f) && Independent(t.lanes.priority, f)
    ensures Passes(t, ops) <= Max(MAX_BURST - t.lanes.burst, 0)
    decreases |ops|
  {
    if ops != [] {
      var u := Apply(t, ops[0]);
      assert u.lanes.priority == t.lanes.priority;
      PassesBounded(u, ops[1..], f);
    }
  }

  /** At most sixteen ordered frames pass a waiting independent frame while its writer is ready. */
  lemma BoundedOvertaking(t: Trace, ops: seq<Op>, f: Frame)
    requires FrontWaits(t, ops, f) && Independent(t.lanes.priority, f)
    ensures Passes(t, ops) <= MAX_BURST
  {
    PassesBounded(t, ops, f);
  }

  // ---- which frame goes, exactly ----

  /** The head of the ordered queue stands at the front, or may pass the independent frame that does. */
  predicate HeadMayGo(q: Lanes) {
    && Class(q.frames, q.priority, false) != []
    && var head := Class(q.frames, q.priority, false)[0];
       var front := q.frames[0];
       || !Independent(q.priority, front) || !q.priority || head.lane != Bulk
       || (front.reliableUnordered && front.lane != Bulk)
  }

  /** The first ordered frame is the head of the ordered queue, and an independent front that of the other. */
  lemma Heads(frames: seq<Frame>, priority: bool)
    requires frames != []
    ensures
      var i := FirstOrdered(frames, priority);
      if i == |frames| then Class(frames, priority, false) == []
      else Class(frames, priority, false) != [] && Class(frames, priority, false)[0] == frames[i]
    ensures
      var bulk := Independent(priority, frames[0]);
      Class(frames, priority, bulk) != [] && Class(frames, priority, bulk)[0] == frames[0]
    ensures FirstOrdered(frames, priority) == 0 <==> !Independent(priority, frames[0])
  {
    var i := FirstOrdered(frames, priority);
    if i < |frames| {
      TakeOrdered(frames, priority);
    } else {
      ClassOfUniform(frames, priority, false);
    }
  }

  /**
   The head of the ordered queue goes exactly when its writer is free, it may go, and the sixteen passes
   over a waiting frame whose writer is free are not used up; otherwise an independent front frame goes,
   if its writer is free.
   */
  lemma PopExactly(q: Lanes, orderedReady: bool, bulkReady: bool)
    requires q.frames != []
    ensures
      var next := Pop(q, orderedReady, bulkReady).1;
      var ordered := Class(q.frames, q.priority, false);
      var independent := Class(q.frames, q.priority, true);
      var waits := Independent(q.priority, q.frames[0]);
      var goes := orderedReady && HeadMayGo(q) && (!waits || q.burst < 16 || !bulkReady);
      && (goes ==> ordered != [] && next == Some(Popped(ordered[0], false)))
      && (!goes && waits && bulkReady ==> independent != [] && next == Some(Popped(independent[0], true)))
      && (next.None? <==> !goes && !(waits && bulkReady))
  {
    hide Class;
    Heads(q.frames, q.priority);
  }

  /** An independent frame waits at the front, and ordered frames that are not Bulk wait behind it. */
  ghost predicate Behind(q: Lanes, front: Frame, ordered: seq<Frame>) {
    && q.priority && q.frames != [] && q.frames[0] == front && Independent(true, front)
    && Class(q.frames, true, false) == ordered
    && forall f <- ordered :: f.lane != Bulk
  }

  function PopsBoth(n: nat): seq<Op> {
    seq(n, i => PopOp(true, true))
  }

  lemma BehindPass(q: Lanes, front: Frame, ordered: seq<Frame>)
    requires Behind(q, front, ordered) && ordered != [] && q.burst < 16
    ensures
      var (after, next) := Pop(q, true, true);
      next == Some(Popped(ordered[0], false)) && Behind(after, front, ordered[1..]) && after.burst == q.burst + 1
  {
    hide Class;
    Heads(q.frames, true);
    TakeOrdered(q.frames, true);
  }

  lemma {:induction false} PassesInTurn(t: Trace, front: Frame, ordered: seq<Frame>, n: nat)
    requires Behind(t.lanes, front, ordered) && n <= |ordered| && t.lanes.burst + n <= 16
    ensures
      var u := ApplyAll(t, PopsBoth(n));
      && Behind(u.lanes, front, ordered[n..]) && u.lanes.burst == t.lanes.burst + n && u.pushed == t.pushed
      && u.popped == t.popped + seq(n, i requires 0 <= i < n => Popped(ordered[i], false))
    decreases n
  {
    hide Pop, Class, Behind;
    if n == 0 {
      assert ordered[0..] == ordered;
    } else {
      BehindPass(t.lanes, front, ordered);
      var u := Apply(t, PopOp(true, true));
      assert PopsBoth(n)[0] == PopOp(true, true) && PopsBoth(n)[1..] == PopsBoth(n - 1);
      PassesInTurn(u, front, ordered[1..], n - 1);
      assert ordered[1..][n - 1..] == ordered[n..];
      var rest := seq(n - 1, i requires 0 <= i < n - 1 => Popped(ordered[1..][i], false));
      assert [Popped(ordered[0], false)] + rest == seq(n, i requires 0 <= i < n => Popped(ordered[i], false));
    }
  }

  /** With a fresh burst sixteen ordered frames pass the frame at the front, in order, and then it goes. */
  lemma SixteenThenOne(t: Trace, front: Frame, ordered: seq<Frame>)
    requires Behind(t.lanes, front, ordered) && |ordered| >= 16 && t.lanes.burst == 0
    ensures
      var u := ApplyAll(t, PopsBoth(16));
      && u.popped == t.popped + seq(16, i requires 0 <= i < 16 => Popped(ordered[i], false))
      && Pop(u.lanes, true, true).1 == Some(Popped(front, true)) && Pop(u.lanes, true, true).0.burst == 0
  {
    hide Class;
    PassesInTurn(t, front, ordered, 16);
  }

  /** Pops in a row that count against a waiting independent frame: passes, and Control frames from the front. */
  function Streak(t: Trace, ops: seq<Op>, sofar: nat): nat
    decreases |ops|
  {
    if ops == [] then sofar else Streak(Apply(t, ops[0]), ops[1..], StreakNext(t.lanes, ops[0], sofar))
  }

  function StreakNext(q: Lanes, op: Op, sofar: nat): nat {
    var next := if op.PopOp? && q.frames != [] then Pop(q, op.orderedReady, op.bulkReady).1 else None;
    if next.None? then sofar
    else if next.value.bulk then 0
    else if Independent(q.priority, q.frames[0]) then sofar + 1
    else if !q.priority then sofar
    else if next.value.frame.lane == Control then sofar + 1
    else 0
  }

  lemma StreakStep(t: Trace, op: Op)
    ensures Apply(t, op).lanes.burst == StreakNext(t.lanes, op, t.lanes.burst)
  {
  }

  /** That is what the scheduler counts. */
  lemma {:induction false} BurstIsStreak(t: Trace, ops: seq<Op>)
    ensures ApplyAll(t, ops).lanes.burst == Streak(t, ops, t.lanes.burst)
    decreases |ops|
  {
    hide Pop, Apply, Independent;
    if ops != [] {
      StreakStep(t, ops[0]);
      BurstIsStreak(Apply(t, ops[0]), ops[1..]);
    }
  }
}
