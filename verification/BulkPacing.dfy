/**
 The controller that keeps bulk queueing near a target delay: a byte budget per link, recomputed from
 how fast the channel was seen to drain. Rates are reals; conversions to integers saturate as in the code.
 */
module BulkPacing {
  import opened Common

  const MAX_U32 := 0xFFFF_FFFF
  const MAX_U64 := 0xFFFF_FFFF_FFFF_FFFF
  const MAX_BUDGET := 1024 * 1024
  const NATIVE_MIN_BUDGET := 64 * 1024
  const INITIAL_BUDGET := 64 * 1024
  const INITIAL_MAX_FRAME := 17 * 1024
  const SAMPLE_INTERVAL := 50
  const RATE_WINDOW := 2000
  const FALLBACK_RTT := 100.0
  const WINDOW_ENTRIES := 40

  datatype Sample = Sample(generation: nat, at: nat, submitted: nat, buffered: nat, backlogged: bool)

  datatype Rate = Rate(at: nat, value: real)

  datatype Pacer = Pacer(
    target: nat,
    native: bool,
    maxFrame: nat,
    previous: Option<Sample>,
    rate: Option<real>,
    budget: nat,
    rttMin: Option<real>,
    window: seq<Rate>)

  // ---- clamping ----

  /** The least budget: two of the largest frames, and on native links 64 KiB, but never over 1 MiB. */
  function Floor(native: bool, maxFrame: nat): nat {
    Min(Max(Min(2 * maxFrame, MAX_U32), if native then NATIVE_MIN_BUDGET else 0), MAX_BUDGET)
  }

  function Clamp(native: bool, maxFrame: nat, bytes: nat): nat {
    Min(Max(bytes, Floor(native, maxFrame)), MAX_BUDGET)
  }

  function New(target: nat, native: bool, maxFrame: nat): Pacer {
    Pacer(target, native, maxFrame, None, None, Clamp(native, maxFrame, INITIAL_BUDGET), None, [])
  }

  function ToU32(x: real): nat {
    if x < 0.0 then 0 else if x.Floor > MAX_U32 then MAX_U32 else x.Floor
  }

  function CeilToU64(x: real): nat {
    var c := -((-x).Floor);
    if c < 0 then 0 else if c > MAX_U64 then MAX_U64 else c
  }

  // ---- one observation ----

  function RttOf(p: Pacer): real {
    if p.rttMin.Some? then p.rttMin.value else FALLBACK_RTT
  }

  function SampleSpan(p: Pacer): nat {
    if p.native then Max(SAMPLE_INTERVAL, CeilToU64(RttOf(p))) else SAMPLE_INTERVAL
  }

  predicate Restarts(prev: Sample, x: Sample) {
    x.generation != prev.generation || x.submitted < prev.submitted || x.at < prev.at
  }

  predicate Idle(prev: Sample, x: Sample) {
    !x.backlogged || !prev.backlogged
  }

  /** Bytes the channel let go of between two samples. */
  function Released(prev: Sample, x: Sample): nat
    requires !Restarts(prev, x)
  {
    Max(Min(prev.buffered + (x.submitted - prev.submitted), MAX_U64) - x.buffered, 0)
  }

  /** No entry is from after this time: the subtraction from it cannot wrap. */
  ghost predicate NotAfter(window: seq<Rate>, at: nat) {
    forall i :: 0 <= i < |window| ==> window[i].at <= at
  }

  function Recent(window: seq<Rate>, at: nat): seq<Rate>
    requires NotAfter(window, at)
  {
    if window == [] then []
    else
      var last := window[|window| - 1];
      Recent(window[..|window| - 1], at) + (if at - last.at < RATE_WINDOW then [last] else [])
  }

  function Peak(window: seq<Rate>): real {
    if window == [] then 0.0
    else
      var rest := Peak(window[..|window| - 1]);
      if window[|window| - 1].value > rest then window[|window| - 1].value else rest
  }

  function Instant(prev: Sample, x: Sample): real
    requires !Restarts(prev, x) && x.at > prev.at
  {
    Released(prev, x) as real * 1000.0 / (x.at - prev.at) as real
  }

  function Smoothed(rate: Option<real>, instant: real, alpha: real): real {
    if rate.Some? then rate.value + alpha * (instant - rate.value) else instant
  }

  function Allowance(p: Pacer): real {
    p.target as real + if p.native then RttOf(p) else 0.0
  }

  /** Bytes a rate in bytes per second moves in some milliseconds. */
  function Moved(rate: real, ms: real): real {
    rate * ms / 1000.0
  }

  /** A full allowance that current delivery can sustain. */
  predicate NativeLimited(p: Pacer, instant: real, buffered: nat) {
    p.native && buffered as real >= p.budget as real * 0.9 && Moved(instant, Allowance(p)) >= p.budget as real * 0.9
  }

  function Estimated(p: Pacer, rate: real): nat {
    Clamp(p.native, p.maxFrame, ToU32(Moved(rate, Allowance(p))))
  }

  function NextBudget(p: Pacer, released: nat, instant: real, rate: real, buffered: nat): nat {
    var estimated := Estimated(p, rate);
    if released > 0 && (buffered == 0 || NativeLimited(p, instant, buffered))
    then Clamp(p.native, p.maxFrame, Max(estimated, Min(p.budget + p.budget / 2, MAX_U32)))
    else estimated
  }

  /** `alpha` stands for one minus the exponential of the elapsed time. */
  function Measured(p: Pacer, prev: Sample, x: Sample, alpha: real): Pacer
    requires !Restarts(prev, x) && x.at > prev.at && NotAfter(p.window, x.at)
  {
    var instant := Instant(prev, x);
    var window := if p.native then Recent(p.window, x.at) + [Rate(x.at, instant)] else p.window;
    var rate := if p.native then Peak(window) else Smoothed(p.rate, instant, alpha);
    p.(window := window, rate := Some(rate), previous := Some(x),
       budget := NextBudget(p, Released(prev, x), instant, rate, x.buffered))
  }

  function Observed(p: Pacer, x: Sample, alpha: real): Pacer
    requires Inv(p)
  {
    if p.previous.None? then p.(previous := Some(x))
    else
      var prev := p.previous.value;
      if Restarts(prev, x) then New(p.target, p.native, p.maxFrame).(previous := Some(x))
      else if Idle(prev, x) then p.(previous := Some(x))
      else if x.at - prev.at < SampleSpan(p) then p
      else Measured(p, prev, x, alpha)
  }

  function FrameNoted(p: Pacer, bytes: nat): Pacer {
    var largest := Max(p.maxFrame, Min(bytes, MAX_U32));
    p.(maxFrame := largest, budget := Clamp(p.native, largest, p.budget))
  }

  function RttNoted(p: Pacer, rtt: real): Pacer {
    if rtt <= 0.0 then p
    else p.(rttMin := Some(if p.rttMin.Some? && p.rttMin.value < rtt then p.rttMin.value else rtt))
  }

  // ---- the controller ----

  class BulkPacer {
    const target: nat
    const native: bool
    var maxFrame: nat
    var previous: Option<Sample>
    var rate: Option<real>
    var budget: nat
    var rttMin: Option<real>
    var window: seq<Rate>

    ghost function View(): Pacer
      reads this
    {
      Pacer(target, native, maxFrame, previous, rate, budget, rttMin, window)
    }

    constructor (target: nat, native: bool, maxFrame: nat)
      ensures View() == New(target, native, maxFrame) && Inv(View())
    {
      this.target, this.native, this.maxFrame := target, native, maxFrame;
      previous, rate, rttMin, window := None, None, None, [];
      budget := Clamp(native, maxFrame, INITIAL_BUDGET);
    }

    method NoteFrame(bytes: nat)
      requires Inv(View())
      modifies this
      ensures View() == FrameNoted(old(View()), bytes) && Inv(View())
    {
      maxFrame := Max(maxFrame, Min(bytes, MAX_U32));
      budget := Clamp(native, maxFrame, budget);
    }

    method NoteRtt(rtt: real)
      requires Inv(View())
      modifies this
      ensures View() == RttNoted(old(View()), rtt) && Inv(View())
    {
      if rtt > 0.0 {
        rttMin := Some(if rttMin.Some? && rttMin.value < rtt then rttMin.value else rtt);
      }
    }

    method Reset()
      modifies this
      ensures View() == New(target, native, old(maxFrame))
    {
      previous, rate, rttMin, window := None, None, None, [];
      budget := Clamp(native, maxFrame, INITIAL_BUDGET);
    }

    method Observe(x: Sample, alpha: real)
      requires Inv(View())
      modifies this
      ensures View() == Observed(old(View()), x, alpha) && Inv(View())
    {
      ObservedInv(View(), x, alpha);
      if previous.None? {
        previous := Some(x);
        return;
      }
      var prev := previous.value;
      if x.generation != prev.generation || x.submitted < prev.submitted || x.at < prev.at {
        Reset();
        previous := Some(x);
        return;
      }
      if !x.backlogged || !prev.backlogged {
        previous := Some(x);
        return;
      }
      Measure(prev, x, alpha);
    }

    method Measure(prev: Sample, x: Sample, alpha: real)
      requires Inv(View()) && previous == Some(prev) && !Restarts(prev, x) && !Idle(prev, x)
      modifies this
      ensures View() == Observed(old(View()), x, alpha)
    {
      hide Clamp, ToU32, Peak, Recent, CeilToU64, Moved;
      ghost var was := View();
      var elapsed := x.at - prev.at;
      var rtt := if rttMin.Some? then rttMin.value else FALLBACK_RTT;
      var span := if native then Max(SAMPLE_INTERVAL, CeilToU64(rtt)) else SAMPLE_INTERVAL;
      if elapsed < span {
        return;
      }
      var released: nat := Max(Min(prev.buffered + (x.submitted - prev.submitted), MAX_U64) - x.buffered, 0);
      var instant := released as real * 1000.0 / elapsed as real;
      var measured;
      if native {
        window := Recent(window, x.at) + [Rate(x.at, instant)];
        measured := Peak(window);
      } else {
        measured := if rate.Some? then rate.value + alpha * (instant - rate.value) else instant;
      }
      var allowance := target as real + if native then rtt else 0.0;
      var estimated := Clamp(native, maxFrame, ToU32(Moved(measured, allowance)));
      var limited := native && x.buffered as real >= budget as real * 0.9
        && Moved(instant, allowance) >= budget as real * 0.9;
      if released > 0 && (x.buffered == 0 || limited) {
        budget := Clamp(native, maxFrame, Max(estimated, Min(budget + budget / 2, MAX_U32)));
      } else {
        budget := estimated;
      }
      rate := Some(measured);
      previous := Some(x);
      assert instant == Instant(prev, x) && released == Released(prev, x);
      assert measured == (if native then Peak(window) else Smoothed(was.rate, instant, alpha));
      assert allowance == Allowance(was) && limited == NativeLimited(was, instant, x.buffered);
      assert estimated == Estimated(was, measured);
      assert View() == Measured(was, prev, x, alpha);
    }
  }

  // ---- bounds over every run ----

  /** Window entries are at least one sampling interval apart, and none is newer than the last sample. */
  ghost predicate WindowOk(p: Pacer) {
    && Spaced(p.window)
    && (p.window != [] ==> p.previous.Some?)
    && (p.previous.Some? ==> NotAfter(p.window, p.previous.value.at))
    && |p.window| <= WINDOW_ENTRIES
  }

  ghost predicate Inv(p: Pacer) {
    && Floor(p.native, p.maxFrame) <= p.budget <= MAX_BUDGET
    && WindowOk(p)
  }

  ghost predicate Spaced(window: seq<Rate>) {
    forall i :: 0 < i < |window| ==> window[i - 1].at + SAMPLE_INTERVAL <= window[i].at
  }

  /** Entries further back are older by at least one interval each. */
  lemma {:induction false} SpacedBack(window: seq<Rate>, n: nat)
    requires n < |window| && Spaced(window)
    ensures forall i :: 0 <= i <= n ==> window[i].at + SAMPLE_INTERVAL * (n - i) <= window[n].at
  {
    if n > 0 {
      SpacedBack(window, n - 1);
      assert window[n - 1].at + SAMPLE_INTERVAL <= window[n].at;
    }
  }

  ghost predicate AllRecent(window: seq<Rate>, at: nat) {
    forall i :: 0 <= i < |window| ==> at - window[i].at < RATE_WINDOW
  }

  /** What is recent is the end of the window. */
  lemma {:induction false} RecentIsSuffix(window: seq<Rate>, at: nat)
    requires Spaced(window) && NotAfter(window, at)
    ensures |Recent(window, at)| <= |window| && Recent(window, at) == window[|window| - |Recent(window, at)|..]
    ensures AllRecent(Recent(window, at), at)
  {
    hide Spaced, AllRecent;
    if window != [] {
      var n := |window| - 1;
      if at - window[n].at < RATE_WINDOW {
        FrontSpaced(window, at);
        RecentIsSuffix(window[..n], at);
        SuffixNext(window, Recent(window[..n], at));
        LatestRecent(Recent(window[..n], at), window[n], at);
      } else {
        StaleBehind(window, at);
        NoneAreRecent(at);
      }
    } else {
      NoneAreRecent(at);
    }
  }

  lemma NoneAreRecent(at: nat)
    ensures AllRecent([], at)
  {
  }

  lemma LatestRecent(kept: seq<Rate>, r: Rate, at: nat)
    requires AllRecent(kept, at) && at - r.at < RATE_WINDOW
    ensures AllRecent(kept + [r], at)
  {
  }

  lemma FrontSpaced(window: seq<Rate>, at: nat)
    requires Spaced(window) && NotAfter(window, at) && window != []
    ensures Spaced(window[..|window| - 1]) && NotAfter(window[..|window| - 1], at)
  {
  }

  /** Behind a stale entry everything is stale. */
  lemma StaleBehind(window: seq<Rate>, at: nat)
    requires Spaced(window) && NotAfter(window, at) && window != [] && window[|window| - 1].at + RATE_WINDOW <= at
    ensures Recent(window, at) == []
  {
    SpacedBack(window, |window| - 1);
    NoneRecent(window, at);
  }

  lemma SuffixNext(window: seq<Rate>, kept: seq<Rate>)
    requires window != [] && |kept| < |window| && kept == window[..|window| - 1][|window| - 1 - |kept|..]
    ensures kept + [window[|window| - 1]] == window[|window| - 1 - |kept|..]
  {
  }

  lemma {:induction false} NoneRecent(window: seq<Rate>, at: nat)
    requires NotAfter(window, at) && forall i :: 0 <= i < |window| ==> window[i].at + RATE_WINDOW <= at
    ensures Recent(window, at) == []
  {
    if window != [] {
      NoneRecent(window[..|window| - 1], at);
    }
  }

  /** Forty sampling intervals fill the rate window. */
  lemma WindowBounded(window: seq<Rate>, at: nat)
    requires Spaced(window) && window != [] && window[|window| - 1].at == at
    requires AllRecent(window, at)
    ensures |window| <= WINDOW_ENTRIES
  {
    SpacedBack(window, |window| - 1);
    assert window[0].at + SAMPLE_INTERVAL * (|window| - 1) <= at && at - window[0].at < RATE_WINDOW;
  }

  lemma MeasuredWindow(p: Pacer, prev: Sample, x: Sample, instant: real)
    requires WindowOk(p) && p.previous == Some(prev) && x.at >= prev.at + SAMPLE_INTERVAL
    ensures WindowOk(p.(window := Recent(p.window, x.at) + [Rate(x.at, instant)], previous := Some(x)))
  {
    hide Spaced, AllRecent, Recent;
    RecentIsSuffix(p.window, x.at);
    var kept := Recent(p.window, x.at);
    SuffixSpaced(p.window, |p.window| - |kept|, prev.at, Rate(x.at, instant));
    WindowBounded(kept + [Rate(x.at, instant)], x.at) by { LatestRecent(kept, Rate(x.at, instant), x.at); }
  }

  lemma SuffixSpaced(window: seq<Rate>, i: nat, at: nat, r: Rate)
    requires Spaced(window) && i <= |window| && (window != [] ==> NotAfter(window, at)) && r.at >= at + SAMPLE_INTERVAL
    ensures Spaced(window[i..] + [r]) && NotAfter(window[i..] + [r], r.at)
  {
  }

  lemma ClampBounds(native: bool, maxFrame: nat, bytes: nat)
    ensures Floor(native, maxFrame) <= Clamp(native, maxFrame, bytes) <= MAX_BUDGET
  {
  }

  lemma MeasuredInv(p: Pacer, prev: Sample, x: Sample, alpha: real)
    requires Inv(p) && p.previous == Some(prev) && !Restarts(prev, x) && x.at >= prev.at + SAMPLE_INTERVAL
    ensures Inv(Measured(p, prev, x, alpha))
    ensures Measured(p, prev, x, alpha).native == p.native && Measured(p, prev, x, alpha).maxFrame == p.maxFrame
  {
    hide Floor, Clamp, ToU32, Peak, Recent, NativeLimited, Instant, Smoothed, Allowance, Released;
    hide Spaced, NextBudget;
    var u := Measured(p, prev, x, alpha);
    BudgetBounds(p, Released(prev, x), Instant(prev, x), u.rate.value, x.buffered);
    if p.native {
      MeasuredWindow(p, prev, x, Instant(prev, x));
      SameWindow(p.(window := u.window, previous := Some(x)), u);
    } else {
      LaterSample(p, u);
    }
  }

  lemma SameWindow(p: Pacer, u: Pacer)
    requires WindowOk(p) && u.window == p.window && u.previous == p.previous
    ensures WindowOk(u)
  {
  }

  lemma LaterSample(p: Pacer, u: Pacer)
    requires WindowOk(p) && u.window == p.window
    requires p.previous.Some? ==> u.previous.Some? && u.previous.value.at >= p.previous.value.at
    ensures WindowOk(u)
  {
  }

  lemma BudgetBounds(p: Pacer, released: nat, instant: real, rate: real, buffered: nat)
    ensures Floor(p.native, p.maxFrame) <= NextBudget(p, released, instant, rate, buffered) <= MAX_BUDGET
  {
    hide Floor, Clamp, ToU32, NativeLimited, Allowance, Moved;
    var estimated := ToU32(Moved(rate, Allowance(p)));
    ClampBounds(p.native, p.maxFrame, estimated);
    ClampBounds(p.native, p.maxFrame, Max(Estimated(p, rate), Min(p.budget + p.budget / 2, MAX_U32)));
  }

  lemma ObservedInv(p: Pacer, x: Sample, alpha: real)
    requires Inv(p)
    ensures Inv(Observed(p, x, alpha))
    ensures Observed(p, x, alpha).native == p.native && Observed(p, x, alpha).maxFrame == p.maxFrame
  {
    hide Floor, Clamp, Measured, CeilToU64, RttOf;
    ClampBounds(p.native, p.maxFrame, INITIAL_BUDGET);
    if p.previous.Some? {
      var prev := p.previous.value;
      if !Restarts(prev, x) && !Idle(prev, x) && x.at - prev.at >= SampleSpan(p) {
        MeasuredInv(p, prev, x, alpha);
      }
    }
  }

  lemma FrameNotedInv(p: Pacer, bytes: nat)
    requires Inv(p)
    ensures Inv(FrameNoted(p, bytes))
  {
  }

  // ---- a link ----

  /** Bytes submitted per channel, the channel observed last, and what it holds. */
  datatype Link = Link(policy: Pacer, submitted: map<nat, nat>, channel: Option<nat>, buffered: nat)

  function NewLink(target: nat, native: bool): Link {
    Link(New(target, native, INITIAL_MAX_FRAME), map[], None, 0)
  }

  function Count(submitted: map<nat, nat>, channel: nat): nat {
    if channel in submitted then submitted[channel] else 0
  }

  datatype Event =
    | Submitted(channel: nat, bytes: nat, bulk: bool)
    | Observe(channel: nat, now: nat, buffered: nat, backlogged: bool, alpha: real)
    | Rtt(ms: real)

  function SampleOf(k: Link, e: Event): Sample
    requires e.Observe?
  {
    Sample(e.channel, e.now, Count(k.submitted, e.channel), e.buffered, e.backlogged)
  }

  function Step(k: Link, e: Event): Link
    requires Inv(k.policy)
  {
    match e
    case Submitted(c, bytes, bulk) =>
      k.(submitted := k.submitted[c := Min(Count(k.submitted, c) + bytes, MAX_U64)],
         buffered := if k.channel == Some(c) then Min(k.buffered + bytes, MAX_U64) else k.buffered,
         policy := if bulk then FrameNoted(k.policy, bytes) else k.policy)
    case Observe(c, now, buffered, backlogged, alpha) =>
      k.(channel := Some(c), buffered := buffered, policy := Observed(k.policy, SampleOf(k, e), alpha))
    case Rtt(ms) => k.(policy := RttNoted(k.policy, ms))
  }

  predicate CanSubmit(k: Link, channel: nat, bytes: nat) {
    k.channel == Some(channel) && (Min(k.buffered + bytes, MAX_U64) <= k.policy.budget || k.buffered == 0)
  }

  class BulkLink {
    const policy: BulkPacer
    var submitted: map<nat, nat>
    var channel: Option<nat>
    var buffered: nat

    ghost function View(): Link
      reads this, policy
    {
      Link(policy.View(), submitted, channel, buffered)
    }

    constructor (target: nat, native: bool)
      ensures View() == NewLink(target, native) && LinkInv(View()) && fresh(policy)
    {
      policy := new BulkPacer(target, native, INITIAL_MAX_FRAME);
      submitted, channel, buffered := map[], None, 0;
    }

    method Submit(channel: nat, bytes: nat, bulk: bool)
      requires LinkInv(View())
      modifies this, policy
      ensures View() == Step(old(View()), Submitted(channel, bytes, bulk)) && LinkInv(View())
    {
      StepInv(View(), Submitted(channel, bytes, bulk));
      submitted := submitted[channel := Min(Count(submitted, channel) + bytes, MAX_U64)];
      if this.channel == Some(channel) {
        buffered := Min(buffered + bytes, MAX_U64);
      }
      if bulk {
        policy.NoteFrame(bytes);
      }
    }

    method Observe(channel: nat, now: nat, buffered: nat, backlogged: bool, alpha: real)
      requires LinkInv(View())
      modifies this, policy
      ensures View() == Step(old(View()), Event.Observe(channel, now, buffered, backlogged, alpha)) && LinkInv(View())
    {
      StepInv(View(), Event.Observe(channel, now, buffered, backlogged, alpha));
      this.channel := Some(channel);
      this.buffered := buffered;
      policy.Observe(Sample(channel, now, Count(submitted, channel), buffered, backlogged), alpha);
    }

    method MaySubmit(channel: nat, bytes: nat) returns (ok: bool)
      ensures ok == CanSubmit(View(), channel, bytes)
    {
      ok := this.channel == Some(channel) && (Min(buffered + bytes, MAX_U64) <= policy.budget || buffered == 0);
    }
  }

  /** The last sample never claims more submissions than its channel has had. */
  ghost predicate LinkInv(k: Link) {
    && Inv(k.policy)
    && (k.policy.previous.Some? ==>
          var prev := k.policy.previous.value; prev.submitted <= Count(k.submitted, prev.generation))
    && (forall c <- k.submitted :: k.submitted[c] <= MAX_U64)
  }

  lemma StepInv(k: Link, e: Event)
    requires LinkInv(k)
    ensures LinkInv(Step(k, e))
  {
    hide Floor, Clamp, Measured, WindowOk, SampleSpan;
    match e
    case Submitted(c, bytes, bulk) => FrameNotedInv(k.policy, bytes);
    case Observe(c, now, buffered, backlogged, alpha) =>
      ObservedInv(k.policy, SampleOf(k, e), alpha);
      ObservedPrevious(k.policy, SampleOf(k, e), alpha);
    case Rtt(ms) => RttInv(k.policy, ms);
  }

  lemma RttInv(p: Pacer, ms: real)
    requires Inv(p)
    ensures Inv(RttNoted(p, ms)) && RttNoted(p, ms).previous == p.previous
  {
  }

  lemma ObservedPrevious(p: Pacer, x: Sample, alpha: real)
    requires Inv(p)
    ensures Observed(p, x, alpha).previous == Some(x) || Observed(p, x, alpha).previous == p.previous
  {
  }

  /** On one link only a channel switch or a clock step backwards restarts the estimator: counters never roll back. */
  lemma CountersNeverRollBack(k: Link, e: Event)
    requires LinkInv(k) && e.Observe? && k.policy.previous.Some?
    ensures Restarts(k.policy.previous.value, SampleOf(k, e))
       <==> e.channel != k.policy.previous.value.generation || e.now < k.policy.previous.value.at
  {
  }

  function Run(k: Link, events: seq<Event>): Link
    requires LinkInv(k)
    decreases |events|
  {
    if events == [] then k
    else
      StepInv(k, events[0]);
      Run(Step(k, events[0]), events[1..])
  }

  lemma {:induction false} RunInv(k: Link, events: seq<Event>)
    requires LinkInv(k)
    ensures LinkInv(Run(k, events))
    ensures Run(k, events).policy.native == k.policy.native && Run(k, events).policy.maxFrame >= k.policy.maxFrame
    decreases |events|
  {
    hide Inv, Step;
    if events != [] {
      StepInv(k, events[0]);
      FrameGrows(k, events[0]);
      RunInv(Step(k, events[0]), events[1..]);
    }
  }

  lemma FrameGrows(k: Link, e: Event)
    requires LinkInv(k)
    ensures Step(k, e).policy.native == k.policy.native && Step(k, e).policy.maxFrame >= k.policy.maxFrame
  {
    hide Floor, Clamp, Measured, SampleSpan;
    if e.Observe? {
      ObservedInv(k.policy, SampleOf(k, e), e.alpha);
    }
  }

  /** Whatever is observed, the budget stays between its floor and 1 MiB and the window within 40 entries. */
  lemma PacingBounds(target: nat, native: bool, events: seq<Event>)
    ensures LinkInv(NewLink(target, native))
    ensures
      var p := Run(NewLink(target, native), events).policy;
      && Min(Max(Min(2 * p.maxFrame, MAX_U32), if native then NATIVE_MIN_BUDGET else 0), MAX_BUDGET) <= p.budget
      && p.budget <= MAX_BUDGET && |p.window| <= WINDOW_ENTRIES && p.maxFrame >= INITIAL_MAX_FRAME
  {
    RunInv(NewLink(target, native), events);
  }

  // ---- what the bounds are for ----

  /** A channel seen empty takes a frame of any size, and keeps taking frames until the budget is used up. */
  lemma EmptyChannelAdmits(k: Link, e: Event, bytes: nat)
    requires LinkInv(k) && e.Observe? && e.buffered == 0
    ensures CanSubmit(Step(k, e), e.channel, bytes)
  {
    hide Observed;
  }

  /** What is let through leaves the observed channel within its budget, or was alone on it. */
  lemma AdmittedFits(k: Link, channel: nat, bytes: nat, bulk: bool)
    requires LinkInv(k) && CanSubmit(k, channel, bytes)
    ensures
      var u := Step(k, Submitted(channel, bytes, bulk));
      u.buffered <= u.policy.budget || (k.buffered == 0 && u.buffered <= bytes)
  {
  }

  /** The floor leaves room for a second frame behind the largest one, while two of them fit 1 MiB. */
  lemma TwoFramesFit(k: Link, first: nat, bytes: nat)
    requires LinkInv(k) && k.channel.Some? && k.buffered == 0
    requires first <= k.policy.maxFrame && bytes <= k.policy.maxFrame && 2 * k.policy.maxFrame <= MAX_BUDGET
    ensures CanSubmit(Step(k, Submitted(k.channel.value, first, true)), k.channel.value, bytes)
  {
  }

  /** The channel is observed idle only, by a clock that does not step back; frames and round trips go on. */
  predicate Lull(events: seq<Event>, channel: nat, at: nat) {
    events == []
    || match events[0]
       case Observe(c, now, _, backlogged, _) => c == channel && now >= at && !backlogged && Lull(events[1..], channel, now)
       case _ => Lull(events[1..], channel, at)
  }

  lemma LullStep(k: Link, e: Event)
    requires LinkInv(k) && k.policy.previous.Some?
    requires e.Observe? ==>
      e.channel == k.policy.previous.value.generation && e.now >= k.policy.previous.value.at && !e.backlogged
    ensures
      var p, u := k.policy, Step(k, e).policy;
      && u.rate == p.rate && u.window == p.window && u.native == p.native && u.maxFrame >= p.maxFrame
      && u.budget == Clamp(u.native, u.maxFrame, p.budget)
      && u.previous == (if e.Observe? then Some(SampleOf(k, e)) else p.previous)
  {
    if e.Observe? {
      CountersNeverRollBack(k, e);
    }
  }

  lemma ClampTwice(native: bool, small: nat, large: nat, budget: nat)
    requires small <= large
    ensures Clamp(native, large, Clamp(native, small, budget)) == Clamp(native, large, budget)
  {
  }

  /**
   What was learned about a channel survives any lull: the estimate and its window stay as they were,
   and the budget too, except that it makes room for larger frames.
   */
  lemma {:induction false} EstimateSurvivesLull(k: Link, events: seq<Event>)
    requires LinkInv(k) && k.policy.previous.Some?
    requires Lull(events, k.policy.previous.value.generation, k.policy.previous.value.at)
    ensures
      var u := Run(k, events).policy;
      && u.rate == k.policy.rate && u.window == k.policy.window && u.native == k.policy.native
      && u.maxFrame >= k.policy.maxFrame && u.budget == Clamp(u.native, u.maxFrame, k.policy.budget)
    decreases |events|
  {
    hide Step, Clamp;
    if events != [] {
      StepInv(k, events[0]);
      LullStep(k, events[0]);
      var m := Step(k, events[0]);
      EstimateSurvivesLull(m, events[1..]);
      ClampTwice(k.policy.native, m.policy.maxFrame, Run(m, events[1..]).policy.maxFrame, k.policy.budget);
    } else {
      BudgetIsClamped(k);
    }
  }

  lemma BudgetIsClamped(k: Link)
    requires LinkInv(k)
    ensures k.policy.budget == Clamp(k.policy.native, k.policy.maxFrame, k.policy.budget)
  {
  }

  /** Without a drained channel or a sustained full allowance the budget follows the estimate; else it grows by half at most. */
  lemma GrowthBounded(p: Pacer, prev: Sample, x: Sample, alpha: real)
    requires Inv(p) && p.previous == Some(prev)
    requires !Restarts(prev, x) && !Idle(prev, x) && x.at - prev.at >= SampleSpan(p)
    ensures
      var u := Observed(p, x, alpha);
      && u.rate.Some? && u.budget <= Max(Estimated(p, u.rate.value), p.budget + p.budget / 2)
      && (u.budget > Estimated(p, u.rate.value) ==>
            Released(prev, x) > 0 && (x.buffered == 0 || NativeLimited(p, Instant(prev, x), x.buffered)))
  {
    hide ToU32, Peak, Recent, NativeLimited;
  }

  /** A native rate is the highest delivery of the window and at least the latest one. */
  lemma {:induction false} PeakIsMax(window: seq<Rate>)
    ensures forall r <- window :: r.value <= Peak(window)
    ensures Peak(window) == 0.0 || exists r :: r in window && r.value == Peak(window)
  {
    if window != [] {
      PeakIsMax(window[..|window| - 1]);
    }
  }
}
