/**
 What the pacing controller promises in bytes and milliseconds: which observations are measured, what
 the rate is, and that the budget drains at that rate within the target delay.
 */
module BulkTargets {
  import opened Common
  import opened BulkPacing

  // ---- when, and what is measured ----

  /** Bytes the channel let go of between two observations of it. */
  function Drained(prev: Sample, x: Sample): nat
    requires x.submitted >= prev.submitted
  {
    Max(Min(prev.buffered + (x.submitted - prev.submitted), 0xFFFF_FFFF_FFFF_FFFF) - x.buffered, 0)
  }

  /** The two observations are of one channel with frames waiting, far enough apart. */
  predicate Measures(p: Pacer, x: Sample) {
    p.previous.Some?
    && var prev := p.previous.value;
       && x.generation == prev.generation && x.submitted >= prev.submitted && x.at >= prev.at
       && x.backlogged && prev.backlogged && x.at - prev.at >= 50
       && (p.native ==> Far(x.at - prev.at, RoundTrip(p)))
  }

  /** The least round trip noted, or 100 ms. */
  function RoundTrip(p: Pacer): real {
    if p.rttMin.Some? then p.rttMin.value else 100.0
  }

  /** At least that many milliseconds, or as many as a 64-bit clock can tell. */
  predicate Far(elapsed: nat, ms: real) {
    elapsed as real >= ms || elapsed >= 0xFFFF_FFFF_FFFF_FFFF
  }

  lemma CeilIsLeast(x: real, n: nat)
    ensures CeilToU64(x) <= n <==> Far(n, x)
  {
    var c := -((-x).Floor);
    assert (c - 1) as real < x <= c as real;
  }

  /** Exactly those observations change the rate; no other changes rate or budget, unless it starts over. */
  lemma MeasuredWhen(p: Pacer, x: Sample, alpha: real)
    requires Inv(p)
    ensures
      var u := Observed(p, x, alpha);
      && (Measures(p, x) ==> u.rate.Some? && u.previous == Some(x))
      && (!Measures(p, x) ==>
            (u.rate == p.rate && u.budget == p.budget && u.window == p.window)
            || (p.previous.Some? && Restarts(p.previous.value, x)
                && u == New(p.target, p.native, p.maxFrame).(previous := Some(x))))
  {
    hide Measured;
    if p.previous.Some? && x.at >= p.previous.value.at {
      CeilIsLeast(RttOf(p), x.at - p.previous.value.at);
    }
    if Measures(p, x) {
      MeasuredRate(p, p.previous.value, x, alpha);
    }
  }

  lemma MeasuredRate(p: Pacer, prev: Sample, x: Sample, alpha: real)
    requires !Restarts(prev, x) && x.at > prev.at && NotAfter(p.window, x.at)
    ensures Measured(p, prev, x, alpha).rate.Some? && Measured(p, prev, x, alpha).previous == Some(x)
  {
  }

  // ---- the rate ----

  lemma Quotient(a: real, b: real)
    requires b > 0.0
    ensures a / b * b == a
  {
  }

  lemma {:induction false} RecentMembers(window: seq<Rate>, at: nat, r: Rate)
    requires NotAfter(window, at)
    ensures r in Recent(window, at) <==> r in window && at - r.at < 2000
  {
    if window != [] {
      RecentMembers(window[..|window| - 1], at, r);
      assert window == window[..|window| - 1] + [window[|window| - 1]];
    }
  }

  /** One delivery: bytes drained over the time between the observations, per second. */
  function Delivery(prev: Sample, x: Sample): real
    requires x.submitted >= prev.submitted && x.at > prev.at
  {
    Drained(prev, x) as real * 1000.0 / (x.at - prev.at) as real
  }

  /**
   A measurement. On a browser link the first rate is the delivery, and later ones go from the rate
   before towards the delivery; on a native link the rate is the greatest of the deliveries of the last
   two seconds, this one included.
   */
  lemma RateExactly(p: Pacer, x: Sample, alpha: real)
    requires Inv(p) && Measures(p, x)
    ensures
      var prev := p.previous.value;
      var u := Observed(p, x, alpha);
      var d := Delivery(prev, x);
      && u.rate.Some?
      && d * (x.at - prev.at) as real == Drained(prev, x) as real * 1000.0
      && (!p.native ==> u.rate.value == if p.rate.Some? then p.rate.value + alpha * (d - p.rate.value) else d)
      && (p.native ==>
            && u.rate.value >= d && u.rate.value >= 0.0
            && (forall r <- p.window :: x.at - r.at < 2000 ==> r.value <= u.rate.value)
            && (u.rate.value == d || u.rate.value == 0.0
                || exists r :: r in p.window && x.at - r.at < 2000 && r.value == u.rate.value))
      && (forall r :: r in u.window <==>
            if p.native then r == Rate(x.at, d) || (r in p.window && x.at - r.at < 2000) else r in p.window)
  {
    hide Peak, Recent, NextBudget, CeilToU64;
    var prev := p.previous.value;
    MeasuredIs(p, x, alpha);
    Quotient(Drained(prev, x) as real * 1000.0, (x.at - prev.at) as real);
    if p.native {
      var fresh0 := Rate(x.at, Delivery(prev, x));
      var window := Recent(p.window, x.at) + [fresh0];
      PeakIsMax(window);
      PeakNotNegative(window);
      forall r
        ensures r in window <==> r == fresh0 || (r in p.window && x.at - r.at < 2000)
      {
        RecentMembers(p.window, x.at, r);
      }
      assert fresh0 in window;
    }
  }

  lemma {:induction false} PeakNotNegative(window: seq<Rate>)
    ensures Peak(window) >= 0.0
  {
    if window != [] {
      PeakNotNegative(window[..|window| - 1]);
    }
  }

  lemma MeasuredIs(p: Pacer, x: Sample, alpha: real)
    requires Inv(p) && Measures(p, x)
    ensures
      var prev := p.previous.value;
      && !Restarts(prev, x) && x.at > prev.at && NotAfter(p.window, x.at)
      && Observed(p, x, alpha) == Measured(p, prev, x, alpha)
      && Released(prev, x) == Drained(prev, x) && Instant(prev, x) == Delivery(prev, x)
  {
    hide Measured, Peak, Recent, NextBudget;
    CeilIsLeast(RttOf(p), x.at - p.previous.value.at);
  }

  // ---- the budget ----

  /** Time in which a budget is to drain: the target, and on native links the round trip as well. */
  function AllowedTime(p: Pacer): real {
    p.target as real + if p.native then RoundTrip(p) else 0.0
  }

  /** Two of the largest frames, on native links at least 64 KiB, and never over 1 MiB. */
  function LeastBudget(p: Pacer): nat {
    Min(Max(Min(2 * p.maxFrame, 0xFFFF_FFFF), if p.native then 65536 else 0), 1048576)
  }

  /**
   The most bytes that drain within the time allowed at this rate (per second, with the time in
   milliseconds), between the least budget and 1 MiB.
   */
  predicate Fills(p: Pacer, rate: real, b: nat) {
    && LeastBudget(p) <= b <= 1048576
    && (b > LeastBudget(p) ==> b as real * 1000.0 <= rate * AllowedTime(p))
    && (b < 1048576 ==> (b + 1) as real * 1000.0 > rate * AllowedTime(p))
  }

  lemma FillsUnique(p: Pacer, rate: real, a: nat, b: nat)
    requires Fills(p, rate, a) && Fills(p, rate, b)
    ensures a == b
  {
    assert a < b ==> (a + 1) as real <= b as real;
    assert b < a ==> (b + 1) as real <= a as real;
  }

  /** The channel is drained, or on a native link nearly full with a delivery that sustains nearly all of it. */
  predicate Probes(p: Pacer, x: Sample)
    requires Measures(p, x)
  {
    var prev := p.previous.value;
    && Drained(prev, x) > 0
    && (x.buffered == 0
        || (p.native && 10 * x.buffered >= 9 * p.budget
            && Delivery(prev, x) * AllowedTime(p) * 10.0 >= p.budget as real * 9000.0))
  }

  lemma EstimateFills(p: Pacer, rate: real)
    ensures Fills(p, rate, Estimated(p, rate))
  {
    var y := rate * AllowedTime(p);
    var m := y / 1000.0;
    Quotient(y, 1000.0);
    assert Moved(rate, Allowance(p)) == m;
    assert m.Floor as real <= m < (m.Floor + 1) as real;
  }

  lemma LimitedIs(p: Pacer, x: Sample, instant: real)
    ensures NativeLimited(p, instant, x.buffered) <==>
      p.native && 10 * x.buffered >= 9 * p.budget && instant * AllowedTime(p) * 10.0 >= p.budget as real * 9000.0
  {
    assert (x.buffered as real >= p.budget as real * 0.9) <==> 10 * x.buffered >= 9 * p.budget by {
      assert (10 * x.buffered) as real == x.buffered as real * 10.0 && (9 * p.budget) as real == p.budget as real * 9.0;
    }
    var y := instant * AllowedTime(p);
    Quotient(y, 1000.0);
    assert Moved(instant, Allowance(p)) == y / 1000.0;
  }

  /**
   The delay target: after a measurement the budget is the most that drains at the estimated rate within
   the time allowed; a probe raises it by half the old one if that is more, up to 1 MiB.
   */
  lemma BudgetExactly(p: Pacer, x: Sample, alpha: real)
    requires Inv(p) && Measures(p, x)
    ensures
      var u := Observed(p, x, alpha);
      && u.rate.Some?
      && (!Probes(p, x) ==> Fills(p, u.rate.value, u.budget))
      && (Probes(p, x) ==>
            exists b: nat :: Fills(p, u.rate.value, b) && u.budget == Min(Max(b, p.budget + p.budget / 2), 1048576))
  {
    hide Peak, Recent, CeilToU64, Fills, Estimated, Instant, Released, Delivery, Drained, NativeLimited, AllowedTime;
    MeasuredIs(p, x, alpha);
    var prev := p.previous.value;
    var u := Measured(p, prev, x, alpha);
    var b := Estimated(p, u.rate.value);
    EstimateFills(p, u.rate.value);
    LimitedIs(p, x, Instant(prev, x));
    EstimateBounds(p, u.rate.value);
    assert u.budget == NextBudget(p, Released(prev, x), Instant(prev, x), u.rate.value, x.buffered);
  }

  lemma EstimateBounds(p: Pacer, rate: real)
    ensures Floor(p.native, p.maxFrame) <= Estimated(p, rate) <= MAX_BUDGET
  {
    hide ToU32, Moved, Allowance;
  }

  /** A new estimator starts with 64 KiB, or the least budget if that is more. */
  lemma StartsWith(target: nat, native: bool, maxFrame: nat)
    ensures
      var p := New(target, native, maxFrame);
      p.budget == Max(65536, LeastBudget(p)) && p.rate.None? && p.rttMin.None? && p.window == []
  {
  }

  // ---- over a run ----

  /** The deliveries measured since the estimator last started over. */
  function Deliveries(k: Link, events: seq<Event>, sofar: seq<Rate>): seq<Rate>
    requires LinkInv(k)
    decreases |events|
  {
    if events == [] then sofar
    else
      StepInv(k, events[0]);
      Deliveries(Step(k, events[0]), events[1..], DeliveriesNext(k, events[0], sofar))
  }

  function DeliveriesNext(k: Link, e: Event, sofar: seq<Rate>): seq<Rate>
    requires LinkInv(k)
  {
    if !e.Observe? then sofar
    else
      var x := SampleOf(k, e);
      if k.policy.previous.Some? && Restarts(k.policy.previous.value, x) then []
      else if Measures(k.policy, x) then sofar + [Rate(x.at, Delivery(k.policy.previous.value, x))]
      else sofar
  }

  predicate Lately(h: seq<Rate>, r: Rate) {
    h != [] && r in h && h[|h| - 1].at - r.at < 2000
  }

  /** The rate and its window are what the deliveries make of them. */
  ghost predicate Remembers(p: Pacer, h: seq<Rate>) {
    && (p.rate.Some? <==> h != [])
    && (h != [] ==> p.previous.Some? && h[|h| - 1].at <= p.previous.value.at)
    && (if p.native then
          && (forall r :: r in p.window <==> Lately(h, r))
          && (h != [] ==> Greatest(p.rate.value, h))
        else p.window == [] && (h != [] ==> Amid(p.rate.value, h)))
  }

  /** The greatest delivery of the last two seconds. */
  predicate Greatest(rate: real, h: seq<Rate>) {
    && (forall r <- h :: Lately(h, r) ==> r.value <= rate)
    && (rate == 0.0 || exists r :: r in h && Lately(h, r) && r.value == rate)
  }

  /** No less than some delivery and no more than some other. */
  predicate Amid(rate: real, h: seq<Rate>) {
    (exists r :: r in h && r.value <= rate) && (exists r :: r in h && rate <= r.value)
  }

  lemma AmidNext(rate: real, h: seq<Rate>, d: Rate, alpha: real, next: real)
    requires 0.0 <= alpha <= 1.0 && Amid(rate, h) && next == rate + alpha * (d.value - rate)
    ensures Amid(next, h + [d])
  {
    var c := Between(rate, d.value, alpha);
    assert c == next;
    var low :| low in h && low.value <= rate;
    var high :| high in h && rate <= high.value;
    assert low in h + [d] && high in h + [d] && d in h + [d];
    assert low.value <= next || d.value <= next;
    assert next <= high.value || next <= d.value;
  }

  lemma Between(a: real, b: real, alpha: real) returns (c: real)
    requires 0.0 <= alpha <= 1.0
    ensures c == a + alpha * (b - a)
    ensures if a <= b then a <= c <= b else b <= c <= a
  {
    var step := alpha * (b - a);
    if a <= b {
      Share(b - a, alpha, step);
    } else {
      Share(a - b, alpha, -step);
    }
    c := a + step;
  }

  lemma Share(c: real, alpha: real, part: real)
    requires 0.0 <= alpha <= 1.0 && c >= 0.0 && part == alpha * c
    ensures 0.0 <= part <= c
  {
    NotNegative(alpha, c, part);
    NotNegative(1.0 - alpha, c, c - part);
  }

  lemma ObservedRemembers(p: Pacer, x: Sample, alpha: real, h: seq<Rate>)
    requires Inv(p) && Remembers(p, h) && 0.0 <= alpha <= 1.0
    requires p.previous.Some? ==> !Restarts(p.previous.value, x)
    ensures Remembers(Observed(p, x, alpha),
                      if Measures(p, x) then h + [Rate(x.at, Delivery(p.previous.value, x))] else h)
  {
    hide Observed, Measures, Delivery;
    if Measures(p, x) {
      MeasuredRemembers(p, x, alpha, h);
    } else {
      MeasuredWhen(p, x, alpha);
      PreviousMoves(p, x, alpha);
    }
  }

  lemma PreviousMoves(p: Pacer, x: Sample, alpha: real)
    requires Inv(p) && (p.previous.Some? ==> !Restarts(p.previous.value, x))
    ensures Observed(p, x, alpha).native == p.native
    ensures p.previous.Some? ==>
      Observed(p, x, alpha).previous.Some? && Observed(p, x, alpha).previous.value.at >= p.previous.value.at
  {
    ObservedPrevious(p, x, alpha);
    ObservedInv(p, x, alpha);
  }

  lemma MeasuredRemembers(p: Pacer, x: Sample, alpha: real, h: seq<Rate>)
    requires Inv(p) && Remembers(p, h) && 0.0 <= alpha <= 1.0 && Measures(p, x)
    ensures Remembers(Observed(p, x, alpha), h + [Rate(x.at, Delivery(p.previous.value, x))])
  {
    hide Observed, Delivery, Inv, Remembers;
    var d := Rate(x.at, Delivery(p.previous.value, x));
    RateExactly(p, x, alpha);
    MeasuredWhen(p, x, alpha);
    PreviousStays(p, x, alpha);
    if p.native {
      NativeRemembers(p, x, h, d, Observed(p, x, alpha));
    } else {
      BrowserRemembers(p, x, alpha, h, d, Observed(p, x, alpha));
    }
  }

  lemma BrowserRemembers(p: Pacer, x: Sample, alpha: real, h: seq<Rate>, d: Rate, u: Pacer)
    requires !p.native && Remembers(p, h) && d.at == x.at && u.rate.Some? && 0.0 <= alpha <= 1.0
    requires !u.native && u.previous == Some(x) && u.window == p.window
    requires u.rate.value == if p.rate.Some? then p.rate.value + alpha * (d.value - p.rate.value) else d.value
    ensures Remembers(u, h + [d])
  {
    hide Amid;
    assert (h + [d])[|h|] == d;
    if h != [] {
      AmidNext(p.rate.value, h, d, alpha, u.rate.value);
    } else {
      AmidOne(d);
      assert h + [d] == [d];
    }
  }

  lemma AmidOne(d: Rate)
    ensures Amid(d.value, [d])
  {
    assert d in [d];
  }

  lemma PreviousStays(p: Pacer, x: Sample, alpha: real)
    requires Inv(p) && Measures(p, x)
    ensures Observed(p, x, alpha).native == p.native && (!p.native ==> Observed(p, x, alpha).window == p.window)
  {
    hide Peak, Recent, NextBudget;
    ObservedInv(p, x, alpha);
    MeasuredIs(p, x, alpha);
  }

  lemma NativeRemembers(p: Pacer, x: Sample, h: seq<Rate>, d: Rate, u: Pacer)
    requires p.native && Remembers(p, h) && Measures(p, x) && d.at == x.at && u.rate.Some?
    requires u.native && u.previous == Some(x)
    requires forall r :: r in u.window <==> r == d || (r in p.window && x.at - r.at < 2000)
    requires u.rate.value >= d.value && u.rate.value >= 0.0
    requires forall r <- p.window :: x.at - r.at < 2000 ==> r.value <= u.rate.value
    requires u.rate.value == d.value || u.rate.value == 0.0
             || exists r :: r in p.window && x.at - r.at < 2000 && r.value == u.rate.value
    ensures Remembers(u, h + [d])
  {
    var all := h + [d];
    assert all[|all| - 1] == d;
    forall r
      ensures r in u.window <==> Lately(all, r)
    {
      assert r in all <==> r in h || r == d;
    }
    assert d in all && Lately(all, d);
    if r :| r in p.window && x.at - r.at < 2000 && r.value == u.rate.value {
      assert Lately(all, r);
    }
  }

  /** Smoothing factors are shares of one. */
  predicate Shares(events: seq<Event>) {
    forall i :: 0 <= i < |events| && events[i].Observe? ==> 0.0 <= events[i].alpha <= 1.0
  }

  lemma StepRemembers(k: Link, e: Event, h: seq<Rate>)
    requires LinkInv(k) && Remembers(k.policy, h) && (e.Observe? ==> 0.0 <= e.alpha <= 1.0)
    ensures LinkInv(Step(k, e)) && Remembers(Step(k, e).policy, DeliveriesNext(k, e, h))
  {
    hide Remembers, Observed, Measures, Delivery;
    StepInv(k, e);
    match e
    case Observe(c, now, buffered, backlogged, alpha) =>
      var x := SampleOf(k, e);
      if k.policy.previous.Some? && Restarts(k.policy.previous.value, x) {
        StartsOver(k.policy, x, alpha);
      } else {
        ObservedRemembers(k.policy, x, alpha, h);
      }
    case _ => SameMemory(k.policy, Step(k, e).policy, h);
  }

  lemma StartsOver(p: Pacer, x: Sample, alpha: real)
    requires Inv(p) && p.previous.Some? && Restarts(p.previous.value, x)
    ensures Remembers(Observed(p, x, alpha), [])
  {
  }

  lemma SameMemory(p: Pacer, u: Pacer, h: seq<Rate>)
    requires Remembers(p, h) && u.rate == p.rate && u.window == p.window && u.previous == p.previous && u.native == p.native
    ensures Remembers(u, h)
  {
  }

  lemma {:induction false} RunRemembers(k: Link, events: seq<Event>, h: seq<Rate>)
    requires LinkInv(k) && Remembers(k.policy, h) && Shares(events)
    ensures Remembers(Run(k, events).policy, Deliveries(k, events, h))
    decreases |events|
  {
    hide Remembers, Step, Inv, DeliveriesNext;
    if events != [] {
      StepRemembers(k, events[0], h);
      RunRemembers(Step(k, events[0]), events[1..], DeliveriesNext(k, events[0], h));
    }
  }

  /**
   In every run the rate of a native link is the greatest delivery of the last two seconds measured, and
   that of a browser link lies between the least and the greatest delivery since it started over.
   */
  lemma RateIsHistory(target: nat, native: bool, events: seq<Event>)
    requires Shares(events)
    ensures LinkInv(NewLink(target, native))
    ensures
      var p := Run(NewLink(target, native), events).policy;
      var h := Deliveries(NewLink(target, native), events, []);
      && (p.rate.Some? <==> h != [])
      && (h != [] ==> if native then Greatest(p.rate.value, h) else Amid(p.rate.value, h))
  {
    RunInv(NewLink(target, native), events);
    RunRemembers(NewLink(target, native), events, []);
  }

  // ---- what a link knows of its channels ----

  /** Bytes submitted on a channel in the run. */
  function SubmittedTo(events: seq<Event>, channel: nat): nat {
    if events == [] then 0
    else
      var last := events[|events| - 1];
      SubmittedTo(events[..|events| - 1], channel)
      + if last.Submitted? && last.channel == channel then last.bytes else 0
  }

  /** The channel observed last, and what it held then with what has been submitted on it since. */
  function Afloat(events: seq<Event>): Option<(nat, nat)> {
    if events == [] then None
    else
      var before := Afloat(events[..|events| - 1]);
      match events[|events| - 1]
      case Observe(c, _, buffered, _, _) => Some((c, buffered))
      case Submitted(c, bytes, _) => if before.Some? && before.value.0 == c then Some((c, before.value.1 + bytes)) else before
      case Rtt(_) => before
  }

  lemma {:induction false} RunNext(k: Link, events: seq<Event>, e: Event)
    requires LinkInv(k)
    ensures LinkInv(Run(k, events)) && Run(k, events + [e]) == Step(Run(k, events), e)
    decreases |events|
  {
    hide Step, Inv;
    RunInv(k, events);
    if events != [] {
      StepInv(k, events[0]);
      RunNext(Step(k, events[0]), events[1..], e);
      assert (events + [e])[1..] == events[1..] + [e];
    } else {
      StepInv(k, e);
      assert (events + [e])[1..] == [];
    }
  }

  /** What the events say of the channels, and what the link knows. */
  ghost predicate Knows(k: Link, events: seq<Event>) {
    && (forall c :: Count(k.submitted, c) == Min(SubmittedTo(events, c), MAX_U64))
    && (k.channel.None? <==> Afloat(events).None?)
    && (k.channel.Some? ==>
          && k.channel.value == Afloat(events).value.0
          && (Afloat(events).value.1 <= MAX_U64 ==> k.buffered == Afloat(events).value.1))
  }

  lemma StepKnows(k: Link, events: seq<Event>, e: Event)
    requires LinkInv(k) && Knows(k, events)
    ensures Knows(Step(k, e), events + [e])
  {
    hide Observed, FrameNoted, RttNoted;
    var all := events + [e];
    assert all[..|events|] == events && all[|events|] == e;
    forall c
      ensures Count(Step(k, e).submitted, c) == Min(SubmittedTo(all, c), MAX_U64)
    {
      assert Count(k.submitted, c) == Min(SubmittedTo(events, c), MAX_U64);
    }
  }

  /**
   In every run the link has counted what was submitted on each channel, and knows what the channel it
   observed last holds: that, and what has been submitted on it since.
   */
  lemma {:induction false} RunKnows(target: nat, native: bool, events: seq<Event>)
    ensures LinkInv(NewLink(target, native)) && Knows(Run(NewLink(target, native), events), events)
    decreases |events|
  {
    hide Step, Knows, SubmittedTo, Afloat;
    if events == [] {
      NewKnows(target, native);
    } else {
      var front, e := events[..|events| - 1], events[|events| - 1];
      RunKnows(target, native, front);
      RunNext(NewLink(target, native), front, e);
      StepKnows(Run(NewLink(target, native), front), front, e);
      assert front + [e] == events;
    }
  }

  lemma NewKnows(target: nat, native: bool)
    ensures Knows(NewLink(target, native), [])
  {
  }

  /** The largest bulk frame of the run, up to what 32 bits can count. */
  function Largest(events: seq<Event>): nat {
    if events == [] then 0
    else Max(if events[0].Submitted? && events[0].bulk then Min(events[0].bytes, 0xFFFF_FFFF) else 0, Largest(events[1..]))
  }

  /** A frame larger than any before raises the least budget, and the budget only if it is below that. */
  lemma FrameStep(k: Link, e: Event)
    requires LinkInv(k)
    ensures
      var p, u := k.policy, Step(k, e).policy;
      && u.maxFrame == Max(p.maxFrame, Largest([e]))
      && (e.Submitted? ==> u.budget == Max(p.budget, LeastBudget(u)))
  {
    assert [e][1..] == [];
    if e.Observe? {
      hide Observed;
      ObservedInv(k.policy, SampleOf(k, e), e.alpha);
    }
  }

  /** In every run the largest frame is the largest bulk frame submitted, or 17 KiB. */
  lemma {:induction false} FrameIsLargest(k: Link, events: seq<Event>)
    requires LinkInv(k)
    ensures Run(k, events).policy.maxFrame == Max(k.policy.maxFrame, Largest(events))
    decreases |events|
  {
    hide Step, Inv;
    if events != [] {
      StepInv(k, events[0]);
      FrameStep(k, events[0]);
      FrameIsLargest(Step(k, events[0]), events[1..]);
    }
  }

  /** The least round trip noted since the estimator last started over. */
  function LeastTrip(k: Link, events: seq<Event>, sofar: Option<real>): Option<real>
    requires LinkInv(k)
    decreases |events|
  {
    if events == [] then sofar
    else
      StepInv(k, events[0]);
      var next :=
        match events[0]
        case Rtt(ms) => if ms > 0.0 && (sofar.None? || ms < sofar.value) then Some(ms) else sofar
        case Observe(_, _, _, _, _) =>
          if k.policy.previous.Some? && Restarts(k.policy.previous.value, SampleOf(k, events[0])) then None else sofar
        case Submitted(_, _, _) => sofar;
      LeastTrip(Step(k, events[0]), events[1..], next)
  }

  lemma TripStep(k: Link, e: Event)
    requires LinkInv(k)
    ensures
      var was := k.policy.rttMin;
      Step(k, e).policy.rttMin ==
        match e
        case Rtt(ms) => if ms > 0.0 && (was.None? || ms < was.value) then Some(ms) else was
        case Observe(_, _, _, _, _) =>
          if k.policy.previous.Some? && Restarts(k.policy.previous.value, SampleOf(k, e)) then None else was
        case Submitted(_, _, _) => was
  {
    hide Peak, Recent, NextBudget, CeilToU64, Clamp;
  }

  /** In every run that is the round trip the estimator works with. */
  lemma {:induction false} TripIsLeast(k: Link, events: seq<Event>)
    requires LinkInv(k)
    ensures Run(k, events).policy.rttMin == LeastTrip(k, events, k.policy.rttMin)
    decreases |events|
  {
    hide Step, Inv;
    if events != [] {
      StepInv(k, events[0]);
      TripStep(k, events[0]);
      TripIsLeast(Step(k, events[0]), events[1..]);
    }
  }
}
