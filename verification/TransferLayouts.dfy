/** Which chunk layouts of one block may be mixed on a path, and which may not. */
module TransferLayouts {
  import opened Common
  import opened WantModel
  import opened RegistryInvariant
  import opened Transfer
  import opened TransferCompletion
  import opened TransferRuns
  import Cid
  import Frames

  // ---- layouts with equal counts ----

  /** The block with the bytes between the last cut of one layout and that of the other left out. */
  function Spliced(block: Bytes, size: nat, other: nat, n: nat): Bytes
    requires 0 < n && size <= other && (n - 1) * size <= (n - 1) * other <= |block|
  {
    block[..(n - 1) * size] + block[(n - 1) * other..]
  }

  lemma DivCeilIs(len: nat, size: nat, n: nat)
    requires size > 0 && n > 0 && (n - 1) * size < len <= n * size
    ensures Frames.DivCeil(len, size) == n
  {
    var m := Frames.DivCeil(len, size);
    Frames.DivCeilBounds(len, size);
    MulCancel(n - 1, m, size);
    MulCancel(m - 1, n, size);
  }

  lemma SplicedShape(block: Bytes, size: nat, other: nat, n: nat)
    requires 0 < size < other && 1 < n == Frames.DivCeil(|block|, size) == Frames.DivCeil(|block|, other)
    ensures (n - 1) * size < (n - 1) * other <= |block|
    ensures |Spliced(block, size, other, n)| < |block|
    ensures Frames.DivCeil(|Spliced(block, size, other, n)|, size) == n
  {
    hide Frames.DivCeil;
    Frames.DivCeilBounds(|block|, size);
    Frames.DivCeilBounds(|block|, other);
    Widen(n - 1, size, other);
    var low, high, top := (n - 1) * size, (n - 1) * other, n * size;
    assert top == low + size;
    assert |Spliced(block, size, other, n)| == low + (|block| - high);
    DivCeilIs(|Spliced(block, size, other, n)|, size, n);
  }

  lemma Widen(m: nat, a: nat, b: nat)
    requires 0 < m && a < b
    ensures m * a < m * b
  {
    MulMonotone(a + 1, b, m);
    assert (a + 1) * m == a * m + m;
  }

  lemma SplicedSlice(block: Bytes, size: nat, other: nat, n: nat, i: nat)
    requires 0 < size < other && i < n && 0 < n
    requires (n - 1) * size <= (n - 1) * other <= |block| <= n * size && |block| <= n * other
    ensures i * size <= (n - 1) * size && (i < n - 1 ==> (i + 1) * size <= (n - 1) * size)
    ensures
      Frames.Slice(Spliced(block, size, other, n), size, i)
      == if i < n - 1 then Frames.Slice(block, size, i) else Frames.Slice(block, other, n - 1)
  {
    MulMonotone(i, n - 1, size);
    var b := Spliced(block, size, other, n);
    if i < n - 1 {
      MulMonotone(i + 1, n - 1, size);
      assert b[i * size..(i + 1) * size] == block[i * size..(i + 1) * size];
    } else {
      assert n * size == (n - 1) * size + size;
      assert b[(n - 1) * size..] == block[(n - 1) * other..];
    }
  }

  /** The frames of two layouts with equal counts: the last one with the larger chunk size. */
  ghost predicate MixedFrames(events: seq<Event>, k: Key, block: Bytes, size: nat, other: nat, n: nat) {
    && |events| == n > 0
    && (forall i :: 0 <= i < n - 1 ==> FrameOf(events[i], k, block, size, i))
    && FrameOf(events[n - 1], k, block, other, n - 1)
  }

  /** On the wire, the mixture is the layout of the spliced block. */
  lemma MixedIsSpliced(events: seq<Event>, k: Key, block: Bytes, size: nat, other: nat, n: nat, i: nat)
    requires 0 < size < other && 1 < n == Frames.DivCeil(|block|, size) == Frames.DivCeil(|block|, other)
    requires MixedFrames(events, k, block, size, other, n) && i < n
    requires (n - 1) * size <= (n - 1) * other <= |block|
    ensures FrameOf(events[i], k, Spliced(block, size, other, n), size, i)
  {
    Frames.DivCeilBounds(|block|, size);
    Frames.DivCeilBounds(|block|, other);
    SplicedShape(block, size, other, n);
    SplicedSlice(block, size, other, n, i);
    hide Frames.DivCeil, Frames.Slice, Frames.Classify, Spliced, Cid.IsValidCid;
  }

  lemma WaitsForLess(s: State, k: Key, id: nat, bytes: nat, fewer: nat)
    requires Waits(s, k, id, bytes) && fewer <= bytes
    ensures Waits(s, k, id, fewer)
  {
    var w :| w in s.pending[k.cid] && Awaits(w, k, id, bytes);
    assert Awaits(w, k, id, fewer);
  }

  /** Nothing but the frames of a layout, each once, in order. */
  lemma FramesArrive(s: State, events: seq<Event>, k: Key, id: nat, block: Bytes, size: nat)
    requires size > 0 && |events| == Frames.DivCeil(|block|, size) > 1
    requires forall i: nat :: i < |events| ==> FrameOf(events[i], k, block, size, i)
    ensures Underway(s, events, k, id, block, size)
    ensures forall i: nat :: i < |events| ==> Arrives(events, k, block, size, i)
  {
    hide FrameOf, Frames.DivCeil, Underway;
    FramesUnderway(s, events, k, id, block, size, 0);
    assert events[0..] == events;
    forall i: nat | i < |events|
      ensures Arrives(events, k, block, size, i)
    {
      assert FrameOf(events[i], k, block, size, i);
    }
  }

  lemma {:induction false} FramesUnderway(s: State, events: seq<Event>, k: Key, id: nat, block: Bytes, size: nat, from: nat)
    requires size > 0 && Frames.DivCeil(|block|, size) > 1 && from <= |events|
    requires forall i: nat :: i < |events| ==> FrameOf(events[i], k, block, size, i)
    ensures Underway(s, events[from..], k, id, block, size)
    decreases |events| - from
  {
    hide FrameOf, Step, Waits, Roomy, Done;
    if from < |events| {
      var rest := events[from..];
      assert rest[0] == events[from] && rest[1..] == events[from + 1..];
      FrameIndex(events[from], k, block, size, from);
      FramesUnderway(Step(s, rest[0]), events, k, id, block, size, from + 1);
    }
  }

  /**
   Why the layout must not change while the path holds an assembly: for any two chunk sizes that cut the
   block into equally many chunks, frames of both can be delivered together as a shorter block.
   */
  lemma MixedLayoutsCorrupt(s: State, k: Key, id: nat, block: Bytes, size: nat, other: nat, events: seq<Event>)
    requires Inv(s) && k !in s.assemblies && s.delivered == []
    requires Waits(s, k, id, |block|) && Roomy(s, k, |block|)
    requires 0 < size < other
    requires 1 < Frames.DivCeil(|block|, size) == Frames.DivCeil(|block|, other) <= MAX_WANT_CHUNKS
    requires MixedFrames(events, k, block, size, other, Frames.DivCeil(|block|, size))
    ensures exists d :: d in Run(s, events).delivered && d.id == id && d.key == k && |d.data| < |block|
  {
    hide Spliced, Inv, Run, Waits, Frames.DivCeil, FrameOf;
    var n := Frames.DivCeil(|block|, size);
    SplicedShape(block, size, other, n);
    var mixed := Spliced(block, size, other, n);
    forall i: nat | i < n ensures FrameOf(events[i], k, mixed, size, i) {
      MixedIsSpliced(events, k, block, size, other, n, i);
    }
    WaitsForLess(s, k, id, |block|, |mixed|);
    FramesArrive(s, events, k, id, mixed, size);
    AllArrive(s, events, k, id, mixed, size);
    UnderwayConforms(s, events, k, id, mixed, size);
    RunFaithful(s, events, k, mixed, map[n := size]);
  }

  // ---- from a new registry ----

  /** Ask one sender on one path, and wait there. */
  function Asking(k: Key): seq<Event> {
    [Register(k.cid, [k.sender], false), TrackPath(1, k.room)]
  }

  lemma AskingWaits(k: Key, bytes: nat)
    requires |k.cid| <= 255 && |k.sender| <= 256 && bytes <= MAX_WANT_BLOCK_BYTES
    ensures
      var s := Run(Initial, Asking(k));
      Inv(s) && s.assemblies == map[] && s.delivered == [] && Waits(s, k, 1, bytes) && Roomy(s, k, bytes)
  {
    RegistryInvariant.RegistryInvariant(Asking(k));
    hide Inv;
    var w := NewWant(1, [k.sender], false);
    var s1 := Step(Initial, Asking(k)[0]);
    assert Prune(Initial) == Initial;
    assert Admissible(Initial, k.cid, [k.sender]);
    assert Waiting(Initial.pending, k.cid) + [w] == [w];
    assert s1.pending == map[k.cid := [w]];
    var s := Step(s1, Asking(k)[1]);
    assert Asking(k)[1..] == [Asking(k)[1]] && Asking(k)[1..][1..] == [];
    assert Run(s1, Asking(k)[1..]) == s;
    var x := Edited(AddPath(1, k.room), k.cid, w);
    assert s.pending[k.cid] == [x] && x in s.pending[k.cid];
    assert Awaits(x, k, 1, bytes);
  }

  /** The two chunk layouts, mixed. */
  function Mixture(k: Key, block: Bytes, size: nat, other: nat, n: nat): seq<Event>
    requires 0 < n && 0 < size && 0 < other && n == Frames.DivCeil(|block|, size) == Frames.DivCeil(|block|, other)
  {
    Slices(|block|, size);
    Slices(|block|, other);
    seq(n, i requires 0 <= i < n =>
      HaveChunk(k, i, n, Frames.Slice(block, if i < n - 1 then size else other, i)))
  }

  lemma Slices(len: nat, size: nat)
    requires size > 0
    ensures forall i: nat :: i < Frames.DivCeil(len, size) ==> i * size <= len
  {
    forall i: nat | i < Frames.DivCeil(len, size) ensures i * size <= len {
      Frames.SliceStarts(len, size, i);
    }
  }

  /** Every frame of a layout can be sent. */
  lemma FrameExists(k: Key, block: Bytes, size: nat, i: nat)
    requires Cid.IsValidCid(k.cid) && size > 0 && 1 < Frames.DivCeil(|block|, size) <= MAX_WANT_CHUNKS
    requires i < Frames.DivCeil(|block|, size) && i * size <= |block|
    ensures FrameOf(HaveChunk(k, i, Frames.DivCeil(|block|, size), Frames.Slice(block, size, i)), k, block, size, i)
  {
    hide Cid.IsValidCid, Frames.Classify, Frames.Build, Frames.DivCeil, Frames.Slice;
    var n := Frames.DivCeil(|block|, size);
    Frames.CountIsDivCeil(|block|, size);
    Frames.ClassifyBuilt(Frames.HaveFrame(k.cid, block, i, n, size));
  }

  lemma MixtureFrames(k: Key, block: Bytes, size: nat, other: nat, n: nat)
    requires Cid.IsValidCid(k.cid) && 0 < size && 0 < other && 1 < n <= MAX_WANT_CHUNKS
    requires n == Frames.DivCeil(|block|, size) == Frames.DivCeil(|block|, other)
    ensures MixedFrames(Mixture(k, block, size, other, n), k, block, size, other, n)
  {
    hide Cid.IsValidCid, Frames.DivCeil, Frames.Slice, FrameOf;
    Slices(|block|, size);
    Slices(|block|, other);
    forall i: nat | i < n
      ensures FrameOf(Mixture(k, block, size, other, n)[i], k, block, if i < n - 1 then size else other, i)
    {
      FrameExists(k, block, if i < n - 1 then size else other, i);
    }
  }

  // ---- which layouts may be mixed ----

  /** Every data frame of the path is a frame of the block with one of these chunk sizes. */
  ghost predicate FromSizes(events: seq<Event>, k: Key, block: Bytes, sizes: set<nat>) {
    forall i :: 0 <= i < |events| && DataOn(events[i], k) ==> HasSize(events[i], k, block, sizes)
  }

  ghost predicate HasSize(e: Event, k: Key, block: Bytes, sizes: set<nat>) {
    exists size :: size in sizes && IsFrame(e, k, block, size)
  }

  predicate Usable(block: Bytes, sizes: set<nat>) {
    forall size <- sizes :: size > 0 && Frames.DivCeil(|block|, size) <= MAX_WANT_CHUNKS
  }

  /** No two different sizes cut the block into the same number of chunks, unless that is one. */
  predicate CountsDiffer(block: Bytes, sizes: set<nat>)
    requires Usable(block, sizes)
  {
    forall a <- sizes, b <- sizes ::
      Frames.DivCeil(|block|, a) == Frames.DivCeil(|block|, b) > 1 ==> a == b
  }

  ghost function ByCount(block: Bytes, sizes: set<nat>): map<nat, nat>
    requires Usable(block, sizes)
  {
    map n | n in (set a | a in sizes :: Frames.DivCeil(|block|, a)) :: PickSize(block, sizes, n)
  }

  ghost function PickSize(block: Bytes, sizes: set<nat>, n: nat): (a: nat)
    requires Usable(block, sizes) && exists a :: a in sizes && Frames.DivCeil(|block|, a) == n
    ensures a in sizes && Frames.DivCeil(|block|, a) == n
  {
    var a :| a in sizes && Frames.DivCeil(|block|, a) == n;
    a
  }

  lemma SizedFromLayout(e: Event, k: Key, block: Bytes, sizes: set<nat>)
    requires Usable(block, sizes) && CountsDiffer(block, sizes) && HasSize(e, k, block, sizes)
    ensures FromLayout(e, k, block, ByCount(block, sizes))
  {
    hide FrameOf, Frames.DivCeil;
    var size :| size in sizes && IsFrame(e, k, block, size);
    var index := FrameFound(e, k, block, size);
    var n := Frames.DivCeil(|block|, size);
    assert n in ByCount(block, sizes);
  }

  lemma {:induction false} SizesConform(s: State, events: seq<Event>, k: Key, block: Bytes, sizes: set<nat>)
    requires Usable(block, sizes) && CountsDiffer(block, sizes) && FromSizes(events, k, block, sizes)
    ensures Conforms(s, events, k, block, ByCount(block, sizes))
    decreases |events|
  {
    hide Step, HasSize, CountsDiffer, Usable, FromLayout, ByCount;
    if events != [] {
      if DataOn(events[0], k) {
        assert HasSize(events[0], k, block, sizes);
        SizedFromLayout(events[0], k, block, sizes);
      }
      forall i | 0 <= i < |events[1..]| && DataOn(events[1..][i], k)
        ensures HasSize(events[1..][i], k, block, sizes)
      {
        assert HasSize(events[i + 1], k, block, sizes);
      }
      SizesConform(Step(s, events[0]), events[1..], k, block, sizes);
    }
  }

  /** Two sizes with equal counts: a run from a new registry that delivers something shorter. */
  lemma MixingRun(k: Key, block: Bytes, size: nat, other: nat) returns (events: seq<Event>)
    requires Cid.IsValidCid(k.cid) && |k.sender| <= 256 && |block| <= MAX_WANT_BLOCK_BYTES && 0 < size < other
    requires 1 < Frames.DivCeil(|block|, size) == Frames.DivCeil(|block|, other) <= MAX_WANT_CHUNKS
    ensures FromSizes(events, k, block, {size, other}) && !DeliveredBlock(Run(Initial, events), k, block)
  {
    hide Inv, Run, Frames.DivCeil, MixedFrames, Waits, Roomy, Cid.IsValidCid, Mixture;
    var n := Frames.DivCeil(|block|, size);
    var mixture := Mixture(k, block, size, other, n);
    ValidLength(k.cid);
    AskingWaits(k, |block|);
    MixtureFrames(k, block, size, other, n);
    var s := Run(Initial, Asking(k));
    MixedLayoutsCorrupt(s, k, 1, block, size, other, mixture);
    events := Asking(k) + mixture;
    RunJoin(Initial, Asking(k), mixture);
    MixtureSized(k, block, size, other, n, mixture);
    AskingSized(k, block, {size, other}, mixture);
  }

  lemma ValidLength(cid: Bytes)
    requires Cid.IsValidCid(cid)
    ensures |cid| <= 255
  {
  }

  lemma MixtureSized(k: Key, block: Bytes, size: nat, other: nat, n: nat, events: seq<Event>)
    requires MixedFrames(events, k, block, size, other, n)
    ensures FromSizes(events, k, block, {size, other})
  {
    hide FrameOf;
    forall i | 0 <= i < |events|
      ensures HasSize(events[i], k, block, {size, other})
    {
      if i < n - 1 {
        assert FrameOf(events[i], k, block, size, i);
        assert size in {size, other} && IsFrame(events[i], k, block, size);
      } else {
        assert FrameOf(events[i], k, block, other, n - 1);
        assert other in {size, other} && IsFrame(events[i], k, block, other);
      }
    }
  }

  lemma AskingSized(k: Key, block: Bytes, sizes: set<nat>, events: seq<Event>)
    requires FromSizes(events, k, block, sizes)
    ensures FromSizes(Asking(k) + events, k, block, sizes)
  {
    hide HasSize;
    var all := Asking(k) + events;
    forall i | 0 <= i < |all| && DataOn(all[i], k)
      ensures HasSize(all[i], k, block, sizes)
    {
      assert i >= 2 && all[i] == events[i - 2];
    }
  }

  lemma {:induction false} RunJoin(s: State, xs: seq<Event>, ys: seq<Event>)
    ensures Run(s, xs + ys) == Run(Run(s, xs), ys)
    decreases |xs|
  {
    hide Step;
    if xs == [] {
      assert xs + ys == ys;
    } else {
      assert (xs + ys)[1..] == xs[1..] + ys;
      RunJoin(Step(s, xs[0]), xs[1..], ys);
    }
  }

  /**
   Frames of several layouts of a block may be mixed freely on a path exactly when no two of them have
   the same number of chunks: then every delivery, in every run, is the block; otherwise some run
   delivers something else. A path that holds no assembly may go over to other layouts in any case.
   */
  lemma MixingSafeExactly(k: Key, block: Bytes, sizes: set<nat>)
    requires Cid.IsValidCid(k.cid) && |k.sender| <= 256 && |block| <= MAX_WANT_BLOCK_BYTES && Usable(block, sizes)
    ensures CountsDiffer(block, sizes) <==>
      forall events {:trigger FromSizes(events, k, block, sizes)} ::
        FromSizes(events, k, block, sizes) ==> DeliveredBlock(Run(Initial, events), k, block)
  {
    hide Run, FromSizes, DeliveredBlock, Conforms, ByCount, Cid.IsValidCid, Frames.DivCeil;
    if CountsDiffer(block, sizes) {
      forall events | FromSizes(events, k, block, sizes)
        ensures DeliveredBlock(Run(Initial, events), k, block)
      {
        SizesConform(Initial, events, k, block, sizes);
        TransferDelivers(events, k, block, ByCount(block, sizes));
        AllDelivered(Run(Initial, events), k, block);
      }
    } else {
      var a, b :| a in sizes && b in sizes && Frames.DivCeil(|block|, a) == Frames.DivCeil(|block|, b) > 1 && a != b;
      var events := MixingRun(k, block, Min(a, b), Max(a, b));
      MoreSizes(events, k, block, {Min(a, b) as nat, Max(a, b) as nat}, sizes);
    }
  }

  lemma AllDelivered(s: State, k: Key, block: Bytes)
    requires forall d | d in s.delivered && d.key == k :: d.data == block
    ensures DeliveredBlock(s, k, block)
  {
  }

  lemma MoreSizes(events: seq<Event>, k: Key, block: Bytes, few: set<nat>, sizes: set<nat>)
    requires few <= sizes && FromSizes(events, k, block, few)
    ensures FromSizes(events, k, block, sizes)
  {
    hide IsFrame;
    forall i | 0 <= i < |events| && DataOn(events[i], k)
      ensures HasSize(events[i], k, block, sizes)
    {
      assert HasSize(events[i], k, block, few);
    }
  }

  /** An instance: two thousand bytes, in chunks of 1024 and of 1025 bytes. */
  lemma MixedExample(k: Key, block: Bytes) returns (events: seq<Event>)
    requires Cid.IsValidCid(k.cid) && |k.sender| <= 256 && |block| == 2000
    ensures FromSizes(events, k, block, {1024, 1025}) && !DeliveredBlock(Run(Initial, events), k, block)
  {
    assert Frames.DivCeil(2000, 1024) == 2 && Frames.DivCeil(2000, 1025) == 2;
    events := MixingRun(k, block, 1024, 1025);
  }
}
