/** The byte ring as a value, and its refinement to a FIFO queue of fixed-size frames. */
module RingSpec {
  import opened Arithmetic
  import opened Pattern

  /** Fields of the ring: its memory, the offset of the oldest byte, the number of bytes held. */
  datatype Image = Image(buf: seq<byte>, front: nat, len: nat)

  datatype Op = Enqueue(bytes: seq<byte>) | Dequeue(n: nat) | Drop(n: nat) | Peek(n: nat)

  /** `Fault` is the failure of the bound asserted when a slice of the memory is taken. */
  datatype Reply = Refused | Accepted | Data(bytes: seq<byte>) | Fault

  function Step(r: Image, op: Op): (Image, Reply)
    requires |r.buf| > 0
  {
    match op
    case Enqueue(x) =>
      if |r.buf| < r.len + |x| then (r, Refused)
      else
        var back := (r.front + r.len) % |r.buf|;
        if back + |x| > |r.buf| then (r, Fault)
        else (Image(Splice(r.buf, back, x), r.front, r.len + |x|), Accepted)
    case Dequeue(n) =>
      if r.len < n then (r, Refused)
      else if r.front + n > |r.buf| then (r, Fault)
      else (Image(r.buf, (r.front + n) % |r.buf|, r.len - n), Data(r.buf[r.front..r.front + n]))
    case Drop(n) =>
      if r.len < n then (r, Refused)
      else (Image(r.buf, (r.front + n) % |r.buf|, r.len - n), Accepted)
    case Peek(n) =>
      if r.len < n then (r, Refused)
      else if r.front + n > |r.buf| then (r, Fault)
      else (r, Data(r.buf[r.front..r.front + n]))
  }

  /** A queue that holds at most `cap` frames. */
  function FifoStep(q: seq<seq<byte>>, cap: nat, op: Op): (seq<seq<byte>>, Reply) {
    match op
    case Enqueue(x) => if |q| >= cap then (q, Refused) else (q + [x], Accepted)
    case Dequeue(_) => if q == [] then (q, Refused) else (q[1..], Data(q[0]))
    case Drop(_) => if q == [] then (q, Refused) else (q[1..], Accepted)
    case Peek(_) => if q == [] then (q, Refused) else (q, Data(q[0]))
  }

  predicate FixedSize(op: Op, F: nat) {
    match op
    case Enqueue(x) => |x| == F
    case Dequeue(n) => n == F
    case Drop(n) => n == F
    case Peek(n) => n == F
  }

  /** Every offset is a multiple of the frame size. */
  predicate Aligned(r: Image, F: nat) {
    && F > 0
    && r.front < |r.buf| && r.len <= |r.buf|
    && WholeRounds(|r.buf|, F) && WholeRounds(r.front, F) && WholeRounds(r.len, F)
  }

  function Slot(buf: seq<byte>, F: nat, j: nat): seq<byte> {
    if j * F + F <= |buf| then buf[j * F..j * F + F] else []
  }

  /** The frames held, oldest first. */
  function Frames(r: Image, F: nat): seq<seq<byte>>
    requires Aligned(r, F) && |r.buf| / F > 0
  {
    seq(r.len / F, i requires 0 <= i < r.len / F => Slot(r.buf, F, (r.front / F + i) % (|r.buf| / F)))
  }

  /** Coordinates of an aligned ring: capacity, front and length counted in frames. */
  ghost predicate Coords(r: Image, F: nat, C: nat, a: nat, m: nat) {
    && F > 0 && a < C && m <= C
    && |r.buf| == C * F && r.front == a * F && r.len == m * F
  }

  lemma CoordsOf(r: Image, F: nat)
    requires Aligned(r, F)
    ensures Coords(r, F, |r.buf| / F, r.front / F, r.len / F)
  {
    var C, a, m := |r.buf| / F, r.front / F, r.len / F;
    assert |r.buf| == C * F && r.front == a * F && r.len == m * F;
    OrderOfMultiples(a, C, F);
    OrderOfMultiples(m, C, F);
  }

  lemma AlignedAt(r: Image, F: nat, C: nat, a: nat, m: nat)
    requires Coords(r, F, C, a, m)
    ensures Aligned(r, F)
    ensures |r.buf| / F == C && r.front / F == a && r.len / F == m
  {
    Residue(C, 0, F);
    Residue(a, 0, F);
    Residue(m, 0, F);
    Spacing(a, C, F);
    if m < C { Spacing(m, C, F); }
  }

  /** Wrapping around in bytes is wrapping around in frames. */
  lemma Wrap(x: nat, C: nat, F: nat)
    requires F > 0 && 0 < C && x < 2 * C
    ensures x % C == if x < C then x else x - C
    ensures C * F > 0 && (x * F) % (C * F) == (x % C) * F
  {
    var y := if x < C then x else x - C;
    Residue(if x < C then 0 else 1, y, C);
    Spacing(y, C, F);
    WrapBytes(x * F, y * F, C * F, x < C) by {
      assert x >= C ==> x * F == y * F + C * F;
    }
  }

  lemma WrapBytes(x: nat, y: nat, c: nat, low: bool)
    requires y < c && x == if low then y else y + c
    ensures x % c == y
  {
    Residue(if low then 0 else 1, y, c);
  }

  lemma SlotAfterSplice(buf: seq<byte>, F: nat, C: nat, k: nat, x: seq<byte>, j: nat)
    requires F > 0 && |buf| == C * F && k < C && j < C && |x| == F
    ensures k * F + F <= |buf|
    ensures Slot(Splice(buf, k * F, x), F, j) == if j == k then x else Slot(buf, F, j)
  {
    Spacing(k, C, F);
    Spacing(j, C, F);
    if j < k { Spacing(j, k, F); }
    if k < j { Spacing(k, j, F); }
  }

  lemma FrameAt(r: Image, F: nat, C: nat, a: nat, m: nat)
    requires Coords(r, F, C, a, m)
    ensures Aligned(r, F) && |r.buf| / F == C && |Frames(r, F)| == m
    ensures forall i :: 0 <= i < m ==> Frames(r, F)[i] == Slot(r.buf, F, (a + i) % C)
  {
    AlignedAt(r, F, C, a, m);
  }

  /** The slot after the last frame: where the next frame goes. */
  lemma BackSlot(r: Image, F: nat, C: nat, a: nat, m: nat)
    requires Coords(r, F, C, a, m)
    ensures m < C ==> (r.front + r.len) % |r.buf| == ((a + m) % C) * F
    ensures m < C ==> ((a + m) % C) * F + F <= |r.buf| && r.len + F <= |r.buf|
    ensures m == C ==> r.len + F > |r.buf|
    ensures r.len + F == (m + 1) * F
  {
    if m < C {
      Wrap(a + m, C, F);
      assert r.front + r.len == (a + m) * F;
      Spacing((a + m) % C, C, F);
      Spacing(m, C, F);
    }
  }

  lemma EnqueueRefines(r: Image, F: nat, x: seq<byte>)
    requires Aligned(r, F) && |x| == F
    ensures |r.buf| / F > 0
    ensures var (r', reply) := Step(r, Enqueue(x));
            var (q', reply') := FifoStep(Frames(r, F), |r.buf| / F, Enqueue(x));
            && |r'.buf| == |r.buf| && Aligned(r', F) && Frames(r', F) == q' && reply == reply'
  {
    CoordsOf(r, F);
    var C, a, m := |r.buf| / F, r.front / F, r.len / F;
    BackSlot(r, F, C, a, m);
    FrameAt(r, F, C, a, m);
    if m < C {
      EnqueueInto(r, F, C, a, m, x);
    }
  }

  lemma EnqueueInto(r: Image, F: nat, C: nat, a: nat, m: nat, x: seq<byte>)
    requires Coords(r, F, C, a, m) && m < C && |x| == F && Aligned(r, F) && |r.buf| / F == C
    ensures var k := (a + m) % C;
            && k * F + F <= |r.buf|
            && var r' := Image(Splice(r.buf, k * F, x), r.front, r.len + F);
            && Aligned(r', F) && Frames(r', F) == Frames(r, F) + [x]
  {
    BackSlot(r, F, C, a, m);
    var r' := Image(Splice(r.buf, ((a + m) % C) * F, x), r.front, r.len + F);
    FrameAt(r, F, C, a, m);
    FrameAt(r', F, C, a, m + 1);
    var before, after := Frames(r, F), Frames(r', F);
    forall i | 0 <= i < |after|
      ensures after[i] == (before + [x])[i]
    {
      SlotAfterEnqueue(r, F, C, a, m, x, i);
    }
  }

  lemma SlotAfterEnqueue(r: Image, F: nat, C: nat, a: nat, m: nat, x: seq<byte>, i: nat)
    requires F > 0 && a < C && m < C && i <= m && |x| == F && |r.buf| == C * F
    ensures ((a + m) % C) * F + F <= |r.buf|
    ensures Slot(Splice(r.buf, ((a + m) % C) * F, x), F, (a + i) % C)
         == if i == m then x else Slot(r.buf, F, (a + i) % C)
  {
    Wrap(a + i, C, F);
    Wrap(a + m, C, F);
    SlotAfterSplice(r.buf, F, C, (a + m) % C, x, (a + i) % C);
  }

  /** Moving the front by one frame. */
  lemma Advance(r: Image, F: nat, C: nat, a: nat, m: nat)
    requires Coords(r, F, C, a, m) && m > 0
    ensures r.len >= F && r.front + F <= |r.buf|
    ensures Coords(Image(r.buf, (r.front + F) % |r.buf|, r.len - F), F, C, (a + 1) % C, m - 1)
  {
    Spacing(0, m, F);
    Spacing(a, C, F);
    assert (a + 1) * F == r.front + F && (m - 1) * F == r.len - F;
    Wrap(a + 1, C, F);
  }

  lemma ShiftedSlots(a: nat, i: nat, C: nat)
    requires a < C && i < C
    ensures ((a + 1) % C + i) % C == (a + (i + 1)) % C
  {
    if a + 1 < C {
      Residue(0, a + 1, C);
    } else {
      Residue(1, 0, C);
      Residue(1, i, C);
      Residue(0, i, C);
    }
  }

  lemma AdvancedFrames(r: Image, F: nat, C: nat, a: nat, m: nat)
    requires Coords(r, F, C, a, m) && m > 0 && Aligned(r, F) && |r.buf| / F == C
    ensures r.len >= F && r.front + F <= |r.buf|
    ensures var r' := Image(r.buf, (r.front + F) % |r.buf|, r.len - F);
            Aligned(r', F) && Frames(r', F) == Frames(r, F)[1..]
  {
    Advance(r, F, C, a, m);
    var r' := Image(r.buf, (r.front + F) % |r.buf|, r.len - F);
    FrameAt(r, F, C, a, m);
    FrameAt(r', F, C, (a + 1) % C, m - 1);
    var before, after := Frames(r, F), Frames(r', F);
    forall i | 0 <= i < |after|
      ensures after[i] == before[1..][i]
    {
      ShiftedSlots(a, i, C);
    }
  }

  lemma DequeueRefines(r: Image, F: nat, op: Op)
    requires Aligned(r, F) && !op.Enqueue? && FixedSize(op, F)
    ensures |r.buf| / F > 0
    ensures var (r', reply) := Step(r, op);
            var (q', reply') := FifoStep(Frames(r, F), |r.buf| / F, op);
            && |r'.buf| == |r.buf| && Aligned(r', F) && Frames(r', F) == q' && reply == reply'
  {
    CoordsOf(r, F);
    var C, a, m := |r.buf| / F, r.front / F, r.len / F;
    FrameAt(r, F, C, a, m);
    if m > 0 {
      AdvancedFrames(r, F, C, a, m);
      FrontFrame(r, F, C, a, m);
    }
  }

  lemma FrontFrame(r: Image, F: nat, C: nat, a: nat, m: nat)
    requires Coords(r, F, C, a, m) && m > 0 && Aligned(r, F) && |r.buf| / F == C
    ensures r.front + F <= |r.buf| && |Frames(r, F)| > 0 && Frames(r, F)[0] == r.buf[r.front..r.front + F]
  {
    FrameAt(r, F, C, a, m);
    Residue(0, a, C);
    Spacing(a, C, F);
  }

  /** The replies to a run of operations, and the ring at its end. */
  function Run(r: Image, ops: seq<Op>): (Image, seq<Reply>)
    requires |r.buf| > 0
    decreases |ops|
  {
    if ops == [] then (r, [])
    else
      var (r1, reply) := Step(r, ops[0]);
      var (r2, replies) := Run(r1, ops[1..]);
      (r2, [reply] + replies)
  }

  function FifoRun(q: seq<seq<byte>>, cap: nat, ops: seq<Op>): (seq<seq<byte>>, seq<Reply>)
    decreases |ops|
  {
    if ops == [] then (q, [])
    else
      var (q1, reply) := FifoStep(q, cap, ops[0]);
      var (q2, replies) := FifoRun(q1, cap, ops[1..]);
      (q2, [reply] + replies)
  }

  predicate AllFixedSize(ops: seq<Op>, F: nat) {
    forall i :: 0 <= i < |ops| ==> FixedSize(ops[i], F)
  }

  /** Over any interleaving of fixed-size operations the ring answers as the queue does. */
  lemma {:induction false} RingRefinesFifo(r: Image, F: nat, ops: seq<Op>)
    requires Aligned(r, F) && AllFixedSize(ops, F)
    ensures |r.buf| / F > 0
    ensures var (r', replies) := Run(r, ops);
            && |r'.buf| == |r.buf| && Aligned(r', F)
            && FifoRun(Frames(r, F), |r.buf| / F, ops) == (Frames(r', F), replies)
    decreases |ops|
  {
    CoordsOf(r, F);
    if ops != [] {
      if ops[0].Enqueue? {
        EnqueueRefines(r, F, ops[0].bytes);
      } else {
        DequeueRefines(r, F, ops[0]);
      }
      RingRefinesFifo(Step(r, ops[0]).0, F, ops[1..]);
    }
  }

  lemma {:induction false} FifoNeverFaults(q: seq<seq<byte>>, cap: nat, ops: seq<Op>)
    ensures Fault !in FifoRun(q, cap, ops).1
    decreases |ops|
  {
    if ops != [] {
      FifoNeverFaults(FifoStep(q, cap, ops[0]).0, cap, ops[1..]);
    }
  }

  /** The slice bound holds throughout every run of fixed-size operations from an empty ring. */
  ghost predicate NeverFaults(capacity: nat, F: nat)
    requires capacity > 0
  {
    forall ops, buf: seq<byte> | |buf| == capacity && AllFixedSize(ops, F) :: Fault !in Run(Image(buf, 0, 0), ops).1
  }

  /** `k` frames passed through an empty ring, then one more enqueued. */
  function PassThrough(x: seq<byte>, k: nat): seq<Op> {
    if k == 0 then [Enqueue(x)] else [Enqueue(x), Dequeue(|x|)] + PassThrough(x, k - 1)
  }

  lemma {:induction false} PassThroughFixedSize(x: seq<byte>, k: nat)
    ensures AllFixedSize(PassThrough(x, k), |x|)
  {
    if k > 0 { PassThroughFixedSize(x, k - 1); }
  }

  /** Frames that do not divide the memory run into its end. */
  lemma {:induction false} PassThroughFaults(r: Image, x: seq<byte>, k: nat)
    requires 0 < |x| <= |r.buf| && r.len == 0
    requires r.front + k * |x| < |r.buf| < r.front + (k + 1) * |x|
    ensures Fault in Run(r, PassThrough(x, k)).1
    decreases k
  {
    Residue(0, r.front, |r.buf|);
    if k == 0 {
      assert Run(r, [Enqueue(x)]).1 == [Fault] + Run(r, []).1;
    } else {
      assert k * |x| == (k - 1) * |x| + |x|;
      assert (k + 1) * |x| == k * |x| + |x|;
      Residue(0, r.front + |x|, |r.buf|);
      var r1 := Step(r, Enqueue(x)).0;
      var r2 := Step(r1, Dequeue(|x|)).0;
      PassThroughFaults(r2, x, k - 1);
      var ops := PassThrough(x, k);
      assert ops[1..][1..] == PassThrough(x, k - 1);
      assert Run(r, ops).1 == [Accepted] + Run(r1, ops[1..]).1;
      assert Run(r1, ops[1..]).1 == [Step(r1, Dequeue(|x|)).1] + Run(r2, PassThrough(x, k - 1)).1;
    }
  }

  lemma {:induction false} TooLargeNeverFaults(r: Image, F: nat, ops: seq<Op>)
    requires 0 < |r.buf| < F && r.len == 0 && AllFixedSize(ops, F)
    ensures Fault !in Run(r, ops).1
    decreases |ops|
  {
    if ops != [] {
      assert Step(r, ops[0]) == (r, Refused);
      TooLargeNeverFaults(r, F, ops[1..]);
    }
  }

  /** The header asks for a capacity that is a multiple of the frame size. That is exactly what
      the slice bound needs, frames too large for the whole ring apart. */
  lemma NeverFaultsIffDivides(capacity: nat, F: nat)
    requires capacity > 0 && F > 0
    ensures NeverFaults(capacity, F) <==> capacity % F == 0 || capacity < F
  {
    if capacity < F {
      forall ops, buf: seq<byte> | |buf| == capacity && AllFixedSize(ops, F)
        ensures Fault !in Run(Image(buf, 0, 0), ops).1
      {
        TooLargeNeverFaults(Image(buf, 0, 0), F, ops);
      }
    } else if capacity % F == 0 {
      forall ops, buf: seq<byte> | |buf| == capacity && AllFixedSize(ops, F)
        ensures Fault !in Run(Image(buf, 0, 0), ops).1
      {
        RingRefinesFifo(Image(buf, 0, 0), F, ops);
        FifoNeverFaults(Frames(Image(buf, 0, 0), F), capacity / F, ops);
      }
    } else {
      var k := capacity / F;
      assert capacity == k * F + capacity % F && (k + 1) * F == k * F + F;
      var x: seq<byte>, buf: seq<byte> := seq(F, i => 0), seq(capacity, i => 0);
      PassThroughFixedSize(x, k);
      PassThroughFaults(Image(buf, 0, 0), x, k);
    }
  }
}
