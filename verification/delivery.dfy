/** The conditions of the theorems about the composed system can be met, and then they are worth
    something: a borrow is asked for, granted and heard of, and a frame that is put is shown. */
module Delivery {
  import opened Clock
  import opened Pattern
  import opened Wire
  import S = SinkSpec
  import R = SourceSpec
  import Runs = SourceRuns
  import opened SinkSteps
  import opened System
  import opened FifoOrder
  import opened Overflow
  import Keepalive

  function SinkAt(t: int): S.SinkClock {
    S.SinkClock(t, t, t, t)
  }

  /** At the instant `t`: the sink receives the oldest datagram in flight, the source hears that
      the sink is lent, by a message that stays in flight, or it sends a frame. */
  function TakeAt(t: int): Event {
    SinkTurn(Take(0, false), SinkAt(t))
  }

  function HearAt(t: int, forPut: bool): Event {
    SourcePoll(Take(0, true), Runs.AtOnce(t), forPut)
  }

  function SendAt(t: int, frame: seq<byte>): Event {
    SourceSend(R.PutClock(t, t, t, t), frame, true)
  }

  /** The sink grants the borrow and is asked for a frame in vain, the source hears that it is
      lent to, by a message that the network duplicates, and puts a frame, which the sink
      receives. */
  function Opening(frame: seq<byte>, t: int): seq<Event> {
    [TakeAt(t), SinkShow(t), HearAt(t, false), HearAt(t, true), SendAt(t, frame), TakeAt(t)]
  }

  // ----- Runs in parts -----

  predicate Leads(y: Sys, evs: seq<Event>, z: Sys, b: Bounds) {
    GoodRun(y, evs, b) && RunSys(y, evs) == z
  }

  lemma {:induction false} LeadsOn(y: Sys, first: seq<Event>, mid: Sys, rest: seq<Event>, z: Sys, b: Bounds)
    requires Leads(y, first, mid, b) && Leads(mid, rest, z, b)
    ensures Leads(y, first + rest, z, b)
    decreases |first|
  {
    if first == [] {
      assert first + rest == rest;
    } else {
      assert (first + rest)[1..] == first[1..] + rest;
      LeadsOn(Step(y, first[0]), first[1..], mid, rest, z, b);
    }
  }

  lemma OneMore(y: Sys, evs: seq<Event>, mid: Sys, ev: Event, b: Bounds)
    requires Leads(y, evs, mid, b) && Bounded(mid, b) && GoodStep(mid, ev, b) && Bounded(Step(mid, ev), b)
    ensures Leads(y, evs + [ev], Step(mid, ev), b)
  {
    assert [ev][1..] == [];
    LeadsOn(y, evs, mid, [ev], Step(mid, ev), b);
  }

  // ----- Stages -----

  predicate Terms(s: R.SourceState) {
    10 <= s.frameMs <= 255 && 1 <= s.maxBuf <= 128
  }

  /** The settings are acceptable to the sink, and neither clock starts at "no time set". */
  predicate Startable(s: R.SourceState, t: int) {
    && Terms(s) && s.disconnectMs > 0
    && Stamp(t) != NULL_TIME && Stamp(t - (s.maxBuf - 1) * s.frameMs) != NULL_TIME
  }

  predicate Patient(b: Bounds) {
    b.poll >= 0 && b.lag >= 0
  }

  /** A source that has put no frame yet, and will at `t`. */
  predicate Beginning(y: Sys, t: int) {
    && y.run.now <= y.now <= t && Startable(y.run.st, t)
    && y.run.late == 0 && y.run.puts == 0 && y.run.st.nextIdx == 0
  }

  /** An open source that has put `k` frames, the first at `t`. */
  predicate Streaming(run: Runs.Run, t: int, k: nat, pending: bool) {
    && Terms(run.st) && run.st.mode.Open? && run.pending == pending && run.late == 0 && run.st.disconnectMs > 0
    && run.puts == k > 0 && run.firstPut == t && run.st.nextIdx == k % 256
    && run.st.lastFrame == Stamp(Runs.PacerTime(run))
  }

  /** A message that the sink is lent is in flight to the source. */
  predicate Echo(y: Sys) {
    y.down != [] && y.down[0].notice.LentNotice?
  }

  /** A borrow in flight to an open sink. */
  predicate Asked(y: Sys, t: int) {
    && Beginning(y, t) && y.run.st.mode.Waiting? && !y.run.pending
    && y.sink.mode.Open? && !y.sink.hung && y.sink.queue == [] && y.sink.frameLen > 0
    && y.past.shown == 0 && y.past.frames == 0
    && |y.up| == 1 && y.up[0].req.AskBorrow? && y.down == []
    && y.up[0].req.frameMs == y.run.st.frameMs && y.up[0].req.bufferLen == y.run.st.maxBuf
  }

  /** A lent sink that has received nothing. */
  predicate Idle(y: Sys, t: int, asked: bool) {
    && y.sink.mode.Lent? && !y.sink.hung && y.sink.queue == [] && y.sink.frameLen > 0
    && y.sink.borrower == y.srcEp && y.sink.origin == NULL_TIME && y.sink.lastIdx == -1
    && y.sink.frameMs == y.run.st.frameMs
    && y.past.shown == 0 && y.past.frames == 0 && y.past.asked == asked && (asked ==> y.past.lastGet == t)
  }

  /** A borrow granted, and nobody but the sink knows. */
  predicate Granted(y: Sys, t: int, asked: bool) {
    && Beginning(y, t) && y.run.st.mode.Waiting? && !y.run.pending
    && y.now == t && Idle(y, t, asked) && y.up == [] && y.down == [Down(t, R.LentNotice)]
  }

  predicate Connected(y: Sys, t: int, pending: bool) {
    && Beginning(y, t) && y.run.st.mode.Open? && y.run.pending == pending
    && y.run.st.lastFrame == NULL_TIME
    && y.now == t && Idle(y, t, true) && y.up == [] && Echo(y)
  }

  predicate FrameSent(y: Sys, t: int, frame: seq<byte>) {
    && y.now == t == y.run.now && Streaming(y.run, t, 1, false) && Runs.Sane(y.run) && Stamp(t) != NULL_TIME
    && Idle(y, t, true) && |y.up| == 1 && Echo(y)
    && y.up[0].req.AskEnqueue? && y.up[0].req.idx == 0 && y.up[0].req.frame == frame
  }

  predicate FrameQueued(y: Sys, t: int, frame: seq<byte>)
    requires |frame| > 0
  {
    && y.now == t == y.run.now && Streaming(y.run, t, 1, false) && Runs.Sane(y.run) && Stamp(t) != NULL_TIME
    && y.past.shown == 0 && y.past.frames == 1 && y.up == [] && Echo(y)
    && y.sink.mode.Lent? && !y.sink.hung && y.sink.origin == NULL_TIME && y.sink.frameLen > 0
    && y.sink.borrower == y.srcEp && y.sink.frameMs == y.run.st.frameMs && y.sink.lastIdx == 0
    && y.sink.queue == [Repeated(frame, y.sink.frameLen)]
  }

  // ----- From stage to stage -----

  lemma WithoutOnly<T>(ch: seq<T>)
    requires |ch| == 1
    ensures Without(ch, 0) == []
  {}

  lemma NoTimePassed(t: int)
    ensures Elapsed(Stamp(t), Stamp(t)) == 0
  {}

  lemma StepGrant(y: Sys, t: int, b: Bounds)
    requires Asked(y, t)
    ensures Bounded(y, b) && GoodStep(y, TakeAt(t), b) && Granted(Step(y, TakeAt(t)), t, false)
  {
    var ev, q := TakeAt(t), y.up[0].req;
    S.AcceptableInFrames(y.sink, q.frameMs, q.bufferLen);
    OneRequest(y.sink, q, y.srcEp, t);
    GrantReply(y.sink, q, y.srcEp, t);
    NoTimePassed(t);
    WithoutOnly(y.up);
    var rd := Received(y, ev.pick);
    assert rd.requests == [q];
    var mid := S.Receive(y.sink, rd, ev.sclk);
    UpdateInParts(y.sink, rd, ev.sclk);
    assert S.Send(mid.st, ev.sclk).out == [] && mid.out + [] == mid.out;
    assert mid.out[1..] == [];
    assert Downs(mid.out, y.srcEp, t) == [Down(t, R.LentNotice)] + Downs(mid.out[1..], y.srcEp, t);
  }

  lemma StepAskInVain(y: Sys, t: int, b: Bounds)
    requires Granted(y, t, false)
    ensures Bounded(y, b) && GoodStep(y, SinkShow(t), b) && Granted(Step(y, SinkShow(t)), t, true)
  {}

  lemma StepHear(y: Sys, t: int, b: Bounds)
    requires Granted(y, t, true)
    ensures var ev := HearAt(t, false);
            Bounded(y, b) && GoodStep(y, ev, b) && Connected(Step(y, ev), t, false)
  {
    assert Arriving(y, Take(0, true)) == R.Datagram([R.LentNotice]);
    Runs.LentAtOnce(y.run.st, t);
    assert Ups([], 0) == [];
  }

  lemma StepReady(y: Sys, t: int, b: Bounds)
    requires Connected(y, t, false)
    ensures var ev := HearAt(t, true);
            Bounded(y, b) && GoodStep(y, ev, b) && Connected(Step(y, ev), t, true)
  {
    assert Arriving(y, Take(0, true)) == R.Datagram([R.LentNotice]);
    Runs.LentAtOnce(y.run.st, t);
    assert Ups([], 0) == [];
  }

  lemma StepPut(y: Sys, t: int, frame: seq<byte>, b: Bounds)
    requires Connected(y, t, true) && FitsSink(Enqueue(0, frame))
    ensures var ev := SendAt(t, frame); Bounded(y, b) && GoodStep(y, ev, b) && FrameSent(Step(y, ev), t, frame)
  {
    Runs.PacerSteps(0, y.run.st.maxBuf, y.run.st.frameMs);
    StampOfDifference(t, (y.run.st.maxBuf - 1) * y.run.st.frameMs);
    var p := R.SendFrame(y.run.st, frame, true, t);
    assert Ups(p.out, 0) == [Up(0, S.AskEnqueue(y.run.st.nextId, 0, frame))];
  }

  lemma StepArrive(y: Sys, t: int, frame: seq<byte>, b: Bounds)
    requires FrameSent(y, t, frame) && |frame| >= 3 && Patient(b)
    ensures Bounded(y, b) && GoodStep(y, TakeAt(t), b) && FrameQueued(Step(y, TakeAt(t)), t, frame)
  {
    var q := y.up[0].req;
    OneRequest(y.sink, q, y.srcEp, t);
    WithoutOnly(y.up);
    var x := Repeated(frame, y.sink.frameLen);
    assert y.sink.queue + S.Copies(x, 1) == [x];
    assert S.Handle(y.sink, q, y.srcEp, t).st == y.sink.(queue := [x], lastIdx := 0);
    assert Received(y, Take(0, false)).requests == [q];
    TurnOnQueue(y.sink, Received(y, Take(0, false)), SinkAt(t));
  }

  // ----- The opening of a session -----

  lemma OpeningGrants(y: Sys, t: int, b: Bounds) returns (z: Sys)
    requires Asked(y, t)
    ensures Granted(z, t, true) && Leads(y, [TakeAt(t), SinkShow(t)], z, b)
  {
    StepGrant(y, t, b);
    var y1 := Step(y, TakeAt(t));
    StepAskInVain(y1, t, b);
    z := Step(y1, SinkShow(t));
    OneMore(y, [], y, TakeAt(t), b);
    OneMore(y, [TakeAt(t)], y1, SinkShow(t), b);
  }

  lemma OpeningHears(y: Sys, t: int, b: Bounds) returns (z: Sys)
    requires Granted(y, t, true)
    ensures Connected(z, t, true) && Leads(y, [HearAt(t, false), HearAt(t, true)], z, b)
  {
    StepHear(y, t, b);
    var y1 := Step(y, HearAt(t, false));
    StepReady(y1, t, b);
    z := Step(y1, HearAt(t, true));
    OneMore(y, [], y, HearAt(t, false), b);
    OneMore(y, [HearAt(t, false)], y1, HearAt(t, true), b);
  }

  lemma OpeningWorks(y: Sys, t: int, frame: seq<byte>, b: Bounds) returns (z: Sys)
    requires Asked(y, t) && |frame| >= 3 && FitsSink(Enqueue(0, frame)) && Patient(b)
    ensures FrameQueued(z, t, frame) && Leads(y, Opening(frame, t), z, b)
  {
    var y2 := OpeningGrants(y, t, b);
    var y4 := OpeningHears(y2, t, b);
    var evs := [TakeAt(t), SinkShow(t)] + [HearAt(t, false), HearAt(t, true)];
    LeadsOn(y, [TakeAt(t), SinkShow(t)], y2, [HearAt(t, false), HearAt(t, true)], y4, b);
    StepPut(y4, t, frame, b);
    var y5 := Step(y4, SendAt(t, frame));
    StepArrive(y5, t, frame, b);
    z := Step(y5, TakeAt(t));
    OneMore(y, evs, y4, SendAt(t, frame), b);
    OneMore(y, evs + [SendAt(t, frame)], y5, TakeAt(t), b);
    assert evs + [SendAt(t, frame)] + [TakeAt(t)] == Opening(frame, t);
  }

  lemma AskedAtStart(y: Sys, spec: R.Spec, first: int, sent: int, t: int)
    requires Initial(y, spec, first, sent) && Startable(R.Fresh(spec), t) && sent <= t
    ensures FitBytes(spec) && Asked(y, t)
  {}

  /** From any source that has just asked with acceptable settings and any idle sink: there is a
      run of the kind that `NoOverflow` speaks of, even without any lag, in which the frame that
      is put is the frame that is shown. */
  lemma FrameIsDelivered(y: Sys, spec: R.Spec, first: int, sent: int, frame: seq<byte>)
    requires Initial(y, spec, first, sent) && Startable(R.Fresh(spec), sent)
    requires |frame| >= 3 && FitsSink(Enqueue(0, frame))
    ensures var z := RunSys(y, Opening(frame, sent) + [SinkShow(sent)]);
            && FitBytes(spec) && GoodRun(y, Opening(frame, sent) + [SinkShow(sent)], Bounds(0, 0))
            && z.run.late == 0 && z.past.shown == 1 && z.sink.queue == [] && !z.sink.hung
            && z.sink.current == Repeated(frame, z.sink.frameLen)
  {
    AskedAtStart(y, spec, first, sent, sent);
    var y6 := OpeningWorks(y, sent, frame, Bounds(0, 0));
    OneMore(y, Opening(frame, sent), y6, SinkShow(sent), Bounds(0, 0));
  }

  /** The conditions of `Keepalive.NeverLost` can be met as well: the source hears that it is lent
      to, and is open. */
  lemma ConnectionIsKept(y: Sys, spec: R.Spec, first: int, sent: int)
    requires Initial(y, spec, first, sent) && Startable(R.Fresh(spec), sent)
    requires R.Fresh(spec).disconnectMs > 500
    ensures var z, evs := Step(y, TakeAt(sent)), [SourcePoll(Take(0, false), Runs.AtOnce(sent), false)];
            && Keepalive.JustLent(z) && Keepalive.Enough(z, Keepalive.Bounds(1, 0, 0))
            && Keepalive.GoodRun(z, evs, Keepalive.Bounds(1, 0, 0)) && RunSys(z, evs).run.st.mode.Open?
  {
    AskedAtStart(y, spec, first, sent, sent);
    StepGrant(y, sent, Bounds(0, 0));
    S.AcceptableInFrames(y.sink, y.up[0].req.frameMs, y.up[0].req.bufferLen);
    Keepalive.GrantLeadsToLent(y, Take(0, false), SinkAt(sent));
    ThenHears(Step(y, TakeAt(sent)), sent);
  }

  lemma ThenHears(y: Sys, t: int)
    requires Granted(y, t, false) && Keepalive.StaysLent(y) && y.past.sinkStart == t
    ensures var evs := [SourcePoll(Take(0, false), Runs.AtOnce(t), false)];
            Keepalive.GoodRun(y, evs, Keepalive.Bounds(1, 0, 0)) && RunSys(y, evs).run.st.mode.Open?
  {
    var ev := SourcePoll(Take(0, false), Runs.AtOnce(t), false);
    assert Arriving(y, Take(0, false)) == R.Datagram([R.LentNotice]);
    Runs.LentAtOnce(y.run.st, t);
    WithoutOnly(y.down);
    assert [ev][1..] == [];
    assert Keepalive.GoodRun(Step(y, ev), [], Keepalive.Bounds(1, 0, 0));
  }
}
