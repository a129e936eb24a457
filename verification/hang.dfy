/** The bound of `NoOverflow` cannot be raised: with settings just above it there is a run, of the
    very same kind, in which the sink hangs. The first frame is shown as late as the bounds allow,
    one frame stays queued behind it, and after all others but the last were lost that last one
    leaves a gap of 128 frames, for which there is no room. */
module Hang {
  import opened Arithmetic
  import opened Clock
  import opened Pattern
  import opened Wire
  import S = SinkSpec
  import R = SourceSpec
  import Runs = SourceRuns
  import opened SinkSteps
  import opened System
  import opened FifoOrder
  import opened Overflow
  import opened Delivery

  /** The instant that reads as "no time set" is more than a minute away. */
  predicate FarFromSentinel(t: int) {
    0x1_0000 <= Stamp(t) < 0x8000_0000
  }

  lemma FarStamp(t: int, x: int)
    requires FarFromSentinel(t) && -0x1_0000 < x < 0x1_0000
    ensures Stamp(t + x) == Stamp(t) + x != NULL_TIME
  {
    StampOfDifference(t, x);
  }

  // ----- Putting frames -----

  /** The source hears once more that it is lent to. */
  lemma PollAgain(y: Sys, t: int, k: nat, at: int, b: Bounds)
    requires Streaming(y.run, t, k, false) && Bounded(y, b) && Echo(y) && y.run.now <= y.now <= at
    ensures var ev := HearAt(at, true);
            var y' := Step(y, ev);
            && GoodStep(y, ev, b) && Bounded(y', b)
            && y' == y.(now := at, run := y'.run, past := y.past.(lastLent := at))
            && Streaming(y'.run, t, k, true) && y'.run.now == at
            && y'.run.st == y.run.st.(lastRecvLent := y'.run.st.lastRecvLent)
  {
    assert Arriving(y, Take(0, true)) == R.Datagram([R.LentNotice]);
    Runs.LentAtOnce(y.run.st, at);
    assert y.up + Ups([], k) == y.up;
  }

  /** Where one more put takes the source, and that it need not sleep before. */
  lemma StreamsOn(run: Runs.Run, t: int, k: nat, at: int, frame: seq<byte>)
    requires Streaming(run, t, k, true) && run.now <= at && FarFromSentinel(t) && k < 130
    requires run.st.frameMs <= at - Runs.PacerTime(run) < 0x8000_0000 && Runs.Sane(run)
    ensures var off := Runs.SendOff(R.PutClock(at, at, at, at), frame, true);
            var run' := Runs.Step(run, off);
            && Runs.Timely(run, off) && Streaming(run', t, k + 1, false) && Runs.Sane(run') && run'.now == at
            && run'.st.frameMs == run.st.frameMs && run'.st.maxBuf == run.st.maxBuf
  {
    var last, m, d := Runs.PacerTime(run), run.st.maxBuf, run.st.frameMs;
    Runs.TimeoutAt(run.st, last, at, at);
    Runs.PacerSteps(k, m, d);
    StampOfDifference(last, d);
    PacerNear(k + 1, m, d);
    FarStamp(t, (k + 1 - m) * d);
    NextIndex(k);
  }

  lemma PutAgain(y: Sys, t: int, k: nat, at: int, frame: seq<byte>, b: Bounds)
    requires Streaming(y.run, t, k, true) && Bounded(y, b) && FitsSink(Enqueue(0, frame))
    requires y.run.now <= y.now <= at && y.run.st.frameMs <= at - Runs.PacerTime(y.run) < 0x8000_0000
    requires FarFromSentinel(t) && k < 130
    ensures var ev := SendAt(at, frame);
            var y' := Step(y, ev);
            && GoodStep(y, ev, b) && Bounded(y', b)
            && y' == y.(now := at, run := y'.run, up := y'.up) && Streaming(y'.run, t, k + 1, false) && y'.run.now == at
            && y'.up == y.up + [Up(k, S.AskEnqueue(y.run.st.nextId, k % 256, frame))]
            && y'.run.st.frameMs == y.run.st.frameMs && y'.run.st.maxBuf == y.run.st.maxBuf
  {
    StreamsOn(y.run, t, k, at, frame);
    assert Ups(R.SendFrame(y.run.st, frame, true, at).out, k) == [Up(k, S.AskEnqueue(y.run.st.nextId, k % 256, frame))];
  }

  lemma PacerNear(k: int, m: int, d: int)
    requires 0 <= k <= 130 && 1 <= m <= 128 && 0 < d <= 255
    ensures -0x1_0000 < (k - m) * d < 0x1_0000
  {
    ScaleOrder(k - m, 130, d);
    ScaleOrder(-128, k - m, d);
  }

  /** The instant from which on frame `k` may be put. */
  function DueAt(run: Runs.Run, t: int, k: nat): int {
    t + (k + 1 - run.st.maxBuf) * run.st.frameMs
  }

  lemma DueBefore(run: Runs.Run, t: int, k: nat)
    requires run.st.frameMs > 0 && k <= 129
    ensures DueAt(run, t, k) <= DueAt(run, t, 129)
  {
    ScaleOrder(k + 1 - run.st.maxBuf, 130 - run.st.maxBuf, run.st.frameMs);
  }

  /** Everything but the source, and the channel, is as it was. */
  predicate OnlySourceMoved(y: Sys, z: Sys) {
    && z == y.(now := z.now, run := z.run, past := y.past.(lastLent := z.past.lastLent))
    && z.run.st.frameMs == y.run.st.frameMs && z.run.st.maxBuf == y.run.st.maxBuf
  }

  /** One more frame is put at the instant `at`, and is in flight. */
  lemma OnePut(y: Sys, t: int, k: nat, at: int, frame: seq<byte>, b: Bounds) returns (z: Sys)
    requires Streaming(y.run, t, k, false) && Bounded(y, b) && FitsSink(Enqueue(0, frame)) && y.up == [] && Echo(y)
    requires y.run.now <= y.now <= at && 0 <= at - t < 0x1_0000
    requires FarFromSentinel(t) && k < 130 && DueAt(y.run, t, k) <= at
    ensures Leads(y, [HearAt(at, true), SendAt(at, frame)], z, b)
    ensures OnlySourceMoved(y, z.(up := [])) && Streaming(z.run, t, k + 1, false) && z.run.now == at == z.now
    ensures |z.up| == 1 && z.up[0].req.AskEnqueue? && z.up[0].req.idx == k % 256 && z.up[0].req.frame == frame
    ensures Bounded(z, b)
  {
    PollAgain(y, t, k, at, b);
    var y1 := Step(y, HearAt(at, true));
    Runs.PacerSteps(k, y.run.st.maxBuf, y.run.st.frameMs);
    PacerNear(k, y.run.st.maxBuf, y.run.st.frameMs);
    PutAgain(y1, t, k, at, frame, b);
    z := Step(y1, SendAt(at, frame));
    OneMore(y, [], y, HearAt(at, true), b);
    OneMore(y, [HearAt(at, true)], y1, SendAt(at, frame), b);
  }

  /** One more frame is put and lost. */
  lemma OneLost(y: Sys, t: int, k: nat, at: int, frame: seq<byte>, b: Bounds) returns (z: Sys)
    requires Streaming(y.run, t, k, false) && Bounded(y, b) && FitsSink(Enqueue(0, frame)) && y.up == [] && Echo(y)
    requires y.run.now <= y.now <= at && 0 <= at - t < 0x1_0000
    requires FarFromSentinel(t) && k < 130 && DueAt(y.run, t, k) <= at
    ensures Leads(y, [HearAt(at, true), SendAt(at, frame), LoseUp(0)], z, b)
    ensures OnlySourceMoved(y, z) && Streaming(z.run, t, k + 1, false) && z.run.now == at == z.now && Bounded(z, b)
  {
    var y1 := OnePut(y, t, k, at, frame, b);
    FrameLost(y1, b);
    z := y1.(up := []);
    OneMore(y, [HearAt(at, true), SendAt(at, frame)], y1, LoseUp(0), b);
    assert [HearAt(at, true), SendAt(at, frame)] + [LoseUp(0)]
        == [HearAt(at, true), SendAt(at, frame), LoseUp(0)];
  }

  lemma FrameLost(y: Sys, b: Bounds)
    requires |y.up| == 1 && Bounded(y, b)
    ensures GoodStep(y, LoseUp(0), b) && Step(y, LoseUp(0)) == y.(up := []) && Bounded(y.(up := []), b)
  {
    WithoutOnly(y.up);
  }

  /** `n` more frames are put at the instant `at`, and all of them are lost. */
  lemma {:induction false} ManyLost(y: Sys, t: int, k: nat, n: nat, at: int, frame: seq<byte>, b: Bounds)
    returns (evs: seq<Event>, z: Sys)
    requires Streaming(y.run, t, k, false) && Bounded(y, b) && FitsSink(Enqueue(0, frame)) && y.up == [] && Echo(y)
    requires y.run.now <= y.now <= at && 0 <= at - t < 0x1_0000
    requires FarFromSentinel(t) && k + n <= 130 && DueAt(y.run, t, 129) <= at
    ensures Leads(y, evs, z, b)
    ensures OnlySourceMoved(y, z) && Streaming(z.run, t, k + n, false) && z.run.now <= z.now <= at && Bounded(z, b)
    decreases n
  {
    if n == 0 {
      evs, z := [], y;
    } else {
      DueBefore(y.run, t, k);
      var y1 := OneLost(y, t, k, at, frame, b);
      var rest, z' := ManyLost(y1, t, k + 1, n - 1, at, frame, b);
      evs, z := [HearAt(at, true), SendAt(at, frame), LoseUp(0)] + rest, z';
      LeadsOn(y, [HearAt(at, true), SendAt(at, frame), LoseUp(0)], y1, rest, z, b);
    }
  }

  // ----- Showing and receiving -----

  /** The first frame of a session has been shown at `v`, and is still due. */
  predicate ShowingFirst(y: Sys, v: int, lastIdx: byte, queued: nat) {
    && y.sink.mode.Lent? && !y.sink.hung && y.sink.frameLen > 0 && y.sink.borrower == y.srcEp
    && y.sink.frameMs == y.run.st.frameMs && y.sink.lastIdx == lastIdx && |y.sink.queue| == queued
    && y.sink.origin == Stamp(v) != NULL_TIME && y.past.shown == 1 && y.past.firstShow == v
  }

  /** Frames were last asked for at `at`, and the sink not updated since. */
  predicate AskedAt(y: Sys, at: int) {
    y.past.asked && y.past.lastGet == at
  }

  lemma FirstShown(y: Sys, t: int, v: int, frame: seq<byte>, b: Bounds)
    requires |frame| > 0 && FrameQueued(y, t, frame) && FarFromSentinel(t) && t <= v <= t + b.lag && v - t < 0x1_0000
    ensures var ev := SinkShow(v);
            var y' := Step(y, ev);
            && Bounded(y, b) && GoodStep(y, ev, b) && Bounded(y', b)
            && ShowingFirst(y', v, 0, 0) && AskedAt(y', v) && y'.run == y.run && y'.up == [] && y'.now == v && Echo(y')
  {
    FarStamp(t, v - t);
  }

  /** Asked again within its duration, the sink goes on showing the first frame. */
  lemma ShownAgain(y: Sys, v: int, lastIdx: byte, queued: nat, at: int, b: Bounds)
    requires ShowingFirst(y, v, lastIdx, queued) && Bounded(y, b) && y.now <= at && 0 <= at - v <= y.run.st.frameMs
    ensures var ev := SinkShow(at);
            var y' := Step(y, ev);
            && GoodStep(y, ev, b) && Bounded(y', b)
            && ShowingFirst(y', v, lastIdx, queued) && AskedAt(y', at)
            && y'.run == y.run && y'.up == y.up && y'.down == y.down && y'.now == at
  {
    ElapsedIsTrue(at, v);
    assert (1 - 1) * y.run.st.frameMs == 0;
  }

  lemma SecondTaken(y: Sys, v: int, u: int, b: Bounds)
    requires ShowingFirst(y, v, 0, 0) && AskedAt(y, u) && Bounded(y, b) && y.now <= u && Patient(b)
    requires |y.up| == 1 && y.up[0].req.AskEnqueue? && y.up[0].req.idx == 1 && |y.up[0].req.frame| >= 3 && Echo(y)
    ensures var ev := TakeAt(u);
            var y' := Step(y, ev);
            && GoodStep(y, ev, b) && Bounded(y', b)
            && ShowingFirst(y', v, 1, 1) && y'.run == y.run && y'.up == [] && y'.now == u && Echo(y')
  {
    OneRequest(y.sink, y.up[0].req, y.srcEp, u);
    WithoutOnly(y.up);
    TurnOnQueue(y.sink, Received(y, Take(0, false)), SinkAt(u));
  }

  lemma LastHangs(y: Sys, v: int, w: int, b: Bounds)
    requires ShowingFirst(y, v, 1, 1) && y.past.asked && Bounded(y, b) && y.now <= w <= y.past.lastGet + b.poll
    requires |y.up| == 1 && y.up[0].req.AskEnqueue? && y.up[0].req.idx == 129 && |y.up[0].req.frame| >= 3
    ensures var ev := TakeAt(w);
            var y' := Step(y, ev);
            GoodStep(y, ev, b) && Bounded(y', b) && y'.sink.hung && y'.run == y.run
  {
    var q := y.up[0].req;
    OneRequest(y.sink, q, y.srcEp, w);
    assert S.Gap(y.sink.lastIdx, q.idx) == 128 && S.Room(y.sink) == 127;
    assert S.Handle(y.sink, q, y.srcEp, w).st == y.sink.(hung := true);
    TurnOnQueue(y.sink, Received(y, Take(0, false)), SinkAt(w));
  }

  // ----- The whole run -----

  /** The second frame is put one duration after the first was shown, and queued. */
  lemma SecondQueued(y: Sys, t: int, v: int, u: int, frame: seq<byte>, b: Bounds)
    returns (evs: seq<Event>, z: Sys)
    requires ShowingFirst(y, v, 0, 0) && y.up == [] && Streaming(y.run, t, 1, false) && Bounded(y, b) && Patient(b)
    requires |frame| >= 3 && FitsSink(Enqueue(0, frame)) && FarFromSentinel(t)
    requires y.run.now <= y.now == v && t <= v && u == v + y.run.st.frameMs
    requires u - t < 0x1_0000 && Echo(y)
    ensures Leads(y, evs, z, b) && Bounded(z, b)
    ensures ShowingFirst(z, v, 1, 1) && AskedAt(z, u) && z.up == [] && Streaming(z.run, t, 2, false)
    ensures z.run.now <= z.now == u && Echo(z)
    ensures z.run.st.frameMs == y.run.st.frameMs && z.run.st.maxBuf == y.run.st.maxBuf
  {
    ScaleOrder(2 - y.run.st.maxBuf, 1, y.run.st.frameMs);
    var y1 := OnePut(y, t, 1, u, frame, b);
    evs := [HearAt(u, true), SendAt(u, frame)];
    ShownAgain(y1, v, 0, 0, u, b);
    var y2 := Step(y1, SinkShow(u));
    OneMore(y, evs, y1, SinkShow(u), b);
    SecondTaken(y2, v, u, b);
    var y3 := Step(y2, TakeAt(u));
    OneMore(y, evs + [SinkShow(u)], y2, TakeAt(u), b);
    ShownAgain(y3, v, 1, 1, u, b);
    z := Step(y3, SinkShow(u));
    OneMore(y, evs + [SinkShow(u)] + [TakeAt(u)], y3, SinkShow(u), b);
    evs := evs + [SinkShow(u)] + [TakeAt(u)] + [SinkShow(u)];
  }

  /** The 130th frame is put and hangs the sink. */
  lemma LastPutHangs(y: Sys, t: int, v: int, w: int, frame: seq<byte>, b: Bounds) returns (z: Sys)
    requires ShowingFirst(y, v, 1, 1) && y.past.asked && y.up == [] && Streaming(y.run, t, 129, false) && Bounded(y, b)
    requires |frame| >= 3 && FitsSink(Enqueue(0, frame)) && FarFromSentinel(t)
    requires y.run.now <= y.now <= w <= y.past.lastGet + b.poll && t <= w && DueAt(y.run, t, 129) <= w
    requires w - t < 0x1_0000 && Echo(y)
    ensures Leads(y, [HearAt(w, true), SendAt(w, frame)] + [TakeAt(w)], z, b) && z.sink.hung && z.run.late == 0
  {
    var y' := OnePut(y, t, 129, w, frame, b);
    LastHangs(y', v, w, b);
    z := Step(y', TakeAt(w));
    OneMore(y, [HearAt(w, true), SendAt(w, frame)], y', TakeAt(w), b);
  }

  /** All frames up to the 129th are lost, and the next one hangs the sink. */
  lemma ThenHangs(y: Sys, t: int, v: int, u: int, w: int, frame: seq<byte>, b: Bounds)
    returns (evs: seq<Event>, z: Sys)
    requires ShowingFirst(y, v, 1, 1) && AskedAt(y, u) && y.up == [] && Streaming(y.run, t, 2, false) && Bounded(y, b)
    requires |frame| >= 3 && FitsSink(Enqueue(0, frame)) && FarFromSentinel(t)
    requires y.run.now <= y.now == u <= w <= u + b.poll && t <= w == DueAt(y.run, t, 129)
    requires w - t < 0x1_0000 && Echo(y)
    ensures Leads(y, evs, z, b) && z.sink.hung && z.run.late == 0
  {
    var first, y1 := ManyLost(y, t, 2, 127, w, frame, b);
    z := LastPutHangs(y1, t, v, w, frame, b);
    var last := [HearAt(w, true), SendAt(w, frame)] + [TakeAt(w)];
    LeadsOn(y, first, y1, last, z, b);
    evs := first + last;
  }

  lemma ShownThenHangs(y: Sys, t: int, v: int, w: int, frame: seq<byte>, b: Bounds)
    returns (evs: seq<Event>, z: Sys)
    requires |frame| >= 3 && FitsSink(Enqueue(0, frame)) && FrameQueued(y, t, frame) && FarFromSentinel(t) && Patient(b)
    requires t <= v <= t + b.lag && v + y.run.st.frameMs <= w <= v + y.run.st.frameMs + b.poll
    requires w == DueAt(y.run, t, 129) && w - t < 0x1_0000
    ensures Leads(y, evs, z, b) && z.sink.hung && z.run.late == 0
  {
    var u := v + y.run.st.frameMs;
    FirstShown(y, t, v, frame, b);
    var y1 := Step(y, SinkShow(v));
    OneMore(y, [], y, SinkShow(v), b);
    var second, y2 := SecondQueued(y1, t, v, u, frame, b);
    LeadsOn(y, [SinkShow(v)], y1, second, y2, b);
    var third, y3 := ThenHangs(y2, t, v, u, w, frame, b);
    LeadsOn(y, [SinkShow(v)] + second, y2, third, y3, b);
    evs, z := [SinkShow(v)] + second + third, y3;
  }

  /** Settings that a sink accepts, of a source that gives a connection any time at all. */
  predicate Workable(s: R.SourceState) {
    Terms(s) && s.disconnectMs > 0
  }

  /** Whenever it is now, such an instant is to come. */
  lemma FarInstant(now: int)
    ensures var t := now + Stamp(0x1_0000 - now); now <= t && FarFromSentinel(t)
  {
    StampOfDifference(0x1_0000 - now, -now);
  }

  lemma HangsAbove(y: Sys, spec: R.Spec, first: int, sent: int, frame: seq<byte>, b: Bounds)
    returns (evs: seq<Event>)
    requires Initial(y, spec, first, sent) && Workable(R.Fresh(spec)) && Patient(b)
    requires |frame| >= 3 && FitsSink(Enqueue(0, frame))
    requires R.Fresh(spec).maxBuf + (b.lag + b.poll) / R.Fresh(spec).frameMs > 128
    ensures GoodRun(y, evs, b) && RunSys(y, evs).sink.hung && RunSys(y, evs).run.late == 0
  {
    var t, d, m := sent + Stamp(0x1_0000 - sent), R.Fresh(spec).frameMs, R.Fresh(spec).maxBuf;
    var ahead := (129 - m) * d;
    assert ahead <= b.lag + b.poll by {
      if b.lag + b.poll < (129 - m) * d { FloorBelow(b.lag + b.poll, d, 129 - m); }
    }
    EnoughTime(m, d);
    FarInstant(sent);
    StartableWhenFar(R.Fresh(spec), t);
    AskedAtStart(y, spec, first, sent, t);
    var y1 := OpeningWorks(y, t, frame, b);
    SettingsOver(y, Opening(frame, t));
    var v := t + Min(b.lag, ahead);
    var rest, z := ShownThenHangs(y1, t, v, t + ahead + d, frame, b);
    LeadsOn(y, Opening(frame, t), y1, rest, z, b);
    evs := Opening(frame, t) + rest;
  }

  lemma StartableWhenFar(s: R.SourceState, t: int)
    requires Workable(s) && FarFromSentinel(t)
    ensures Startable(s, t)
  {
    PacerNear(1, s.maxBuf, s.frameMs);
    FarStamp(t, 0);
    FarStamp(t, (1 - s.maxBuf) * s.frameMs);
    assert (1 - s.maxBuf) * s.frameMs == -((s.maxBuf - 1) * s.frameMs);
  }

  lemma EnoughTime(m: int, d: int)
    requires 1 <= m <= 128 && 0 < d <= 255
    ensures (130 - m) * d == (129 - m) * d + d && 0 <= (129 - m) * d && (130 - m) * d < 0x1_0000
  {
    ScaleOrder(0, 129 - m, d);
    ScaleOrder(130 - m, 129, d);
  }

  /** The settings of the source are the same throughout. */
  lemma {:induction false} SettingsOver(y: Sys, evs: seq<Event>)
    ensures var s, s' := y.run.st, RunSys(y, evs).run.st;
            s'.frameMs == s.frameMs && s'.maxBuf == s.maxBuf
    decreases |evs|
  {
    if evs != [] {
      if evs[0].SourcePoll? { Runs.UpdateFrame(y.run.st, Arriving(y, evs[0].pick), evs[0].clk); }
      SettingsOver(Step(y, evs[0]), evs[1..]);
    }
  }

  /** No run, unless it put a frame after a failure, hangs the sink, if and only if the buffer of
      the source and the frames that lag and polling interval amount to fit into the ring. */
  lemma BudgetIsExact(y: Sys, spec: R.Spec, first: int, sent: int, b: Bounds)
    requires Initial(y, spec, first, sent) && Workable(R.Fresh(spec)) && Patient(b)
    ensures (forall evs :: GoodRun(y, evs, b) && RunSys(y, evs).run.late == 0 ==> !RunSys(y, evs).sink.hung)
       <==> R.Fresh(spec).maxBuf + (b.lag + b.poll) / R.Fresh(spec).frameMs <= 128
  {
    if R.Fresh(spec).maxBuf + (b.lag + b.poll) / R.Fresh(spec).frameMs <= 128 {
      forall evs | GoodRun(y, evs, b) && RunSys(y, evs).run.late == 0
        ensures !RunSys(y, evs).sink.hung
      {
        NoOverflow(y, spec, first, sent, evs, b);
      }
    } else {
      var evs := HangsAbove(y, spec, first, sent, [0, 0, 0], b);
    }
  }
}
