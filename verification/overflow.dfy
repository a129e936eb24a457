/** End to end, no frame is ever refused for lack of room, so the loop that fills gaps ends on
    every frame, whatever is lost. The network is FIFO and lossy, and strangers keep out of the
    ring; the sink alternates between updating and showing; the pacing of the source does the
    rest. `hang.dfy` shows that the bound on the settings cannot be raised. */
module Overflow {
  import opened Arithmetic
  import opened Clock
  import opened Pattern
  import S = SinkSpec
  import R = SourceSpec
  import Runs = SourceRuns
  import opened SinkSteps
  import opened System
  import opened FifoOrder
  import opened Handshake

  /** `poll`: the sink updates at most so long after frames were last asked for. `lag`: the first
      frame of a session is shown at most so long after the first frame was put. */
  datatype Bounds = Bounds(poll: int, lag: int)

  /** The instant at which the current frame began to be shown. */
  function FrameStart(y: Sys): int {
    y.past.firstShow + (y.past.shown - 1) * y.run.st.frameMs
  }

  /** A lent sink is asked for frames between updates, and updated soon after; it is not left
      alone for a whole revolution of the clock; and strangers neither borrow it nor leave frames
      in its ring. */
  predicate Steady(y: Sys, ev: Event, b: Bounds) {
    match ev
    case SinkTurn(_, clk) => y.sink.mode.Lent? ==> y.past.asked && clk.grant <= y.past.lastGet + b.poll
    case SinkShow(at) => y.sink.mode.Lent? && y.past.shown > 0 ==> at - FrameStart(y) < TWO_32
    case SinkStranger(_, _, _) => KeptOut(y, ev) && OnlyLentTo(Step(y, ev).sink, y.srcEp)
    case _ => true
  }

  predicate OnlyLentTo(s: S.SinkState, ep: S.Endpoint) {
    s.mode.Lent? ==> s.borrower == ep
  }

  /** The first frame is shown in time, and neither clock passes through the instant that reads
      as "no time set". */
  predicate Bounded(y: Sys, b: Bounds) {
    && (y.past.shown > 0 ==> y.past.firstShow <= y.run.firstPut + b.lag)
    && (y.past.shown > 0 && y.sink.mode.Lent? ==> y.sink.origin != NULL_TIME)
    && Runs.Sane(y.run)
  }

  predicate GoodRun(y: Sys, evs: seq<Event>, b: Bounds)
    decreases |evs|
  {
    && Bounded(y, b)
    && (evs == [] || (GoodStep(y, evs[0], b) && GoodRun(Step(y, evs[0]), evs[1..], b)))
  }

  predicate GoodStep(y: Sys, ev: Event, b: Bounds) {
    Legal(y, ev) && Fifo(ev) && Steady(y, ev, b)
  }

  /** Frames that the source may be ahead of the sink, in units of whole frames: those it buffers,
      the one that may follow a failure, and those that lag and polling interval amount to. */
  predicate FitsRing(run: Runs.Run, b: Bounds)
    requires run.st.frameMs > 0
  {
    run.st.maxBuf + run.late + (b.lag + b.poll) / run.st.frameMs <= S.PENDING_FRAMES_CAPACITY
  }

  // ----- Invariant -----

  ghost predicate Pace(y: Sys) {
    && 1 <= y.run.st.frameMs <= 255 && 1 <= y.run.st.maxBuf <= 255
    && Runs.PacingInv(y.run) && y.run.now <= y.now
  }

  ghost predicate Held(y: Sys) {
    && !y.sink.hung && !y.sink.mode.Error? && y.sink.frameLen > 0
    && |y.sink.queue| <= S.PENDING_FRAMES_CAPACITY
    && OnlyLentTo(y.sink, y.srcEp)
  }

  ghost predicate Playing(y: Sys) {
    y.sink.mode.Lent? ==>
      && (y.past.shown == 0 ==> y.sink.origin == NULL_TIME)
      && (y.past.shown > 0 ==> y.sink.origin == Stamp(FrameStart(y)) && FrameStart(y) <= y.now)
  }

  /** Whenever frames were just asked for, the queue is empty or playback is on schedule. */
  ghost predicate OnSchedule(y: Sys) {
    y.sink.mode.Lent? && y.past.asked && y.sink.queue != [] ==>
      y.past.shown > 0 && y.past.lastGet <= FrameStart(y) + y.run.st.frameMs
  }

  ghost predicate SinkSide(y: Sys) {
    Held(y) && Playing(y) && OnSchedule(y)
  }

  ghost predicate Inv(y: Sys) {
    && FifoOrder.Inv(y) && OwnFrames(y)
    && Agreed(y, y.run.st.frameMs, y.run.st.maxBuf)
    && Pace(y) && SinkSide(y)
  }

  // ----- The budget -----

  /** Pacing on one side and playback on the other leave at most a ring of frames in between. */
  lemma Budget(y: Sys, b: Bounds, at: int)
    requires Pace(y) && FitsRing(y.run, b) && y.run.puts > 0 && y.past.shown > 0
    requires y.past.firstShow <= y.run.firstPut + b.lag
    requires y.past.lastGet <= FrameStart(y) + y.run.st.frameMs && y.run.now <= at <= y.past.lastGet + b.poll
    ensures y.run.puts - y.past.shown <= S.PENDING_FRAMES_CAPACITY
  {
    BudgetArithmetic(y.run.puts, y.past.shown, y.run.st.frameMs, y.run.st.maxBuf + y.run.late,
                     y.run.firstPut, at, y.past.firstShow, b) by {
      var d := y.run.st.frameMs;
      assert (y.run.puts - y.run.st.maxBuf) * d - y.run.late * d
          == (y.run.puts - (y.run.st.maxBuf + y.run.late)) * d;
    }
  }

  lemma BudgetArithmetic(k: int, c: int, d: int, m: int, t0: int, at: int, first: int, b: Bounds)
    requires d > 0 && t0 + (k - m) * d <= at
    requires at <= first + (c - 1) * d + d + b.poll && first <= t0 + b.lag
    requires m + (b.lag + b.poll) / d <= S.PENDING_FRAMES_CAPACITY
    ensures k - c <= S.PENDING_FRAMES_CAPACITY
  {
    assert (c - 1) * d == c * d - d;
    assert (k - m - c) * d == (k - m) * d - c * d;
    FloorBound(k - m - c, b.lag + b.poll, d);
  }

  /** A frame that arrives fits. */
  lemma FrameFits(y: Sys, ev: Event, b: Bounds)
    requires Inv(y) && Bounded(y, b) && FitsRing(y.run, b) && GoodStep(y, ev, b)
    requires ev.SinkTurn? && ev.pick == Take(0, false) && y.up[0].req.AskEnqueue? && y.sink.mode.Lent?
    requires |y.up[0].req.frame| > 0
    ensures !S.Admit(y.sink, y.up[0].req.idx, y.up[0].req.frame).hung
  {
    var u := y.up[0];
    assert InFlight(u, y.past.heard, y.run.puts);
    var gap := S.Gap(y.sink.lastIdx, u.req.idx);
    if 0 < gap <= 128 && y.sink.queue != [] {
      GapWithinDistance(y.sink, y.past.frames, u.seqNo);
      Budget(y, b, ev.sclk.grant);
    }
  }

  // ----- The sink -----

  lemma AdmittedFits(s: S.SinkState, idx: byte, frame: S.Frame)
    requires |frame| > 0 && |s.queue| <= S.PENDING_FRAMES_CAPACITY && !S.Admit(s, idx, frame).hung && !s.hung
    ensures |S.Admit(s, idx, frame).queue| <= S.PENDING_FRAMES_CAPACITY
  {}

  lemma TurnWithFrame(y: Sys, ev: Event, b: Bounds)
    requires Inv(y) && Bounded(y, b) && FitsRing(y.run, b) && GoodStep(y, ev, b)
    requires ev.SinkTurn? && ev.pick == Take(0, false) && y.up[0].req.AskEnqueue?
    ensures SinkSide(Step(y, ev))
  {
    var u := y.up[0];
    assert InFlight(u, y.past.heard, y.run.puts);
    var h := S.Handle(y.sink, u.req, y.srcEp, ev.sclk.grant).st;
    if y.sink.mode.Lent? && |u.req.frame| >= 3 {
      FrameFits(y, ev, b);
      AdmittedFits(y.sink, u.req.idx, u.req.frame);
    }
    FrameHandled(y.sink, u.req, y.srcEp, ev.sclk.grant, y.past.frames, u.seqNo);
    TurnOnQueue(y.sink, Received(y, ev.pick), ev.sclk);
    AfterFrame(y, Step(y, ev), h);
  }

  lemma AfterFrame(y: Sys, y': Sys, h: S.SinkState)
    requires SinkSide(y) && y.now <= y'.now && y'.srcEp == y.srcEp && !y'.past.asked && y'.run == y.run
    requires y'.past.shown == y.past.shown && y'.past.firstShow == y.past.firstShow
    requires !h.hung && !h.mode.Error? && |h.queue| <= S.PENDING_FRAMES_CAPACITY && (h.mode.Lent? ==> y.sink.mode.Lent?)
    requires h == y.sink.(mode := h.mode, queue := h.queue, lastIdx := h.lastIdx, nextId := h.nextId, hung := h.hung)
    requires var s' := y'.sink;
             && s' == h.(mode := s'.mode, lastRecv := s'.lastRecv, lastSendLent := s'.lastSendLent, nextId := s'.nextId)
             && (s'.mode.Lent? ==> h.mode.Lent?) && !s'.mode.Error?
    ensures SinkSide(y')
  {}

  lemma TurnWithBorrow(y: Sys, ev: Event)
    requires SinkSide(y) && Legal(y, ev) && ev.SinkTurn? && ev.pick == Take(0, false) && y.up[0].req.AskBorrow?
    ensures SinkSide(Step(y, ev))
  {
    TurnOnQueue(y.sink, Received(y, ev.pick), ev.sclk);
  }

  lemma TurnWithNothing(y: Sys, ev: Event)
    requires SinkSide(y) && Legal(y, ev) && ev.SinkTurn? && ev.pick.Miss?
    ensures SinkSide(Step(y, ev))
  {
    TurnOnQueue(y.sink, S.Nothing, ev.sclk);
    AfterFrame(y, Step(y, ev), y.sink);
  }

  lemma TurnWithStranger(y: Sys, ev: Event, b: Bounds)
    requires SinkSide(y) && Legal(y, ev) && ev.SinkStranger? && Steady(y, ev, b)
    ensures SinkSide(Step(y, ev))
  {
    StrangersUpdate(y.sink, ev.reqs, ev.sender, ev.sclk, y.srcEp);
  }

  lemma SinkTurnKeeps(y: Sys, ev: Event, b: Bounds)
    requires Inv(y) && Bounded(y, b) && FitsRing(y.run, b) && GoodStep(y, ev, b) && ev.SinkTurn?
    ensures SinkSide(Step(y, ev))
  {
    if ev.pick.Miss? {
      TurnWithNothing(y, ev);
    } else {
      assert InFlight(y.up[0], y.past.heard, y.run.puts);
      if y.up[0].req.AskBorrow? { TurnWithBorrow(y, ev); } else { TurnWithFrame(y, ev, b); }
    }
  }

  /** Playing `k` frames moves the start of the current one by `k` durations. */
  lemma Plays(y: Sys, at: int)
    requires Pace(y) && SinkSide(y) && y.sink.mode.Lent? && y.sink.frameMs == y.run.st.frameMs
    requires y.past.shown > 0 && y.sink.origin != NULL_TIME && y.now <= at < FrameStart(y) + TWO_32
    ensures var s', k := S.CatchUp(y.sink, Stamp(at)), Taken(y.sink, Stamp(at));
            var start := y.past.firstShow + (y.past.shown + k - 1) * y.run.st.frameMs;
            && k <= |y.sink.queue| && s'.queue == y.sink.queue[k..]
            && s' == y.sink.(queue := s'.queue, current := s'.current, origin := s'.origin)
            && s'.origin == Stamp(start) && start <= at
            && (s'.queue != [] ==> at <= start + y.run.st.frameMs)
  {
    PlaybackInTrueTime(y.sink, FrameStart(y), at);
    var k := Taken(y.sink, Stamp(at));
    SplitMultiple(y.past.shown - 1, k, y.run.st.frameMs);
  }

  /** Asking for frames leaves the queue empty or playback on schedule. */
  lemma ShowKeeps(y: Sys, ev: Event, b: Bounds)
    requires Pace(y) && SinkSide(y) && Bounded(y, b) && GoodStep(y, ev, b) && ev.SinkShow?
    requires y.sink.mode.Lent? ==> y.sink.frameMs == y.run.st.frameMs
    ensures SinkSide(Step(y, ev))
  {
    if !S.NothingToShow(y.sink) {
      if y.sink.origin == NULL_TIME {
        assert (0 + 1 - 1) * y.run.st.frameMs == 0;
      } else {
        Plays(y, ev.at);
      }
    }
  }

  lemma SinkSideKept(y: Sys, y': Sys)
    requires SinkSide(y) && y'.sink == y.sink && y'.srcEp == y.srcEp && y.now <= y'.now
    requires y'.past == y.past.(lastLent := y'.past.lastLent) && y'.run.st.frameMs == y.run.st.frameMs
    ensures SinkSide(y')
  {}

  // ----- Every step -----

  /** Settings do not change, a failure is followed by at most one frame, and pace is kept. */
  lemma PaceKept(y: Sys, ev: Event)
    requires Pace(y) && Runs.Sane(y.run) && Legal(y, ev)
    ensures Pace(Step(y, ev))
    ensures var run, run' := y.run, Step(y, ev).run;
            run'.st.frameMs == run.st.frameMs && run'.st.maxBuf == run.st.maxBuf && run'.late >= run.late
  {
    match ev
    case SourcePoll(pick, clk, forPut) =>
      var a := Arriving(y, pick);
      Runs.UpdateFrame(y.run.st, a, clk);
      Runs.PacingStep(y.run, Runs.Poll(a, clk, forPut));
    case SourceSend(tm, frame, sendOk) =>
      Runs.PacingStep(y.run, Runs.SendOff(tm, frame, sendOk));
    case _ =>
  }

  lemma SinkSideAfter(y: Sys, ev: Event, b: Bounds)
    requires Inv(y) && Bounded(y, b) && FitsRing(y.run, b) && GoodStep(y, ev, b) && Pace(Step(y, ev))
    requires Step(y, ev).run.st.frameMs == y.run.st.frameMs
    ensures SinkSide(Step(y, ev))
  {
    match ev
    case SinkTurn(_, _) => SinkTurnKeeps(y, ev, b);
    case SinkStranger(_, _, _) => TurnWithStranger(y, ev, b);
    case SinkShow(_) => ShowKeeps(y, ev, b);
    case _ => SinkSideKept(y, Step(y, ev));
  }

  lemma StepKeeps(y: Sys, ev: Event, b: Bounds)
    requires Inv(y) && Bounded(y, b) && FitsRing(y.run, b) && GoodStep(y, ev, b)
    ensures Inv(Step(y, ev))
  {
    FifoOrder.StepKeeps(y, ev);
    AgreedStep(y, ev, y.run.st.frameMs, y.run.st.maxBuf);
    PaceKept(y, ev);
    SinkSideAfter(y, ev, b);
  }

  lemma {:induction false} LateOverRun(y: Sys, evs: seq<Event>, b: Bounds)
    requires Pace(y) && GoodRun(y, evs, b)
    ensures var run, run' := y.run, RunSys(y, evs).run;
            run'.st.frameMs == run.st.frameMs && run'.st.maxBuf == run.st.maxBuf && run'.late >= run.late
    decreases |evs|
  {
    if evs != [] {
      PaceKept(y, evs[0]);
      LateOverRun(Step(y, evs[0]), evs[1..], b);
    }
  }

  lemma {:induction false} InvOverRun(y: Sys, evs: seq<Event>, b: Bounds)
    requires Inv(y) && GoodRun(y, evs, b)
    requires RunSys(y, evs).run.st.frameMs > 0 && FitsRing(RunSys(y, evs).run, b)
    ensures Inv(RunSys(y, evs))
    decreases |evs|
  {
    if evs != [] {
      LateOverRun(y, evs, b);
      StepKeeps(y, evs[0], b);
      InvOverRun(Step(y, evs[0]), evs[1..], b);
    }
  }

  lemma InvAtStart(y: Sys, spec: R.Spec, first: int, sent: int)
    requires Initial(y, spec, first, sent) && FitBytes(spec)
    ensures Inv(y)
  {
    FifoOrder.InvAtStart(y, spec, first, sent);
  }

  /** Over every such run, from the first borrow on, in which the frames that the source may be
      ahead of the sink fit into the ring: the sink never hangs in a gap, and the ring is never
      more than full. */
  lemma NoOverflow(y: Sys, spec: R.Spec, first: int, sent: int, evs: seq<Event>, b: Bounds)
    requires Initial(y, spec, first, sent) && FitBytes(spec) && GoodRun(y, evs, b)
    requires R.Fresh(spec).maxBuf + RunSys(y, evs).run.late + (b.lag + b.poll) / R.Fresh(spec).frameMs <= 128
    ensures var z := RunSys(y, evs).sink;
            !z.hung && |z.queue| <= 128 && OnlyLentTo(z, y.srcEp)
  {
    InvAtStart(y, spec, first, sent);
    LateOverRun(y, evs, b);
    InvOverRun(y, evs, b);
    SameEndpoint(y, evs);
  }

  lemma {:induction false} SameEndpoint(y: Sys, evs: seq<Event>)
    ensures RunSys(y, evs).srcEp == y.srcEp
    decreases |evs|
  {
    if evs != [] { SameEndpoint(Step(y, evs[0]), evs[1..]); }
  }

  /** What a caller can know beforehand: with one frame to spare every run is safe, whatever
      becomes of the connection. */
  lemma NeverOverflows(y: Sys, spec: R.Spec, first: int, sent: int, evs: seq<Event>, b: Bounds)
    requires Initial(y, spec, first, sent) && FitBytes(spec) && GoodRun(y, evs, b)
    requires R.Fresh(spec).maxBuf + 1 + (b.lag + b.poll) / R.Fresh(spec).frameMs <= 128
    ensures var z := RunSys(y, evs).sink;
            !z.hung && |z.queue| <= 128 && OnlyLentTo(z, y.srcEp)
  {
    InvAtStart(y, spec, first, sent);
    PaceOverRun(y, evs, b);
    NoOverflow(y, spec, first, sent, evs, b);
  }

  lemma {:induction false} PaceOverRun(y: Sys, evs: seq<Event>, b: Bounds)
    requires Pace(y) && GoodRun(y, evs, b)
    ensures Pace(RunSys(y, evs))
    decreases |evs|
  {
    if evs != [] {
      PaceKept(y, evs[0]);
      PaceOverRun(Step(y, evs[0]), evs[1..], b);
    }
  }

  /** The same in the settings of the spec. */
  lemma NoOverflowInSpec(y: Sys, spec: R.Spec, first: int, sent: int, evs: seq<Event>, b: Bounds)
    requires Initial(y, spec, first, sent) && GoodRun(y, evs, b)
    requires Runs.InRange(spec) && 1 <= spec.frameMs <= 255 && 0 <= spec.maxBuf <= 255
    requires var m := if spec.maxBuf == 0 then 16 else spec.maxBuf;
             m + RunSys(y, evs).run.late + (b.lag + b.poll) / spec.frameMs <= 128
    ensures var z := RunSys(y, evs).sink;
            !z.hung && |z.queue| <= 128 && OnlyLentTo(z, y.srcEp)
  {
    Runs.SettingsOfSpec(spec);
    NoOverflow(y, spec, first, sent, evs, b);
  }
}
