/** The order of things on a FIFO network that may lose datagrams, whatever the settings of the
    source, however the calls are timed and whoever else talks to the sink. */
module FifoOrder {
  import opened Clock
  import S = SinkSpec
  import R = SourceSpec
  import Runs = SourceRuns
  import opened SinkSteps
  import opened System

  /** The sink receives the oldest datagram in flight, which is then no longer in flight. */
  predicate Fifo(ev: Event) {
    ev.SinkTurn? ==> ev.pick.Miss? || ev.pick == Take(0, false)
  }

  predicate FifoRun(y: Sys, evs: seq<Event>)
    decreases |evs|
  {
    evs == [] || (Legal(y, evs[0]) && Fifo(evs[0]) && FifoRun(Step(y, evs[0]), evs[1..]))
  }

  /** Strangers put no frame into the ring. */
  predicate KeptOut(y: Sys, ev: Event) {
    ev.SinkStranger? ==> Step(y, ev).sink.queue == y.sink.queue
  }

  predicate KeptOutRun(y: Sys, evs: seq<Event>)
    decreases |evs|
  {
    evs == [] || (KeptOut(y, evs[0]) && KeptOutRun(Step(y, evs[0]), evs[1..]))
  }

  // ----- Invariant -----

  /** A datagram in flight to the sink, which has heard all numbers below `heard`. */
  predicate InFlight(u: Up, heard: nat, puts: nat) {
    || (u.req.AskBorrow? && u.seqNo == -1 && heard == 0)
    || (u.req.AskEnqueue? && heard <= u.seqNo < puts && u.req.idx == u.seqNo % 256)
  }

  ghost predicate InOrder(up: seq<Up>) {
    forall i, j :: 0 <= i < j < |up| ==> up[i].seqNo < up[j].seqNo || up[j].seqNo == -1 == up[i].seqNo
  }

  ghost predicate Channel(up: seq<Up>, heard: nat, puts: nat) {
    InOrder(up) && forall i :: 0 <= i < |up| ==> InFlight(up[i], heard, puts)
  }

  /** What the source has in flight is numbered in order. */
  ghost predicate Numbering(run: Runs.Run, up: seq<Up>, heard: nat) {
    && run.st.nextIdx == run.puts % 256
    && (run.st.mode.Waiting? ==> run.puts == 0 && !run.pending)
    && heard <= run.puts
    && Channel(up, heard, run.puts)
  }

  /** Frames enqueued for the source never run ahead of the numbers heard. */
  ghost predicate Counted(y: Sys) {
    && S.IdxInRange(y.sink)
    && 0 <= y.past.frames <= y.past.heard
    && (y.sink.mode.Lent? && y.sink.borrower == y.srcEp ==> Numbered(y.sink, y.past.frames))
  }

  ghost predicate Inv(y: Sys) {
    Numbering(y.run, y.up, y.past.heard) && Counted(y)
  }

  /** The ring holds the frames enqueued for the source and not yet shown. */
  predicate OwnFrames(y: Sys) {
    |y.sink.queue| == y.past.frames - y.past.shown
  }

  // ----- The channel -----

  lemma TailInOrder(up: seq<Up>)
    requires InOrder(up) && up != []
    ensures InOrder(up[1..])
    ensures forall i :: 0 <= i < |up[1..]| ==> up[0].seqNo < up[1..][i].seqNo || up[1..][i].seqNo == -1 == up[0].seqNo
  {
    var rest := up[1..];
    assert forall i :: 0 <= i < |rest| ==> rest[i] == up[i + 1];
  }

  lemma ChannelAfterHead(up: seq<Up>, heard: nat, puts: nat)
    requires Channel(up, heard, puts) && up != [] && heard <= puts
    ensures InFlight(up[0], heard, puts)
    ensures Channel(Without(up, 0), Max(heard, up[0].seqNo + 1), puts)
    ensures up[0].req.AskEnqueue? ==> Max(heard, up[0].seqNo + 1) == up[0].seqNo + 1 <= puts
    ensures up[0].req.AskBorrow? ==> Max(heard, up[0].seqNo + 1) == heard == 0
  {
    var rest := up[1..];
    assert Without(up, 0) == rest;
    TailInOrder(up);
    assert InFlight(up[0], heard, puts);
    forall i | 0 <= i < |rest|
      ensures InFlight(rest[i], Max(heard, up[0].seqNo + 1), puts)
    {
      assert rest[i] == up[i + 1];
      assert InFlight(up[i + 1], heard, puts);
    }
  }

  lemma ChannelAfterLoss(up: seq<Up>, heard: nat, puts: nat, k: nat)
    requires Channel(up, heard, puts) && k < |up|
    ensures Channel(Without(up, k), heard, puts)
  {
    var up' := Without(up, k);
    forall i | 0 <= i < |up'|
      ensures InFlight(up'[i], heard, puts)
    {
      assert up'[i] == up[if i < k then i else i + 1];
    }
  }

  lemma ChannelPlusBorrow(up: seq<Up>, heard: nat, puts: nat, u: Up)
    requires Channel(up, heard, puts) && puts == 0 == heard && InFlight(u, heard, puts)
    ensures Channel(up + [u], heard, puts)
  {
    assert forall i :: 0 <= i < |up| ==> InFlight(up[i], heard, puts) && up[i].seqNo == -1;
  }

  lemma ChannelPlusFrame(up: seq<Up>, heard: nat, puts: nat, u: Up)
    requires Channel(up, heard, puts) && heard <= puts
    requires u.req.AskEnqueue? && u.seqNo == puts && u.req.idx == puts % 256
    ensures Channel(up + [u], heard, puts + 1)
  {
    forall i | 0 <= i < |up|
      ensures InFlight(up[i], heard, puts + 1) && up[i].seqNo < puts
    {
      assert InFlight(up[i], heard, puts);
    }
  }

  // ----- The source -----

  lemma NextIndex(puts: nat)
    ensures (puts % 256 + 1) % 256 == (puts + 1) % 256
  {}

  /** The frame that is sent, if any, joins the end of the channel under the next number. */
  lemma NumberingAfterSend(run: Runs.Run, up: seq<Up>, heard: nat, off: Runs.Event)
    requires Numbering(run, up, heard) && off.SendOff? && run.pending
    ensures var p := R.SendFrame(run.st, off.frame, off.sendOk, off.tm.stamp);
            Numbering(Runs.Step(run, off), up + Ups(p.out, run.puts), heard)
  {
    var p := R.SendFrame(run.st, off.frame, off.sendOk, off.tm.stamp);
    if off.sendOk {
      var added := Ups(p.out, run.puts)[0];
      assert Ups(p.out, run.puts) == [added];
      ChannelPlusFrame(up, heard, run.puts, added);
      NextIndex(run.puts);
    } else {
      assert up + Ups(p.out, run.puts) == up;
    }
  }

  /** A borrow that is sent again joins borrows only. */
  lemma NumberingAfterPoll(run: Runs.Run, up: seq<Up>, heard: nat, poll: Runs.Event)
    requires Numbering(run, up, heard) && poll.Poll? && !run.pending
    ensures var out := R.Update(run.st, poll.arrival, poll.clk).out;
            Numbering(Runs.Step(run, poll), up + Ups(out, run.puts), heard)
  {
    Runs.UpdateFrame(run.st, poll.arrival, poll.clk);
    Runs.UpdateSends(run.st, poll.arrival, poll.clk);
    var out := R.Update(run.st, poll.arrival, poll.clk).out;
    if out != [] {
      var added := Ups(out, run.puts)[0];
      assert Ups(out, run.puts) == [added];
      ChannelPlusBorrow(up, heard, run.puts, added);
    } else {
      assert up + Ups(out, run.puts) == up;
    }
  }

  lemma NumberingKept(y: Sys, ev: Event)
    requires Numbering(y.run, y.up, y.past.heard) && Legal(y, ev) && Fifo(ev)
    ensures Numbering(Step(y, ev).run, Step(y, ev).up, Step(y, ev).past.heard)
  {
    match ev
    case SinkTurn(pick, _) => if pick.Take? { ChannelAfterHead(y.up, y.past.heard, y.run.puts); }
    case SinkStranger(_, _, _) =>
    case SinkShow(_) =>
    case SourcePoll(pick, clk, forPut) =>
      NumberingAfterPoll(y.run, y.up, y.past.heard, Runs.Poll(Arriving(y, pick), clk, forPut));
    case SourceSend(tm, frame, sendOk) =>
      if y.run.pending { NumberingAfterSend(y.run, y.up, y.past.heard, Runs.SendOff(tm, frame, sendOk)); }
    case LoseUp(i) => ChannelAfterLoss(y.up, y.past.heard, y.run.puts, i);
    case LoseDown(_) =>
  }

  // ----- The sink -----

  /** What receiving one request does, apart from replies, message ids and times. */
  lemma TurnOnQueue(s: S.SinkState, d: S.Delivery, clk: S.SinkClock)
    requires d.Datagram? ==> |d.requests| == 1
    ensures var h := if d.Datagram? && !s.mode.Error? && !s.hung
                     then S.Handle(s, d.requests[0], d.sender, clk.grant).st else s;
            var s' := S.Update(s, d, clk).st;
            && s' == h.(mode := s'.mode, lastRecv := s'.lastRecv, lastSendLent := s'.lastSendLent, nextId := s'.nextId)
            && (s'.mode.Lent? ==> h.mode.Lent?) && (s'.mode.Error? <==> h.mode.Error?)
            && (d.Datagram? ==> s'.mode == h.mode)
  {
    if d.Datagram? && !s.mode.Error? && !s.hung {
      assert d.requests == [d.requests[0]];
      OneRequest(s, d.requests[0], d.sender, clk.grant);
    }
  }

  /** On a FIFO network the gap never exceeds the true distance. */
  lemma GapWithinDistance(s: S.SinkState, n: nat, seqNo: nat)
    requires Numbered(s, n) && n <= seqNo
    ensures S.Gap(s.lastIdx, seqNo % 256) <= seqNo + 1 - n
  {
    GapIsDistance(n, seqNo);
    ModBound(seqNo - (n - 1));
  }

  /** What handling a frame of the source does. */
  lemma FrameHandled(s: S.SinkState, q: S.Request, sender: S.Endpoint, at: int, n: nat, seqNo: nat)
    requires q.AskEnqueue? && q.idx == seqNo % 256 && n <= seqNo && S.IdxInRange(s)
    requires s.mode.Lent? && s.borrower == sender ==> Numbered(s, n)
    ensures var h := S.Handle(s, q, sender, at).st;
            && S.IdxInRange(h) && |s.queue| <= |h.queue| && n + |h.queue| - |s.queue| <= seqNo + 1
            && h == s.(mode := h.mode, queue := h.queue, lastIdx := h.lastIdx, nextId := h.nextId, hung := h.hung)
            && (h.mode.Lent? && h.borrower == sender ==>
                  s.mode.Lent? && Numbered(h, n + |h.queue| - |s.queue|))
  {
    var h := S.Handle(s, q, sender, at).st;
    if s.mode.Lent? && sender == s.borrower && |q.frame| >= 3 && !s.hung {
      if !h.hung { FifoNeverRunsAhead(s, n, seqNo, q.frame); }
    }
  }

  lemma CountedAfterTurn(y: Sys, ev: Event)
    requires Inv(y) && Legal(y, ev) && Fifo(ev) && ev.SinkTurn?
    ensures Counted(Step(y, ev))
    ensures OwnFrames(y) && !y.sink.hung && !y.sink.mode.Error? ==> OwnFrames(Step(y, ev))
    ensures y.sink.hung || y.sink.mode.Error? ==> Step(y, ev).sink == y.sink && Step(y, ev).past.frames == y.past.frames
  {
    TurnOnQueue(y.sink, Received(y, ev.pick), ev.sclk);
    if ev.pick.Take? {
      ChannelAfterHead(y.up, y.past.heard, y.run.puts);
      var u := y.up[0];
      if u.req.AskEnqueue? {
        FrameHandled(y.sink, u.req, y.srcEp, ev.sclk.grant, y.past.frames, u.seqNo);
      }
    }
  }

  lemma CountedAfterShow(y: Sys, ev: Event)
    requires Counted(y) && ev.SinkShow?
    ensures Counted(Step(y, ev)) && (OwnFrames(y) ==> OwnFrames(Step(y, ev)))
  {
    if !S.NothingToShow(y.sink) && y.sink.origin != NULL_TIME { CatchUpKeeps(y.sink, Stamp(ev.at)); }
  }

  lemma StepKeeps(y: Sys, ev: Event)
    requires Inv(y) && Legal(y, ev) && Fifo(ev)
    ensures Inv(Step(y, ev))
    ensures OwnFrames(y) && KeptOut(y, ev) ==> OwnFrames(Step(y, ev))
  {
    NumberingKept(y, ev);
    match ev
    case SinkTurn(_, _) => CountedAfterTurn(y, ev);
    case SinkStranger(sender, reqs, clk) => StrangersUpdate(y.sink, reqs, sender, clk, y.srcEp);
    case SinkShow(_) => CountedAfterShow(y, ev);
    case _ =>
  }

  lemma {:induction false} InvOverRun(y: Sys, evs: seq<Event>)
    requires Inv(y) && FifoRun(y, evs)
    ensures Inv(RunSys(y, evs))
    ensures OwnFrames(y) && KeptOutRun(y, evs) ==> OwnFrames(RunSys(y, evs))
    decreases |evs|
  {
    if evs != [] {
      StepKeeps(y, evs[0]);
      InvOverRun(Step(y, evs[0]), evs[1..]);
    }
  }

  lemma InvAtStart(y: Sys, spec: R.Spec, first: int, sent: int)
    requires Initial(y, spec, first, sent)
    ensures Inv(y) && OwnFrames(y)
  {
    assert InFlight(y.up[0], 0, 0);
  }

  // ----- Theorems -----

  /** Over every run on a FIFO network: the frames enqueued for the source never run ahead of the
      numbers that arrived, nor those of the frames put, though hundreds may be lost in a row. */
  lemma NeverAhead(y: Sys, spec: R.Spec, first: int, sent: int, evs: seq<Event>)
    requires Initial(y, spec, first, sent) && FifoRun(y, evs)
    ensures var z := RunSys(y, evs);
            && 0 <= z.past.frames <= z.past.heard <= z.run.puts
            && (z.sink.mode.Lent? && z.sink.borrower == z.srcEp ==> Numbered(z.sink, z.past.frames))
            && (KeptOutRun(y, evs) ==> |z.sink.queue| == z.past.frames - z.past.shown)
  {
    InvAtStart(y, spec, first, sent);
    InvOverRun(y, evs);
  }

  /** A borrow that is sent again cannot reset the sink once frames have begun to arrive: while a
      borrow is in flight only borrows are in front of it, no frame of the source has arrived or
      been enqueued, and the ring is empty unless strangers filled it. */
  lemma RetriedBorrowComesFirst(y: Sys, spec: R.Spec, first: int, sent: int, evs: seq<Event>, i: nat)
    requires Initial(y, spec, first, sent) && FifoRun(y, evs)
    requires i < |RunSys(y, evs).up| && RunSys(y, evs).up[i].req.AskBorrow?
    ensures var z := RunSys(y, evs);
            && z.past.heard == 0 && z.past.frames == 0
            && (KeptOutRun(y, evs) ==> z.sink.queue == [] && z.past.shown == 0)
            && forall j :: 0 <= j < i ==> z.up[j].req.AskBorrow?
  {
    InvAtStart(y, spec, first, sent);
    InvOverRun(y, evs);
    var z := RunSys(y, evs);
    assert InFlight(z.up[i], z.past.heard, z.run.puts);
    forall j | 0 <= j < i
      ensures z.up[j].req.AskBorrow?
    {
      assert InFlight(z.up[j], z.past.heard, z.run.puts);
    }
  }
}
