/** What is put is what is shown, on a FIFO network, whatever the settings and the timing of the
    calls and whoever else talks to the sink. An observer of the composed system remembers every
    frame that was put and what the sink has received since the borrow. */
module EndToEnd {
  import opened Clock
  import opened Pattern
  import S = SinkSpec
  import R = SourceSpec
  import Runs = SourceRuns
  import opened SinkSteps
  import opened System
  import opened FifoOrder
  import Overflow
  import Sessions = Session

  /** `sent[i]` is the frame with the number `i`. The log of the session holds the frames that
      the lent sink received, whether or not it made use of them. */
  datatype Watch = Watch(y: Sys, sent: seq<seq<byte>>, x: Sessions.Session)

  predicate ReceivesFrame(y: Sys, ev: Event) {
    && ev.SinkTurn? && ev.pick.Take? && ev.pick.index < |y.up| && y.up[ev.pick.index].req.AskEnqueue?
    && y.up[ev.pick.index].seqNo >= 0 && Ours(y)
  }

  function SessionAfter(y: Sys, x: Sessions.Session, ev: Event): Sessions.Session {
    var q, s' := y.sink.queue, Step(y, ev).sink;
    if ev.SinkTurn? && GrantsTo(y, ev.pick) then Sessions.Start(s')
    else if ReceivesFrame(y, ev) then
      var u := y.up[ev.pick.index];
      x.(st := s', hist := x.hist + s'.queue[Min(|q|, |s'.queue|)..],
         log := x.log + [Sessions.Admitted(u.seqNo, u.req.frame)])
    else if ev.SinkShow? && Ours(y) then Sessions.StepSession(x, Sessions.ShowAt(ev.at))
    else x.(st := s')
  }

  function Next(w: Watch, ev: Event): Watch {
    var y' := Step(w.y, ev);
    Watch(y', if ev.SourceSend? && y'.run.puts > w.y.run.puts then w.sent + [ev.frame] else w.sent,
          SessionAfter(w.y, w.x, ev))
  }

  function RunWatch(w: Watch, evs: seq<Event>): Watch
    decreases |evs|
  {
    if evs == [] then w else RunWatch(Next(w, evs[0]), evs[1..])
  }

  function Watching(y: Sys): Watch {
    Watch(y, [], Sessions.Start(y.sink))
  }

  // ----- Losses -----

  /** Not more than 127 frames in a row are lost: a frame that arrives is at most 128 ahead of the
      last one enqueued. */
  predicate Near(y: Sys, ev: Event) {
    ReceivesFrame(y, ev) ==> y.up[ev.pick.index].seqNo - (y.past.frames - 1) <= 128
  }

  predicate NearRun(y: Sys, evs: seq<Event>)
    decreases |evs|
  {
    evs == [] || (Near(y, evs[0]) && NearRun(Step(y, evs[0]), evs[1..]))
  }

  /** Nothing on its way to the sink is lost. */
  predicate Lossless(evs: seq<Event>) {
    forall ev :: ev in evs ==> !ev.LoseUp?
  }

  // ----- Invariant -----

  /** What is in flight are frames that were put. */
  ghost predicate CarriesSent(up: seq<Up>, sent: seq<seq<byte>>) {
    forall i :: 0 <= i < |up| && up[i].req.AskEnqueue? ==>
      0 <= up[i].seqNo < |sent| && up[i].req.frame == sent[up[i].seqNo]
  }

  /** What was received are frames that were put. */
  ghost predicate LogOfSent(log: seq<Sessions.Admitted>, sent: seq<seq<byte>>) {
    forall i :: 0 <= i < |log| ==> log[i].seqNo < |sent| && log[i].frame == sent[log[i].seqNo]
  }

  ghost predicate Follows(y: Sys, x: Sessions.Session) {
    Ours(y) ==>
      && x.st == y.sink && Sessions.Inv(x)
      && |x.hist| == y.past.frames && |x.shown| == y.past.shown
  }

  /** The network is in order, and frames have a size. */
  ghost predicate Orderly(y: Sys) {
    FifoOrder.Inv(y) && y.sink.frameLen > 0
  }

  ghost predicate Faithful(w: Watch) {
    && |w.sent| == w.y.run.puts && CarriesSent(w.y.up, w.sent)
    && Follows(w.y, w.x)
    && (Ours(w.y) ==> LogOfSent(w.x.log, w.sent))
  }

  lemma OrderlyKept(y: Sys, ev: Event)
    requires Orderly(y) && Legal(y, ev) && Fifo(ev)
    ensures Orderly(Step(y, ev))
  {
    FifoOrder.StepKeeps(y, ev);
    match ev
    case SinkTurn(pick, clk) => TurnKeepsSize(y, ev);
    case SinkStranger(sender, reqs, clk) => StrangersUpdate(y.sink, reqs, sender, clk, y.srcEp);
    case SinkShow(at) => if !S.NothingToShow(y.sink) && y.sink.origin != NULL_TIME { CatchUpKeeps(y.sink, Stamp(at)); }
    case _ =>
  }

  lemma TurnKeepsSize(y: Sys, ev: Event)
    requires ev.SinkTurn?
    ensures Step(y, ev).sink.frameLen == y.sink.frameLen
  {
    TurnOnQueue(y.sink, Received(y, ev.pick), ev.sclk);
  }

  /** After an update the sink is lent to the source if it was so before, or was granted now. */
  lemma TurnOurs(y: Sys, ev: Event)
    requires Orderly(y) && Legal(y, ev) && Fifo(ev) && ev.SinkTurn? && Ours(Step(y, ev))
    ensures var z, granted := Step(y, ev), GrantsTo(y, ev.pick);
            && (granted ==> z.past.frames == 0 == z.past.shown && z.past.heard == 0)
            && (!granted ==> Ours(y) && (ev.pick.Take? ==> ReceivesFrame(y, ev) && ev.pick == Take(0, false)))
  {
    TurnOnQueue(y.sink, Received(y, ev.pick), ev.sclk);
    if ev.pick.Take? {
      assert InFlight(y.up[0], y.past.heard, y.run.puts);
    }
  }

  // ----- The session -----

  lemma FollowsAfterShow(y: Sys, x: Sessions.Session, ev: Event)
    requires Orderly(y) && Follows(y, x) && ev.SinkShow?
    ensures Follows(Step(y, ev), SessionAfter(y, x, ev))
    ensures Ours(Step(y, ev)) <==> Ours(y)
    ensures SessionAfter(y, x, ev).log == x.log
  {
    if Ours(y) {
      Sessions.ShowKeepsInv(x, Sessions.ShowAt(ev.at));
      Sessions.ShowStep(x, Sessions.ShowAt(ev.at));
      Sessions.ShowTakes(x.st, ev.at);
    } else if !S.NothingToShow(y.sink) && y.sink.origin != NULL_TIME {
      CatchUpKeeps(y.sink, Stamp(ev.at));
    }
  }

  lemma FollowsAfterTimes(y: Sys, x: Sessions.Session, y': Sys)
    requires Follows(y, x) && y'.past.frames == y.past.frames && y'.past.shown == y.past.shown
    requires var s, s' := y.sink, y'.sink;
             Ours(y') ==>
               && Ours(y)
               && s' == s.(lastRecv := s'.lastRecv, lastSendLent := s'.lastSendLent, nextId := s'.nextId)
    ensures Follows(y', x.(st := y'.sink))
  {
    if Ours(y') { Sessions.TimesKeepInv(x, y'.sink); }
  }

  lemma FollowsAfterBorrow(y: Sys, x: Sessions.Session, ev: Event)
    requires Orderly(y) && Legal(y, ev)
    requires ev.SinkTurn? && ev.pick == Take(0, false) && y.up[0].req.AskBorrow?
    ensures var y', x' := Step(y, ev), SessionAfter(y, x, ev);
            Follows(y', x') && (Ours(y') ==> x'.log == [] && GrantsTo(y, ev.pick))
  {
    assert InFlight(y.up[0], y.past.heard, y.run.puts);
    TurnOnQueue(y.sink, Received(y, ev.pick), ev.sclk);
    if GrantsTo(y, ev.pick) { Sessions.InvAtStart(Step(y, ev).sink); }
  }

  /** A frame that arrives while the sink is lent to the source, and does not hang it. */
  lemma FollowsAfterFrame(y: Sys, x: Sessions.Session, ev: Event)
    requires Orderly(y) && Legal(y, ev) && Fifo(ev)
    requires Follows(y, x) && Near(y, ev) && ReceivesFrame(y, ev) && ev.pick == Take(0, false)
    ensures Follows(Step(y, ev), SessionAfter(y, x, ev))
    ensures SessionAfter(y, x, ev).log == x.log + [Sessions.Admitted(y.up[0].seqNo, y.up[0].req.frame)]
    ensures Ours(Step(y, ev)) ==> Step(y, ev).past.frames == y.up[0].seqNo + 1
  {
    var u := y.up[0];
    assert InFlight(u, y.past.heard, y.run.puts);
    var h := S.Handle(y.sink, u.req, y.srcEp, ev.sclk.grant).st;
    TurnOnQueue(y.sink, Received(y, ev.pick), ev.sclk);
    if |u.req.frame| >= 3 && !h.hung {
      RoomForGap(y.sink, y.past.frames, u.seqNo, u.req.frame);
      var arrive := Sessions.Arrive(u.seqNo, u.req.id, u.req.frame);
      Sessions.ArrivalStep(x, arrive);
      Sessions.ArrivalKeepsInv(x, arrive);
      var x1 := Sessions.StepSession(x, arrive);
      assert x1.st == h;
      FollowsAfterTimes(y.(sink := h, past := y.past.(frames := |x1.hist|)), x1, Step(y, ev));
      assert h.queue[|y.sink.queue|..] == x1.hist[|x.hist|..];
    }
  }

  lemma RoomForGap(s: S.SinkState, n: nat, seqNo: nat, frame: seq<byte>)
    requires Numbered(s, n) && n <= seqNo <= n + 127 && |frame| > 0
    requires !s.hung && !S.Admit(s, seqNo % 256, frame).hung
    ensures seqNo + 1 - n <= S.Room(s)
  {
    GapIsDistance(n, seqNo);
    ModBound(seqNo - (n - 1));
  }

  /** How the log of a session that is on afterwards came about. */
  predicate LogGrows(y: Sys, x: Sessions.Session, ev: Event) {
    var log := SessionAfter(y, x, ev).log;
    Ours(Step(y, ev)) ==>
      || log == []
      || (Ours(y) && log == x.log)
      || (ReceivesFrame(y, ev) && ev.pick == Take(0, false)
          && log == x.log + [Sessions.Admitted(y.up[0].seqNo, y.up[0].req.frame)])
  }

  lemma FollowsAfterTurn(y: Sys, x: Sessions.Session, ev: Event)
    requires Orderly(y) && Legal(y, ev) && Fifo(ev)
    requires Follows(y, x) && Near(y, ev) && ev.SinkTurn?
    ensures Follows(Step(y, ev), SessionAfter(y, x, ev)) && LogGrows(y, x, ev)
  {
    TurnOnQueue(y.sink, Received(y, ev.pick), ev.sclk);
    if ev.pick.Miss? {
      FollowsAfterTimes(y, x, Step(y, ev));
    } else {
      assert InFlight(y.up[0], y.past.heard, y.run.puts);
      if y.up[0].req.AskBorrow? {
        FollowsAfterBorrow(y, x, ev);
      } else if Ours(y) {
        FollowsAfterFrame(y, x, ev);
      }
    }
  }

  lemma FollowsKept(y: Sys, x: Sessions.Session, ev: Event)
    requires Orderly(y) && Legal(y, ev) && Fifo(ev)
    requires Follows(y, x) && Near(y, ev)
    ensures Follows(Step(y, ev), SessionAfter(y, x, ev)) && LogGrows(y, x, ev)
  {
    match ev
    case SinkTurn(_, _) => FollowsAfterTurn(y, x, ev);
    case SinkStranger(sender, reqs, clk) =>
      StrangersUpdate(y.sink, reqs, sender, clk, y.srcEp);
      FollowsAfterTimes(y, x, Step(y, ev));
    case SinkShow(_) => FollowsAfterShow(y, x, ev);
    case _ => FollowsAfterTimes(y, x, Step(y, ev));
  }

  // ----- The frames -----

  lemma CarriesKept(w: Watch, ev: Event)
    requires FifoOrder.Inv(w.y) && Legal(w.y, ev) && Fifo(ev)
    requires |w.sent| == w.y.run.puts && CarriesSent(w.y.up, w.sent)
    ensures var w' := Next(w, ev);
            |w'.sent| == w'.y.run.puts && w.sent <= w'.sent && CarriesSent(w'.y.up, w'.sent)
  {
    var y := w.y;
    match ev
    case SourcePoll(pick, clk, _) => Runs.UpdateSends(y.run.st, Arriving(y, pick), clk);
    case SourceSend(tm, frame, sendOk) => CarriesAfterSend(w, ev);
    case _ =>
  }

  lemma CarriesAfterSend(w: Watch, ev: Event)
    requires Legal(w.y, ev) && ev.SourceSend? && |w.sent| == w.y.run.puts && CarriesSent(w.y.up, w.sent)
    ensures var w' := Next(w, ev);
            |w'.sent| == w'.y.run.puts && w.sent <= w'.sent && CarriesSent(w'.y.up, w'.sent)
  {
    var y := w.y;
    var out := R.SendFrame(y.run.st, ev.frame, ev.sendOk, ev.tm.stamp).out;
    if ev.sendOk {
      assert Ups(out, y.run.puts) == [Up(y.run.puts, S.AskEnqueue(out[0].id, y.run.st.nextIdx, ev.frame))];
    } else {
      assert y.up + Ups(out, y.run.puts) == y.up;
    }
  }

  lemma LogKept(w: Watch, ev: Event)
    requires Orderly(w.y) && Legal(w.y, ev) && Fifo(ev)
    requires Faithful(w) && Near(w.y, ev) && Ours(Next(w, ev).y)
    ensures LogOfSent(Next(w, ev).x.log, Next(w, ev).sent)
  {
    FollowsKept(w.y, w.x, ev);
    CarriesKept(w, ev);
    if Ours(w.y) { LogLonger(w.x.log, w.sent, Next(w, ev).sent); }
  }

  lemma LogLonger(log: seq<Sessions.Admitted>, sent: seq<seq<byte>>, sent': seq<seq<byte>>)
    requires LogOfSent(log, sent) && sent <= sent'
    ensures LogOfSent(log, sent')
  {}

  lemma FaithfulKept(w: Watch, ev: Event)
    requires Orderly(w.y) && Legal(w.y, ev) && Fifo(ev)
    requires Faithful(w) && Near(w.y, ev)
    ensures Faithful(Next(w, ev))
  {
    FollowsKept(w.y, w.x, ev);
    CarriesKept(w, ev);
    if Ours(Next(w, ev).y) { LogKept(w, ev); }
  }

  lemma {:induction false} FaithfulOverRun(w: Watch, evs: seq<Event>)
    requires Orderly(w.y) && FifoRun(w.y, evs) && NearRun(w.y, evs) && Faithful(w)
    ensures Orderly(RunSys(w.y, evs)) && Faithful(RunWatch(w, evs)) && RunWatch(w, evs).y == RunSys(w.y, evs)
    decreases |evs|
  {
    if evs != [] {
      OrderlyKept(w.y, evs[0]);
      FaithfulKept(w, evs[0]);
      FaithfulOverRun(Next(w, evs[0]), evs[1..]);
    }
  }

  lemma FaithfulAtStart(y: Sys, spec: R.Spec, first: int, sent: int)
    requires Initial(y, spec, first, sent)
    ensures Orderly(y) && Faithful(Watching(y)) && NothingMissed(Watching(y)) && NothingStale(Watching(y))
  {
    FifoOrder.InvAtStart(y, spec, first, sent);
  }

  // ----- What was there before -----

  /** Unless strangers leave frames in it, the ring is empty when the source is granted its borrow. */
  ghost predicate NothingStale(w: Watch) {
    OwnFrames(w.y) && (Ours(w.y) ==> w.x.stale == [])
  }

  lemma NothingStaleKept(w: Watch, ev: Event)
    requires Orderly(w.y) && NothingStale(w) && Legal(w.y, ev) && Fifo(ev) && KeptOut(w.y, ev)
    ensures NothingStale(Next(w, ev))
  {
    FifoOrder.StepKeeps(w.y, ev);
    match ev
    case SinkTurn(_, _) => if Ours(Step(w.y, ev)) { TurnOurs(w.y, ev); }
    case SinkStranger(sender, reqs, clk) => StrangersUpdate(w.y.sink, reqs, sender, clk, w.y.srcEp);
    case SinkShow(at) =>
      if !S.NothingToShow(w.y.sink) && w.y.sink.origin != NULL_TIME { CatchUpKeeps(w.y.sink, Stamp(at)); }
    case _ =>
  }

  lemma {:induction false} NothingStaleOverRun(w: Watch, evs: seq<Event>)
    requires Orderly(w.y) && NothingStale(w) && FifoRun(w.y, evs) && KeptOutRun(w.y, evs)
    ensures NothingStale(RunWatch(w, evs))
    decreases |evs|
  {
    if evs != [] {
      OrderlyKept(w.y, evs[0]);
      NothingStaleKept(w, evs[0]);
      NothingStaleOverRun(Next(w, evs[0]), evs[1..]);
    }
  }

  // ----- With losses -----

  /** `shown` is the frame, filled to size, of the lowest number from `p` on that was received. */
  ghost predicate ShowsFirstFrom(w: Watch, p: nat, shown: S.Frame) {
    exists k :: && Sessions.FilledFrom(w.x.log, k, p, w.y.sink.frameLen, shown)
                && w.x.log[k].seqNo < |w.sent| && w.x.log[k].frame == w.sent[w.x.log[k].seqNo]
  }

  lemma PlacedOfFaithful(w: Watch, p: nat)
    requires Faithful(w) && Ours(w.y) && p < w.y.past.frames
    ensures |w.x.hist| == w.y.past.frames && ShowsFirstFrom(w, p, w.x.hist[p])
  {
    var x := w.x;
    assert Sessions.Placed(x, p);
    var k :| Sessions.FilledFrom(x.log, k, p, x.st.frameLen, x.hist[p]);
    assert Sessions.FilledFrom(x.log, k, p, w.y.sink.frameLen, x.hist[p]);
  }

  /** What was shown since the borrow, and what is left to show: first the frames that were in the
      ring before, and then those of the session. */
  predicate ShowsInOrder(w: Watch) {
    && |w.x.shown| == w.y.past.shown && |w.x.hist| == w.y.past.frames
    && w.x.shown + w.y.sink.queue == w.x.stale + w.x.hist
    && (w.x.shown != [] ==> w.y.sink.current == w.x.shown[|w.x.shown| - 1])
  }

  /** Over every run on a FIFO network in which no 128 frames in a row are lost: whenever the sink
      is lent to the source and does not hang, it has shown and will show, in order, what was in
      the ring at the borrow, nothing unless strangers left frames there, and then the session;
      and position `p` of the session is held by the frame of the first number from `p` on that
      was received, as it was put and filled to the size of the sink. */
  lemma ShownIsFirstReceived(y: Sys, spec: R.Spec, first: int, sent: int, evs: seq<Event>)
    requires Initial(y, spec, first, sent) && FifoRun(y, evs) && NearRun(y, evs)
    ensures var w := RunWatch(Watching(y), evs);
            && w.y == RunSys(y, evs) && |w.sent| == w.y.run.puts
            && (Ours(w.y) ==>
                  && ShowsInOrder(w) && (KeptOutRun(y, evs) ==> w.x.stale == [])
                  && forall p :: 0 <= p < |w.x.hist| ==> ShowsFirstFrom(w, p, w.x.hist[p]))
  {
    FaithfulAtStart(y, spec, first, sent);
    FaithfulOverRun(Watching(y), evs);
    if KeptOutRun(y, evs) { NothingStaleOverRun(Watching(y), evs); }
    var w := RunWatch(Watching(y), evs);
    if Ours(w.y) {
      forall p | 0 <= p < |w.x.hist|
        ensures ShowsFirstFrom(w, p, w.x.hist[p])
      {
        PlacedOfFaithful(w, p);
      }
    }
  }

  // ----- Without losses -----

  /** All numbers from `heard` on are in flight, in order, with nothing but borrows before them. */
  predicate AllInFlight(up: seq<Up>, heard: nat, puts: nat) {
    var borrows := |up| - (puts - heard);
    && 0 <= borrows && heard <= puts
    && forall i :: 0 <= i < |up| ==> up[i].seqNo == if i < borrows then -1 else heard + i - borrows
  }

  /** Nothing was lost: all numbers below `heard` were received, each in its turn. */
  ghost predicate InTurn(y: Sys, log: seq<Sessions.Admitted>) {
    Ours(y) ==>
      && y.past.frames == y.past.heard == |log|
      && forall i :: 0 <= i < |log| ==> log[i].seqNo == i
  }

  ghost predicate NothingMissed(w: Watch) {
    AllInFlight(w.y.up, w.y.past.heard, w.y.run.puts) && InTurn(w.y, w.x.log)
  }

  lemma AllInFlightAfterHead(up: seq<Up>, heard: nat, puts: nat)
    requires AllInFlight(up, heard, puts) && up != [] && (up[0].seqNo == -1 ==> heard == 0)
    ensures AllInFlight(Without(up, 0), Max(heard, up[0].seqNo + 1), puts)
    ensures up[0].seqNo == -1 || up[0].seqNo == heard
  {
    assert Without(up, 0) == up[1..];
    assert forall i :: 0 <= i < |up[1..]| ==> up[1..][i] == up[i + 1];
  }

  lemma NearWithoutLoss(w: Watch, ev: Event)
    requires FifoOrder.Inv(w.y) && NothingMissed(w) && Legal(w.y, ev) && Fifo(ev)
    ensures Near(w.y, ev)
  {
    if ReceivesFrame(w.y, ev) {
      AllInFlightAfterHead(w.y.up, w.y.past.heard, w.y.run.puts) by {
        assert InFlight(w.y.up[0], w.y.past.heard, w.y.run.puts);
      }
    }
  }

  lemma AllInFlightPlusBorrow(up: seq<Up>, u: Up)
    requires AllInFlight(up, 0, 0) && u.seqNo == -1
    ensures AllInFlight(up + [u], 0, 0)
  {}

  lemma AllInFlightPlusFrame(up: seq<Up>, heard: nat, puts: nat, u: Up)
    requires AllInFlight(up, heard, puts) && u.seqNo == puts
    ensures AllInFlight(up + [u], heard, puts + 1)
  {}

  lemma AllInFlightKept(y: Sys, ev: Event)
    requires FifoOrder.Inv(y) && Legal(y, ev) && Fifo(ev) && !ev.LoseUp?
    requires AllInFlight(y.up, y.past.heard, y.run.puts)
    ensures AllInFlight(Step(y, ev).up, Step(y, ev).past.heard, Step(y, ev).run.puts)
  {
    match ev
    case SinkTurn(pick, _) =>
      if pick.Take? {
        assert InFlight(y.up[0], y.past.heard, y.run.puts);
        AllInFlightAfterHead(y.up, y.past.heard, y.run.puts);
      }
    case SourcePoll(pick, clk, _) => AllInFlightAfterPoll(y, ev);
    case SourceSend(tm, frame, sendOk) => AllInFlightAfterSend(y, ev);
    case _ =>
  }

  lemma AllInFlightAfterPoll(y: Sys, ev: Event)
    requires FifoOrder.Inv(y) && Legal(y, ev) && ev.SourcePoll? && AllInFlight(y.up, y.past.heard, y.run.puts)
    ensures AllInFlight(Step(y, ev).up, Step(y, ev).past.heard, Step(y, ev).run.puts)
  {
    var a := Arriving(y, ev.pick);
    Runs.UpdateSends(y.run.st, a, ev.clk);
    var out := R.Update(y.run.st, a, ev.clk).out;
    Runs.UpdateFrame(y.run.st, a, ev.clk);
    if out != [] {
      assert Ups(out, y.run.puts) == [Up(-1, RequestIn(out[0]))];
      AllInFlightPlusBorrow(y.up, Up(-1, RequestIn(out[0])));
    } else {
      assert y.up + Ups(out, y.run.puts) == y.up;
    }
  }

  lemma AllInFlightAfterSend(y: Sys, ev: Event)
    requires Legal(y, ev) && ev.SourceSend? && AllInFlight(y.up, y.past.heard, y.run.puts)
    ensures AllInFlight(Step(y, ev).up, Step(y, ev).past.heard, Step(y, ev).run.puts)
  {
    var out := R.SendFrame(y.run.st, ev.frame, ev.sendOk, ev.tm.stamp).out;
    if ev.sendOk {
      var u := Up(y.run.puts, RequestIn(out[0]));
      assert Ups(out, y.run.puts) == [u];
      AllInFlightPlusFrame(y.up, y.past.heard, y.run.puts, u);
    } else {
      assert y.up + Ups(out, y.run.puts) == y.up;
    }
  }

  lemma InTurnAfterTurn(y: Sys, x: Sessions.Session, ev: Event)
    requires Orderly(y) && Legal(y, ev) && Fifo(ev)
    requires Follows(y, x) && AllInFlight(y.up, y.past.heard, y.run.puts) && InTurn(y, x.log)
    requires Near(y, ev) && ev.SinkTurn?
    ensures InTurn(Step(y, ev), SessionAfter(y, x, ev).log)
  {
    if Ours(Step(y, ev)) {
      TurnOurs(y, ev);
      if !GrantsTo(y, ev.pick) {
        if ev.pick.Miss? {
          TurnOnQueue(y.sink, S.Nothing, ev.sclk);
        } else {
          InTurnAfterFrame(y, x, ev);
        }
      }
    }
  }

  lemma InTurnAfterFrame(y: Sys, x: Sessions.Session, ev: Event)
    requires Orderly(y) && Legal(y, ev) && Fifo(ev)
    requires Follows(y, x) && AllInFlight(y.up, y.past.heard, y.run.puts) && InTurn(y, x.log)
    requires Near(y, ev) && ReceivesFrame(y, ev) && ev.pick == Take(0, false)
    ensures InTurn(Step(y, ev), SessionAfter(y, x, ev).log)
  {
    assert InFlight(y.up[0], y.past.heard, y.run.puts);
    AllInFlightAfterHead(y.up, y.past.heard, y.run.puts);
    FollowsAfterFrame(y, x, ev);
  }

  lemma NothingMissedKept(w: Watch, ev: Event)
    requires Orderly(w.y) && Legal(w.y, ev) && Fifo(ev)
    requires Faithful(w) && NothingMissed(w) && Near(w.y, ev) && !ev.LoseUp?
    ensures NothingMissed(Next(w, ev))
  {
    AllInFlightKept(w.y, ev);
    match ev
    case SinkTurn(_, _) => InTurnAfterTurn(w.y, w.x, ev);
    case SinkStranger(sender, reqs, clk) => StrangersUpdate(w.y.sink, reqs, sender, clk, w.y.srcEp);
    case SinkShow(_) => FollowsAfterShow(w.y, w.x, ev);
    case _ =>
  }

  lemma {:induction false} NothingMissedOverRun(w: Watch, evs: seq<Event>)
    requires Orderly(w.y) && FifoRun(w.y, evs) && Lossless(evs) && Faithful(w) && NothingMissed(w)
    ensures Faithful(RunWatch(w, evs)) && NothingMissed(RunWatch(w, evs)) && RunWatch(w, evs).y == RunSys(w.y, evs)
    ensures NearRun(w.y, evs)
    decreases |evs|
  {
    if evs != [] {
      assert evs[0] in evs;
      NearWithoutLoss(w, evs[0]);
      OrderlyKept(w.y, evs[0]);
      FaithfulKept(w, evs[0]);
      NothingMissedKept(w, evs[0]);
      NothingMissedOverRun(Next(w, evs[0]), evs[1..]);
    }
  }

  /** Over every such run in which nothing is lost on its way to the sink: whenever the sink is
      lent to the source and does not hang, position `p` of the session is held by the p-th frame
      that was put, filled to the size of the sink. */
  lemma ShownIsPut(y: Sys, spec: R.Spec, first: int, sent: int, evs: seq<Event>)
    requires Initial(y, spec, first, sent) && FifoRun(y, evs) && Lossless(evs)
    ensures var w := RunWatch(Watching(y), evs);
            && w.y == RunSys(y, evs) && |w.sent| == w.y.run.puts
            && (Ours(w.y) ==>
                  && ShowsInOrder(w) && (KeptOutRun(y, evs) ==> w.x.stale == [])
                  && |w.x.hist| <= |w.sent|
                  && forall p :: 0 <= p < |w.x.hist| ==>
                       |w.sent[p]| > 0 && w.x.hist[p] == Repeated(w.sent[p], w.y.sink.frameLen))
  {
    FaithfulAtStart(y, spec, first, sent);
    NothingMissedOverRun(Watching(y), evs);
    if KeptOutRun(y, evs) { NothingStaleOverRun(Watching(y), evs); }
    var w := RunWatch(Watching(y), evs);
    if Ours(w.y) {
      if w.x.log != [] { assert w.x.log[|w.x.log| - 1].seqNo < |w.sent|; }
      forall p | 0 <= p < |w.x.hist|
        ensures |w.sent[p]| > 0 && w.x.hist[p] == Repeated(w.sent[p], w.y.sink.frameLen)
      {
        PlacedOfFaithful(w, p);
        var k :| Sessions.FilledFrom(w.x.log, k, p, w.y.sink.frameLen, w.x.hist[p]);
        assert w.x.log[p].seqNo == p;
        assert k == p;
      }
    }
  }

  // ----- Within the budget -----

  /** Where the frames fit into the ring, all this holds whenever the sink is lent. */
  lemma GoodRunsAreOrderly(y: Sys, spec: R.Spec, first: int, sent: int, evs: seq<Event>, b: Overflow.Bounds)
    requires Initial(y, spec, first, sent) && FitBytes(spec) && Overflow.GoodRun(y, evs, b)
    requires R.Fresh(spec).maxBuf + RunSys(y, evs).run.late + (b.lag + b.poll) / R.Fresh(spec).frameMs <= 128
    ensures FifoRun(y, evs) && KeptOutRun(y, evs)
    ensures RunSys(y, evs).sink.mode.Lent? ==> Ours(RunSys(y, evs))
  {
    GoodRunIsOrderly(y, evs, b);
    Overflow.NoOverflow(y, spec, first, sent, evs, b);
    Overflow.SameEndpoint(y, evs);
  }

  lemma {:induction false} GoodRunIsOrderly(y: Sys, evs: seq<Event>, b: Overflow.Bounds)
    requires Overflow.GoodRun(y, evs, b)
    ensures FifoRun(y, evs) && KeptOutRun(y, evs)
    decreases |evs|
  {
    if evs != [] { GoodRunIsOrderly(Step(y, evs[0]), evs[1..], b); }
  }
}
