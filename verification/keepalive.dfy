/** An open source never finds the connection lost, as long as the sink stays lent to it and is
    updated often enough, and no lent message is lost or held up for too long: although every
    update of the source consumes one datagram only. */
module Keepalive {
  import opened Clock
  import S = SinkSpec
  import R = SourceSpec
  import opened SinkSteps
  import opened System

  /** Every `poll` ms an update of the sink has begun and the one before has ended; a datagram
      is in flight for at most `delay` ms; an update of the source takes at most `busy` ms. */
  datatype Bounds = Bounds(poll: int, delay: int, busy: int)

  /** The longest a source may be without news of the sink. */
  predicate Enough(y: Sys, b: Bounds) {
    && b.poll >= 0 && b.delay >= 0 && b.busy >= 0
    && 500 + b.poll + b.delay + b.busy <= y.run.st.disconnectMs
  }

  /** Nothing on its way to the source is lost or overtaken, and what is due has arrived. When
      nothing is received, `clk.recv` is the instant at which the socket was asked. */
  predicate Punctual(y: Sys, ev: Event, b: Bounds) {
    match ev
    case SinkTurn(_, clk) => clk.lent <= y.past.sinkStart + b.poll
    case SinkStranger(_, _, clk) => clk.lent <= y.past.sinkStart + b.poll
    case SourcePoll(pick, clk, _) =>
      && clk.recv < y.past.sinkStart + b.poll && clk.check <= clk.recv + b.busy
      && (pick == Take(0, false) || (pick.Miss? && (y.down != [] ==> clk.recv < y.down[0].sentAt + b.delay)))
    case LoseDown(_) => false
    case _ => true
  }

  /** The sink is lent to the source and tells it nothing else. */
  predicate StaysLent(y: Sys) {
    && y.sink.mode.Lent? && y.sink.borrower == y.srcEp && !y.sink.hung
    && forall i :: 0 <= i < |y.down| ==> y.down[i].notice.LentNotice?
  }

  predicate GoodRun(y: Sys, evs: seq<Event>, b: Bounds)
    decreases |evs|
  {
    && StaysLent(y)
    && (evs == [] || (Legal(y, evs[0]) && Punctual(y, evs[0], b) && GoodRun(Step(y, evs[0]), evs[1..], b)))
  }

  // ----- Invariant -----

  /** The sink sends that it is lent at most this long apart. */
  function Interval(b: Bounds): int {
    500 + b.poll
  }

  ghost predicate Spaced(down: seq<Down>, interval: int) {
    forall i :: 0 <= i < |down| - 1 ==> down[i + 1].sentAt <= down[i].sentAt + interval
  }

  ghost predicate Sending(y: Sys, b: Bounds) {
    && y.sink.lastSendLent == Stamp(y.past.lastSend)
    && y.past.lastSend <= y.now && y.past.sinkStart <= y.past.lastSend + 500
    && Spaced(y.down, Interval(b))
    && (forall i :: 0 <= i < |y.down| ==> y.down[i].sentAt <= y.now)
    && (y.down != [] ==> y.past.lastSend <= y.down[|y.down| - 1].sentAt)
  }

  ghost predicate Hearing(y: Sys, b: Bounds) {
    && (y.run.st.mode.Waiting? ==> y.down != [])
    && (y.run.st.mode.Open? ==>
          && y.run.st.lastRecvLent == R.Set(Stamp(y.past.lastLent)) && y.past.lastLent <= y.now
          && (if y.down == [] then y.past.lastSend else y.down[0].sentAt - Interval(b)) <= y.past.lastLent)
  }

  ghost predicate Inv(y: Sys, b: Bounds) {
    Sending(y, b) && Hearing(y, b)
  }

  // ----- The sink -----

  lemma {:induction false} SentAllAt(rs: seq<S.Reply>, srcEp: S.Endpoint, at: int)
    ensures forall i :: 0 <= i < |Downs(rs, srcEp, at)| ==> Downs(rs, srcEp, at)[i].sentAt == at
    ensures (exists r :: r in rs && r.to == srcEp) ==> Downs(rs, srcEp, at) != []
  {
    if rs != [] { SentAllAt(rs[1..], srcEp, at); }
  }

  lemma SpacedAppend(down: seq<Down>, more: seq<Down>, at: int, interval: int)
    requires Spaced(down, interval) && interval >= 0
    requires forall i :: 0 <= i < |more| ==> more[i].sentAt == at
    requires down != [] ==> at <= down[|down| - 1].sentAt + interval
    ensures Spaced(down + more, interval)
  {}

  /** The last time the sink told its borrower that it is lent, after an update. */
  lemma TurnSendsLent(y: Sys, pick: Pick, clk: S.SinkClock)
    requires Legal(y, SinkTurn(pick, clk)) && StaysLent(y) && StaysLent(AfterSinkTurn(y, pick, clk))
    requires y.sink.lastSendLent == Stamp(y.past.lastSend) && y.past.lastSend <= y.now
    requires clk.lent - y.past.lastSend < TWO_32
    ensures var t, last := S.Update(y.sink, Received(y, pick), clk), SentLentAt(y, pick, clk);
            && t.st.lastSendLent == Stamp(last)
            && y.past.lastSend <= last <= clk.lent
            && clk.grant <= last + 500
            && (last != y.past.lastSend ==> exists r :: r in t.out && r.to == y.srcEp)
  {
    var rd := Received(y, pick);
    var t := S.Update(y.sink, rd, clk);
    var mid := S.Receive(y.sink, rd, clk);
    var snd := S.Send(mid.st, clk);
    ReceivedWhileLent(y, pick, clk);
    var before := if GrantsTo(y, pick) then clk.grant else y.past.lastSend;
    ElapsedIsTrue(clk.check, before);
    if snd.out != [] {
      assert t.out == mid.out + snd.out && snd.out[0] in t.out;
    } else if GrantsTo(y, pick) {
      assert t.out == mid.out + snd.out && mid.out[0] in t.out;
    }
  }

  lemma ReceivedWhileLent(y: Sys, pick: Pick, clk: S.SinkClock)
    requires Fits(pick, |y.up|) && StaysLent(y) && StaysLent(AfterSinkTurn(y, pick, clk))
    ensures var mid := S.Receive(y.sink, Received(y, pick), clk);
            && !mid.st.hung && mid.st.mode.Lent? && mid.st.borrower == y.srcEp
            && mid.st.lastSendLent == (if GrantsTo(y, pick) then Stamp(clk.grant) else y.sink.lastSendLent)
            && (GrantsTo(y, pick) ==> mid.out != [] && mid.out[0].to == y.srcEp)
  {
    var rd := Received(y, pick);
    if rd.Datagram? {
      assert rd.requests == [rd.requests[0]];
      OneRequest(y.sink, rd.requests[0], y.srcEp, clk.grant);
    }
  }

  /** The same for an update that a stranger's datagram reaches. */
  lemma StrangerSendsLent(y: Sys, ev: Event)
    requires Legal(y, ev) && ev.SinkStranger? && StaysLent(y) && StaysLent(Step(y, ev))
    requires y.sink.lastSendLent == Stamp(y.past.lastSend) && y.past.lastSend <= y.now
    requires ev.sclk.lent - y.past.lastSend < TWO_32
    ensures var t, last := S.Update(y.sink, S.Datagram(ev.sender, ev.reqs), ev.sclk), Step(y, ev).past.lastSend;
            && t.st.lastSendLent == Stamp(last)
            && y.past.lastSend <= last <= ev.sclk.lent
            && ev.sclk.grant <= last + 500
            && (last != y.past.lastSend ==> exists r :: r in t.out && r.to == y.srcEp)
  {
    StrangersUpdate(y.sink, ev.reqs, ev.sender, ev.sclk, y.srcEp);
    StrangersCannotBorrowFor(y.sink, ev.reqs, ev.sender, ev.sclk.grant, y.srcEp);
    ElapsedIsTrue(ev.sclk.check, y.past.lastSend);
  }

  /** What an update of the sink adds to the channel keeps the messages in it close together. */
  lemma SendingAfter(y: Sys, y': Sys, out: seq<S.Reply>, clk: S.SinkClock, b: Bounds)
    requires Sending(y, b) && b.poll >= 0 && y.now <= clk.grant <= clk.lent == y'.now <= y.past.sinkStart + b.poll
    requires y'.down == y.down + Downs(out, y.srcEp, clk.lent) && y'.past.sinkStart == clk.grant
    requires y'.sink.lastSendLent == Stamp(y'.past.lastSend) && y.past.lastSend <= y'.past.lastSend <= clk.lent
    requires clk.grant <= y'.past.lastSend + 500
    requires y'.past.lastSend != y.past.lastSend ==> exists r :: r in out && r.to == y.srcEp
    ensures Sending(y', b)
    ensures y.down != [] ==> y'.down != [] && y'.down[0] == y.down[0]
    ensures y.down == [] && y'.down != [] ==> y'.down[0].sentAt == clk.lent <= y.past.lastSend + Interval(b)
  {
    var more := Downs(out, y.srcEp, clk.lent);
    SentAllAt(out, y.srcEp, clk.lent);
    SpacedAppend(y.down, more, clk.lent, Interval(b));
    if more != [] {
      assert y'.down[|y'.down| - 1] == more[|more| - 1];
      assert y'.down[0] == if y.down == [] then more[0] else y.down[0];
    } else {
      assert y'.down == y.down;
    }
  }

  lemma HearingAfter(y: Sys, y': Sys, b: Bounds)
    requires Hearing(y, b) && y'.run == y.run && y'.past.lastLent == y.past.lastLent && y.now <= y'.now
    requires y.down != [] ==> y'.down != [] && y'.down[0] == y.down[0]
    requires y.down == [] && y'.down != [] ==> y'.down[0].sentAt <= y.past.lastSend + Interval(b)
    requires y'.down == [] ==> y'.past.lastSend == y.past.lastSend
    ensures Hearing(y', b)
  {}

  lemma SinkTurnKeeps(y: Sys, ev: Event, b: Bounds)
    requires Inv(y, b) && Enough(y, b) && Legal(y, ev) && Punctual(y, ev, b) && ev.SinkTurn?
    requires StaysLent(y) && StaysLent(Step(y, ev))
    ensures Inv(Step(y, ev), b)
  {
    var out := S.Update(y.sink, Received(y, ev.pick), ev.sclk).out;
    TurnSendsLent(y, ev.pick, ev.sclk);
    SentAllAt(out, y.srcEp, ev.sclk.lent);
    SendingAfter(y, Step(y, ev), out, ev.sclk, b);
    HearingAfter(y, Step(y, ev), b);
  }

  lemma StrangerKeeps(y: Sys, ev: Event, b: Bounds)
    requires Inv(y, b) && Enough(y, b) && Legal(y, ev) && Punctual(y, ev, b) && ev.SinkStranger?
    requires StaysLent(y) && StaysLent(Step(y, ev))
    ensures Inv(Step(y, ev), b)
  {
    var out := S.Update(y.sink, S.Datagram(ev.sender, ev.reqs), ev.sclk).out;
    StrangerSendsLent(y, ev);
    SentAllAt(out, y.srcEp, ev.sclk.lent);
    SendingAfter(y, Step(y, ev), out, ev.sclk, b);
    HearingAfter(y, Step(y, ev), b);
  }

  // ----- The source -----

  /** One update of the source, with at most one lent message. */
  lemma PollOfSource(s: R.SourceState, a: R.Arrival, clk: R.SourceClock)
    requires a == R.Nothing || a == R.Datagram([R.LentNotice])
    ensures var s' := R.Update(s, a, clk).st;
            var got := a.Datagram? && !s.mode.Error?;
            && s'.disconnectMs == s.disconnectMs
            && (got && Elapsed(Stamp(clk.check), Stamp(clk.recv)) < s.disconnectMs ==>
                  s'.mode.Open? && s'.lastRecvLent == R.Set(Stamp(clk.recv)))
            && (!a.Datagram? && s.mode.Open? && s.lastRecvLent.Set?
                  && Elapsed(Stamp(clk.check), s.lastRecvLent.at) < s.disconnectMs ==>
                  s'.mode.Open? && s'.lastRecvLent == s.lastRecvLent)
            && (s'.mode.Open? ==> s.mode.Open? || got)
            && (s'.mode.Waiting? ==> s.mode.Waiting? && !a.Datagram?)
  {
    if a.Datagram? {
      assert a.notices[1..] == [];
      assert R.HearAll(s, a.notices, clk.recv) == R.Hear(s, R.LentNotice, clk.recv);
    }
  }

  /** Nothing arrived: the last news is still recent enough. */
  lemma PollMisses(y: Sys, ev: Event, b: Bounds)
    requires Inv(y, b) && Enough(y, b) && Legal(y, ev) && Punctual(y, ev, b) && ev.SourcePoll? && ev.pick.Miss?
    ensures Inv(Step(y, ev), b) && Enough(Step(y, ev), b)
    ensures y.run.st.mode.Open? ==> Step(y, ev).run.st.mode.Open?
  {
    PollOfSource(y.run.st, R.Nothing, ev.clk);
    if y.run.st.mode.Open? { ElapsedIsTrue(ev.clk.check, y.past.lastLent); }
  }

  /** News arrived: the next is at most one interval behind it. */
  lemma PollHears(y: Sys, ev: Event, b: Bounds)
    requires Inv(y, b) && Enough(y, b) && Legal(y, ev) && Punctual(y, ev, b) && ev.SourcePoll? && ev.pick.Take?
    requires StaysLent(y)
    ensures Inv(Step(y, ev), b) && Enough(Step(y, ev), b)
    ensures y.run.st.mode.Open? ==> Step(y, ev).run.st.mode.Open?
  {
    PollOfSource(y.run.st, Arriving(y, ev.pick), ev.clk);
    ElapsedIsTrue(ev.clk.check, ev.clk.recv);
    assert Without(y.down, 0) == y.down[1..];
    HeadTaken(y, Step(y, ev), b);
  }

  /** Taking the oldest message in flight leaves the others spaced, the next close behind it. */
  lemma HeadTaken(y: Sys, y': Sys, b: Bounds)
    requires Sending(y, b) && y.down != [] && y'.down == y.down[1..]
    requires y'.sink == y.sink && y.now <= y'.now
    requires y'.past.lastSend == y.past.lastSend && y'.past.sinkStart == y.past.sinkStart
    ensures Sending(y', b)
    ensures (if y'.down == [] then y'.past.lastSend else y'.down[0].sentAt - Interval(b)) <= y.down[0].sentAt <= y.now
  {
    TailSpaced(y.down, Interval(b));
    if y'.down != [] { assert y'.down[|y'.down| - 1] == y.down[|y.down| - 1] && y'.down[0] == y.down[0 + 1]; }
  }

  lemma TailSpaced(down: seq<Down>, interval: int)
    requires Spaced(down, interval) && down != []
    ensures Spaced(down[1..], interval)
  {
    assert forall i :: 0 <= i < |down[1..]| ==> down[1..][i] == down[i + 1];
  }

  lemma StepKeeps(y: Sys, ev: Event, b: Bounds)
    requires Inv(y, b) && Enough(y, b) && Legal(y, ev) && Punctual(y, ev, b)
    requires StaysLent(y) && StaysLent(Step(y, ev))
    ensures Inv(Step(y, ev), b) && Enough(Step(y, ev), b)
    ensures y.run.st.mode.Open? ==> Step(y, ev).run.st.mode.Open?
  {
    match ev
    case SinkTurn(_, _) => SinkTurnKeeps(y, ev, b);
    case SinkStranger(_, _, _) => StrangerKeeps(y, ev, b);
    case SinkShow(at) =>
      if !S.NothingToShow(y.sink) && y.sink.origin != NULL_TIME { CatchUpKeeps(y.sink, Stamp(at)); }
    case SourcePoll(pick, _, _) => if pick.Miss? { PollMisses(y, ev, b); } else { PollHears(y, ev, b); }
    case SourceSend(_, _, _) =>
    case LoseUp(_) =>
  }

  lemma {:induction false} StaysOpenFrom(y: Sys, evs: seq<Event>, b: Bounds)
    requires Inv(y, b) && Enough(y, b) && GoodRun(y, evs, b)
    ensures Inv(RunSys(y, evs), b)
    ensures y.run.st.mode.Open? ==> RunSys(y, evs).run.st.mode.Open?
    decreases |evs|
  {
    if evs != [] {
      StepKeeps(y, evs[0], b);
      StaysOpenFrom(Step(y, evs[0]), evs[1..], b);
    }
  }

  lemma {:induction false} GoodRunSplits(y: Sys, before: seq<Event>, after: seq<Event>, b: Bounds)
    requires GoodRun(y, before + after, b)
    ensures GoodRun(y, before, b) && GoodRun(RunSys(y, before), after, b)
    ensures RunSys(y, before + after) == RunSys(RunSys(y, before), after)
    decreases |before|
  {
    if before == [] {
      assert before + after == after;
    } else {
      assert (before + after)[1..] == before[1..] + after;
      GoodRunSplits(Step(y, before[0]), before[1..], after, b);
    }
  }

  /** The sink has just been lent to the waiting source, and the message that says so is on its
      way. */
  predicate JustLent(y: Sys) {
    && y.run.st.mode.Waiting? && y.down != []
    && (forall i :: 0 <= i < |y.down| ==> y.down[i].sentAt == y.now)
    && y.sink.lastSendLent == Stamp(y.past.lastSend) && y.past.lastSend <= y.now
    && y.past.sinkStart <= y.past.lastSend + 500
  }

  /** Granting the first borrow of a waiting source leads there. */
  lemma GrantLeadsToLent(y: Sys, pick: Pick, clk: S.SinkClock)
    requires Legal(y, SinkTurn(pick, clk)) && GrantsTo(y, pick) && y.run.st.mode.Waiting? && y.down == []
    ensures JustLent(Step(y, SinkTurn(pick, clk)))
    ensures StaysLent(Step(y, SinkTurn(pick, clk)))
  {
    var rd := Received(y, pick);
    GrantReply(y.sink, rd.requests[0], y.srcEp, clk.grant);
    OneRequest(y.sink, rd.requests[0], y.srcEp, clk.grant);
    var mid := S.Receive(y.sink, rd, clk);
    UpdateInParts(y.sink, rd, clk);
    SendReply(mid.st, clk);
    DownsOfTwo(mid.out[0], S.Send(mid.st, clk).out, y.srcEp, clk.lent);
    assert mid.out == [mid.out[0]];
  }

  lemma DownsOfTwo(r: S.Reply, rs: seq<S.Reply>, srcEp: S.Endpoint, at: int)
    requires r.to == srcEp && r.env.msg.Lent?
    requires rs == [] || (|rs| == 1 && rs[0].to == srcEp && rs[0].env.msg.Lent?)
    ensures var downs := Downs([r] + rs, srcEp, at);
            downs != [] && forall i :: 0 <= i < |downs| ==> downs[i] == Down(at, R.LentNotice)
  {
    var one := Down(at, R.LentNotice);
    assert ([r] + rs)[1..] == rs;
    assert Downs([r] + rs, srcEp, at) == [one] + Downs(rs, srcEp, at);
    if rs != [] {
      assert rs[1..] == [];
      assert Downs(rs, srcEp, at) == [one] + Downs([], srcEp, at);
    }
  }

  /** From the moment the sink is lent on: once the source is open it stays open, if the
      keepalive interval, the polling interval of the sink, the delay of the network and the
      duration of an update together do not exceed the disconnect timeout. */
  lemma NeverLost(y: Sys, before: seq<Event>, after: seq<Event>, b: Bounds)
    requires JustLent(y) && Enough(y, b) && GoodRun(y, before + after, b)
    ensures RunSys(y, before).run.st.mode.Open? ==> RunSys(y, before + after).run.st.mode.Open?
  {
    GoodRunSplits(y, before, after, b);
    EnoughKept(y, before, b);
    StaysOpenFrom(y, before, b);
    StaysOpenFrom(RunSys(y, before), after, b);
  }

  lemma {:induction false} EnoughKept(y: Sys, evs: seq<Event>, b: Bounds)
    requires Inv(y, b) && Enough(y, b) && GoodRun(y, evs, b)
    ensures Enough(RunSys(y, evs), b)
    decreases |evs|
  {
    if evs != [] {
      StepKeeps(y, evs[0], b);
      EnoughKept(Step(y, evs[0]), evs[1..], b);
    }
  }
}
