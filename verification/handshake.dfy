/** A source is open only after the sink has granted it a borrow on its own terms, whatever the
    network does and whoever else talks to the sink. */
module Handshake {
  import opened Clock
  import S = SinkSpec
  import R = SourceSpec
  import Runs = SourceRuns
  import opened SinkSteps
  import opened System

  /** The terms: frame duration and buffer length of the source. */
  ghost predicate OnTerms(g: Grant, srcEp: S.Endpoint, d: int, m: int) {
    && g.Grant? && g.after.mode.Lent? && g.after.borrower == srcEp && g.after.frameMs == d
    && g.bufferLen == m && m * g.after.frameLen <= S.PENDING_FRAMES_CAPACITY * g.after.frameLen
  }

  ghost predicate Agreed(y: Sys, d: int, m: int) {
    && y.run.st.frameMs == d && y.run.st.maxBuf == m
    && (forall i :: 0 <= i < |y.up| && y.up[i].req.AskBorrow? ==>
          y.up[i].req.frameMs == d && y.up[i].req.bufferLen == m)
    && (y.past.grant.Grant? ==> OnTerms(y.past.grant, y.srcEp, d, m))
    && (y.sink.mode.Lent? && y.sink.borrower == y.srcEp ==> y.past.grant.Grant? && y.sink.frameMs == d)
    && (forall i :: 0 <= i < |y.down| && y.down[i].notice.LentNotice? ==> y.past.grant.Grant?)
    && (y.run.st.mode.Open? ==> y.past.grant.Grant?)
  }

  ghost predicate FromReply(down: Down, rs: seq<S.Reply>, srcEp: S.Endpoint, at: int) {
    down.sentAt == at && exists r :: r in rs && r.to == srcEp && down.notice == NoticeIn(r.env.msg)
  }

  lemma {:induction false} DownsAreReplies(rs: seq<S.Reply>, srcEp: S.Endpoint, at: int)
    ensures forall down :: down in Downs(rs, srcEp, at) ==> FromReply(down, rs, srcEp, at)
  {
    if rs != [] {
      DownsAreReplies(rs[1..], srcEp, at);
      forall down | down in Downs(rs, srcEp, at)
        ensures FromReply(down, rs, srcEp, at)
      {
        if down in Downs(rs[1..], srcEp, at) {
          assert FromReply(down, rs[1..], srcEp, at);
        } else {
          assert rs[0] in rs;
        }
      }
    }
  }

  /** Who the sink tells that it is lent: the borrower of that moment. */
  ghost predicate LentOnlyTo(s: S.SinkState, out: seq<S.Reply>, srcEp: S.Endpoint, granted: bool) {
    forall r :: r in out && r.to == srcEp && r.env.msg.Lent? ==> granted || (s.mode.Lent? && s.borrower == srcEp)
  }

  lemma HandleForSource(s: S.SinkState, q: S.Request, at: int, srcEp: S.Endpoint)
    requires !s.mode.Error? && !s.hung
    ensures var t, granted := S.Handle(s, q, srcEp, at), S.Grants(s, q, srcEp);
            && (granted ==> !t.st.hung && t.st.mode.Lent? && t.st.borrower == srcEp && t.st.frameMs == q.frameMs)
            && (!granted && t.st.mode.Lent? ==>
                  s.mode.Lent? && t.st.borrower == s.borrower && t.st.frameMs == s.frameMs)
            && t.st.frameLen == s.frameLen && !t.st.mode.Error?
            && |t.out| <= 1 && (|t.out| == 1 && t.out[0].env.msg.Lent? ==> granted)
  {}

  /** What receiving leaves behind, for the source's part. */
  lemma ReceiveForSource(s: S.SinkState, d: S.Delivery, clk: S.SinkClock, srcEp: S.Endpoint)
    requires !s.mode.Error? && !s.hung
    requires d.Datagram? ==> d.sender == srcEp && |d.requests| == 1
    ensures var t, granted := S.Receive(s, d, clk), d.Datagram? && S.Grants(s, d.requests[0], srcEp);
            && (granted ==>
                  !t.st.hung && t.st.mode.Lent? && t.st.borrower == srcEp && t.st.frameMs == d.requests[0].frameMs)
            && (!granted && t.st.mode.Lent? ==>
                  s.mode.Lent? && t.st.borrower == s.borrower && t.st.frameMs == s.frameMs)
            && t.st.frameLen == s.frameLen
            && |t.out| <= 1 && (|t.out| == 1 && t.out[0].env.msg.Lent? ==> granted)
  {
    if d.Datagram? {
      HandleForSource(s, d.requests[0], clk.grant, srcEp);
      OneRequest(s, d.requests[0], srcEp, clk.grant);
      assert d.requests == [d.requests[0]];
    }
  }

  lemma TurnForSource(s: S.SinkState, d: S.Delivery, clk: S.SinkClock, srcEp: S.Endpoint)
    requires d.Datagram? ==> d.sender == srcEp && |d.requests| == 1
    ensures var t := S.Update(s, d, clk);
            var granted := d.Datagram? && !s.hung && !s.mode.Error? && S.Grants(s, d.requests[0], srcEp);
            && LentOnlyTo(s, t.out, srcEp, granted)
            && (granted ==> t.st.mode.Lent? && t.st.borrower == srcEp && t.st.frameMs == d.requests[0].frameMs
                            && t.st.frameLen == s.frameLen)
            && (!granted && t.st.mode.Lent? && t.st.borrower == srcEp ==>
                  s.mode.Lent? && s.borrower == srcEp && t.st.frameMs == s.frameMs)
  {
    if !s.mode.Error? && !s.hung {
      ReceiveForSource(s, d, clk, srcEp);
      var mid := S.Receive(s, d, clk);
      if !mid.st.hung {
        UpdateInParts(s, d, clk);
        SendReply(mid.st, clk);
      }
    }
  }

  lemma AgreedAfterSinkTurn(y: Sys, ev: Event, d: int, m: int)
    requires Agreed(y, d, m) && ev.SinkTurn? && Legal(y, ev)
    ensures Agreed(Step(y, ev), d, m)
  {
    var y' := Step(y, ev);
    var rd := Received(y, ev.pick);
    TurnForSource(y.sink, rd, ev.sclk, y.srcEp);
    var t := S.Update(y.sink, rd, ev.sclk);
    DownsAreReplies(t.out, y.srcEp, ev.sclk.lent);
    var added := Downs(t.out, y.srcEp, ev.sclk.lent);
    forall i | 0 <= i < |y'.down| && y'.down[i].notice.LentNotice?
      ensures y'.past.grant.Grant?
    {
      if i >= |y.down| {
        assert y'.down[i] == added[i - |y.down|];
        assert FromReply(y'.down[i], t.out, y.srcEp, ev.sclk.lent);
      }
    }
  }

  lemma AgreedAfterStranger(y: Sys, ev: Event, d: int, m: int)
    requires Agreed(y, d, m) && ev.SinkStranger? && Legal(y, ev)
    ensures Agreed(Step(y, ev), d, m)
  {
    var y' := Step(y, ev);
    var t := S.Update(y.sink, S.Datagram(ev.sender, ev.reqs), ev.sclk);
    StrangersUpdate(y.sink, ev.reqs, ev.sender, ev.sclk, y.srcEp);
    DownsAreReplies(t.out, y.srcEp, ev.sclk.lent);
    var added := Downs(t.out, y.srcEp, ev.sclk.lent);
    forall i | 0 <= i < |y'.down| && y'.down[i].notice.LentNotice?
      ensures y'.past.grant.Grant?
    {
      if i >= |y.down| {
        assert y'.down[i] == added[i - |y.down|];
        assert FromReply(y'.down[i], t.out, y.srcEp, ev.sclk.lent);
      }
    }
  }

  lemma AgreedAfterShow(y: Sys, ev: Event, d: int, m: int)
    requires Agreed(y, d, m) && ev.SinkShow?
    ensures Agreed(Step(y, ev), d, m)
  {
    if !S.NothingToShow(y.sink) && y.sink.origin != NULL_TIME { CatchUpKeeps(y.sink, Stamp(ev.at)); }
  }

  lemma AgreedAfterSource(y: Sys, ev: Event, d: int, m: int)
    requires Agreed(y, d, m) && (ev.SourcePoll? || ev.SourceSend?) && Legal(y, ev) && 1 <= d <= 255 && 1 <= m <= 255
    ensures Agreed(Step(y, ev), d, m)
  {
    if ev.SourcePoll? {
      var a := Arriving(y, ev.pick);
      Runs.UpdateFrame(y.run.st, a, ev.clk);
      Runs.UpdateSends(y.run.st, a, ev.clk);
      OpensOnLent(y.run.st, a, ev.clk);
    }
  }

  /** A waiting source opens only on a lent message. */
  lemma OpensOnLent(s: R.SourceState, a: R.Arrival, clk: R.SourceClock)
    requires a.Datagram? ==> |a.notices| == 1
    ensures R.Update(s, a, clk).st.mode.Open? ==> s.mode.Open? || a == R.Datagram([R.LentNotice])
  {
    if a.Datagram? {
      assert a.notices == [a.notices[0]] && a.notices[1..] == [];
      assert R.HearAll(s, a.notices, clk.recv) == R.Hear(s, a.notices[0], clk.recv);
    }
  }

  lemma AgreedStep(y: Sys, ev: Event, d: int, m: int)
    requires Agreed(y, d, m) && Legal(y, ev) && 1 <= d <= 255 && 1 <= m <= 255
    ensures Agreed(Step(y, ev), d, m)
  {
    match ev
    case SinkTurn(_, _) => AgreedAfterSinkTurn(y, ev, d, m);
    case SinkStranger(_, _, _) => AgreedAfterStranger(y, ev, d, m);
    case SinkShow(_) => AgreedAfterShow(y, ev, d, m);
    case SourcePoll(_, _, _) => AgreedAfterSource(y, ev, d, m);
    case SourceSend(_, _, _) => AgreedAfterSource(y, ev, d, m);
    case LoseUp(_) =>
    case LoseDown(_) =>
  }

  predicate LegalRun(y: Sys, evs: seq<Event>)
    decreases |evs|
  {
    evs == [] || (Legal(y, evs[0]) && LegalRun(Step(y, evs[0]), evs[1..]))
  }

  lemma {:induction false} AgreedRun(y: Sys, evs: seq<Event>, d: int, m: int)
    requires Agreed(y, d, m) && LegalRun(y, evs) && 1 <= d <= 255 && 1 <= m <= 255
    ensures Agreed(RunSys(y, evs), d, m)
    decreases |evs|
  {
    if evs != [] {
      AgreedStep(y, evs[0], d, m);
      AgreedRun(Step(y, evs[0]), evs[1..], d, m);
    }
  }

  /** In every run of the system with settings that fit into bytes: if the source is open, the
      sink has granted it a borrow, and at that moment the sink played frames of exactly the
      source's duration and had room for as many as the source buffers. While the sink is lent
      to the source, they agree on the frame duration. */
  lemma HandshakeAgreement(y: Sys, spec: R.Spec, first: int, sent: int, evs: seq<Event>)
    requires Initial(y, spec, first, sent) && FitBytes(spec) && LegalRun(y, evs)
    ensures var z, d, m := RunSys(y, evs), R.Fresh(spec).frameMs, R.Fresh(spec).maxBuf;
            && (z.run.st.mode.Open? ==> OnTerms(z.past.grant, z.srcEp, d, m))
            && (z.sink.mode.Lent? && z.sink.borrower == z.srcEp ==> z.sink.frameMs == d)
  {
    AgreedRun(y, evs, R.Fresh(spec).frameMs, R.Fresh(spec).maxBuf);
  }

  /** The same in the settings of the spec. */
  lemma HandshakeInSpec(y: Sys, spec: R.Spec, first: int, sent: int, evs: seq<Event>)
    requires Initial(y, spec, first, sent) && LegalRun(y, evs)
    requires Runs.InRange(spec) && 1 <= spec.frameMs <= 255 && 0 <= spec.maxBuf <= 255
    ensures var z, m := RunSys(y, evs), if spec.maxBuf == 0 then 16 else spec.maxBuf;
            && (z.run.st.mode.Open? ==> OnTerms(z.past.grant, z.srcEp, spec.frameMs, m))
            && (z.sink.mode.Lent? && z.sink.borrower == z.srcEp ==> z.sink.frameMs == spec.frameMs)
  {
    Runs.SettingsOfSpec(spec);
    HandshakeAgreement(y, spec, first, sent, evs);
  }
}
