/** One source, one sink, and the network between them. Calls of the two endpoints interleave;
    datagrams may be lost, duplicated and reordered, and strangers may talk to the sink. */
module System {
  import opened Pattern
  import opened Wire
  import S = SinkSpec
  import R = SourceSpec
  import Runs = SourceRuns
  import opened SinkSteps
  import Sinks = SinkObject
  import Sources = SourceObject

  /** A datagram on its way to the sink, with the true number of the frame in it, if any. */
  datatype Up = Up(seqNo: int, req: S.Request)

  /** A datagram on its way to the source, and when it was sent. */
  datatype Down = Down(sentAt: int, notice: R.Notice)

  /** What a call receives: nothing, or one datagram in flight, which may stay in flight. */
  datatype Pick = Miss | Take(index: nat, keep: bool)

  datatype Event =
    | SinkTurn(pick: Pick, sclk: S.SinkClock)
    | SinkStranger(sender: S.Endpoint, reqs: seq<S.Request>, sclk: S.SinkClock)
    | SinkShow(at: int)
    | SourcePoll(pick: Pick, clk: R.SourceClock, forPut: bool)
    | SourceSend(tm: R.PutClock, frame: seq<byte>, sendOk: bool)
    | LoseUp(index: nat)
    | LoseDown(index: nat)

  datatype Grant = NoGrant | Grant(after: S.SinkState, bufferLen: nat)

  /** What an observer of the run remembers. Since the last borrow granted to the source: frames
      enqueued, frames shown, and when the first was shown. Then: one more than the highest
      frame number that reached the sink, when frames were last asked for and whether that was
      since the last update, when the last update of the sink began, when it last sent that it
      is lent, when the source last heard that, and the last grant to the source. */
  datatype Past = Past(
    frames: int,
    shown: nat,
    firstShow: int,
    heard: nat,
    lastGet: int,
    asked: bool,
    sinkStart: int,
    lastSend: int,
    lastLent: int,
    grant: Grant)

  datatype Sys = Sys(
    now: int,
    sink: S.SinkState,
    run: Runs.Run,
    srcEp: S.Endpoint,
    up: seq<Up>,
    down: seq<Down>,
    past: Past)

  function Without<T>(ch: seq<T>, i: nat): seq<T>
    requires i < |ch|
  {
    ch[..i] + ch[i + 1..]
  }

  function After<T>(ch: seq<T>, pick: Pick): seq<T> {
    if pick.Miss? || pick.keep || pick.index >= |ch| then ch else Without(ch, pick.index)
  }

  predicate Fits(pick: Pick, n: nat) {
    pick.Take? ==> pick.index < n
  }

  // ----- What travels -----

  /** What the sink makes of a message of the source. */
  function RequestIn(e: Env): S.Request {
    match e.msg
    case Borrow(d, n) => S.AskBorrow(e.id, d, n)
    case Enqueue(idx, frame) => S.AskEnqueue(e.id, idx, frame)
    case _ => S.Unexpected(e.id)
  }

  function NoticeIn(m: Msg): R.Notice {
    if m.Lent? then R.LentNotice else R.Trouble
  }

  function RequestsIn(es: seq<Env>): seq<S.Request> {
    seq(|es|, i requires 0 <= i < |es| => RequestIn(es[i]))
  }

  function NoticesIn(es: seq<Env>): seq<R.Notice> {
    seq(|es|, i requires 0 <= i < |es| => NoticeIn(es[i].msg))
  }

  lemma MeaningOfFirst(es: seq<Env>)
    requires es != []
    ensures RequestsIn(es) == [RequestIn(es[0])] + RequestsIn(es[1..])
    ensures NoticesIn(es) == [NoticeIn(es[0].msg)] + NoticesIn(es[1..])
  {}

  /** A message that fits into the receive buffer of the sink. */
  predicate FitsSink(m: Msg) {
    m.Enqueue? ==> |m.frame| <= 1016
  }

  lemma ReadingFirst(e: Env, rest: seq<byte>)
    requires Sendable(e.msg) && Framed(rest) && Sinks.AllReadable(rest) && Sources.AllReadable(rest)
    ensures var data := Encode(e) + rest;
            && Framed(data) && Sinks.AllReadable(data) && Sources.AllReadable(data)
            && S.RequestsOf(Split(data)) == [RequestIn(e)] + S.RequestsOf(Split(rest))
            && R.NoticesOf(Split(data)) == [NoticeIn(e.msg)] + R.NoticesOf(Split(rest))
  {
    var r, rs := ToRaw(e), Split(rest);
    FirstRoundTrip(e, rest);
    assert ([r] + rs)[1..] == rs;
    assert S.RequestOf(r) == RequestIn(e) && R.NoticeOf(r) == NoticeIn(e.msg);
  }

  /** What the two endpoints read in one datagram that holds the messages `es`. */
  lemma {:induction false} ReadingPrinted(es: seq<Env>)
    requires forall e :: e in es ==> Sendable(e.msg)
    ensures var data := EncodeAll(es);
            && Framed(data) && Sinks.AllReadable(data) && Sources.AllReadable(data)
            && S.RequestsOf(Split(data)) == RequestsIn(es)
            && R.NoticesOf(Split(data)) == NoticesIn(es)
  {
    if es != [] {
      MeaningOfFirst(es);
      ReadingPrinted(es[1..]);
      ReadingFirst(es[0], EncodeAll(es[1..]));
    }
  }

  /** A datagram of any messages is read by a sink, if it fits into 1024 bytes, as these messages
      in this order, and by a source, if it fits into 32, as lent messages or trouble. */
  lemma DatagramUnderstood(es: seq<Env>, peer: S.Endpoint)
    requires forall e :: e in es ==> Sendable(e.msg)
    ensures var data := EncodeAll(es);
            && (|data| <= 1024 ==>
                  && Sinks.SinkCanRead(data)
                  && Sinks.DeliveryOf(Sinks.Incoming(Sinks.Packet(peer, data)))
                  == S.Datagram(peer, RequestsIn(es)))
            && (|data| <= 32 ==>
                  && Sources.SourceCanRead(Sources.Incoming(data))
                  && Sources.ArrivalOf(Sources.Incoming(data))
                  == R.Datagram(NoticesIn(es)))
  {
    ReadingPrinted(es);
  }

  /** On the wire and back, a message is understood as meant: which request a sink, and which
      notice a source, makes of the bytes of each kind of message. */
  lemma UnderstoodAsMeant(e: Env, peer: S.Endpoint)
    requires e.msg.Enqueue? ==> |e.msg.frame| <= 1016
    ensures Sendable(e.msg) && Sinks.SinkCanRead(Encode(e))
    ensures var d := Sinks.DeliveryOf(Sinks.Incoming(Sinks.Packet(peer, Encode(e))));
            && (e.msg.Borrow? ==> d == S.Datagram(peer, [S.AskBorrow(e.id, e.msg.frameLength, e.msg.bufferLength)]))
            && (e.msg.Enqueue? ==> d == S.Datagram(peer, [S.AskEnqueue(e.id, e.msg.idx, e.msg.frame)]))
            && (e.msg.Lent? || e.msg.Fail? ==> d == S.Datagram(peer, [S.Unexpected(e.id)]))
            && d == S.Datagram(peer, [RequestIn(e)])
    ensures !e.msg.Enqueue? ==>
              && Sources.SourceCanRead(Sources.Incoming(Encode(e)))
              && Sources.ArrivalOf(Sources.Incoming(Encode(e)))
              == R.Datagram([if e.msg.Lent? then R.LentNotice else R.Trouble])
  {
    assert EncodeAll([e]) == Encode(e) by {
      assert [e][1..] == [];
      assert Encode(e) + EncodeAll([]) == Encode(e);
    }
    DatagramUnderstood([e], peer);
    assert RequestsIn([e]) == [RequestIn(e)] && NoticesIn([e]) == [NoticeIn(e.msg)];
  }

  function Ups(es: seq<Env>, puts: nat): seq<Up> {
    seq(|es|, i requires 0 <= i < |es| => Up(if es[i].msg.Enqueue? then puts else -1, RequestIn(es[i])))
  }

  /** The replies that go to the source. */
  function Downs(rs: seq<S.Reply>, srcEp: S.Endpoint, at: int): seq<Down> {
    if rs == [] then []
    else (if rs[0].to == srcEp then [Down(at, NoticeIn(rs[0].env.msg))] else []) + Downs(rs[1..], srcEp, at)
  }

  // ----- Steps -----

  /** The request taken from the network, if any. */
  function Received(y: Sys, pick: Pick): S.Delivery {
    if pick.Take? && pick.index < |y.up| then S.Datagram(y.srcEp, [y.up[pick.index].req]) else S.Nothing
  }

  predicate GrantsTo(y: Sys, pick: Pick) {
    pick.Take? && pick.index < |y.up| && !y.sink.hung && !y.sink.mode.Error?
    && S.Grants(y.sink, y.up[pick.index].req, y.srcEp)
  }

  function SentLentAt(y: Sys, pick: Pick, clk: S.SinkClock): int {
    var mid := S.Receive(y.sink, Received(y, pick), clk).st;
    if S.Send(mid, clk).out != [] then clk.lent
    else if GrantsTo(y, pick) then clk.grant
    else y.past.lastSend
  }

  function AfterSinkTurn(y: Sys, pick: Pick, clk: S.SinkClock): Sys {
    var t := S.Update(y.sink, Received(y, pick), clk);
    var granted := GrantsTo(y, pick);
    y.(now := clk.lent, sink := t.st, up := After(y.up, pick), down := y.down + Downs(t.out, y.srcEp, clk.lent),
       past := y.past.(
         frames := if granted then 0 else y.past.frames + |t.st.queue| - |y.sink.queue|,
         shown := if granted then 0 else y.past.shown,
         heard := if pick.Take? && pick.index < |y.up| then Max(y.past.heard, y.up[pick.index].seqNo + 1)
                  else y.past.heard,
         asked := false,
         sinkStart := clk.grant,
         lastSend := SentLentAt(y, pick, clk),
         grant := if granted then Grant(t.st, y.up[pick.index].req.bufferLen) else y.past.grant))
  }

  function AfterStranger(y: Sys, sender: S.Endpoint, reqs: seq<S.Request>, clk: S.SinkClock): Sys {
    var t := S.Update(y.sink, S.Datagram(sender, reqs), clk);
    var mid := S.Receive(y.sink, S.Datagram(sender, reqs), clk).st;
    y.(now := clk.lent, sink := t.st, down := y.down + Downs(t.out, y.srcEp, clk.lent),
       past := y.past.(
         asked := false,
         sinkStart := clk.grant,
         lastSend := if S.Send(mid, clk).out != [] then clk.lent else y.past.lastSend))
  }

  function AfterShow(y: Sys, at: int): Sys {
    if y.sink.hung then y.(now := at)
    else
      var s' := S.Show(y.sink, at);
      var k := if |s'.queue| < |y.sink.queue| then |y.sink.queue| - |s'.queue| else 0;
      y.(now := at, sink := s',
         past := y.past.(shown := y.past.shown + k,
                         firstShow := if y.past.shown == 0 && k > 0 then at else y.past.firstShow,
                         lastGet := at, asked := true))
  }

  function Arriving(y: Sys, pick: Pick): R.Arrival {
    if pick.Take? && pick.index < |y.down| then R.Datagram([y.down[pick.index].notice]) else R.Nothing
  }

  function AfterPoll(y: Sys, pick: Pick, clk: R.SourceClock, forPut: bool): Sys {
    var a := Arriving(y, pick);
    var t := R.Update(y.run.st, a, clk);
    y.(now := clk.check, run := Runs.Step(y.run, Runs.Poll(a, clk, forPut)),
       up := y.up + Ups(t.out, y.run.puts), down := After(y.down, pick),
       past := y.past.(lastLent := if a == R.Datagram([R.LentNotice]) && !y.run.st.mode.Error? then clk.recv
                                   else y.past.lastLent))
  }

  function AfterSend(y: Sys, tm: R.PutClock, frame: seq<byte>, sendOk: bool): Sys {
    if !y.run.pending then y
    else
      var p := R.SendFrame(y.run.st, frame, sendOk, tm.stamp);
      y.(now := tm.stamp, run := Runs.Step(y.run, Runs.SendOff(tm, frame, sendOk)),
         up := y.up + Ups(p.out, y.run.puts))
  }

  function Step(y: Sys, ev: Event): Sys {
    match ev
    case SinkTurn(pick, clk) => AfterSinkTurn(y, pick, clk)
    case SinkStranger(sender, reqs, clk) => AfterStranger(y, sender, reqs, clk)
    case SinkShow(at) => AfterShow(y, at)
    case SourcePoll(pick, clk, forPut) => AfterPoll(y, pick, clk, forPut)
    case SourceSend(tm, frame, sendOk) => AfterSend(y, tm, frame, sendOk)
    case LoseUp(i) => if i < |y.up| then y.(up := Without(y.up, i)) else y
    case LoseDown(i) => if i < |y.down| then y.(down := Without(y.down, i)) else y
  }

  function RunSys(y: Sys, evs: seq<Event>): Sys
    decreases |evs|
  {
    if evs == [] then y else RunSys(Step(y, evs[0]), evs[1..])
  }

  predicate InTime(now: int, clk: S.SinkClock) {
    now <= clk.grant <= clk.recv <= clk.check <= clk.lent
  }

  /** Clocks run forward, strangers are not the source, sleeps last as long as asked, and frames
      fit into the receive buffer of the sink. */
  predicate Legal(y: Sys, ev: Event) {
    match ev
    case SinkTurn(pick, clk) => Fits(pick, |y.up|) && InTime(y.now, clk)
    case SinkStranger(sender, _, clk) => sender != y.srcEp && InTime(y.now, clk)
    case SinkShow(at) => y.now <= at
    case SourcePoll(pick, clk, forPut) =>
      Fits(pick, |y.down|) && y.now <= clk.recv && Runs.Timely(y.run, Runs.Poll(Arriving(y, pick), clk, forPut))
    case SourceSend(tm, frame, sendOk) =>
      FitsSink(Enqueue(0, frame)) && y.now <= tm.stamp && Runs.Timely(y.run, Runs.SendOff(tm, frame, sendOk))
    case LoseUp(i) => i < |y.up|
    case LoseDown(i) => i < |y.down|
  }

  /** A sink that nobody has talked to and a source that has just sent its first borrow. */
  predicate Initial(y: Sys, spec: R.Spec, first: int, sent: int) {
    && first <= sent == y.now
    && y.run == Runs.Begin(spec, first, sent)
    && y.up == Ups(R.Make(spec, true, true, first, sent).out, 0) && y.down == []
    && y.sink.mode.Open? && y.sink.queue == [] && !y.sink.hung && y.sink.frameLen > 0 && S.IdxInRange(y.sink)
    && y.past.frames == 0 && y.past.shown == 0 && y.past.heard == 0 && y.past.grant.NoGrant?
  }

  /** The sink is lent to the source and does not hang. */
  predicate Ours(y: Sys) {
    y.sink.mode.Lent? && y.sink.borrower == y.srcEp && !y.sink.hung
  }

  /** The settings of the source fit into the bytes of a borrow message. */
  predicate FitBytes(spec: R.Spec) {
    1 <= R.Fresh(spec).frameMs <= 255 && 1 <= R.Fresh(spec).maxBuf <= 255
  }

  // ----- What is handed to the sockets -----

  /** The packet, from the endpoint `from`, is read by the sink as the one request `q`. */
  predicate ReachesSinkAs(packet: seq<byte>, from: S.Endpoint, q: S.Request) {
    && Sinks.SinkCanRead(packet)
    && Sinks.DeliveryOf(Sinks.Incoming(Sinks.Packet(from, packet))) == S.Datagram(from, [q])
  }

  /** The packet is read by a source as the one notice `n`. */
  predicate ReachesSourceAs(packet: seq<byte>, n: R.Notice) {
    && Sources.SourceCanRead(Sources.Incoming(packet))
    && Sources.ArrivalOf(Sources.Incoming(packet)) == R.Datagram([n])
  }

  /** The packets of a source, one for each message and in their order: a borrow with its terms,
      an enqueue with its index and its whole frame, each under its id. */
  lemma PacketsOfSource(es: seq<Env>, from: S.Endpoint)
    ensures |Sources.PacketsOf(es)| == |es|
    ensures forall i :: 0 <= i < |es| && Sendable(es[i].msg) ==> Sources.PacketsOf(es)[i] == Encode(es[i])
    ensures forall i :: 0 <= i < |es| && es[i].msg.Borrow? ==>
              ReachesSinkAs(Sources.PacketsOf(es)[i], from,
                            S.AskBorrow(es[i].id, es[i].msg.frameLength, es[i].msg.bufferLength))
    ensures forall i :: 0 <= i < |es| && es[i].msg.Enqueue? && |es[i].msg.frame| <= 1016 ==>
              ReachesSinkAs(Sources.PacketsOf(es)[i], from, S.AskEnqueue(es[i].id, es[i].msg.idx, es[i].msg.frame))
  {
    forall i | 0 <= i < |es| && FitsSink(es[i].msg)
      ensures ReachesSinkAs(Sources.PacketsOf(es)[i], from, RequestIn(es[i]))
    {
      UnderstoodAsMeant(es[i], from);
    }
  }

  /** The packets of a sink, one for each reply and in their order, each to the endpoint the reply
      is for; a source reads a lent message as such and a refusal as trouble. */
  lemma PacketsOfSink(rs: seq<S.Reply>)
    requires forall i :: 0 <= i < |rs| ==> rs[i].env.msg.Lent? || rs[i].env.msg.Fail?
    ensures |Sinks.PacketsOf(rs)| == |rs|
    ensures forall i :: 0 <= i < |rs| ==>
              && Sinks.PacketsOf(rs)[i].peer == rs[i].to
              && ReachesSourceAs(Sinks.PacketsOf(rs)[i].data, if rs[i].env.msg.Lent? then R.LentNotice else R.Trouble)
              && Sinks.PacketsOf(rs)[i].data == Encode(rs[i].env)
  {
    forall i | 0 <= i < |rs|
      ensures ReachesSourceAs(Sinks.PacketsOf(rs)[i].data, if rs[i].env.msg.Lent? then R.LentNotice else R.Trouble)
    {
      UnderstoodAsMeant(rs[i].env, rs[i].to);
    }
  }

  /** The sink says nothing but that it is lent, or that something failed. */
  lemma SaysLentOrFail(s: S.SinkState, d: S.Delivery, clk: S.SinkClock, i: nat)
    requires i < |S.Update(s, d, clk).out|
    ensures S.Update(s, d, clk).out[i].env.msg.Lent? || S.Update(s, d, clk).out[i].env.msg.Fail?
  {
    var got := S.Receive(s, d, clk);
    SendReply(got.st, clk);
    if d.Datagram? {
      var t := S.HandleAll(s, d.requests, d.sender, clk.grant);
      RepliesNameTheirCause(s, d.requests, d.sender, clk.grant);
      if i < |t.out| {
        var who := Causes(s, d.requests, d.sender, clk.grant);
        assert Answers(t.out[i], d.requests[who[i]], d.sender);
      }
    }
  }

  /** What an update of the sink hands to its socket, one packet for each reply: the endpoint it is
      for, and what a source reads in it, which is what travels in this model. */
  lemma SinkIsUnderstood(s: S.SinkState, d: S.Delivery, clk: S.SinkClock)
    ensures var out := S.Update(s, d, clk).out;
            var packets := Sinks.PacketsOf(out);
            && |packets| == |out|
            && forall i :: 0 <= i < |out| ==>
                 packets[i].peer == out[i].to && ReachesSourceAs(packets[i].data, NoticeIn(out[i].env.msg))
  {
    var out := S.Update(s, d, clk).out;
    forall i | 0 <= i < |out|
      ensures out[i].env.msg.Lent? || out[i].env.msg.Fail?
    {
      SaysLentOrFail(s, d, clk, i);
    }
    PacketsOfSink(out);
  }

  /** What a step of the source hands to its socket, one packet for each message, is read by the
      sink as what the step adds to the channel. */
  lemma SourceIsUnderstood(y: Sys, ev: Event)
    requires Legal(y, ev) && (ev.SourcePoll? || (ev.SourceSend? && y.run.pending))
    ensures var out := if ev.SourcePoll? then R.Update(y.run.st, Arriving(y, ev.pick), ev.clk).out
                       else R.SendFrame(y.run.st, ev.frame, ev.sendOk, ev.tm.stamp).out;
            var packets, added := Sources.PacketsOf(out), Ups(out, y.run.puts);
            && Step(y, ev).up == y.up + added && |packets| == |added|
            && forall i :: 0 <= i < |packets| ==> ReachesSinkAs(packets[i], y.srcEp, added[i].req)
  {
    var out := if ev.SourcePoll? then R.Update(y.run.st, Arriving(y, ev.pick), ev.clk).out
               else R.SendFrame(y.run.st, ev.frame, ev.sendOk, ev.tm.stamp).out;
    if ev.SourcePoll? { Runs.UpdateSends(y.run.st, Arriving(y, ev.pick), ev.clk); }
    PacketsOfSource(out, y.srcEp);
  }
}
