/** The sink as it is run: one object whose fields the handlers update in place. The socket is
    represented by what has been handed to it, and a call receives its datagram and its
    readings of the clock as arguments. */
module SinkObject {
  import opened Arithmetic
  import opened Clock
  import opened Pattern
  import opened Wire
  import opened Iter
  import opened Builder
  import RingSpec
  import opened Ring
  import opened SinkSpec
  import opened SinkSteps

  const RECV_BUF_LEN: nat := 1024
  const COLOR_CHANNEL_COUNT: nat := 3

  /** A datagram: the other endpoint and the bytes. */
  datatype Packet = Packet(peer: Endpoint, data: seq<byte>)

  datatype Incoming = NoPacket | Incoming(packet: Packet)

  function PacketOf(r: Reply): Packet {
    Packet(r.to, if Sendable(r.env.msg) then Encode(r.env) else [])
  }

  function PacketsOf(rs: seq<Reply>): seq<Packet> {
    seq(|rs|, i requires 0 <= i < |rs| => PacketOf(rs[i]))
  }

  /** The sink asserts no more of a datagram than this. */
  predicate SinkCanRead(data: seq<byte>) {
    |data| <= RECV_BUF_LEN && Framed(data) && AllReadable(data)
  }

  predicate AllReadable(data: seq<byte>)
    requires Framed(data)
  {
    forall r :: r in Split(data) ==> Readable(r)
  }

  function DeliveryOf(i: Incoming): Delivery
    requires i.Incoming? ==> SinkCanRead(i.packet.data)
  {
    if i.NoPacket? then Nothing else Datagram(i.packet.peer, RequestsOf(Split(i.packet.data)))
  }

  /** A ring of the fixed capacity holds exactly the frames of `q`. */
  ghost predicate Holds(r: RingSpec.Image, F: nat, q: seq<Frame>) {
    && RingSpec.Aligned(r, F)
    && |r.buf| / F == PENDING_FRAMES_CAPACITY
    && RingSpec.Frames(r, F) == q
  }

  class Sink {
    const bigEndian: bool
    const frameLen: nat
    const recvBuf: array<byte>
    const currentFrame: array<byte>
    const receivedFrame: array<byte>
    const pendingFrames: MemRing
    const builder: MsgBuilder

    var mode: Mode
    var borrower: Endpoint
    var frameMs: u32
    var origin: u32
    var lastIdx: int
    var lastRecv: u32
    var lastSendLent: u32
    var sent: seq<Packet>

    /** The frames held by the ring, oldest first. */
    ghost var queue: seq<Frame>

    ghost function Repr(): set<object>
      reads this, builder, builder.msgBuf
    {
      {this, recvBuf, currentFrame, receivedFrame, pendingFrames, pendingFrames.buf} + builder.Repr()
    }

    /** A buffer of the sink is shared with neither the ring nor the builder. */
    ghost predicate Apart(a: array<byte>)
      reads builder.msgBuf
    {
      a != pendingFrames.buf && a != builder.msgBuf.data
    }

    ghost predicate Valid()
      reads this, builder, builder.msgBuf, pendingFrames, pendingFrames.buf
    {
      && builder.Valid() && pendingFrames.Valid()
      && frameLen > 0 && currentFrame.Length == receivedFrame.Length == frameLen
      && recvBuf.Length == RECV_BUF_LEN
      && pendingFrames.buf.Length == PENDING_FRAMES_CAPACITY * frameLen
      && Holds(pendingFrames.State(), frameLen, queue)
      && Apart(currentFrame) && Apart(receivedFrame) && Apart(recvBuf)
      && currentFrame != receivedFrame && currentFrame != recvBuf && receivedFrame != recvBuf
      && pendingFrames.buf != builder.msgBuf.data
      && -1 <= lastIdx < 256
    }

    ghost function Model(): SinkState
      reads this, builder, currentFrame
    {
      SinkState(mode, borrower, frameLen, frameMs, queue, currentFrame[..], origin, lastIdx, lastRecv,
                lastSendLent, builder.nextMsgId, false)
    }

    /** `socketOk` tells whether the socket could be bound to its port. */
    constructor (lightsCount: nat, socketOk: bool, bigEndian: bool)
      requires lightsCount >= 1 && lightsCount * COLOR_CHANNEL_COUNT + 10 < RECV_BUF_LEN
      ensures Valid() && fresh(Repr()) && sent == []
      ensures recvBuf.Length == 1024 && pendingFrames.buf.Length == 128 * (lightsCount * 3)
      ensures Model() == SinkState(if socketOk then Open else Error, Endpoint(0, 0), lightsCount * 3, 0, [],
                                   currentFrame[..], 0, 0, 0, 0, 0, false)
    {
      this.bigEndian := bigEndian;
      var n := lightsCount * COLOR_CHANNEL_COUNT;
      frameLen := n;
      recvBuf := new byte[RECV_BUF_LEN];
      currentFrame := new byte[n];
      receivedFrame := new byte[n];
      pendingFrames := new MemRing(n * PENDING_FRAMES_CAPACITY);
      builder := new MsgBuilder();
      mode := if socketOk then Open else Error;
      borrower := Endpoint(0, 0);
      frameMs, origin, lastIdx, lastRecv, lastSendLent := 0, 0, 0, 0, 0;
      sent, queue := [], [];
      Residue(PENDING_FRAMES_CAPACITY, 0, n);
      Residue(0, 0, n);
    }

    // ----- Sending -----

    method SendFailTo(id: u16, code: byte, to: Endpoint)
      requires Valid()
      modifies `sent, builder.Repr()
      ensures Valid() && builder.Kept()
      ensures var t := Say(old(Model()), to, Fail(id, code));
              Model() == t.st && sent == old(sent) + PacketsOf(t.out)
    {
      builder.Fail(id, code);
      sent := sent + [Packet(to, builder.msgBuf.data[..builder.msgBuf.size])];
    }

    method SendLent(at: int)
      requires Valid()
      modifies `sent, `lastSendLent, builder.Repr()
      ensures Valid() && builder.Kept()
      ensures var t := SinkSpec.SayLent(old(Model()), at);
              Model() == t.st && sent == old(sent) + PacketsOf(t.out)
    {
      builder.Lent();
      sent := sent + [Packet(borrower, builder.msgBuf.data[..builder.msgBuf.size])];
      lastSendLent := Stamp(at);
    }

    // ----- Handling messages -----

    method RefuseBorrow(id: u16, code: byte, sender: Endpoint)
      requires Valid() && (mode == Open || mode == Mode.Lent)
      modifies `sent, `mode, builder.Repr()
      ensures Valid() && builder.Kept()
      ensures var t := Say(old(Model()), sender, Fail(id, code));
              Model() == t.st.(mode := Open) && sent == old(sent) + PacketsOf(t.out)
    {
      SendFailTo(id, code, sender);
      if mode == Mode.Lent { mode := Open; }
    }

    method GrantBorrow(length: byte, sender: Endpoint, at: int)
      requires Valid()
      modifies this, builder.Repr()
      ensures Valid() && builder.Kept()
      ensures var t := SinkSpec.SayLent(Borrowed(old(Model()), length, sender), at);
              Model() == t.st && sent == old(sent) + PacketsOf(t.out)
    {
      borrower := sender;
      frameMs := length;
      origin := NULL_TIME;
      lastIdx := -1;
      lastRecv := NULL_TIME;
      mode := Mode.Lent;
      SendLent(at);
    }

    method HandleBorrow(id: u16, length: byte, bufferLen: byte, sender: Endpoint, at: int)
      requires Valid()
      modifies this, builder.Repr()
      ensures Valid() && builder.Kept()
      ensures var t := SinkSpec.HandleBorrow(old(Model()), id, length, bufferLen, sender, at);
              Model() == t.st && sent == old(sent) + PacketsOf(t.out)
    {
      if mode == Open || (mode == Mode.Lent && sender == borrower) {
        if bufferLen * frameLen > pendingFrames.buf.Length {
          RefuseBorrow(id, REQUESTED_BUFFER_TOO_LARGE, sender);
        } else if length < FRAME_LENGTH_MS_MIN {
          RefuseBorrow(id, REQUESTED_FRAME_DURATION_TOO_SHORT, sender);
        } else {
          GrantBorrow(length, sender, at);
        }
      } else if mode == Mode.Lent {
        SendFailTo(id, LENT_TO_OTHER_SOURCE, sender);
      }
    }

    /** Enqueues the frame found in the receive buffer once. */
    method Enqueue(off: nat, len: nat)
      requires Valid() && off + len <= recvBuf.Length && len > 0
      modifies `lastIdx, `queue, receivedFrame, pendingFrames, pendingFrames.buf
      ensures Valid()
      ensures Model() == EnqueueOnce(old(Model()), recvBuf[off..off + len])
    {
      FillWithPattern(receivedFrame, recvBuf, off, len);
      assert receivedFrame[..frameLen] == receivedFrame[..];
      RingSpec.EnqueueRefines(pendingFrames.State(), frameLen, receivedFrame[..]);
      var ok := pendingFrames.Enqueue(receivedFrame, frameLen);
      if ok {
        lastIdx := (lastIdx + 1) % 256;
        queue := queue + [receivedFrame[..]];
      }
    }

    /** Copies of the frame are enqueued until the last index is the frame's own. A frame that
        would skip more than 128 is out of order and dropped. */
    method FillGap(frameIdx: byte, off: nat, len: nat)
      requires Valid() && off + len <= recvBuf.Length && len > 0
      requires !Admit(Model(), frameIdx, recvBuf[off..off + len]).hung
      modifies `lastIdx, `queue, receivedFrame, pendingFrames, pendingFrames.buf
      ensures Valid() && Model() == Admit(old(Model()), frameIdx, recvBuf[off..off + len])
    {
      var diff := Gap(lastIdx, frameIdx);
      if diff > 128 { return; }
      ghost var s, frame := Model(), recvBuf[off..off + len];
      ghost var n := 0;
      AfterRounds(s, frameIdx, frame, 0);
      while diff > 0
        invariant Valid() && 0 <= n <= Gap(s.lastIdx, frameIdx)
        invariant Model() == Rounds(s, frame, n)
        invariant diff == Gap(lastIdx, frameIdx) == Gap(s.lastIdx, frameIdx) - n
        decreases diff
      {
        Enqueue(off, len);
        diff := Gap(lastIdx, frameIdx);
        n := n + 1;
        AfterRounds(s, frameIdx, frame, n);
      }
      RoundsCloseGap(s, frameIdx, frame);
    }

    method HandleEnqueue(id: u16, frameIdx: byte, off: nat, len: nat, sender: Endpoint)
      requires Valid() && off + len <= recvBuf.Length
      requires !SinkSpec.HandleEnqueue(Model(), id, frameIdx, recvBuf[off..off + len], sender).st.hung
      modifies this, builder.Repr(), receivedFrame, pendingFrames, pendingFrames.buf
      ensures Valid() && builder.Kept()
      ensures var t := SinkSpec.HandleEnqueue(old(Model()), id, frameIdx, recvBuf[off..off + len], sender);
              Model() == t.st && sent == old(sent) + PacketsOf(t.out)
    {
      if mode == Error {
        return;
      } else if mode == Open {
        SendFailTo(id, NOT_BORROWED, sender);
      } else if len < 3 {
        SendFailTo(id, BAD_MSG, sender);
        mode := Open;
      } else if sender == borrower {
        FillGap(frameIdx, off, len);
      } else {
        SendFailTo(id, LENT_TO_OTHER_SOURCE, sender);
      }
    }

    /** Dispatches on the type of the selected message. */
    method HandleMsg(it: MsgIter, sender: Endpoint, at: int)
      requires Valid() && it.Valid() && it.HasMsg() && it.buf == recvBuf
      requires Readable(First(it.Rest()))
      requires !Handle(Model(), RequestOf(First(it.Rest())), sender, at).st.hung
      modifies this, builder.Repr(), receivedFrame, pendingFrames, pendingFrames.buf
      ensures Valid() && builder.Kept()
      ensures var t := Handle(old(Model()), RequestOf(First(old(it.Rest()))), sender, at);
              Model() == t.st && sent == old(sent) + PacketsOf(t.out)
    {
      var tag, id := it.Type(), it.MsgId();
      if tag == BORROW_TAG {
        HandleBorrow(id, it.BorrowFrameLength(), it.BorrowBufferLength(), sender, at);
      } else if tag == ENQUEUE_TAG {
        var frame := it.EnqueueFrame();
        HandleEnqueue(id, it.EnqueueFrameIdx(), frame.0, frame.1, sender);
      } else {
        SendFailTo(id, BAD_MSG, sender);
      }
    }

    /** One round of the byte loop: the selected message is handled and the next one selected. */
    method HandleAndAdvance(it: MsgIter, sender: Endpoint, at: int, ghost whole: Turn, ghost done: seq<Reply>,
                            ghost base: seq<Packet>) returns (ghost done': seq<Reply>)
      requires Valid() && it.Valid() && it.HasMsg() && it.buf == recvBuf
      requires Remaining(whole, Model(), it.Rest(), sender, at, done) && sent == base + PacketsOf(done)
      modifies this, it, builder.Repr(), receivedFrame, pendingFrames, pendingFrames.buf
      ensures Valid() && builder.Kept() && it.Valid() && it.start > old(it.start)
      ensures Remaining(whole, Model(), it.Rest(), sender, at, done') && sent == base + PacketsOf(done')
    {
      ghost var s := Model();
      ghost var rest := it.Rest();
      FoldOne(whole, s, rest, sender, at, done);
      HandleMsg(it, sender, at);
      it.Next();
      ghost var out := Handle(s, RequestOf(First(rest)), sender, at).out;
      PacketsAppend(base, done, out);
      done' := done + out;
    }

    method HandleRest(it: MsgIter, sender: Endpoint, at: int, ghost whole: Turn)
      requires Valid() && it.Valid() && it.buf == recvBuf
      requires Remaining(whole, Model(), it.Rest(), sender, at, [])
      modifies this, it, builder.Repr(), receivedFrame, pendingFrames, pendingFrames.buf
      ensures Valid() && builder.Kept()
      ensures Model() == whole.st && sent == old(sent) + PacketsOf(whole.out)
    {
      ghost var base, done: seq<Reply> := sent, [];
      assert sent == base + PacketsOf(done);
      while it.HasMsg()
        invariant Valid() && builder.Kept() && it.Valid()
        invariant Remaining(whole, Model(), it.Rest(), sender, at, done) && sent == base + PacketsOf(done)
        decreases it.end - it.start
      {
        done := HandleAndAdvance(it, sender, at, whole, done, base);
      }
      NothingRemains(whole, Model(), it.Rest(), sender, at, done);
    }

    /** The byte loop over the receive buffer is a fold over the messages it holds. */
    method IterateRecvBuf(n: nat, sender: Endpoint, at: int)
      requires Valid() && n <= recvBuf.Length && SinkCanRead(recvBuf[..n])
      requires !HandleAll(Model(), RequestsOf(Split(recvBuf[..n])), sender, at).st.hung
      modifies this, builder.Repr(), receivedFrame, pendingFrames, pendingFrames.buf
      ensures Valid() && builder.Kept()
      ensures var t := HandleAll(old(Model()), RequestsOf(Split(old(recvBuf[..n]))), sender, at);
              Model() == t.st && sent == old(sent) + PacketsOf(t.out)
    {
      ghost var whole := HandleAll(Model(), RequestsOf(Split(recvBuf[..n])), sender, at);
      var it := new MsgIter(recvBuf, n, bigEndian);
      AllRemains(whole, Model(), it.Rest(), sender, at);
      HandleRest(it, sender, at, whole);
    }

    // ----- Updating -----

    method FillRecvBuf(data: seq<byte>)
      requires |data| <= recvBuf.Length
      modifies recvBuf
      ensures recvBuf[..|data|] == data
    {
      forall i | 0 <= i < |data| {
        recvBuf[i] := data[i];
      }
    }

    method Receive(i: Incoming, clk: SinkClock)
      requires Valid() && (i.Incoming? ==> SinkCanRead(i.packet.data))
      requires !SinkSpec.Receive(Model(), DeliveryOf(i), clk).st.hung
      modifies this, builder.Repr(), receivedFrame, recvBuf, pendingFrames, pendingFrames.buf
      ensures Valid() && builder.Kept()
      ensures var t := SinkSpec.Receive(old(Model()), DeliveryOf(i), clk);
              Model() == t.st && sent == old(sent) + PacketsOf(t.out)
    {
      if i.Incoming? {
        FillRecvBuf(i.packet.data);
        IterateRecvBuf(|i.packet.data|, i.packet.peer, clk.grant);
        lastRecv := Stamp(clk.recv);
      } else if mode == Mode.Lent && Elapsed(Stamp(clk.recv), lastRecv) > DROP_TIMEOUT {
        SendFailTo(0, TIMEOUT, borrower);
        mode := Open;
      }
    }

    method Send(clk: SinkClock)
      requires Valid()
      modifies `sent, `lastSendLent, builder.Repr()
      ensures Valid() && builder.Kept()
      ensures var t := SinkSpec.Send(old(Model()), clk);
              Model() == t.st && sent == old(sent) + PacketsOf(t.out)
    {
      if mode == Mode.Lent && Elapsed(Stamp(clk.check), lastSendLent) > LENT_SEND_INTERVAL {
        SendLent(clk.lent);
      }
    }

    /** `atolla_sink_state`: receives at most one datagram, keeps the borrow alive, tells the state. */
    method State(i: Incoming, clk: SinkClock) returns (answer: Mode)
      requires Valid() && (i.Incoming? ==> SinkCanRead(i.packet.data))
      requires !Update(Model(), DeliveryOf(i), clk).st.hung
      modifies this, builder.Repr(), receivedFrame, recvBuf, pendingFrames, pendingFrames.buf
      ensures Valid() && builder.Kept()
      ensures var t := Update(old(Model()), DeliveryOf(i), clk);
              Model() == t.st && sent == old(sent) + PacketsOf(t.out)
      ensures answer == mode
    {
      if mode != Error {
        ghost var t := SinkSpec.Receive(Model(), DeliveryOf(i), clk);
        PacketsAppend(sent, t.out, SinkSpec.Send(t.st, clk).out);
        Receive(i, clk);
        Send(clk);
      }
      answer := mode;
    }

    // ----- Showing -----

    /** Takes the oldest frame out of the ring and makes it the current one. */
    method NextFrame() returns (ok: bool)
      requires Valid()
      modifies `queue, pendingFrames, currentFrame
      ensures Valid() && ok == (old(queue) != [])
      ensures Model() == if ok then old(Model()).(queue := old(queue)[1..], current := old(queue)[0]) else old(Model())
    {
      RingSpec.DequeueRefines(pendingFrames.State(), frameLen, RingSpec.Dequeue(frameLen));
      ok := pendingFrames.Dequeue(currentFrame, currentFrame.Length);
      if ok {
        assert currentFrame[..frameLen] == currentFrame[..];
        queue := queue[1..];
      }
    }

    /** Plays queued frames until the virtual clock has caught up with `now`. */
    method PlayUntil(now: u32)
      requires Valid()
      modifies `queue, `origin, pendingFrames, currentFrame
      ensures Valid() && Model() == CatchUp(old(Model()), now)
    {
      while Elapsed(now, origin) > frameMs
        invariant Valid()
        invariant CatchUp(Model(), now) == CatchUp(old(Model()), now)
        decreases |queue|
      {
        var ok := NextFrame();
        if !ok { break; }
        origin := (origin + frameMs) % TWO_32;
      }
    }

    /** Brings the current frame up to date; false if there is none yet. */
    method Play(at: int) returns (lent: bool)
      requires Valid()
      modifies `queue, `origin, pendingFrames, currentFrame
      ensures Valid() && Model() == Show(old(Model()), at)
      ensures lent <==> !NothingToShow(old(Model()))
    {
      lent := mode == Mode.Lent;
      if lent {
        if origin == NULL_TIME {
          lent := NextFrame();
          if lent { origin := Stamp(at); }
        } else {
          PlayUntil(Stamp(at));
        }
      }
    }

    /** `atolla_sink_get`: the frame due now, repeated over the whole of `out`. */
    method Get(out: array<byte>, at: int) returns (lent: bool)
      requires Valid() && out !in Repr()
      modifies `queue, `origin, pendingFrames, currentFrame, out
      ensures Valid() && Model() == Show(old(Model()), at)
      ensures lent <==> old(mode) == Mode.Lent && (old(origin) != NULL_TIME || old(queue) != [])
      ensures out[..] == if lent then Repeated(Model().current, out.Length) else old(out[..])
    {
      lent := Play(at);
      if lent {
        assert currentFrame[0..currentFrame.Length] == currentFrame[..];
        FillWithPattern(out, currentFrame, 0, currentFrame.Length);
      }
    }
  }

  /** What is left to do: handling the messages in `rest` completes `whole`. */
  ghost predicate Remaining(whole: Turn, s: SinkState, rest: seq<byte>, sender: Endpoint, at: int, done: seq<Reply>) {
    && Framed(rest) && AllReadable(rest)
    && RequestsRemain(whole, s, RequestsOf(Split(rest)), sender, at, done)
  }

  ghost predicate RequestsRemain(whole: Turn, s: SinkState, qs: seq<Request>, sender: Endpoint, at: int,
                                 done: seq<Reply>)
  {
    var todo := HandleAll(s, qs, sender, at);
    !whole.st.hung && whole == Turn(todo.st, done + todo.out)
  }

  lemma HandleOne(whole: Turn, s: SinkState, qs: seq<Request>, sender: Endpoint, at: int, done: seq<Reply>)
    requires RequestsRemain(whole, s, qs, sender, at, done) && qs != []
    ensures var t := Handle(s, qs[0], sender, at);
            !t.st.hung && RequestsRemain(whole, t.st, qs[1..], sender, at, done + t.out)
  {
    var t := Handle(s, qs[0], sender, at);
    if t.st.hung { HungIsFinal(t.st, qs[1..], sender, at); }
    var todo := HandleAll(t.st, qs[1..], sender, at);
    assert done + (t.out + todo.out) == (done + t.out) + todo.out;
  }

  /** The selected message is the first request of what is left. */
  lemma FirstRequest(rest: seq<byte>)
    requires Framed(rest) && rest != [] && AllReadable(rest)
    ensures Readable(First(rest)) && AllReadable(rest[MsgLen(rest)..])
    ensures RequestsOf(Split(rest)) == [RequestOf(First(rest))] + RequestsOf(Split(rest[MsgLen(rest)..]))
  {
    var rs := Split(rest);
    assert rs == [First(rest)] + Split(rest[MsgLen(rest)..]);
    assert rs[0] in rs && rs[1..] == Split(rest[MsgLen(rest)..]);
  }

  lemma FoldOne(whole: Turn, s: SinkState, rest: seq<byte>, sender: Endpoint, at: int, done: seq<Reply>)
    requires Remaining(whole, s, rest, sender, at, done) && rest != []
    ensures Readable(First(rest))
    ensures var t := Handle(s, RequestOf(First(rest)), sender, at);
            !t.st.hung && Remaining(whole, t.st, rest[MsgLen(rest)..], sender, at, done + t.out)
  {
    FirstRequest(rest);
    HandleOne(whole, s, RequestsOf(Split(rest)), sender, at, done);
  }

  lemma AllRemains(whole: Turn, s: SinkState, data: seq<byte>, sender: Endpoint, at: int)
    requires Framed(data) && AllReadable(data)
    requires whole == HandleAll(s, RequestsOf(Split(data)), sender, at) && !whole.st.hung
    ensures Remaining(whole, s, data, sender, at, [])
  {
    assert [] + whole.out == whole.out;
  }

  lemma NothingRemains(whole: Turn, s: SinkState, rest: seq<byte>, sender: Endpoint, at: int, done: seq<Reply>)
    requires Remaining(whole, s, rest, sender, at, done) && rest == []
    ensures whole == Turn(s, done)
  {
    assert done + [] == done;
  }

  lemma PacketsAppend(base: seq<Packet>, a: seq<Reply>, b: seq<Reply>)
    ensures base + PacketsOf(a + b) == base + PacketsOf(a) + PacketsOf(b)
  {
    var whole, parts := PacketsOf(a + b), PacketsOf(a) + PacketsOf(b);
    forall i | 0 <= i < |whole|
      ensures whole[i] == parts[i]
    {
      assert (a + b)[i] == if i < |a| then a[i] else b[i - |a|];
    }
    assert whole == parts;
  }
}
