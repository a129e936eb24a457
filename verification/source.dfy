/** The source as it is run. Datagrams, clock readings and the outcome of sending are arguments
    of a call; the socket is represented by what has been handed to it. */
module SourceObject {
  import opened Clock
  import opened Pattern
  import opened Wire
  import opened Iter
  import opened Builder
  import opened SourceSpec

  const RECV_BUF_LEN: nat := 32

  datatype Incoming = NoPacket | Incoming(data: seq<byte>)

  /** The source asserts no more of a datagram than this. */
  predicate SourceCanRead(i: Incoming) {
    i.Incoming? ==> |i.data| <= RECV_BUF_LEN && Framed(i.data) && AllReadable(i.data)
  }

  predicate AllReadable(data: seq<byte>)
    requires Framed(data)
  {
    forall r :: r in Split(data) ==> Readable(r)
  }

  function ArrivalOf(i: Incoming): Arrival
    requires SourceCanRead(i)
  {
    if i.NoPacket? then Nothing else Datagram(NoticesOf(Split(i.data)))
  }

  function PacketsOf(es: seq<Env>): seq<seq<byte>> {
    seq(|es|, i requires 0 <= i < |es| => if Sendable(es[i].msg) then Encode(es[i]) else [])
  }

  lemma FirstReadable(rest: seq<byte>)
    requires Framed(rest) && rest != [] && AllReadable(rest)
    ensures Readable(First(rest)) && AllReadable(rest[MsgLen(rest)..])
  {
    var rs := Split(rest);
    assert rs[0] == First(rest) && rs[1..] == Split(rest[MsgLen(rest)..]);
    assert rs[0] in rs;
  }

  lemma HearFirst(s: SourceState, rest: seq<byte>, at: int)
    requires Framed(rest) && rest != []
    ensures HearAll(s, NoticesOf(Split(rest)), at)
         == HearAll(Hear(s, NoticeOf(First(rest)), at), NoticesOf(Split(rest[MsgLen(rest)..])), at)
  {
    var rs := Split(rest);
    assert rs[0] == First(rest) && rs[1..] == Split(rest[MsgLen(rest)..]);
    assert NoticesOf(rs) == [NoticeOf(rs[0])] + NoticesOf(rs[1..]);
  }

  /** What one round of waiting for completion finds. */
  datatype Round = Round(incoming: Incoming, clk: SourceClock)

  /** Each round comes after the sleep of the round before, and at most `step` later. */
  ghost predicate Ticking(rounds: nat -> Round, step: nat) {
    forall n: nat, m: nat :: m == n + 1 ==>
      rounds(n).clk.loss + BLOCKING_MAKE_REFRESH_INTERVAL <= rounds(m).clk.loss <= rounds(n).clk.loss + step
  }

  /** The state after `n` rounds, and all that they send. */
  function Awaited(s: SourceState, rounds: nat -> Round, n: nat): Turn
    requires forall k: nat :: SourceCanRead(rounds(k).incoming)
  {
    if n == 0 then Turn(s, [])
    else
      var before := Awaited(s, rounds, n - 1);
      var t := Update(before.st, ArrivalOf(rounds(n - 1).incoming), rounds(n - 1).clk);
      Turn(t.st, before.out + t.out)
  }

  /** `n` is the number of the first round after which the source no longer waits. */
  predicate Completes(s: SourceState, rounds: nat -> Round, n: nat)
    requires forall k: nat :: SourceCanRead(rounds(k).incoming)
  {
    && Awaited(s, rounds, n).st.mode != Waiting
    && forall k :: 0 <= k < n ==> Awaited(s, rounds, k).st.mode == Waiting
  }

  class Source {
    const bigEndian: bool
    const recvBuf: array<byte>
    const builder: MsgBuilder
    const frameMs: u32
    const maxBuf: int
    const retryMs: u32
    const disconnectMs: u32

    var mode: Mode
    var errorSet: bool
    var nextIdx: byte
    var firstBorrow: u32
    var lastBorrow: u32
    var lastFrame: u32
    var lastRecvLent: Instant
    var sent: seq<seq<byte>>

    ghost function Repr(): set<object>
      reads this, builder, builder.msgBuf
    {
      {this, recvBuf} + builder.Repr()
    }

    /** The fields read while the source is open or in error have been assigned. */
    ghost predicate Valid()
      reads this, builder, builder.msgBuf
    {
      && builder.Valid() && recvBuf.Length == RECV_BUF_LEN && recvBuf != builder.msgBuf.data
      && (mode == Open ==> lastRecvLent.Set?)
      && (mode == Error ==> errorSet)
    }

    ghost function Model(): SourceState
      reads this, builder
    {
      SourceState(mode, errorSet, nextIdx, frameMs, maxBuf, retryMs, disconnectMs, firstBorrow, lastBorrow,
                  lastFrame, lastRecvLent, builder.nextMsgId)
    }

    constructor (spec: Spec, socketOk: bool, resolved: bool, bigEndian: bool, first: int, at: int)
      ensures Valid() && fresh(Repr()) && recvBuf.Length == 32
      ensures var t := Make(spec, socketOk, resolved, first, at);
              Model() == t.st && sent == PacketsOf(t.out)
    {
      this.bigEndian := bigEndian;
      recvBuf := new byte[RECV_BUF_LEN];
      builder := new MsgBuilder();
      var s := Fresh(spec);
      frameMs, maxBuf, retryMs, disconnectMs := s.frameMs, s.maxBuf, s.retryMs, s.disconnectMs;
      mode, errorSet, nextIdx := Waiting, false, 0;
      firstBorrow, lastBorrow, lastFrame, lastRecvLent := 0, 0, 0, Unset;
      sent := [];
      new;
      if socketOk && resolved {
        firstBorrow := Stamp(first);
        SendBorrow(at);
      } else {
        Fail();
      }
    }

    method Fail()
      requires Valid()
      modifies `mode, `errorSet
      ensures Valid() && Model() == Failed(old(Model()))
    {
      mode := Error;
      errorSet := true;
    }

    method SendBorrow(at: int)
      requires Valid()
      modifies `lastBorrow, `sent, builder.Repr()
      ensures Valid() && builder.Kept()
      ensures var t := SourceSpec.SendBorrow(old(Model()), at);
              Model() == t.st && sent == old(sent) + PacketsOf(t.out)
    {
      lastBorrow := Stamp(at);
      builder.Borrow(frameMs % 256, maxBuf % 256);
      sent := sent + [builder.msgBuf.data[..builder.msgBuf.size]];
    }

    // ----- Receiving -----

    method Lent(at: int)
      requires Valid()
      modifies `mode, `lastFrame, `lastRecvLent
      ensures Valid() && Model() == Hear(old(Model()), LentNotice, at)
    {
      if mode == Waiting {
        mode := Open;
        lastFrame := NULL_TIME;
        lastRecvLent := Set(Stamp(at));
      } else if mode == Open {
        lastRecvLent := Set(Stamp(at));
      }
    }

    /** Dispatches on the type of the selected message. */
    method HandleMsg(it: MsgIter, at: int)
      requires Valid() && it.Valid() && it.HasMsg() && it.buf == recvBuf && Readable(First(it.Rest()))
      modifies `mode, `errorSet, `lastFrame, `lastRecvLent
      ensures Valid() && Model() == Hear(old(Model()), NoticeOf(First(it.Rest())), at)
    {
      if it.Type() == LENT_TAG {
        Lent(at);
      } else {
        if it.Type() == FAIL_TAG {
          // Only the text of the error message depends on the code.
          var code := it.FailErrorCode();
        }
        Fail();
      }
    }

    /** One round of the byte loop. */
    method HandleAndAdvance(it: MsgIter, at: int)
      requires Valid() && it.Valid() && it.HasMsg() && it.buf == recvBuf && Readable(First(it.Rest()))
      modifies `mode, `errorSet, `lastFrame, `lastRecvLent, it
      ensures Valid() && it.Valid() && it.start > old(it.start)
      ensures it.Rest() == old(it.Rest())[MsgLen(old(it.Rest()))..]
      ensures HearAll(Model(), NoticesOf(Split(it.Rest())), at)
           == HearAll(old(Model()), NoticesOf(Split(old(it.Rest()))), at)
    {
      HearFirst(Model(), it.Rest(), at);
      HandleMsg(it, at);
      it.Next();
    }

    method HandleRest(it: MsgIter, at: int)
      requires Valid() && it.Valid() && it.buf == recvBuf && AllReadable(it.Rest())
      modifies `mode, `errorSet, `lastFrame, `lastRecvLent, it
      ensures Valid() && Model() == HearAll(old(Model()), NoticesOf(Split(old(it.Rest()))), at)
    {
      ghost var whole := HearAll(Model(), NoticesOf(Split(it.Rest())), at);
      while it.HasMsg()
        invariant Valid() && it.Valid() && AllReadable(it.Rest())
        invariant HearAll(Model(), NoticesOf(Split(it.Rest())), at) == whole
        decreases it.end - it.start
      {
        FirstReadable(it.Rest());
        HandleAndAdvance(it, at);
      }
      assert it.Rest() == [];
    }

    /** The byte loop over the receive buffer is a fold over the messages it holds. */
    method IterateRecvBuf(n: nat, at: int)
      requires Valid() && n <= recvBuf.Length && Framed(recvBuf[..n]) && AllReadable(recvBuf[..n])
      modifies `mode, `errorSet, `lastFrame, `lastRecvLent
      ensures Valid() && Model() == HearAll(old(Model()), NoticesOf(Split(old(recvBuf[..n]))), at)
    {
      ghost var whole := HearAll(Model(), NoticesOf(Split(recvBuf[..n])), at);
      var it := new MsgIter(recvBuf, n, bigEndian);
      HandleRest(it, at);
      assert Model() == whole;
    }

    method Receive(i: Incoming, clk: SourceClock)
      requires Valid() && SourceCanRead(i)
      modifies `mode, `errorSet, `lastFrame, `lastRecvLent, recvBuf
      ensures Valid() && Model() == SourceSpec.Receive(old(Model()), ArrivalOf(i), clk)
    {
      if i.Incoming? {
        forall k | 0 <= k < |i.data| {
          recvBuf[k] := i.data[k];
        }
        assert recvBuf[..|i.data|] == i.data;
        IterateRecvBuf(|i.data|, clk.recv);
      }
    }

    // ----- Updating -----

    method ManageBorrowPacketLoss(clk: SourceClock)
      requires Valid()
      modifies this, builder.Repr()
      ensures Valid() && builder.Kept()
      ensures var t := SourceSpec.ManageBorrowPacketLoss(old(Model()), clk);
              Model() == t.st && sent == old(sent) + PacketsOf(t.out)
    {
      if mode == Waiting {
        var now := Stamp(clk.loss);
        var sinceFirst, sinceLast := Elapsed(now, firstBorrow), Elapsed(now, lastBorrow);
        if sinceFirst > disconnectMs {
          Fail();
        } else if sinceLast > retryMs {
          SendBorrow(clk.borrow);
        }
      }
    }

    method EnsureLentResent(clk: SourceClock)
      requires Valid()
      modifies `mode, `errorSet
      ensures Valid() && Model() == SourceSpec.EnsureLentResent(old(Model()), clk)
    {
      if mode == Open && Elapsed(Stamp(clk.check), lastRecvLent.at) >= disconnectMs {
        Fail();
      }
    }

    method Update(i: Incoming, clk: SourceClock)
      requires Valid() && SourceCanRead(i)
      modifies this, recvBuf, builder.Repr()
      ensures Valid() && builder.Kept()
      ensures var t := SourceSpec.Update(old(Model()), ArrivalOf(i), clk);
              Model() == t.st && sent == old(sent) + PacketsOf(t.out)
    {
      Receive(i, clk);
      ManageBorrowPacketLoss(clk);
      EnsureLentResent(clk);
    }

    method State(i: Incoming, clk: SourceClock) returns (answer: Mode)
      requires Valid() && SourceCanRead(i)
      modifies this, recvBuf, builder.Repr()
      ensures Valid() && builder.Kept() && answer == mode
      ensures var t := SourceSpec.Update(old(Model()), ArrivalOf(i), clk);
              Model() == t.st && sent == old(sent) + PacketsOf(t.out)
    {
      Update(i, clk);
      answer := mode;
    }

    /** There is an error message exactly in the state of error. */
    method HasErrorMsg() returns (answer: bool)
      requires Valid()
      ensures answer <==> mode == Error
    {
      answer := if mode == Error then errorSet else false;
    }

    method AwaitOnce(rounds: nat -> Round, n: nat, ghost s: SourceState, ghost base: seq<seq<byte>>)
      requires Valid() && forall k: nat :: SourceCanRead(rounds(k).incoming)
      requires Model() == Awaited(s, rounds, n).st && sent == base + PacketsOf(Awaited(s, rounds, n).out)
      modifies this, recvBuf, builder.Repr()
      ensures Valid() && builder.Kept()
      ensures Model() == Awaited(s, rounds, n + 1).st && sent == base + PacketsOf(Awaited(s, rounds, n + 1).out)
      ensures Model() == SourceSpec.Update(old(Model()), ArrivalOf(rounds(n).incoming), rounds(n).clk).st
    {
      ghost var t := SourceSpec.Update(Model(), ArrivalOf(rounds(n).incoming), rounds(n).clk);
      PacketsAppend(base, Awaited(s, rounds, n).out, t.out);
      Update(rounds(n).incoming, rounds(n).clk);
    }

    /** Blocks until the borrowing process has ended. Every round sleeps first; the clock must
        not jump so far that the modular time since the first borrow starts over. */
    method AwaitMakeCompletion(rounds: nat -> Round, ghost first: int, ghost step: nat)
      requires Valid() && forall n: nat :: SourceCanRead(rounds(n).incoming)
      requires Ticking(rounds, step)
      requires BLOCKING_MAKE_REFRESH_INTERVAL <= step && disconnectMs + step < TWO_32
      requires mode == Waiting ==> firstBorrow == Stamp(first) && first <= rounds(0).clk.loss <= first + step
      modifies this, recvBuf, builder.Repr()
      ensures Valid() && builder.Kept()
      ensures mode == Open || mode == Error
      ensures exists n: nat ::
                && Completes(old(Model()), rounds, n)
                && Model() == Awaited(old(Model()), rounds, n).st
                && sent == old(sent) + PacketsOf(Awaited(old(Model()), rounds, n).out)
                && 5 * n <= disconnectMs + step + 5
    {
      var n: nat := 0;
      ghost var s, base := Model(), sent;
      while mode == Waiting
        invariant Valid() && builder.Kept()
        invariant mode == Waiting ==>
                    && firstBorrow == Stamp(first)
                    && first + BLOCKING_MAKE_REFRESH_INTERVAL * n <= rounds(n).clk.loss <= first + disconnectMs + step
        invariant BLOCKING_MAKE_REFRESH_INTERVAL * n <= disconnectMs + step + BLOCKING_MAKE_REFRESH_INTERVAL
        invariant forall k :: 0 <= k < n ==> Awaited(s, rounds, k).st.mode == Waiting
        invariant Model() == Awaited(s, rounds, n).st && sent == base + PacketsOf(Awaited(s, rounds, n).out)
        decreases if mode == Waiting then first + disconnectMs + step + 1 - rounds(n).clk.loss else 0
      {
        StillWaiting(Model(), ArrivalOf(rounds(n).incoming), rounds(n).clk, first);
        AwaitOnce(rounds, n, s, base);
        n := n + 1;
      }
      assert Completes(s, rounds, n);
    }

    // ----- Putting frames -----

    method PutReadyCount(i: Incoming, clk: SourceClock, at: int) returns (count: int)
      requires Valid() && SourceCanRead(i) && frameMs > 0
      modifies this, recvBuf, builder.Repr()
      ensures Valid() && builder.Kept()
      ensures var t := SourceSpec.Update(old(Model()), ArrivalOf(i), clk);
              Model() == t.st && sent == old(sent) + PacketsOf(t.out) && count == ReadyCount(t.st, at)
    {
      Update(i, clk);
      if mode == Error || mode == Waiting { return 0; }
      if lastFrame == NULL_TIME { return maxBuf; }
      count := ToInt(Elapsed(Stamp(at), lastFrame) / frameMs);
    }

    method PutReadyTimeout(i: Incoming, clk: SourceClock, a: int, b: int) returns (timeout: int)
      requires Valid() && SourceCanRead(i) && frameMs > 0
      modifies this, recvBuf, builder.Repr()
      ensures Valid() && builder.Kept()
      ensures var t := SourceSpec.Update(old(Model()), ArrivalOf(i), clk);
              Model() == t.st && sent == old(sent) + PacketsOf(t.out) && timeout == ReadyTimeout(t.st, a, b)
    {
      Update(i, clk);
      if mode == Error || mode == Waiting { return -1; }
      if lastFrame == NULL_TIME { return 0; }
      var readyCount := ToInt(Elapsed(Stamp(a), lastFrame) / frameMs);
      if readyCount > 0 { return 0; }
      timeout := ToInt(Elapsed((lastFrame + frameMs) % TWO_32, Stamp(b)));
    }

    /** Sends one frame under the next index. */
    method SendFrame(frame: array<byte>, frameLen: nat, sendOk: bool, stamp: int) returns (ok: bool)
      requires Valid() && frameLen <= frame.Length && 3 + frameLen <= MAX_PAYLOAD_LEN
      modifies `nextIdx, `lastFrame, `sent, builder.Repr()
      ensures Valid() && builder.Kept()
      ensures var r := SourceSpec.SendFrame(old(Model()), old(frame[..frameLen]), sendOk, stamp);
              Model() == r.st && sent == old(sent) + PacketsOf(r.out) && ok == r.ok
    {
      builder.Enqueue(nextIdx, frame, frameLen);
      if !sendOk { return false; }
      sent := sent + [builder.msgBuf.data[..builder.msgBuf.size]];
      nextIdx := (nextIdx + 1) % 256;
      if lastFrame == NULL_TIME {
        lastFrame := Stamp(Stamp(stamp) - (maxBuf - 1) * frameMs);
      } else {
        lastFrame := (lastFrame + frameMs) % TWO_32;
      }
      ok := true;
    }

    /** The rest of a put, once the source was found to be open. A positive timeout is slept
        through before sending; `tm.wake` is when that ends. */
    method PutTail(frame: array<byte>, frameLen: nat, sendOk: bool, i: Incoming, clk: SourceClock, tm: PutClock)
      returns (ok: bool)
      requires Valid() && frameLen <= frame.Length && 3 + frameLen <= MAX_PAYLOAD_LEN && frameMs > 0
      requires frame !in Repr() && SourceCanRead(i)
      modifies this, recvBuf, builder.Repr()
      ensures Valid() && builder.Kept()
      ensures var r := SourceSpec.PutTail(old(Model()), ArrivalOf(i), clk, tm, old(frame[..frameLen]), sendOk);
              Model() == r.st && sent == old(sent) + PacketsOf(r.out) && ok == r.ok
    {
      ghost var base, bytes := sent, frame[..frameLen];
      ghost var t := SourceSpec.Update(Model(), ArrivalOf(i), clk);
      var timeout := PutReadyTimeout(i, clk, tm.a, tm.b);
      assert frame[..frameLen] == bytes;
      PacketsAppend(base, t.out, SourceSpec.SendFrame(t.st, bytes, sendOk, tm.stamp).out);
      ok := SendFrame(frame, frameLen, sendOk, tm.stamp);
    }

    /** `atolla_source_put`, given the three datagrams and the clock readings it meets. */
    method Put(frame: array<byte>, frameLen: nat, sendOk: bool, i1: Incoming, i2: Incoming, i3: Incoming,
               clk1: SourceClock, clk2: SourceClock, clk3: SourceClock, tm: PutClock) returns (ok: bool)
      requires Valid() && frameLen <= frame.Length && 3 + frameLen <= MAX_PAYLOAD_LEN && frameMs > 0
      requires frame !in Repr()
      requires SourceCanRead(i1) && SourceCanRead(i2) && SourceCanRead(i3)
      modifies this, recvBuf, builder.Repr()
      ensures Valid() && builder.Kept()
      ensures var input := PutInput(ArrivalOf(i1), clk1, ArrivalOf(i2), clk2, ArrivalOf(i3), clk3, tm);
              var r := SourceSpec.Put(old(Model()), input, old(frame[..frameLen]), sendOk);
              Model() == r.st && sent == old(sent) + PacketsOf(r.out) && ok == r.ok
    {
      ghost var base, bytes := sent, frame[..frameLen];
      ghost var t1 := SourceSpec.Update(Model(), ArrivalOf(i1), clk1);
      ghost var t2 := SourceSpec.Update(t1.st, ArrivalOf(i2), clk2);
      PacketsAppend(base, t1.out, t2.out);
      Update(i1, clk1);
      var state := State(i2, clk2);
      if state != Open { return false; }
      assert frame[..frameLen] == bytes;
      PacketsAppend(base, t1.out + t2.out, SourceSpec.PutTail(t2.st, ArrivalOf(i3), clk3, tm, bytes, sendOk).out);
      ok := PutTail(frame, frameLen, sendOk, i3, clk3, tm);
    }
  }

  lemma PacketsAppend(base: seq<seq<byte>>, a: seq<Env>, b: seq<Env>)
    ensures base + PacketsOf(a + b) == base + PacketsOf(a) + PacketsOf(b)
  {
    var whole, parts := PacketsOf(a + b), PacketsOf(a) + PacketsOf(b);
    forall i | 0 <= i < |whole|
      ensures whole[i] == parts[i]
    {
      assert (a + b)[i] == if i < |a| then a[i] else b[i - |a|];
    }
    assert whole == parts;
  }
}
