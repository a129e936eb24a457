/** What single steps of a sink achieve: filling gaps, rebuilding sequence numbers, playing
    frames on the virtual clock, answering messages. */
module SinkSteps {
  import opened Arithmetic
  import opened Clock
  import opened Pattern
  import opened Wire
  import opened SinkSpec

  function Max(a: int, b: int): int {
    if a < b then b else a
  }

  function Min(a: int, b: int): int {
    if a < b then a else b
  }

  // ----- The gap-filling loop -----

  /** The state after `k` rounds of the loop that fills a gap. */
  function Rounds(s: SinkState, frame: Frame, k: nat): SinkState
    requires |frame| > 0
  {
    if k == 0 then s else EnqueueOnce(Rounds(s, frame, k - 1), frame)
  }

  lemma {:induction false} AfterRounds(s: SinkState, idx: byte, frame: Frame, k: nat)
    requires IdxInRange(s) && |frame| > 0 && k <= Gap(s.lastIdx, idx)
    ensures var r, done := Rounds(s, frame, k), Min(k, Max(0, Room(s)));
            && r == s.(queue := s.queue + Copies(Repeated(frame, s.frameLen), done), lastIdx := r.lastIdx)
            && Gap(r.lastIdx, idx) == Gap(s.lastIdx, idx) - done && IdxInRange(r)
            && r.lastIdx == if done == 0 then s.lastIdx else if done == Gap(s.lastIdx, idx) then idx else r.lastIdx
  {
    if k > 0 {
      AfterRounds(s, idx, frame, k - 1);
      var r, done := Rounds(s, frame, k - 1), Min(k - 1, Max(0, Room(s)));
      if Room(r) > 0 {
        GapCloses(r.lastIdx, idx);
        var x := Repeated(frame, s.frameLen);
        assert Copies(x, done + 1) == Copies(x, done) + [x];
      }
    }
  }

  lemma RoundsCloseGap(s: SinkState, idx: byte, frame: Frame)
    requires IdxInRange(s) && |frame| > 0 && !s.hung && 0 <= Gap(s.lastIdx, idx) <= Max(0, Room(s))
    requires Gap(s.lastIdx, idx) <= 128
    ensures Rounds(s, frame, Gap(s.lastIdx, idx)) == Admit(s, idx, frame)
  {
    AfterRounds(s, idx, frame, Gap(s.lastIdx, idx));
    assert s.queue + Copies(Repeated(frame, s.frameLen), 0) == s.queue;
  }

  lemma {:induction false} StuckRounds(s: SinkState, idx: byte, frame: Frame, k: nat)
    requires IdxInRange(s) && |frame| > 0 && Gap(s.lastIdx, idx) > Max(0, Room(s))
    ensures var r := Rounds(s, frame, k);
            IdxInRange(r) && Gap(r.lastIdx, idx) > Max(0, Room(r))
  {
    if k > 0 {
      StuckRounds(s, idx, frame, k - 1);
      var r := Rounds(s, frame, k - 1);
      if Room(r) > 0 { GapCloses(r.lastIdx, idx); }
    }
  }

  /** The loop ends if and only if the whole gap fits into the ring, and then it has done what
      `Admit` says. A sink is marked as hung in exactly the other case. */
  lemma GapLoopEndsIffRoom(s: SinkState, idx: byte, frame: Frame)
    requires IdxInRange(s) && |frame| > 0 && |s.queue| <= PENDING_FRAMES_CAPACITY && !s.hung
    requires 0 <= Gap(s.lastIdx, idx) <= 128
    ensures (exists k :: Gap(Rounds(s, frame, k).lastIdx, idx) == 0) <==> Gap(s.lastIdx, idx) <= Room(s)
    ensures Gap(s.lastIdx, idx) <= Room(s) ==> Rounds(s, frame, Gap(s.lastIdx, idx)) == Admit(s, idx, frame)
    ensures Admit(s, idx, frame).hung <==> forall k :: Gap(Rounds(s, frame, k).lastIdx, idx) != 0
  {
    var gap := Gap(s.lastIdx, idx);
    if gap <= Room(s) {
      RoundsCloseGap(s, idx, frame);
      AfterRounds(s, idx, frame, gap);
      assert Gap(Rounds(s, frame, gap).lastIdx, idx) == 0;
    } else {
      forall k: nat
        ensures Gap(Rounds(s, frame, k).lastIdx, idx) != 0
      {
        StuckRounds(s, idx, frame, k);
      }
    }
  }

  /** The loop does meet that case: a sink with an empty ring, just lent, whose borrower sends
      the indices 127 and 128, never returns. */
  lemma HangIsReached(s: SinkState, frame: Frame, id: u16, at: int)
    requires s.mode.Lent? && !s.hung && s.lastIdx == -1 && s.queue == [] && |frame| >= 3
    ensures HandleAll(s, [AskEnqueue(id, 127, frame), AskEnqueue(id, 128, frame)], s.borrower, at).st.hung
  {
    var qs := [AskEnqueue(id, 127, frame), AskEnqueue(id, 128, frame)];
    var s1 := Handle(s, qs[0], s.borrower, at).st;
    assert s1.lastIdx == 127 && Room(s1) == 0;
    assert qs[1..] == [qs[1]];
    OneRequest(s1, qs[1], s.borrower, at);
  }

  // ----- Sequence numbers behind 8-bit indices -----

  /** `n` frames have been enqueued since the borrow. */
  predicate Numbered(s: SinkState, n: nat) {
    s.lastIdx == if n == 0 then -1 else (n - 1) % 256
  }

  /** Frames enqueued after a frame with true number `seqNo` was admitted. */
  function Grown(s: SinkState, s': SinkState, n: nat): int {
    n + |s'.queue| - |s.queue|
  }

  /** The gap the sink computes is the true distance modulo 256. */
  lemma GapIsDistance(n: nat, seqNo: nat)
    ensures var gap := Gap(if n == 0 then -1 else (n - 1) % 256, seqNo % 256);
            gap == if n == 0 then seqNo % 256 + 1 else (seqNo - (n - 1)) % 256
  {
    if n > 0 {
      var a, b := (n - 1) % 256, seqNo % 256;
      var q := seqNo / 256 - (n - 1) / 256;
      assert seqNo - (n - 1) == q * 256 + (b - a);
      if b < a {
        Residue(q - 1, 256 + b - a, 256);
      } else {
        Residue(q, b - a, 256);
      }
    }
  }

  /** Reconstruction holds exactly when a new frame is at most 128 ahead and an old one is not
      mistaken for a new one; the window -127..128 around the last frame guarantees both. */
  lemma SequenceReconstruction(s: SinkState, n: nat, seqNo: nat, frame: Frame)
    requires Numbered(s, n) && |frame| > 0 && !s.hung && !Admit(s, seqNo % 256, frame).hung
    ensures var s' := Admit(s, seqNo % 256, frame);
            var ahead := seqNo - (n - 1);
            && Grown(s, s', n) >= n && Numbered(s', Grown(s, s', n))
            && (Grown(s, s', n) == Max(n, seqNo + 1) <==>
                if ahead >= 1 then ahead <= 128 else !(1 <= ahead % 256 <= 128))
            && (-127 <= ahead <= 128 ==> Grown(s, s', n) == Max(n, seqNo + 1))
  {
    GapIsDistance(n, seqNo);
    var gap := Gap(s.lastIdx, seqNo % 256);
    var ahead := seqNo - (n - 1);
    var m := if 1 <= gap <= 128 then n + gap else n;
    assert Grown(s, Admit(s, seqNo % 256, frame), n) == m;
    if 1 <= gap <= 128 {
      assert (m - 1) % 256 == seqNo % 256 by {
        if n == 0 {
          Residue(0, seqNo % 256, 256);
        } else {
          var k := ahead / 256;
          assert seqNo == k * 256 + (m - 1);
          SameResidue(seqNo, m - 1, k);
        }
      }
    }
    if ahead >= 1 { ModBound(ahead); }
  }

  lemma SameResidue(a: int, b: int, k: int)
    requires a == k * 256 + b
    ensures a % 256 == b % 256
  {}

  lemma ModBound(x: int)
    requires x >= 1
    ensures x % 256 <= x && (x <= 128 ==> x % 256 == x && (x - 1) % 256 + 1 == x) && (x - 1) % 256 + 1 <= x
  {}

  /** When numbers only grow, as on a FIFO network, the count never runs ahead of them,
      however many frames in a row are lost. */
  lemma FifoNeverRunsAhead(s: SinkState, n: nat, seqNo: nat, frame: Frame)
    requires Numbered(s, n) && |frame| > 0 && !s.hung && !Admit(s, seqNo % 256, frame).hung
    requires n <= seqNo
    ensures n <= Grown(s, Admit(s, seqNo % 256, frame), n) <= seqNo + 1
    ensures Numbered(Admit(s, seqNo % 256, frame), Grown(s, Admit(s, seqNo % 256, frame), n))
  {
    SequenceReconstruction(s, n, seqNo, frame);
    GapIsDistance(n, seqNo);
    ModBound(seqNo - (n - 1));
  }

  // ----- Playback -----

  /** Frames due at elapsed time `e` when one lasts `d`. */
  function Due(e: nat, d: nat): nat
    requires d > 0
  {
    if e == 0 then 0 else (e - 1) / d
  }

  function Taken(s: SinkState, now: u32): nat
    requires s.frameMs > 0
  {
    Min(|s.queue|, Due(Elapsed(now, s.origin), s.frameMs))
  }

  lemma DueAfterOne(e: nat, d: nat)
    requires d > 0
    ensures e <= d ==> Due(e, d) == 0
    ensures e > d ==> Due(e, d) == Due(e - d, d) + 1
  {
    if e > d {
      var q, r := (e - d - 1) / d, (e - d - 1) % d;
      assert e - 1 == (q + 1) * d + r;
      Residue(q + 1, r, d);
    } else if e > 0 {
      Residue(0, e - 1, d);
    }
  }

  lemma OriginAdvances(now: u32, origin: u32, d: u32)
    requires Elapsed(now, origin) > d
    ensures Elapsed(now, (origin + d) % TWO_32) == Elapsed(now, origin) - d
  {
    NowFromElapsed(now, origin);
    ElapsedIsTrue(origin + Elapsed(now, origin), origin + d);
  }

  lemma AddToStamp(a: int, b: int)
    ensures Stamp(Stamp(a) + b) == Stamp(a + b)
  {
    StampOfDifference(a, b);
  }

  /** The state after showing `k` more frames. */
  function Played(s: SinkState, k: nat): SinkState
    requires k <= |s.queue|
  {
    s.(queue := s.queue[k..],
       current := if k == 0 then s.current else s.queue[k - 1],
       origin := Stamp(s.origin + k * s.frameMs))
  }

  lemma PlayedOneMore(s: SinkState, k: nat)
    requires k < |s.queue|
    ensures Played(Played(s, 1), k) == Played(s, k + 1)
  {
    AddToStamp(s.origin + s.frameMs, k * s.frameMs);
    assert s.origin + s.frameMs + k * s.frameMs == s.origin + (k + 1) * s.frameMs;
    assert 1 * s.frameMs == s.frameMs;
    assert s.queue[1..][k..] == s.queue[k + 1..];
  }

  lemma PlayedNone(s: SinkState)
    ensures Played(s, 0) == s
  {
    assert 0 * s.frameMs == 0;
  }

  lemma PlayedOne(s: SinkState)
    requires s.queue != []
    ensures Played(s, 1) == s.(queue := s.queue[1..], current := s.queue[0], origin := (s.origin + s.frameMs) % TWO_32)
  {
    assert 1 * s.frameMs == s.frameMs;
  }

  lemma TakenFirst(s: SinkState, now: u32)
    requires s.frameMs > 0
    ensures if Elapsed(now, s.origin) > s.frameMs && s.queue != [] then Taken(s, now) == Taken(Played(s, 1), now) + 1
            else Taken(s, now) == 0
  {
    DueAfterOne(Elapsed(now, s.origin), s.frameMs);
    if Elapsed(now, s.origin) > s.frameMs && s.queue != [] {
      PlayedOne(s);
      OriginAdvances(now, s.origin, s.frameMs);
    }
  }

  lemma {:induction false} CatchUpPlays(s: SinkState, now: u32)
    requires s.frameMs > 0
    ensures CatchUp(s, now) == Played(s, Taken(s, now))
    decreases |s.queue|
  {
    TakenFirst(s, now);
    if Elapsed(now, s.origin) > s.frameMs && s.queue != [] {
      var s1 := Played(s, 1);
      PlayedOne(s);
      CatchUpPlays(s1, now);
      PlayedOneMore(s, Taken(s1, now));
    } else {
      PlayedNone(s);
    }
  }

  lemma DueBounds(e: nat, d: nat)
    requires d > 0
    ensures Due(e, d) * d <= e <= (Due(e, d) + 1) * d
  {
    if e > 0 {
      var q := (e - 1) / d;
      assert e - 1 == q * d + (e - 1) % d;
      assert (q + 1) * d == q * d + d;
    }
  }

  lemma ElapsedAfter(now: u32, origin: u32, k: int)
    requires 0 <= k <= Elapsed(now, origin)
    ensures Elapsed(now, Stamp(origin + k)) == Elapsed(now, origin) - k
  {
    NowFromElapsed(now, origin);
    ElapsedIsTrue(origin + Elapsed(now, origin), origin + k);
  }

  lemma TakenBounds(e: nat, n: nat, d: nat)
    requires d > 0
    ensures var taken := Min(n, Due(e, d));
            0 <= taken * d <= e && (taken < n ==> e - taken * d <= d)
  {
    var taken := Min(n, Due(e, d));
    DueBounds(e, d);
    ScaleOrder(taken, Due(e, d), d);
    ScaleOrder(0, taken, d);
    assert (Due(e, d) + 1) * d == Due(e, d) * d + d;
  }

  /** The playback loop takes exactly as many frames as are due, or all there are, and leaves
      the virtual clock within one frame of the present or the queue empty. */
  lemma PlaybackClosedForm(s: SinkState, now: u32)
    requires s.frameMs > 0
    ensures CatchUp(s, now) == Played(s, Taken(s, now))
    ensures Elapsed(now, CatchUp(s, now).origin) == Elapsed(now, s.origin) - Taken(s, now) * s.frameMs
    ensures Elapsed(now, CatchUp(s, now).origin) <= s.frameMs || CatchUp(s, now).queue == []
  {
    CatchUpPlays(s, now);
    TakenBounds(Elapsed(now, s.origin), |s.queue|, s.frameMs);
    ElapsedAfter(now, s.origin, Taken(s, now) * s.frameMs);
  }

  /** `k` more frames reach up to the instant `at` and not beyond it. */
  predicate Covers(s: SinkState, k: nat, start: int, at: int) {
    && start + k * s.frameMs <= at
    && k <= |s.queue|
    && (k < |s.queue| ==> at <= start + k * s.frameMs + s.frameMs)
  }

  /** `s'` is `s` after `k` more frames, the last of which started in true time when its turn came. */
  predicate PlayedOnTime(s: SinkState, s': SinkState, k: nat, start: int, at: int) {
    && Covers(s, k, start, at) && s'.queue == s.queue[k..]
    && s' == s.(queue := s'.queue, current := s'.current, origin := s'.origin)
    && s'.origin == Stamp(start + k * s.frameMs)
  }

  /** Playback in true time: the frame that started at `start` gives way to the frames after it,
      one every duration, until the present lies within the current one or none are left. */
  lemma PlaybackInTrueTime(s: SinkState, start: int, at: int)
    requires s.frameMs > 0 && s.origin == Stamp(start) && 0 <= at - start < TWO_32
    ensures PlayedOnTime(s, CatchUp(s, Stamp(at)), Taken(s, Stamp(at)), start, at)
  {
    CatchUpPlays(s, Stamp(at));
    TakenInTrueTime(s, start, at);
    PlayedBy(s, start, at, Taken(s, Stamp(at)));
  }

  lemma TakenInTrueTime(s: SinkState, start: int, at: int)
    requires s.frameMs > 0 && s.origin == Stamp(start) && 0 <= at - start < TWO_32
    ensures Covers(s, Taken(s, Stamp(at)), start, at)
  {
    ElapsedIsTrue(at, start);
    TakenBounds(at - start, |s.queue|, s.frameMs);
  }

  lemma PlayedBy(s: SinkState, start: int, at: int, k: nat)
    requires s.origin == Stamp(start) && Covers(s, k, start, at)
    ensures PlayedOnTime(s, Played(s, k), k, start, at)
  {
    AddToStamp(start, k * s.frameMs);
  }

  /** Playing frames touches the queue, the current frame and the virtual clock only. */
  lemma {:induction false} CatchUpKeeps(s: SinkState, now: u32)
    ensures var s' := CatchUp(s, now);
            && s' == s.(queue := s'.queue, current := s'.current, origin := s'.origin)
            && |s'.queue| <= |s.queue|
            && s'.queue == s.queue[|s.queue| - |s'.queue|..]
    decreases |s.queue|
  {
    if Elapsed(now, s.origin) > s.frameMs && s.queue != [] {
      CatchUpKeeps(s.(queue := s.queue[1..], current := s.queue[0], origin := (s.origin + s.frameMs) % TWO_32), now);
    }
  }

  // ----- Updates with one request -----

  lemma OneRequest(s: SinkState, q: Request, sender: Endpoint, at: int)
    ensures HandleAll(s, [q], sender, at) == Handle(s, q, sender, at)
  {
    var t := Handle(s, q, sender, at);
    assert [q][1..] == [] && t.out + [] == t.out;
  }

  lemma GrantReply(s: SinkState, q: Request, sender: Endpoint, at: int)
    requires Grants(s, q, sender) && !s.hung
    ensures Handle(s, q, sender, at) == SayLent(Borrowed(s, q.frameMs, sender), at)
    ensures !Handle(s, q, sender, at).st.hung
  {}

  /** The keepalive: either nothing, or one lent message to the borrower. */
  lemma SendReply(s: SinkState, clk: SinkClock)
    ensures var u := Send(s, clk);
            && u.st == s.(lastSendLent := u.st.lastSendLent, nextId := u.st.nextId)
            && (u.out == [] ==> u.st == s)
            && (u.out != [] ==> s.mode.Lent? && u.out == [Reply(s.borrower, Env(s.nextId, Wire.Lent))]
                                && u.st.lastSendLent == Stamp(clk.lent))
  {}

  /** An update is receiving, then the keepalive. */
  lemma UpdateInParts(s: SinkState, d: Delivery, clk: SinkClock)
    requires !s.mode.Error? && !s.hung && !Receive(s, d, clk).st.hung
    ensures var mid := Receive(s, d, clk);
            var u := Send(mid.st, clk);
            Update(s, d, clk) == Turn(u.st, mid.out + u.out)
  {}

  /** The keepalive: an update that leaves the sink lent once it has received says so to the
      borrower, exactly once, if and only if more than 500 ms of true time have passed since it
      last did; and this is all it does besides receiving. */
  lemma KeepaliveIsDue(s: SinkState, d: Delivery, clk: SinkClock, last: int)
    requires !s.mode.Error? && !s.hung
    requires var mid := Receive(s, d, clk).st;
             !mid.hung && (mid.mode.Lent? ==> mid.lastSendLent == Stamp(last) && 0 <= clk.check - last < TWO_32)
    ensures var mid := Receive(s, d, clk);
            var due := mid.st.mode.Lent? && clk.check - last > 500;
            var beat := Reply(mid.st.borrower, Env(mid.st.nextId, Wire.Lent));
            && Update(s, d, clk).out == mid.out + (if due then [beat] else [])
            && (due ==> Update(s, d, clk).st ==
                          mid.st.(lastSendLent := Stamp(clk.lent), nextId := (mid.st.nextId + 1) % 65536))
            && (!due ==> Update(s, d, clk).st == mid.st)
  {
    var mid := Receive(s, d, clk);
    UpdateInParts(s, d, clk);
    if mid.st.mode.Lent? { ElapsedIsTrue(clk.check, last); }
    if Send(mid.st, clk).out == [] { assert mid.out + [] == mid.out; }
  }

  // ----- Replies -----

  /** Which refusal a request meets, by error code; nothing else is refused. */
  lemma RefusalCodes(s: SinkState, q: Request, sender: Endpoint, at: int)
    requires !s.hung && s.frameLen > 0 && !s.mode.Error?
    ensures var out := Handle(s, q, sender, at).out;
            var refusal := if |out| == 1 && out[0].env.msg.Fail? then out[0].env.msg.code as int else -1;
            var stranger := s.mode.Lent? && sender != s.borrower;
            && (refusal == 0 <==> q.AskEnqueue? && s.mode.Open?)
            && (refusal == 1 <==> q.AskBorrow? && !stranger && q.bufferLen > 128)
            && (refusal == 2 <==> q.AskBorrow? && !stranger && q.bufferLen <= 128 && q.frameMs < 10)
            && (refusal == 3 <==> stranger && (q.AskBorrow? || (q.AskEnqueue? && |q.frame| >= 3)))
            && (refusal == 4 <==> q.Unexpected? || (q.AskEnqueue? && s.mode.Lent? && |q.frame| < 3))
            && (refusal == -1 <==>
                  Grants(s, q, sender) || (q.AskEnqueue? && s.mode.Lent? && !stranger && |q.frame| >= 3))
  {
    if q.AskBorrow? {
      AcceptableInFrames(s, q.frameMs, q.bufferLen);
      AcceptableInFrames(s, FRAME_LENGTH_MS_MIN, q.bufferLen);
    }
  }

  /** A reply goes to the sender; a refusal names the message that caused it. */
  predicate Answers(r: Reply, q: Request, sender: Endpoint) {
    && r.to == sender
    && (r.env.msg.Fail? ==> r.env.msg.cause == q.id)
    && (r.env.msg.Lent? ==> q.AskBorrow?)
    && (r.env.msg.Fail? || r.env.msg.Lent?)
  }

  lemma AnswerToOne(s: SinkState, q: Request, sender: Endpoint, at: int)
    ensures var t := Handle(s, q, sender, at);
            && |t.out| <= 1 && t.st.nextId == (s.nextId + |t.out|) % 65536
            && (|t.out| == 1 ==> Answers(t.out[0], q, sender) && t.out[0].env.id == s.nextId)
  {}

  /** For every reply to a datagram, the request it answers. */
  function Causes(s: SinkState, qs: seq<Request>, sender: Endpoint, at: int): seq<nat>
    decreases |qs|
  {
    if qs == [] then []
    else
      var t := Handle(s, qs[0], sender, at);
      var later := Causes(t.st, qs[1..], sender, at);
      (if t.out == [] then [] else [0]) + seq(|later|, j requires 0 <= j < |later| => later[j] + 1)
  }

  ghost predicate InOrder(who: seq<nat>, n: nat) {
    && (forall j :: 0 <= j < |who| ==> who[j] < n)
    && (forall j, k :: 0 <= j < k < |who| ==> who[j] < who[k])
  }

  ghost predicate AllAnswer(out: seq<Reply>, who: seq<nat>, qs: seq<Request>, sender: Endpoint) {
    |who| == |out| && InOrder(who, |qs|) && forall j :: 0 <= j < |out| ==> Answers(out[j], qs[who[j]], sender)
  }

  predicate ConsecutiveIds(out: seq<Reply>, first: u16) {
    forall j :: 0 <= j < |out| ==> out[j].env.id == (first + j) % 65536
  }

  lemma LaterIds(first: seq<Reply>, out: seq<Reply>, id: u16, mid: u16, last: u16)
    requires |first| <= 1 && (|first| == 1 ==> first[0].env.id == id)
    requires mid == (id + |first|) % 65536 && last == (mid + |out|) % 65536
    requires ConsecutiveIds(out, mid)
    ensures ConsecutiveIds(first + out, id) && last == (id + |first + out|) % 65536
  {
    AddMod(id + |first|, |out|);
    forall j | 0 <= j < |out|
      ensures out[j].env.id == (id + (|first| + j)) % 65536
    {
      AddMod(id + |first|, j);
    }
  }

  lemma AddMod(a: int, b: int)
    ensures (a % 65536 + b) % 65536 == (a + b) % 65536
  {}

  lemma LaterAnswers(first: seq<Reply>, out: seq<Reply>, who: seq<nat>, q: Request, qs: seq<Request>, sender: Endpoint)
    requires AllAnswer(out, who, qs, sender)
    requires |first| <= 1 && (|first| == 1 ==> Answers(first[0], q, sender))
    ensures var shifted := seq(|who|, j requires 0 <= j < |who| => who[j] + 1);
            AllAnswer(first + out, (if first == [] then [] else [0]) + shifted, [q] + qs, sender)
  {
    var shifted := seq(|who|, j requires 0 <= j < |who| => who[j] + 1);
    assert forall j :: 0 <= j < |who| ==> ([q] + qs)[shifted[j]] == qs[who[j]];
  }

  /** The requests of a datagram are answered in order, each at most once, under consecutive
      message ids, and every refusal carries the id of the request it refuses. */
  lemma {:induction false} RepliesNameTheirCause(s: SinkState, qs: seq<Request>, sender: Endpoint, at: int)
    ensures var t := HandleAll(s, qs, sender, at);
            && AllAnswer(t.out, Causes(s, qs, sender, at), qs, sender)
            && ConsecutiveIds(t.out, s.nextId)
            && t.st.nextId == (s.nextId + |t.out|) % 65536
    decreases |qs|
  {
    if qs != [] {
      var t := Handle(s, qs[0], sender, at);
      AnswerToOne(s, qs[0], sender, at);
      RepliesNameTheirCause(t.st, qs[1..], sender, at);
      var u := HandleAll(t.st, qs[1..], sender, at);
      LaterIds(t.out, u.out, s.nextId, t.st.nextId, u.st.nextId);
      assert [qs[0]] + qs[1..] == qs;
      LaterAnswers(t.out, u.out, Causes(t.st, qs[1..], sender, at), qs[0], qs[1..], sender);
    }
  }

  /** All that an update says, the keepalive and the timeout included, goes out under consecutive
      message ids. */
  lemma IdsAreConsecutive(s: SinkState, d: Delivery, clk: SinkClock)
    ensures var t := Update(s, d, clk);
            ConsecutiveIds(t.out, s.nextId) && t.st.nextId == (s.nextId + |t.out|) % 65536
  {
    if !s.mode.Error? && !s.hung {
      var mid := Receive(s, d, clk);
      if d.Datagram? { RepliesNameTheirCause(s, d.requests, d.sender, clk.grant); }
      if !mid.st.hung {
        UpdateInParts(s, d, clk);
        IdsGoOn(mid.out, Send(mid.st, clk).out, s.nextId, mid.st.nextId);
      }
    }
  }

  lemma IdsGoOn(out: seq<Reply>, more: seq<Reply>, id: u16, mid: u16)
    requires ConsecutiveIds(out, id) && mid == (id + |out|) % 65536
    requires |more| <= 1 && (|more| == 1 ==> more[0].env.id == mid)
    ensures ConsecutiveIds(out + more, id) && (mid + |more|) % 65536 == (id + |out + more|) % 65536
  {
    AddMod(id + |out|, |more|);
  }

  /** A request that is neither granted nor an enqueue of the borrower leaves everything but the
      message id as it was, and at most ends the borrow. */
  lemma OthersChangeNothing(s: SinkState, q: Request, sender: Endpoint, at: int)
    requires !s.hung && !Grants(s, q, sender)
    requires !(q.AskEnqueue? && s.mode.Lent? && sender == s.borrower && |q.frame| >= 3)
    ensures var s' := Handle(s, q, sender, at).st;
            && s' == s.(mode := s'.mode, nextId := s'.nextId)
            && (s'.mode != s.mode ==> s.mode.Lent? && s'.mode.Open?)
  {}

  // ----- Strangers -----

  /** Whatever others send, it does not make `ep` the borrower, and nothing is said to it. If the
      sink is lent to `ep` in the end it was so before, and its session is as it was. */
  lemma {:induction false} StrangersCannotBorrowFor(s: SinkState, qs: seq<Request>, sender: Endpoint, at: int,
                                                    ep: Endpoint)
    requires sender != ep
    ensures var t := HandleAll(s, qs, sender, at);
            && (t.st.mode.Lent? && t.st.borrower == ep ==>
                  s.mode.Lent? && s.borrower == ep && t.st == s.(nextId := t.st.nextId))
            && (IdxInRange(s) ==> IdxInRange(t.st))
            && t.st.frameLen == s.frameLen && (t.st.mode.Error? <==> s.mode.Error?)
            && (t.st.hung && !s.hung ==> t.st.mode.Lent?)
            && forall r :: r in t.out ==> r.to != ep
    decreases |qs|
  {
    if qs != [] {
      AnswerToOne(s, qs[0], sender, at);
      var t := Handle(s, qs[0], sender, at);
      if t.st.hung { HungIsFinal(t.st, qs[1..], sender, at); }
      StrangersCannotBorrowFor(t.st, qs[1..], sender, at, ep);
    }
  }

  /** The same for a whole update: apart from the keepalive, nothing is said to `ep`. */
  lemma StrangersUpdate(s: SinkState, qs: seq<Request>, sender: Endpoint, clk: SinkClock, ep: Endpoint)
    requires sender != ep
    ensures var t, d := Update(s, Datagram(sender, qs), clk), Datagram(sender, qs);
            var beat := Send(Receive(s, d, clk).st, clk).out;
            var mine := t.st.mode.Lent? && t.st.borrower == ep;
            && (mine ==>
                  && s.mode.Lent? && s.borrower == ep
                  && t.st == s.(lastRecv := t.st.lastRecv, lastSendLent := t.st.lastSendLent, nextId := t.st.nextId)
                  && (!s.hung ==> t.st.lastSendLent == if beat == [] then s.lastSendLent else Stamp(clk.lent)))
            && (IdxInRange(s) ==> IdxInRange(t.st))
            && t.st.frameLen == s.frameLen && (t.st.mode.Error? <==> s.mode.Error?)
            && (t.st.hung && !s.hung ==> t.st.mode.Lent?)
            && (forall r :: r in t.out && r.to == ep ==> mine && r.env.msg.Lent? && beat != [])
            && (!s.hung && !s.mode.Error? && mine && beat != [] ==> exists r :: r in t.out && r.to == ep)
  {
    if !s.mode.Error? && !s.hung {
      StrangersCannotBorrowFor(s, qs, sender, clk.grant, ep);
      var mid := Receive(s, Datagram(sender, qs), clk);
      if !mid.st.hung {
        UpdateInParts(s, Datagram(sender, qs), clk);
        SendReply(mid.st, clk);
        var beat := Send(mid.st, clk).out;
        if beat != [] { assert beat[0] in mid.out + beat; }
      }
    }
  }

  /** While the sink is lent to another, messages that end no borrow leave it as it is. */
  lemma {:induction false} StrangersAreRefused(s: SinkState, qs: seq<Request>, sender: Endpoint, at: int)
    requires s.mode.Lent? && !s.hung && sender != s.borrower
    requires forall q :: q in qs && q.AskEnqueue? ==> |q.frame| >= 3
    ensures var t := HandleAll(s, qs, sender, at); t.st == s.(nextId := t.st.nextId)
    decreases |qs|
  {
    if qs != [] {
      assert qs[0] in qs;
      StrangersAreRefused(Handle(s, qs[0], sender, at).st, qs[1..], sender, at);
    }
  }
}
