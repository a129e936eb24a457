/** Exclusive borrowing over whole runs of a sink. A call is broken up into the single things
    it does, so that a borrow that ends and begins again within one datagram is seen. */
module SinkRuns {
  import opened Clock
  import opened Pattern
  import opened Wire
  import opened SinkSpec
  import opened SinkSteps

  datatype Call =
    | StateCall(delivery: Delivery, clk: SinkClock)
    | GetCall(at: int)

  datatype Micro =
    | Hear(sender: Endpoint, request: Request, at: int)
    | Heard(at: int)
    | Silence(at: int)
    | Beat(check: int, lent: int)
    | Display(at: int)

  function Do(s: SinkState, c: Call): SinkState {
    match c
    case StateCall(d, clk) => Update(s, d, clk).st
    case GetCall(at) => if s.hung then s else Show(s, at)
  }

  function DoAll(s: SinkState, cs: seq<Call>): SinkState
    decreases |cs|
  {
    if cs == [] then s else DoAll(Do(s, cs[0]), cs[1..])
  }

  function Step(s: SinkState, m: Micro): SinkState {
    if s.hung || s.mode.Error? then s
    else
      match m
      case Hear(sender, q, at) => Handle(s, q, sender, at).st
      case Heard(at) => s.(lastRecv := Stamp(at))
      case Silence(at) => Receive(s, Nothing, SinkClock(at, at, at, at)).st
      case Beat(check, lent) => Send(s, SinkClock(check, check, check, lent)).st
      case Display(at) => Show(s, at)
  }

  function Steps(s: SinkState, ms: seq<Micro>): SinkState
    decreases |ms|
  {
    if ms == [] then s else Steps(Step(s, ms[0]), ms[1..])
  }

  function Hearing(sender: Endpoint, qs: seq<Request>, at: int): seq<Micro> {
    seq(|qs|, i requires 0 <= i < |qs| => Hear(sender, qs[i], at))
  }

  function Micros(c: Call): seq<Micro> {
    match c
    case StateCall(Nothing, clk) => [Silence(clk.recv), Beat(clk.check, clk.lent)]
    case StateCall(Datagram(sender, qs), clk) =>
      Hearing(sender, qs, clk.grant) + [Heard(clk.recv), Beat(clk.check, clk.lent)]
    case GetCall(at) => [Display(at)]
  }

  function AllMicros(cs: seq<Call>): seq<Micro> {
    if cs == [] then [] else Micros(cs[0]) + AllMicros(cs[1..])
  }

  lemma {:induction false} StepsAppend(s: SinkState, a: seq<Micro>, b: seq<Micro>)
    ensures Steps(s, a + b) == Steps(Steps(s, a), b)
    decreases |a|
  {
    if a == [] {
      assert a + b == b;
    } else {
      assert (a + b)[1..] == a[1..] + b;
      StepsAppend(Step(s, a[0]), a[1..], b);
    }
  }

  lemma {:induction false} HearingIsHandling(s: SinkState, sender: Endpoint, qs: seq<Request>, at: int)
    requires !s.mode.Error?
    ensures Steps(s, Hearing(sender, qs, at)) == HandleAll(s, qs, sender, at).st
    ensures !HandleAll(s, qs, sender, at).st.mode.Error?
    decreases |qs|
  {
    if qs != [] {
      assert Hearing(sender, qs, at)[1..] == Hearing(sender, qs[1..], at);
      HearingIsHandling(Handle(s, qs[0], sender, at).st, sender, qs[1..], at);
    }
  }

  lemma {:induction false} NothingHappens(s: SinkState, ms: seq<Micro>)
    requires s.hung || s.mode.Error?
    ensures Steps(s, ms) == s
    decreases |ms|
  {
    if ms != [] { NothingHappens(s, ms[1..]); }
  }

  lemma CallIsItsSteps(s: SinkState, c: Call)
    ensures Do(s, c) == Steps(s, Micros(c))
  {
    if s.hung || s.mode.Error? {
      NothingHappens(s, Micros(c));
    } else if c.GetCall? {
      assert Steps(s, Micros(c)) == Step(s, Display(c.at));
    } else {
      var tail := [Beat(c.clk.check, c.clk.lent)];
      match c.delivery
      case Nothing =>
        assert Micros(c)[1..] == tail;
        LastStep(Step(s, Silence(c.clk.recv)), tail[0]);
      case Datagram(sender, qs) =>
        HearingIsHandling(s, sender, qs, c.clk.grant);
        var t := HandleAll(s, qs, sender, c.clk.grant).st;
        StepsAppend(s, Hearing(sender, qs, c.clk.grant), [Heard(c.clk.recv)] + tail);
        assert [Heard(c.clk.recv), tail[0]] == [Heard(c.clk.recv)] + tail;
        assert ([Heard(c.clk.recv)] + tail)[1..] == tail;
        LastStep(Step(t, Heard(c.clk.recv)), tail[0]);
    }
  }

  lemma LastStep(s: SinkState, m: Micro)
    ensures Steps(s, [m]) == Step(s, m)
  {
    assert [m][1..] == [];
  }

  lemma {:induction false} CallsAreTheirSteps(s: SinkState, cs: seq<Call>)
    ensures DoAll(s, cs) == Steps(s, AllMicros(cs))
    decreases |cs|
  {
    if cs != [] {
      CallIsItsSteps(s, cs[0]);
      StepsAppend(s, Micros(cs[0]), AllMicros(cs[1..]));
      CallsAreTheirSteps(Do(s, cs[0]), cs[1..]);
    }
  }

  // ----- How a borrow ends -----

  /** Silence for too long, a borrow request of the borrower that cannot be met, or an enqueue
      message shorter than one colour, whoever sent it. `heardAt` is the true time at which the
      last datagram was received. */
  predicate EndsBorrow(s: SinkState, m: Micro, heardAt: int) {
    match m
    case Silence(at) => at - heardAt > 1500
    case Hear(sender, AskBorrow(_, frameMs, bufferLen), _) =>
      sender == s.borrower && !Acceptable(s, frameMs, bufferLen)
    case Hear(_, AskEnqueue(_, _, frame), _) => |frame| < 3
    case _ => false
  }

  lemma BorrowEndsExactlyWhen(s: SinkState, m: Micro, heardAt: int)
    requires s.mode.Lent? && !s.hung
    requires m.Silence? ==> s.lastRecv == Stamp(heardAt) && 0 <= m.at - heardAt < TWO_32
    ensures Step(s, m).mode.Lent? <==> !EndsBorrow(s, m, heardAt)
    ensures EndsBorrow(s, m, heardAt) ==> Step(s, m).mode.Open? && Step(s, m).queue == s.queue
  {
    if m.Display? && !NothingToShow(s) && s.origin != NULL_TIME {
      CatchUpKeeps(s, Stamp(m.at));
    }
    if m.Silence? { ElapsedIsTrue(m.at, heardAt); }
  }

  /** It is not true that only the borrower can end a borrow: the length of an enqueue message
      is looked at before its sender. */
  lemma StrangerCanEndBorrow(s: SinkState, stranger: Endpoint, at: int)
    requires s.mode.Lent? && !s.hung && stranger != s.borrower
    ensures exists m: Micro :: m.Hear? && m.sender == stranger && !Step(s, m).mode.Lent?
  {
    var m := Hear(stranger, AskEnqueue(0, 0, []), at);
    assert !Step(s, m).mode.Lent?;
  }

  /** The sink is lent at every point of the run. */
  predicate StaysLent(s: SinkState, ms: seq<Micro>)
    decreases |ms|
  {
    s.mode.Lent? && (ms == [] || StaysLent(Step(s, ms[0]), ms[1..]))
  }

  lemma {:induction false} StaysLentAppend(s: SinkState, a: seq<Micro>, b: seq<Micro>)
    ensures StaysLent(s, a + b) <==> StaysLent(s, a) && StaysLent(Steps(s, a), b)
    decreases |a|
  {
    if a == [] {
      assert a + b == b;
    } else {
      assert (a + b)[1..] == a[1..] + b;
      StaysLentAppend(Step(s, a[0]), a[1..], b);
    }
  }

  lemma StepWhileLent(s: SinkState, m: Micro)
    requires s.mode.Lent? && Step(s, m).mode.Lent?
    ensures Step(s, m).borrower == s.borrower && Step(s, m).frameLen == s.frameLen
  {
    if m.Display? && !NothingToShow(s) && s.origin != NULL_TIME {
      CatchUpKeeps(s, Stamp(m.at));
    }
  }

  // ----- Who keeps a borrow alive -----

  /** When a datagram was last received, after a call. */
  function HeardBy(c: Call, heardAt: int): int {
    if c.StateCall? && c.delivery.Datagram? then c.clk.recv else heardAt
  }

  function LastHeard(cs: seq<Call>, heardAt: int): int
    decreases |cs|
  {
    if cs == [] then heardAt else LastHeard(cs[1..], HeardBy(cs[0], heardAt))
  }

  predicate Silent(c: Call) {
    c.StateCall? && c.delivery.Nothing?
  }

  /** The clock does not run once around between a datagram and a call that receives nothing. */
  predicate Timed(cs: seq<Call>, heardAt: int)
    decreases |cs|
  {
    cs == [] || ((Silent(cs[0]) ==> 0 <= cs[0].clk.recv - heardAt < TWO_32) && Timed(cs[1..], HeardBy(cs[0], heardAt)))
  }

  /** Nothing in a call ends the borrow. Of the state, only the borrower and the size of a frame
      matter, and these do not change while the sink is lent. */
  predicate Harmless(s: SinkState, c: Call, heardAt: int) {
    match c
    case StateCall(Nothing, clk) => !EndsBorrow(s, Silence(clk.recv), heardAt)
    case StateCall(Datagram(sender, qs), clk) => AllHarmless(s, sender, qs, clk.grant, heardAt)
    case GetCall(_) => true
  }

  predicate AllHarmless(s: SinkState, sender: Endpoint, qs: seq<Request>, at: int, heardAt: int) {
    forall q :: q in qs ==> !EndsBorrow(s, Hear(sender, q, at), heardAt)
  }

  predicate Undisturbed(s: SinkState, cs: seq<Call>, heardAt: int)
    decreases |cs|
  {
    cs == [] || (Harmless(s, cs[0], heardAt) && Undisturbed(s, cs[1..], HeardBy(cs[0], heardAt)))
  }

  lemma {:induction false} SameBorrowSameHarm(s: SinkState, s': SinkState, cs: seq<Call>, heardAt: int)
    requires s'.borrower == s.borrower && s'.frameLen == s.frameLen
    ensures Undisturbed(s', cs, heardAt) <==> Undisturbed(s, cs, heardAt)
    decreases |cs|
  {
    if cs != [] { SameBorrowSameHarm(s, s', cs[1..], HeardBy(cs[0], heardAt)); }
  }

  lemma {:induction false} HungStays(s: SinkState, cs: seq<Call>)
    requires s.hung
    ensures DoAll(s, cs) == s
    decreases |cs|
  {
    if cs != [] { HungStays(s, cs[1..]); }
  }

  lemma {:induction false} LentWhileHearing(s: SinkState, sender: Endpoint, qs: seq<Request>, at: int, heardAt: int)
    requires s.mode.Lent? && !Steps(s, Hearing(sender, qs, at)).hung
    ensures StaysLent(s, Hearing(sender, qs, at)) <==> AllHarmless(s, sender, qs, at, heardAt)
    ensures var s' := Steps(s, Hearing(sender, qs, at));
            StaysLent(s, Hearing(sender, qs, at)) ==>
              s'.mode.Lent? && s'.borrower == s.borrower && s'.frameLen == s.frameLen
    decreases |qs|
  {
    if s.hung { NothingHappens(s, Hearing(sender, qs, at)); }
    if qs != [] {
      var m := Hear(sender, qs[0], at);
      assert Hearing(sender, qs, at)[1..] == Hearing(sender, qs[1..], at);
      BorrowEndsExactlyWhen(s, m, heardAt);
      assert qs[0] in qs;
      if !EndsBorrow(s, m, heardAt) {
        StepWhileLent(s, m);
        LentWhileHearing(Step(s, m), sender, qs[1..], at, heardAt);
        assert qs == [qs[0]] + qs[1..];
      }
    }
  }

  lemma LentAfterHearing(s: SinkState, clk: SinkClock)
    requires s.mode.Lent? && !s.hung
    ensures var rest := [Heard(clk.recv), Beat(clk.check, clk.lent)];
            var s' := Steps(s, rest);
            && StaysLent(s, rest)
            && s' == s.(lastRecv := Stamp(clk.recv), lastSendLent := s'.lastSendLent, nextId := s'.nextId)
  {
    var rest := [Heard(clk.recv), Beat(clk.check, clk.lent)];
    assert rest[1..] == [rest[1]];
    LastStep(Step(s, rest[0]), rest[1]);
    assert [rest[1]][1..] == [];
  }

  lemma LentThroughDatagram(s: SinkState, sender: Endpoint, qs: seq<Request>, clk: SinkClock, heardAt: int)
    requires var c := StateCall(Datagram(sender, qs), clk); s.mode.Lent? && !Do(s, c).hung
    ensures var c := StateCall(Datagram(sender, qs), clk);
            var s' := Do(s, c);
            && (StaysLent(s, Micros(c)) <==> AllHarmless(s, sender, qs, clk.grant, heardAt))
            && (StaysLent(s, Micros(c)) ==>
                  && s'.mode.Lent? && s'.borrower == s.borrower && s'.frameLen == s.frameLen
                  && s'.lastRecv == Stamp(clk.recv))
  {
    var ms, rest := Hearing(sender, qs, clk.grant), [Heard(clk.recv), Beat(clk.check, clk.lent)];
    CallIsItsSteps(s, StateCall(Datagram(sender, qs), clk));
    StepsAppend(s, ms, rest);
    StaysLentAppend(s, ms, rest);
    var mid := Steps(s, ms);
    if mid.hung { NothingHappens(mid, rest); }
    LentWhileHearing(s, sender, qs, clk.grant, heardAt);
    if mid.mode.Lent? { LentAfterHearing(mid, clk); }
  }

  /** One call, unless the sink hangs in it. */
  lemma LentThroughCall(s: SinkState, c: Call, heardAt: int)
    requires s.mode.Lent? && !Do(s, c).hung && s.lastRecv == Stamp(heardAt) && Timed([c], heardAt)
    ensures StaysLent(s, Micros(c)) <==> Harmless(s, c, heardAt)
    ensures StaysLent(s, Micros(c)) ==>
              var s' := Do(s, c);
              && s'.mode.Lent? && s'.borrower == s.borrower && s'.frameLen == s.frameLen
              && s'.lastRecv == Stamp(HeardBy(c, heardAt))
  {
    CallIsItsSteps(s, c);
    if s.hung { NothingHappens(s, Micros(c)); }
    match c
    case StateCall(Nothing, clk) =>
      var m, beat := Silence(clk.recv), Beat(clk.check, clk.lent);
      BorrowEndsExactlyWhen(s, m, heardAt);
      assert [m, beat][1..] == [beat] && [beat][1..] == [];
      assert StaysLent(s, [m, beat]) == StaysLent(Step(s, m), [beat]);
      if Step(s, m).mode.Lent? { assert StaysLent(Step(Step(s, m), beat), []); }
    case StateCall(Datagram(sender, qs), clk) => LentThroughDatagram(s, sender, qs, clk, heardAt);
    case GetCall(at) =>
      BorrowEndsExactlyWhen(s, Display(at), heardAt);
      StepWhileLent(s, Display(at));
      if !NothingToShow(s) && s.origin != NULL_TIME { CatchUpKeeps(s, Stamp(at)); }
      assert [Display(at)][1..] == [];
  }

  /** Over any calls in which the sink does not hang, it stays lent if and only if nothing in
      them ends the borrow: whoever talks to it at least every 1500 ms keeps the borrow alive. */
  lemma {:induction false} LentExactlyWhile(s: SinkState, cs: seq<Call>, heardAt: int)
    requires s.mode.Lent? && !DoAll(s, cs).hung && s.lastRecv == Stamp(heardAt) && Timed(cs, heardAt)
    ensures StaysLent(s, AllMicros(cs)) <==> Undisturbed(s, cs, heardAt)
    ensures StaysLent(s, AllMicros(cs)) ==>
              DoAll(s, cs).mode.Lent? && DoAll(s, cs).lastRecv == Stamp(LastHeard(cs, heardAt))
    decreases |cs|
  {
    if cs != [] {
      var c, s' := cs[0], Do(s, cs[0]);
      if s'.hung { HungStays(s', cs[1..]); }
      LentThroughCall(s, c, heardAt);
      CallIsItsSteps(s, c);
      StaysLentAppend(s, Micros(c), AllMicros(cs[1..]));
      if StaysLent(s, Micros(c)) {
        LentExactlyWhile(s', cs[1..], HeardBy(c, heardAt));
        SameBorrowSameHarm(s, s', cs[1..], HeardBy(c, heardAt));
      }
    }
  }

  /** After any calls that have left the borrow alone, a call that receives nothing ends it if
      and only if the last datagram, of anybody, is more than 1500 ms ago; and then the borrower
      is told so, by a refusal of no message. */
  lemma SilenceIsATimeout(s: SinkState, cs: seq<Call>, heardAt: int, clk: SinkClock)
    requires s.mode.Lent? && !DoAll(s, cs).hung && s.lastRecv == Stamp(heardAt) && Timed(cs, heardAt)
    requires Undisturbed(s, cs, heardAt) && 0 <= clk.recv - LastHeard(cs, heardAt) < TWO_32
    ensures var z := DoAll(s, cs);
            var t, late := Receive(z, Nothing, clk), clk.recv - LastHeard(cs, heardAt) > 1500;
            && (t.st.mode.Open? <==> late) && (t.st.mode.Lent? <==> !late) && t.st.queue == z.queue
            && t.out == if late then [Reply(s.borrower, Env(z.nextId, Fail(0, 5)))] else []
  {
    LentExactlyWhile(s, cs, heardAt);
    ExclusiveBorrow(s, cs);
    ElapsedIsTrue(clk.recv, LastHeard(cs, heardAt));
  }

  /** `n` times, 1500 ms apart: nothing has arrived, then a datagram of a stranger does. */
  function Chatter(stranger: Endpoint, qs: seq<Request>, n: nat, since: int): seq<Call> {
    if n == 0 then []
    else
      var t := since + 1500;
      [StateCall(Nothing, SinkClock(t, t, t, t)), StateCall(Datagram(stranger, qs), SinkClock(t, t, t, t))]
      + Chatter(stranger, qs, n - 1, t)
  }

  lemma DoTwo(s: SinkState, a: Call, b: Call, rest: seq<Call>)
    ensures DoAll(s, [a, b] + rest) == DoAll(Do(Do(s, a), b), rest)
  {
    assert ([a, b] + rest)[1..] == [b] + rest && ([b] + rest)[1..] == rest;
  }

  /** One round of a stranger's chatter passes without effect. */
  lemma ChatterOnce(s: SinkState, stranger: Endpoint, qs: seq<Request>, heardAt: int)
    requires s.mode.Lent? && !s.hung && s.lastRecv == Stamp(heardAt) && stranger != s.borrower
    requires forall q :: q in qs && q.AskEnqueue? ==> |q.frame| >= 3
    ensures var t := heardAt + 1500;
            var s1 := Do(s, StateCall(Nothing, SinkClock(t, t, t, t)));
            var s2 := Do(s1, StateCall(Datagram(stranger, qs), SinkClock(t, t, t, t)));
            s2 == s.(lastRecv := Stamp(t), lastSendLent := s2.lastSendLent, nextId := s2.nextId)
  {
    var t := heardAt + 1500;
    ElapsedIsTrue(t, heardAt);
    var s1 := Do(s, StateCall(Nothing, SinkClock(t, t, t, t)));
    assert s1 == s.(lastSendLent := s1.lastSendLent, nextId := s1.nextId);
    StrangersAreRefused(s1, qs, stranger, t);
  }

  /** A stranger alone keeps a borrow alive for ever, though everything it sends is refused. */
  lemma {:induction false} StrangerKeepsBorrow(s: SinkState, stranger: Endpoint, qs: seq<Request>, n: nat, heardAt: int)
    requires s.mode.Lent? && !s.hung && s.lastRecv == Stamp(heardAt) && stranger != s.borrower
    requires forall q :: q in qs && q.AskEnqueue? ==> |q.frame| >= 3
    ensures var z := DoAll(s, Chatter(stranger, qs, n, heardAt));
            z == s.(lastRecv := Stamp(heardAt + n * 1500), lastSendLent := z.lastSendLent, nextId := z.nextId)
    decreases n
  {
    if n > 0 {
      var t := heardAt + 1500;
      var a, b := StateCall(Nothing, SinkClock(t, t, t, t)), StateCall(Datagram(stranger, qs), SinkClock(t, t, t, t));
      ChatterOnce(s, stranger, qs, heardAt);
      DoTwo(s, a, b, Chatter(stranger, qs, n - 1, t));
      StrangerKeepsBorrow(Do(Do(s, a), b), stranger, qs, n - 1, t);
    }
  }

  // ----- Who fills the ring -----

  /** A frame that entered the ring, and who sent it. */
  datatype Entry = Entry(sender: Endpoint, frame: Frame)

  function Entries(sender: Endpoint, frames: seq<Frame>): seq<Entry> {
    seq(|frames|, i requires 0 <= i < |frames| => Entry(sender, frames[i]))
  }

  function FramesOf(es: seq<Entry>): seq<Frame> {
    seq(|es|, i requires 0 <= i < |es| => es[i].frame)
  }

  /** What messages append to the ring, in order. */
  function Entered(s: SinkState, ms: seq<Micro>): seq<Entry>
    decreases |ms|
  {
    if ms == [] then []
    else
      var s' := Step(s, ms[0]);
      (if ms[0].Hear? && |s'.queue| > |s.queue| then Entries(ms[0].sender, s'.queue[|s.queue|..]) else [])
      + Entered(s', ms[1..])
  }

  /** What is taken from the front of the ring, in order. */
  function Left(s: SinkState, ms: seq<Micro>): seq<Frame>
    decreases |ms|
  {
    if ms == [] then []
    else
      var s' := Step(s, ms[0]);
      (if ms[0].Display? && |s'.queue| < |s.queue| then s.queue[..|s.queue| - |s'.queue|] else [])
      + Left(s', ms[1..])
  }

  /** The entry is the frame of an enqueue message of the borrower, filled to size. */
  predicate CameFrom(e: Entry, m: Micro, borrower: Endpoint, frameLen: nat) {
    && m.Hear? && m.sender == borrower == e.sender && m.request.AskEnqueue? && |m.request.frame| > 0
    && e.frame == Repeated(m.request.frame, frameLen)
  }

  ghost predicate AllCameFrom(es: seq<Entry>, ms: seq<Micro>, borrower: Endpoint, frameLen: nat) {
    forall e :: e in es ==> exists m :: m in ms && CameFrom(e, m, borrower, frameLen)
  }

  /** A step appends filled frames of the borrower, takes frames from the front, or neither. */
  lemma RingWhileLent(s: SinkState, m: Micro)
    requires s.mode.Lent? && Step(s, m).mode.Lent?
    ensures var q, q' := s.queue, Step(s, m).queue;
            && (|q'| > |q| ==> m.Hear? && q' == q + q'[|q|..])
            && (|q'| > |q| ==> AllCameFrom(Entries(m.sender, q'[|q|..]), [m], s.borrower, s.frameLen))
            && (|q'| < |q| ==> m.Display? && q == q[..|q| - |q'|] + q')
            && (|q'| == |q| ==> q' == q)
  {
    var q, q' := s.queue, Step(s, m).queue;
    if m.Display? && !NothingToShow(s) && s.origin != NULL_TIME {
      CatchUpKeeps(s, Stamp(m.at));
    }
    if |q'| > |q| {
      assert m.Hear? && m.request.AskEnqueue?;
      var es, frame := Entries(m.sender, q'[|q|..]), m.request.frame;
      forall e | e in es
        ensures exists m' :: m' in [m] && CameFrom(e, m', s.borrower, s.frameLen)
      {
        assert e.frame in q'[|q|..];
        assert m in [m] && CameFrom(e, m, s.borrower, s.frameLen);
      }
    }
  }

  lemma {:induction false} ExclusiveWhileLent(s: SinkState, ms: seq<Micro>)
    requires StaysLent(s, ms)
    ensures Steps(s, ms).borrower == s.borrower
    ensures AllCameFrom(Entered(s, ms), ms, s.borrower, s.frameLen)
    ensures s.queue + FramesOf(Entered(s, ms)) == Left(s, ms) + Steps(s, ms).queue
    decreases |ms|
  {
    if ms != [] {
      var m, s' := ms[0], Step(s, ms[0]);
      StepWhileLent(s, m);
      RingWhileLent(s, m);
      ExclusiveWhileLent(s', ms[1..]);
      EnteredFirst(s, ms);
      FlowThrough(s, ms);
    }
  }

  lemma EnteredFirst(s: SinkState, ms: seq<Micro>)
    requires ms != [] && s.mode.Lent? && Step(s, ms[0]).mode.Lent?
    requires AllCameFrom(Entered(Step(s, ms[0]), ms[1..]), ms[1..], s.borrower, s.frameLen)
    ensures AllCameFrom(Entered(s, ms), ms, s.borrower, s.frameLen)
  {
    var m, s' := ms[0], Step(s, ms[0]);
    RingWhileLent(s, m);
    forall e | e in Entered(s, ms)
      ensures exists m' :: m' in ms && CameFrom(e, m', s.borrower, s.frameLen)
    {
      if e in Entered(s', ms[1..]) {
        var m' :| m' in ms[1..] && CameFrom(e, m', s.borrower, s.frameLen);
        assert m' in ms;
      } else {
        var m' :| m' in [m] && CameFrom(e, m', s.borrower, s.frameLen);
        assert m' == ms[0] && m' in ms;
      }
    }
  }

  lemma FlowThrough(s: SinkState, ms: seq<Micro>)
    requires ms != [] && s.mode.Lent? && Step(s, ms[0]).mode.Lent?
    requires var s' := Step(s, ms[0]);
             s'.queue + FramesOf(Entered(s', ms[1..])) == Left(s', ms[1..]) + Steps(s, ms).queue
    ensures s.queue + FramesOf(Entered(s, ms)) == Left(s, ms) + Steps(s, ms).queue
  {
    var m, q, q' := ms[0], s.queue, Step(s, ms[0]).queue;
    RingWhileLent(s, m);
    var later, taken := Entered(Step(s, ms[0]), ms[1..]), Left(Step(s, ms[0]), ms[1..]);
    if |q'| > |q| {
      FramesOfEntries(m.sender, q'[|q|..], later);
      FlowIn(q, q'[|q|..], FramesOf(later));
      assert Left(s, ms) == taken by { assert [] + taken == taken; }
    } else {
      var first := q[..|q| - |q'|];
      FlowOut(first, q', FramesOf(later), taken, Steps(s, ms).queue);
      assert Entered(s, ms) == later by { assert [] + later == later; }
      assert Left(s, ms) == first + taken;
    }
  }

  lemma FlowIn(q: seq<Frame>, added: seq<Frame>, later: seq<Frame>)
    ensures q + (added + later) == (q + added) + later
  {}

  lemma FlowOut(first: seq<Frame>, q: seq<Frame>, later: seq<Frame>, taken: seq<Frame>, rest: seq<Frame>)
    requires q + later == taken + rest
    ensures (first + q) + later == (first + taken) + rest
  {
    assert (first + q) + later == first + (q + later);
    assert (first + taken) + rest == first + (taken + rest);
  }

  lemma FramesOfEntries(sender: Endpoint, frames: seq<Frame>, later: seq<Entry>)
    ensures FramesOf(Entries(sender, frames) + later) == frames + FramesOf(later)
  {
    FramesOfAppend(Entries(sender, frames), later);
    assert FramesOf(Entries(sender, frames)) == frames;
  }

  lemma FramesOfAppend(a: seq<Entry>, b: seq<Entry>)
    ensures FramesOf(a + b) == FramesOf(a) + FramesOf(b)
  {
    var whole, parts := FramesOf(a + b), FramesOf(a) + FramesOf(b);
    assert forall i :: 0 <= i < |whole| ==> whole[i] == parts[i];
    assert whole == parts;
  }

  /** Over any calls during which the sink stays lent, the borrower is the same endpoint
      throughout, every frame that entered the ring is the filled frame of an enqueue message
      it sent, and what was in the ring and what entered it is what left it and what is there,
      in this order. */
  lemma ExclusiveBorrow(s: SinkState, cs: seq<Call>)
    requires StaysLent(s, AllMicros(cs))
    ensures DoAll(s, cs).borrower == s.borrower
    ensures AllCameFrom(Entered(s, AllMicros(cs)), AllMicros(cs), s.borrower, s.frameLen)
    ensures s.queue + FramesOf(Entered(s, AllMicros(cs))) == Left(s, AllMicros(cs)) + DoAll(s, cs).queue
  {
    CallsAreTheirSteps(s, cs);
    ExclusiveWhileLent(s, AllMicros(cs));
  }

  lemma {:induction false} ErrorOverSteps(s: SinkState, ms: seq<Micro>)
    ensures Steps(s, ms).mode.Error? <==> s.mode.Error?
    decreases |ms|
  {
    if ms != [] {
      if !s.hung && ms[0].Display? && !NothingToShow(s) && s.origin != NULL_TIME {
        CatchUpKeeps(s, Stamp(ms[0].at));
      }
      ErrorOverSteps(Step(s, ms[0]), ms[1..]);
    }
  }

  /** No call enters or leaves the state of error; it is entered, if at all, on creation. */
  lemma ErrorIsForever(s: SinkState, cs: seq<Call>)
    ensures DoAll(s, cs).mode.Error? <==> s.mode.Error?
    ensures s.mode.Error? ==> DoAll(s, cs) == s
  {
    CallsAreTheirSteps(s, cs);
    ErrorOverSteps(s, AllMicros(cs));
    if s.mode.Error? { NothingHappens(s, AllMicros(cs)); }
  }
}
