/** Whole runs of a source: its life cycle, the order of what it sends, how often it asks to
    borrow, and how fast it puts frames. */
module SourceRuns {
  import opened Arithmetic
  import opened Clock
  import opened Pattern
  import opened Wire
  import opened SourceSpec

  /** A call is an update. A put is three of them, the last one to ask for the timeout, and then,
      after a sleep during which others may act, the sending of the frame. */
  datatype Event =
    | Poll(arrival: Arrival, clk: SourceClock, forPut: bool)
    | SendOff(tm: PutClock, frame: seq<byte>, sendOk: bool)

  /** A source and its past: the present, the frames sent and when the first was, how many of
      them after the connection had failed, the borrows sent and the true times of the first
      attempt and of the last, whether a put is under way, and everything handed to the socket. */
  datatype Run = Run(
    st: SourceState,
    now: int,
    puts: nat,
    firstPut: int,
    late: nat,
    borrows: nat,
    firstAt: int,
    lastAt: int,
    pending: bool,
    log: seq<Msg>)

  function Msgs(es: seq<Env>): seq<Msg> {
    seq(|es|, i requires 0 <= i < |es| => es[i].msg)
  }

  /** After creation succeeded: one borrow was sent. */
  function Begin(spec: Spec, first: int, sent: int): Run {
    var t := Make(spec, true, true, first, sent);
    Run(t.st, sent, 0, 0, 0, 1, first, sent, false, Msgs(t.out))
  }

  function Step(r: Run, ev: Event): Run {
    match ev
    case Poll(a, clk, forPut) =>
      var t := Update(r.st, a, clk);
      r.(st := t.st, now := clk.check, borrows := r.borrows + |t.out|,
         lastAt := if t.out == [] then r.lastAt else clk.borrow,
         pending := forPut && r.st.mode.Open?, log := r.log + Msgs(t.out))
    case SendOff(tm, frame, sendOk) =>
      if !r.pending then r
      else
        var p := SendFrame(r.st, frame, sendOk, tm.stamp);
        r.(st := p.st, now := tm.stamp, log := r.log + Msgs(p.out), pending := false,
           puts := if p.ok then r.puts + 1 else r.puts,
           firstPut := if p.ok && r.puts == 0 then tm.stamp else r.firstPut,
           late := if p.ok && !p.st.mode.Open? then r.late + 1 else r.late)
  }

  function RunAll(r: Run, evs: seq<Event>): Run
    decreases |evs|
  {
    if evs == [] then r else RunAll(Step(r, evs[0]), evs[1..])
  }

  /** A put is what its events do. */
  lemma PutIsItsEvents(r: Run, i: PutInput, frame: seq<byte>, sendOk: bool)
    ensures var evs := [Poll(i.a1, i.clk1, false), Poll(i.a2, i.clk2, false), Poll(i.a3, i.clk3, true),
                        SendOff(i.tm, frame, sendOk)];
            var p, r2, r4 := Put(r.st, i, frame, sendOk), RunAll(r, evs[..2]), RunAll(r, evs);
            var r' := if r2.st.mode.Open? then r4 else r2;
            r'.st == p.st && r'.log == r.log + Msgs(p.out) && (p.ok <==> r'.puts == r.puts + 1)
  {
    var e1, e2 := Poll(i.a1, i.clk1, false), Poll(i.a2, i.clk2, false);
    var e3, e4 := Poll(i.a3, i.clk3, true), SendOff(i.tm, frame, sendOk);
    var evs := [e1, e2, e3, e4];
    var r1 := Step(r, e1);
    var r2 := Step(r1, e2);
    RunTwo(r, e1, e2);
    RunTwo(r2, e3, e4);
    assert evs[..2] == [e1, e2] && evs == [e1, e2] + [e3, e4];
    RunAllAppend(r, [e1, e2], [e3, e4]);
    var t1 := Update(r.st, i.a1, i.clk1);
    var t2 := Update(t1.st, i.a2, i.clk2);
    MsgsAppend(r.log, t1.out, t2.out);
    if t2.st.mode.Open? {
      var t3 := Update(t2.st, i.a3, i.clk3);
      var p := SendFrame(t3.st, frame, sendOk, i.tm.stamp);
      MsgsAppend(r2.log, t3.out, p.out);
      MsgsAppend(r.log, t1.out + t2.out, t3.out + p.out);
    }
  }

  lemma MsgsAppend(log: seq<Msg>, a: seq<Env>, b: seq<Env>)
    ensures log + Msgs(a + b) == log + Msgs(a) + Msgs(b)
  {
    assert Msgs(a + b) == Msgs(a) + Msgs(b);
  }

  lemma RunTwo(r: Run, e1: Event, e2: Event)
    ensures RunAll(r, [e1, e2]) == Step(Step(r, e1), e2)
  {
    var r1 := Step(r, e1);
    assert [e1, e2][1..] == [e2] && [e2][1..] == [];
    assert RunAll(r1, [e2]) == RunAll(Step(r1, e2), []);
  }

  /** The clock is read in order, a sleep lasts as long as asked, and nothing else is called
      while a put is under way. */
  predicate Timely(r: Run, ev: Event) {
    match ev
    case Poll(_, clk, _) => !r.pending && r.now <= clk.recv <= clk.loss <= clk.borrow <= clk.check
    case SendOff(tm, _, _) => r.pending && r.now <= tm.a && Slept(r.st, tm)
  }

  // ----- One update -----

  lemma UpdateFrame(s: SourceState, a: Arrival, clk: SourceClock)
    ensures var t := Update(s, a, clk);
            && t.st.frameMs == s.frameMs && t.st.maxBuf == s.maxBuf && t.st.nextIdx == s.nextIdx
            && t.st.retryMs == s.retryMs && t.st.disconnectMs == s.disconnectMs && t.st.firstBorrow == s.firstBorrow
            && (t.st.mode.Waiting? ==> s.mode.Waiting?)
            && (s.mode.Error? ==> t.st.mode.Error?)
            && (t.st.mode.Error? && (s.mode.Error? ==> s.errorSet) ==> t.st.errorSet)
            && (t.st.mode.Open? ==> t.st.lastFrame == if s.mode.Open? then s.lastFrame else NULL_TIME)
            && (t.st.mode.Open? ==> t.st.lastRecvLent.Set? || (s.mode.Open? && t.st.lastRecvLent == s.lastRecvLent))
            && (t.out != [] ==> s.mode.Waiting? && t.st.mode.Waiting?)
            && (s.mode.Open? ==> t.st.lastFrame == s.lastFrame)
  {
    if a.Datagram? { HearAllFrame(s, a.notices, clk.recv); }
  }

  /** What an update sends, and when it does. */
  lemma UpdateSends(s: SourceState, a: Arrival, clk: SourceClock)
    ensures var t := Update(s, a, clk);
            && (t.out != [] ==>
                  && t.out == [Env(s.nextId, Borrow(s.frameMs % 256, s.maxBuf % 256))]
                  && Elapsed(Stamp(clk.loss), s.firstBorrow) <= s.disconnectMs
                  && Elapsed(Stamp(clk.loss), s.lastBorrow) > s.retryMs
                  && t.st.lastBorrow == Stamp(clk.borrow))
            && (t.out == [] && t.st.mode.Waiting? ==> t.st.lastBorrow == s.lastBorrow)
  {
    if a.Datagram? { HearAllFrame(s, a.notices, clk.recv); }
  }

  // ----- Creation -----

  /** Settings that the fields of a source can hold. */
  predicate InRange(spec: Spec) {
    && 0 <= spec.frameMs < 0x1_0000_0000
    && 0 <= spec.retryMs < 0x1_0000_0000 && 0 <= spec.disconnectMs < 0x1_0000_0000
  }

  /** Defaults stand for zeros, and every other setting for itself. */
  lemma SettingsOfSpec(spec: Spec)
    requires InRange(spec)
    ensures Fresh(spec).frameMs == spec.frameMs
    ensures Fresh(spec).maxBuf == if spec.maxBuf == 0 then 16 else spec.maxBuf
    ensures Fresh(spec).retryMs == if spec.retryMs == 0 then 100 else spec.retryMs
    ensures Fresh(spec).disconnectMs == if spec.disconnectMs == 0 then 750 else spec.disconnectMs
  {}

  /** A source that could be created waits, has asked for its first borrow, and has its settings
      from the spec; one that could not is in error, has a message and has sent nothing. */
  lemma CreationOutcome(spec: Spec, socketOk: bool, resolved: bool, first: int, sent: int)
    requires InRange(spec)
    ensures var t := Make(spec, socketOk, resolved, first, sent);
            && t.st.frameMs == spec.frameMs
            && t.st.maxBuf == (if spec.maxBuf == 0 then 16 else spec.maxBuf)
            && t.st.retryMs == (if spec.retryMs == 0 then 100 else spec.retryMs)
            && t.st.disconnectMs == (if spec.disconnectMs == 0 then 750 else spec.disconnectMs)
            && t.st.nextIdx == 0 && t.st.lastRecvLent.Unset?
            && (socketOk && resolved ==>
                  && t.st.mode.Waiting? && !t.st.errorSet
                  && t.st.firstBorrow == Stamp(first) && t.st.lastBorrow == Stamp(sent)
                  && t.out == [Env(0, Borrow(t.st.frameMs % 256, t.st.maxBuf % 256))] && t.st.nextId == 1)
            && (!(socketOk && resolved) ==> t.st.mode.Error? && t.st.errorSet && t.out == [] && t.st.nextId == 0)
  {
    SettingsOfSpec(spec);
  }

  /** All that a source sends goes out under the next message id, which a message takes even when
      it cannot be sent. */
  lemma IdsAdvance(s: SourceState, a: Arrival, clk: SourceClock, frame: seq<byte>, sendOk: bool, stamp: int)
    ensures var t := Update(s, a, clk);
            && |t.out| <= 1 && (|t.out| == 1 ==> t.out[0].id == s.nextId)
            && t.st.nextId == (s.nextId + |t.out|) % 65536
    ensures var p := SendFrame(s, frame, sendOk, stamp);
            && p.st.nextId == (s.nextId + 1) % 65536
            && p.out == if sendOk then [Env(s.nextId, Enqueue(s.nextIdx, frame))] else []
  {
    if a.Datagram? { HearAllFrame(s, a.notices, clk.recv); }
  }

  // ----- What an update comes to -----

  /** A datagram is bad news if anything in it is; otherwise it is good news if there is any. */
  lemma {:induction false} NewsOf(s: SourceState, ns: seq<Notice>, at: int)
    ensures var s' := HearAll(s, ns, at);
            if s.mode.Error? || Trouble in ns then s'.mode.Error?
            else if ns == [] then s' == s
            else s'.mode.Open? && s'.lastRecvLent == Set(Stamp(at))
    decreases |ns|
  {
    if ns != [] {
      assert ns == [ns[0]] + ns[1..];
      NewsOf(Hear(s, ns[0], at), ns[1..], at);
    }
  }

  /** Exactly when a source opens, goes on waiting or fails: an update moves it by what it hears,
      and then by the time since it began to ask or since it was last lent to. And it asks again
      exactly when it goes on waiting and its last request is too old. */
  lemma UpdateOutcome(s: SourceState, a: Arrival, clk: SourceClock)
    requires Alive(s)
    ensures var s' := Update(s, a, clk).st;
            var bad := a.Datagram? && Trouble in a.notices;
            var good := a.Datagram? && a.notices != [] && !bad;
            var silentFor := if good then Elapsed(Stamp(clk.check), Stamp(clk.recv))
                             else if s.lastRecvLent.Set? then Elapsed(Stamp(clk.check), s.lastRecvLent.at) else 0;
            match s.mode
            case Error => s'.mode.Error?
            case Open => s'.mode.Open? == (!bad && silentFor < s.disconnectMs) && !s'.mode.Waiting?
            case Waiting =>
              && s'.mode.Open? == (good && silentFor < s.disconnectMs)
              && s'.mode.Waiting? == (!bad && !good && Elapsed(Stamp(clk.loss), s.firstBorrow) <= s.disconnectMs)
    ensures Update(s, a, clk).out != [] <==>
              && s.mode.Waiting? && Update(s, a, clk).st.mode.Waiting?
              && Elapsed(Stamp(clk.loss), s.lastBorrow) > s.retryMs
  {
    if a.Datagram? {
      NewsOf(s, a.notices, clk.recv);
      HearAllFrame(s, a.notices, clk.recv);
    }
  }

  // ----- Life cycle -----

  ghost predicate Alive(s: SourceState) {
    && (s.mode.Error? ==> s.errorSet)
    && (s.mode.Open? ==> s.lastRecvLent.Set?)
  }

  /** An open source that has put nothing says so. */
  predicate Unpaced(r: Run) {
    r.st.mode.Open? && r.puts == 0 ==> r.st.lastFrame == NULL_TIME
  }

  lemma {:induction false} LifecycleFrom(r: Run, evs: seq<Event>)
    requires Alive(r.st)
    ensures var s, s' := r.st, RunAll(r, evs).st;
            && Alive(s') && (Unpaced(r) ==> Unpaced(RunAll(r, evs)))
            && (s.mode.Error? ==> s'.mode.Error?)
            && (!s.mode.Waiting? ==> !s'.mode.Waiting?)
    decreases |evs|
  {
    if evs != [] {
      if evs[0].Poll? { UpdateFrame(r.st, evs[0].arrival, evs[0].clk); }
      LifecycleFrom(Step(r, evs[0]), evs[1..]);
    }
  }

  lemma {:induction false} RunAllAppend(r: Run, a: seq<Event>, b: seq<Event>)
    ensures RunAll(r, a + b) == RunAll(RunAll(r, a), b)
    decreases |a|
  {
    if a == [] {
      assert a + b == b;
    } else {
      assert (a + b)[1..] == a[1..] + b;
      RunAllAppend(Step(r, a[0]), a[1..], b);
    }
  }

  /** Whatever arrives and whenever: error is never left, waiting is never entered again, a
      source in error has a message to show, and an open one has been lent to at a known time and
      has a pacer that is set, to "no time" until the first frame. */
  lemma SourceLifecycle(spec: Spec, first: int, sent: int, earlier: seq<Event>, later: seq<Event>)
    ensures var r := RunAll(Begin(spec, first, sent), earlier);
            var r' := RunAll(Begin(spec, first, sent), earlier + later);
            && (r.st.mode.Error? ==> r'.st.mode.Error?)
            && (r'.st.mode.Waiting? ==> r.st.mode.Waiting?)
            && (r'.st.mode.Error? ==> r'.st.errorSet)
            && (r'.st.mode.Open? ==> r'.st.lastRecvLent.Set?)
            && (r'.st.mode.Open? && r'.puts == 0 ==> r'.st.lastFrame == NULL_TIME)
  {
    var r0 := Begin(spec, first, sent);
    RunAllAppend(r0, earlier, later);
    LifecycleFrom(r0, earlier);
    LifecycleFrom(RunAll(r0, earlier), later);
  }

  // ----- Order of what is sent -----

  /** All borrows, then all enqueues, numbered from 0 modulo 256. */
  ghost predicate Ordered(log: seq<Msg>, borrows: nat, puts: nat) {
    && |log| == borrows + puts
    && forall i :: 0 <= i < |log| ==>
         if i < borrows then log[i].Borrow? else log[i].Enqueue? && log[i].idx == (i - borrows) % 256
  }

  ghost predicate OrderInv(r: Run) {
    && Ordered(r.log, r.borrows, r.puts)
    && r.st.nextIdx == r.puts % 256
    && (r.st.mode.Waiting? ==> r.puts == 0 && !r.pending)
  }

  lemma OneMoreBorrow(log: seq<Msg>, borrows: nat, m: Msg)
    requires Ordered(log, borrows, 0) && m.Borrow?
    ensures Ordered(log + [m], borrows + 1, 0)
  {}

  lemma OneMoreEnqueue(log: seq<Msg>, borrows: nat, puts: nat, m: Msg)
    requires Ordered(log, borrows, puts) && m.Enqueue? && m.idx == puts % 256
    ensures Ordered(log + [m], borrows, puts + 1)
  {}

  lemma OrderAfterPoll(r: Run, ev: Event)
    requires OrderInv(r) && ev.Poll?
    ensures OrderInv(Step(r, ev))
  {
    UpdateFrame(r.st, ev.arrival, ev.clk);
    UpdateSends(r.st, ev.arrival, ev.clk);
    if Update(r.st, ev.arrival, ev.clk).out != [] {
      var m := Borrow(r.st.frameMs % 256, r.st.maxBuf % 256);
      OneMoreBorrow(r.log, r.borrows, m);
      assert Step(r, ev).log == r.log + [m];
    } else {
      assert Step(r, ev).log == r.log;
    }
  }

  lemma OrderAfterSend(r: Run, ev: Event)
    requires OrderInv(r) && ev.SendOff?
    ensures OrderInv(Step(r, ev))
  {
    if r.pending && ev.sendOk {
      var m := Enqueue(r.st.nextIdx, ev.frame);
      OneMoreEnqueue(r.log, r.borrows, r.puts, m);
      assert Step(r, ev).log == r.log + [m];
    } else {
      assert Step(r, ev).log == r.log;
    }
  }

  lemma OrderStep(r: Run, ev: Event)
    requires OrderInv(r)
    ensures OrderInv(Step(r, ev))
  {
    if ev.Poll? { OrderAfterPoll(r, ev); } else { OrderAfterSend(r, ev); }
  }

  lemma {:induction false} OrderFrom(r: Run, evs: seq<Event>)
    requires OrderInv(r)
    ensures OrderInv(RunAll(r, evs))
    decreases |evs|
  {
    if evs != [] {
      OrderStep(r, evs[0]);
      OrderFrom(Step(r, evs[0]), evs[1..]);
    }
  }

  /** In every run all borrows precede all enqueues, and the i-th enqueue carries i modulo 256. */
  lemma SendOrder(spec: Spec, first: int, sent: int, evs: seq<Event>)
    ensures var r := RunAll(Begin(spec, first, sent), evs); Ordered(r.log, r.borrows, r.puts)
  {
    OrderFrom(Begin(spec, first, sent), evs);
  }

  /** A borrow carries the settings of the source exactly when both fit into a byte. */
  lemma TermsFitIntoBytes(s: SourceState, at: int)
    ensures SourceSpec.SendBorrow(s, at).out[0].msg.Borrow?
    ensures var m := SourceSpec.SendBorrow(s, at).out[0].msg;
            m.frameLength == s.frameMs && m.bufferLength == s.maxBuf <==> s.frameMs <= 255 && 0 <= s.maxBuf <= 255
  {
    assert s.frameMs <= 255 <==> s.frameMs % 256 == s.frameMs;
  }

  // ----- Borrowing is bounded -----

  /** The clock has not run once around since the first attempt. */
  predicate Recent(r: Run, ev: Event) {
    r.st.mode.Waiting? && ev.Poll? ==> ev.clk.loss - r.firstAt < TWO_32
  }

  predicate RecentRun(r: Run, evs: seq<Event>)
    decreases |evs|
  {
    evs == [] || (Timely(r, evs[0]) && Recent(r, evs[0]) && RecentRun(Step(r, evs[0]), evs[1..]))
  }

  ghost predicate BorrowInv(r: Run) {
    && r.borrows >= 1
    && (r.borrows - 1) * (r.st.retryMs + 1) <= r.st.disconnectMs
    && (r.st.mode.Waiting? ==>
          && !r.pending
          && r.st.firstBorrow == Stamp(r.firstAt) && r.st.lastBorrow == Stamp(r.lastAt)
          && r.firstAt + (r.borrows - 1) * (r.st.retryMs + 1) <= r.lastAt <= r.now)
  }

  lemma BorrowStep(r: Run, ev: Event)
    requires BorrowInv(r) && Timely(r, ev) && Recent(r, ev)
    ensures BorrowInv(Step(r, ev))
  {
    if ev.Poll? {
      UpdateFrame(r.st, ev.arrival, ev.clk);
      UpdateSends(r.st, ev.arrival, ev.clk);
      if Update(r.st, ev.arrival, ev.clk).out != [] {
        OneMoreRetry(r.borrows, r.st.retryMs + 1);
        RetryTimes(r, ev.clk.loss);
      }
    }
  }

  lemma OneMoreRetry(b: nat, gap: nat)
    requires b >= 1 && gap > 0
    ensures b * gap == (b - 1) * gap + gap && (b - 1) * gap >= 0
  {
    if b > 1 { Multiples(b - 1, gap); }
  }

  /** True times behind a retry. */
  lemma RetryTimes(r: Run, loss: int)
    requires r.st.firstBorrow == Stamp(r.firstAt) && r.st.lastBorrow == Stamp(r.lastAt)
    requires r.firstAt <= r.lastAt <= loss < r.firstAt + TWO_32
    requires Elapsed(Stamp(loss), r.st.firstBorrow) <= r.st.disconnectMs
    requires Elapsed(Stamp(loss), r.st.lastBorrow) > r.st.retryMs
    ensures loss - r.firstAt <= r.st.disconnectMs && loss - r.lastAt >= r.st.retryMs + 1
  {
    ElapsedIsTrue(loss, r.firstAt);
    ElapsedIsTrue(loss, r.lastAt);
  }

  lemma {:induction false} BorrowsFrom(r: Run, evs: seq<Event>)
    requires BorrowInv(r) && RecentRun(r, evs)
    ensures BorrowInv(RunAll(r, evs))
    decreases |evs|
  {
    if evs != [] {
      BorrowStep(r, evs[0]);
      BorrowsFrom(Step(r, evs[0]), evs[1..]);
    }
  }

  lemma {:induction false} SettingsKept(r: Run, evs: seq<Event>)
    ensures var s, s' := r.st, RunAll(r, evs).st;
            && s'.frameMs == s.frameMs && s'.maxBuf == s.maxBuf
            && s'.retryMs == s.retryMs && s'.disconnectMs == s.disconnectMs
    decreases |evs|
  {
    if evs != [] {
      if evs[0].Poll? { UpdateFrame(r.st, evs[0].arrival, evs[0].clk); }
      SettingsKept(Step(r, evs[0]), evs[1..]);
    }
  }

  /** However long it runs, a source asks to borrow at most once at first and then once for
      every retry timeout that fits into the disconnect timeout. */
  lemma BoundedBorrowing(spec: Spec, first: int, sent: int, evs: seq<Event>)
    requires first <= sent && RecentRun(Begin(spec, first, sent), evs)
    ensures var r := RunAll(Begin(spec, first, sent), evs);
            r.borrows <= 1 + Fresh(spec).disconnectMs / (Fresh(spec).retryMs + 1)
  {
    var r0 := Begin(spec, first, sent);
    BorrowsFrom(r0, evs);
    SettingsKept(r0, evs);
    FloorBound(RunAll(r0, evs).borrows - 1, Fresh(spec).disconnectMs, Fresh(spec).retryMs + 1);
  }

  /** The same in the settings of the spec. */
  lemma BoundedBorrowingInSpec(spec: Spec, first: int, sent: int, evs: seq<Event>)
    requires InRange(spec) && first <= sent && RecentRun(Begin(spec, first, sent), evs)
    ensures var retry := if spec.retryMs == 0 then 100 else spec.retryMs;
            var disconnect := if spec.disconnectMs == 0 then 750 else spec.disconnectMs;
            RunAll(Begin(spec, first, sent), evs).borrows <= 1 + disconnect / (retry + 1)
  {
    SettingsOfSpec(spec);
    BoundedBorrowing(spec, first, sent, evs);
  }

  // ----- Pacing -----

  /** After `puts` frames the pacer's clock stands at the first put plus (puts - M) durations. */
  function PacerTime(r: Run): int {
    r.firstPut + (r.puts - r.st.maxBuf) * r.st.frameMs
  }

  ghost predicate PacingInv(r: Run) {
    && r.late <= 1 && (r.late == 1 ==> r.st.mode.Error?) && (r.pending ==> r.late == 0)
    && (r.st.mode.Waiting? ==> r.puts == 0 && !r.pending)
    && (r.puts == 0 ==> r.late == 0)
    && (r.puts == 0 && r.st.mode.Open? ==> r.st.lastFrame == NULL_TIME)
    && (r.puts > 0 && r.st.mode.Open? ==> r.st.lastFrame == Stamp(PacerTime(r)))
    && (r.puts > 0 ==> PacerTime(r) - r.late * r.st.frameMs <= r.now && r.firstPut <= r.now)
  }

  /** The pacer's clock does not read as "no frame was put yet". */
  predicate Sane(r: Run) {
    r.puts > 0 && r.st.mode.Open? ==> r.st.lastFrame != NULL_TIME
  }

  predicate SaneRun(r: Run, evs: seq<Event>)
    decreases |evs|
  {
    Sane(r) && (evs == [] || (Timely(r, evs[0]) && SaneRun(Step(r, evs[0]), evs[1..])))
  }

  /** Whoever sleeps as long as asked wakes up no earlier than one duration after the last frame. */
  lemma WakesInTime(s: SourceState, last: int, tm: PutClock)
    requires s.mode.Open? && s.lastFrame == Stamp(last) && s.lastFrame != NULL_TIME
    requires 0 < s.frameMs < 0x8000_0000 && last <= tm.a && Slept(s, tm)
    ensures last + s.frameMs <= tm.wake
  {
    if tm.b < last + s.frameMs { TimeoutAt(s, last, tm.a, tm.b); }
  }

  lemma PacingStep(r: Run, ev: Event)
    requires PacingInv(r) && Sane(r) && 0 < r.st.frameMs < 0x8000_0000 && r.st.maxBuf >= 1 && Timely(r, ev)
    ensures PacingInv(Step(r, ev))
  {
    match ev
    case Poll(a, clk, _) => UpdateFrame(r.st, a, clk);
    case SendOff(_, _, sendOk) => if sendOk { PutStep(r, ev); }
  }

  lemma PacerSteps(k: int, m: int, d: int)
    ensures (k + 1 - m) * d == (k - m) * d + d
    ensures (1 - m) * d == -((m - 1) * d)
    ensures m >= 1 && d > 0 ==> (m - 1) * d >= 0
  {
    if d > 0 { Multiples(m - 1, d); }
    assert (k + 1 - m) * d == (k - m) * d + 1 * d;
  }

  /** Where one more frame takes the pacer's clock. */
  lemma PacerAfterPut(r: Run, ev: Event)
    requires PacingInv(r) && Sane(r) && ev.SendOff? && r.pending && ev.sendOk
    ensures var r' := Step(r, ev);
            && PacerTime(r') == (if r.puts == 0 then ev.tm.stamp - (r.st.maxBuf - 1) * r.st.frameMs
                                 else PacerTime(r) + r.st.frameMs)
            && (r'.st.mode.Open? ==> r'.st.lastFrame == Stamp(PacerTime(r')))
  {
    PacerSteps(r.puts, r.st.maxBuf, r.st.frameMs);
    StampOfDifference(ev.tm.stamp, (r.st.maxBuf - 1) * r.st.frameMs);
    StampOfDifference(PacerTime(r), r.st.frameMs);
  }

  lemma PutStep(r: Run, ev: Event)
    requires PacingInv(r) && Sane(r) && 0 < r.st.frameMs < 0x8000_0000 && r.st.maxBuf >= 1 && Timely(r, ev)
    requires ev.SendOff? && r.pending && ev.sendOk
    ensures PacingInv(Step(r, ev))
  {
    PacerAfterPut(r, ev);
    PacerSteps(0, r.st.maxBuf, r.st.frameMs);
    if r.puts > 0 && r.st.mode.Open? { WakesInTime(r.st, PacerTime(r), ev.tm); }
  }

  lemma {:induction false} PacingFrom(r: Run, evs: seq<Event>)
    requires PacingInv(r) && 0 < r.st.frameMs < 0x8000_0000 && r.st.maxBuf >= 1 && SaneRun(r, evs)
    ensures PacingInv(RunAll(r, evs)) && Sane(RunAll(r, evs))
    decreases |evs|
  {
    if evs != [] {
      PacingStep(r, evs[0]);
      SettingsKept(r, evs[..1]);
      assert RunAll(r, evs[..1]) == Step(r, evs[0]) by { assert evs[..1][1..] == []; }
      PacingFrom(Step(r, evs[0]), evs[1..]);
    }
  }

  lemma PacingBound(r: Run)
    requires PacingInv(r) && r.st.frameMs > 0 && r.puts > 0
    ensures r.puts <= r.st.maxBuf + r.late + (r.now - r.firstPut) / r.st.frameMs
  {
    var d, m := r.st.frameMs, r.st.maxBuf;
    assert (r.puts - m - r.late) * d == (r.puts - m) * d - r.late * d;
    FloorBound(r.puts - m - r.late, r.now - r.firstPut, d);
  }

  lemma ExactReadyCount(r: Run, at: int)
    requires PacingInv(r) && Sane(r) && r.st.frameMs > 0 && r.puts > 0 && r.st.mode.Open?
    requires r.now <= at && at - PacerTime(r) < 0x8000_0000
    ensures ReadyCount(r.st, at) == r.st.maxBuf - r.puts + (at - r.firstPut) / r.st.frameMs >= 0
  {
    var d, m := r.st.frameMs, r.st.maxBuf;
    ElapsedIsTrue(at, PacerTime(r));
    ShiftedFloor(at - r.firstPut, m - r.puts, d);
    assert at - PacerTime(r) == at - r.firstPut + (m - r.puts) * d by {
      assert (m - r.puts) * d == -((r.puts - m) * d);
    }
    QuotientBound(at - PacerTime(r), d);
  }

  /** Over every run the source is at most M frames ahead of real time; one more frame may slip
      out in the very put that finds the connection lost. While the source is open the ready
      count is exactly what is left of that allowance. */
  lemma Pacing(spec: Spec, first: int, sent: int, evs: seq<Event>, at: int)
    requires 0 < Fresh(spec).frameMs < 0x8000_0000 && Fresh(spec).maxBuf >= 1
    requires SaneRun(Begin(spec, first, sent), evs)
    ensures var r, d, m := RunAll(Begin(spec, first, sent), evs), Fresh(spec).frameMs, Fresh(spec).maxBuf;
            && r.st.frameMs == d
            && (r.puts > 0 ==> r.puts <= m + r.late + (r.now - r.firstPut) / d)
            && r.late <= (if r.st.mode.Error? then 1 else 0)
            && (r.puts > 0 && r.st.mode.Open? && r.now <= at && at - PacerTime(r) < 0x8000_0000 ==>
                  ReadyCount(r.st, at) == m - r.puts + (at - r.firstPut) / d >= 0)
  {
    var r0 := Begin(spec, first, sent);
    PacingFrom(r0, evs);
    SettingsKept(r0, evs);
    var r := RunAll(r0, evs);
    if r.puts > 0 {
      PacingBound(r);
      if r.st.mode.Open? && r.now <= at && at - PacerTime(r) < 0x8000_0000 { ExactReadyCount(r, at); }
    }
  }

  /** The ready count is not capped at the buffer length: after `puts` frames it exceeds M from
      the instant on at which `puts + 1` durations have passed since the first put. */
  lemma CountExceedsBuffer(spec: Spec, first: int, sent: int, evs: seq<Event>, at: int)
    requires 0 < Fresh(spec).frameMs < 0x8000_0000 && Fresh(spec).maxBuf >= 1
    requires SaneRun(Begin(spec, first, sent), evs)
    requires var r := RunAll(Begin(spec, first, sent), evs);
             r.puts > 0 && r.st.mode.Open? && r.now <= at && at - PacerTime(r) < 0x8000_0000
    ensures var r, d, m := RunAll(Begin(spec, first, sent), evs), Fresh(spec).frameMs, Fresh(spec).maxBuf;
            && r.st.frameMs == d
            && (ReadyCount(r.st, at) > m <==> at >= r.firstPut + (r.puts + 1) * d)
  {
    Pacing(spec, first, sent, evs, at);
    var r, d := RunAll(Begin(spec, first, sent), evs), Fresh(spec).frameMs;
    if at - r.firstPut >= (r.puts + 1) * d {
      FloorBound(r.puts + 1, at - r.firstPut, d);
    } else {
      FloorBelow(at - r.firstPut, d, r.puts + 1);
    }
  }

  // ----- The shortest run with a put -----

  function AtOnce(t: int): SourceClock {
    SourceClock(t, t, t, t)
  }

  /** The source is lent to, and a frame is put, all at one instant. */
  function FirstPut(t: int, frame: seq<byte>): seq<Event> {
    [Poll(Datagram([LentNotice]), AtOnce(t), false),
     Poll(Nothing, AtOnce(t), true),
     SendOff(PutClock(t, t, t, t), frame, true)]
  }

  lemma SaneRunFrom(r: Run, ev: Event, rest: seq<Event>)
    requires Sane(r) && Timely(r, ev)
    ensures RunAll(r, [ev] + rest) == RunAll(Step(r, ev), rest)
    ensures SaneRun(r, [ev] + rest) <==> SaneRun(Step(r, ev), rest)
  {
    assert ([ev] + rest)[1..] == rest;
  }

  lemma LentAtOnce(s: SourceState, t: int)
    requires !s.mode.Error? && s.disconnectMs > 0
    ensures var t1 := Update(s, Datagram([LentNotice]), AtOnce(t));
            t1.st == Hear(s, LentNotice, t) && t1.out == []
  {
    assert [LentNotice][1..] == [];
    assert HearAll(s, [LentNotice], t) == HearAll(Hear(s, LentNotice, t), [], t);
    ElapsedIsTrue(t, t);
  }

  /** Open, a put under way, and nothing put yet. */
  predicate Ready(r: Run, spec: Spec, t: int) {
    && r.st.mode.Open? && r.pending && r.puts == 0 && r.late == 0 && r.now == t && r.st.lastFrame == NULL_TIME
    && r.st.frameMs == Fresh(spec).frameMs && r.st.maxBuf == Fresh(spec).maxBuf
  }

  lemma ReadyAtOnce(spec: Spec, t: int, frame: seq<byte>)
    requires Fresh(spec).disconnectMs > 0
    ensures var r0, evs := Begin(spec, t, t), FirstPut(t, frame);
            var r1 := Step(r0, evs[0]);
            && Timely(r0, evs[0]) && Sane(r0) && Timely(r1, evs[1]) && Sane(r1)
            && Ready(Step(r1, evs[1]), spec, t)
  {
    LentAtOnce(Begin(spec, t, t).st, t);
    ElapsedIsTrue(t, t);
  }

  lemma PutAtOnce(r: Run, spec: Spec, t: int, frame: seq<byte>)
    requires Ready(r, spec, t) && r.st.frameMs > 0
    ensures var ev := SendOff(PutClock(t, t, t, t), frame, true);
            var r' := Step(r, ev);
            && Timely(r, ev) && Sane(r)
            && r'.st.mode.Open? && r'.puts == 1 && r'.firstPut == t == r'.now && r'.late == 0
            && r'.st.frameMs == r.st.frameMs && r'.st.maxBuf == r.st.maxBuf
            && PacerTime(r') == t - (r'.st.maxBuf - 1) * r'.st.frameMs && r'.st.lastFrame == Stamp(PacerTime(r'))
  {
    PacerSteps(0, r.st.maxBuf, r.st.frameMs);
    StampOfDifference(t, (r.st.maxBuf - 1) * r.st.frameMs);
  }

  /** One frame was put, at the instant `t`, and the source is open. */
  predicate OncePut(r: Run, spec: Spec, t: int) {
    && r.st.mode.Open? && r.puts == 1 && r.firstPut == t == r.now && r.late == 0
    && r.st.frameMs == Fresh(spec).frameMs && r.st.maxBuf == Fresh(spec).maxBuf
    && PacerTime(r) == t - (r.st.maxBuf - 1) * r.st.frameMs && r.st.lastFrame == Stamp(PacerTime(r))
  }

  lemma AfterFirstPut(spec: Spec, t: int, frame: seq<byte>)
    requires Fresh(spec).disconnectMs > 0 && Fresh(spec).frameMs > 0
    ensures var r := RunAll(Begin(spec, t, t), FirstPut(t, frame));
            OncePut(r, spec, t) && (SaneRun(Begin(spec, t, t), FirstPut(t, frame)) <==> Sane(r))
  {
    var r0, evs := Begin(spec, t, t), FirstPut(t, frame);
    ReadyAtOnce(spec, t, frame);
    var r1 := Step(r0, evs[0]);
    var r2 := Step(r1, evs[1]);
    PutAtOnce(r2, spec, t, frame);
    SaneRunFrom(r2, evs[2], []);
    SaneRunFrom(r1, evs[1], [evs[2]]);
    SaneRunFrom(r0, evs[0], [evs[1], evs[2]]);
    assert evs == [evs[0]] + [evs[1], evs[2]] && [evs[1], evs[2]] == [evs[1]] + [evs[2]] && [evs[2]] == [evs[2]] + [];
  }

  lemma PacerAhead(m: int, d: int)
    ensures 2 * d + (m - 1) * d == (m + 1) * d
  {}

  /** Two durations after its first put a source that puts nothing more offers more than M. */
  lemma CountDoesExceedBuffer(spec: Spec, t: int, frame: seq<byte>)
    requires Fresh(spec).disconnectMs > 0 && 0 < Fresh(spec).frameMs < 0x8000_0000 && Fresh(spec).maxBuf >= 1
    requires (Fresh(spec).maxBuf + 1) * Fresh(spec).frameMs < 0x8000_0000
    requires Stamp(t - (Fresh(spec).maxBuf - 1) * Fresh(spec).frameMs) != NULL_TIME
    ensures var r := RunAll(Begin(spec, t, t), FirstPut(t, frame));
            && SaneRun(Begin(spec, t, t), FirstPut(t, frame))
            && r.st.frameMs > 0 && ReadyCount(r.st, t + 2 * r.st.frameMs) > r.st.maxBuf
  {
    AfterFirstPut(spec, t, frame);
    OneThenIdle(RunAll(Begin(spec, t, t), FirstPut(t, frame)), spec, t);
  }

  lemma OneThenIdle(r: Run, spec: Spec, t: int)
    requires OncePut(r, spec, t) && Sane(r) && r.st.frameMs > 0 && r.st.maxBuf >= 1
    requires (r.st.maxBuf + 1) * r.st.frameMs < 0x8000_0000
    ensures ReadyCount(r.st, t + 2 * r.st.frameMs) > r.st.maxBuf
  {
    var m, d := r.st.maxBuf, r.st.frameMs;
    PacerAhead(m, d);
    ScaleOrder(0, m + 1, d);
    ElapsedIsTrue(t + 2 * d, PacerTime(r));
    FloorBound(m + 1, (m + 1) * d, d);
    QuotientBound((m + 1) * d, d);
  }

  /** "No time set" is a legal instant. When the pacer's clock passes through it the source
      forgets what it has sent: with one frame put, all M are on offer again. */
  lemma SentinelForgetsPuts(r: Run, at: int)
    requires r.st.mode.Open? && r.puts > 0 && r.st.frameMs > 0
    requires r.st.lastFrame == Stamp(PacerTime(r)) && !Sane(r)
    ensures ReadyCount(r.st, at) == r.st.maxBuf
    ensures at < r.firstPut + r.puts * r.st.frameMs <==>
              ReadyCount(r.st, at) > r.st.maxBuf - r.puts + (at - r.firstPut) / r.st.frameMs
  {
    if at < r.firstPut + r.puts * r.st.frameMs {
      FloorBelow(at - r.firstPut, r.st.frameMs, r.puts);
    } else {
      FloorBound(r.puts, at - r.firstPut, r.st.frameMs);
    }
  }

  /** The pacer reads as "no time set", and so more is on offer than the one frame put leaves. */
  predicate Forgets(r: Run, t: int) {
    && r.st.mode.Open? && r.puts == 1 && r.st.frameMs > 0 && r.st.lastFrame == Stamp(PacerTime(r)) && !Sane(r)
    && ReadyCount(r.st, t) == r.st.maxBuf > r.st.maxBuf - r.puts + (t - r.firstPut) / r.st.frameMs
  }

  lemma OneIsForgotten(r: Run, spec: Spec, t: int)
    requires OncePut(r, spec, t) && t == NULL_TIME + (r.st.maxBuf - 1) * r.st.frameMs && r.st.frameMs > 0
    ensures Forgets(r, t)
  {
    SentinelForgetsPuts(r, t);
  }

  /** For any settings there is an instant at which a first put leads there. */
  lemma SentinelIsReached(spec: Spec, frame: seq<byte>)
    requires Fresh(spec).disconnectMs > 0 && Fresh(spec).frameMs > 0
    ensures var t := NULL_TIME + (Fresh(spec).maxBuf - 1) * Fresh(spec).frameMs;
            Forgets(RunAll(Begin(spec, t, t), FirstPut(t, frame)), t)
  {
    var t := NULL_TIME + (Fresh(spec).maxBuf - 1) * Fresh(spec).frameMs;
    AfterFirstPut(spec, t, frame);
    OneIsForgotten(RunAll(Begin(spec, t, t), FirstPut(t, frame)), spec, t);
  }

  // ----- When a put is taken -----

  predicate AllBorrows(es: seq<Env>) {
    forall e :: e in es ==> e.msg.Borrow?
  }

  /** Without an open connection nothing is ready and no waiting helps. */
  lemma NotOpenNotReady(s: SourceState, a: Arrival, clk: SourceClock, at: int, again: int)
    requires s.frameMs > 0
    ensures var s' := Update(s, a, clk).st;
            && s'.frameMs == s.frameMs
            && (!s'.mode.Open? ==> ReadyCount(s', at) == 0 && ReadyTimeout(s', at, again) == -1)
            && (ReadyCount(s', at) > 0 ==> s'.mode.Open?)
  {
    UpdateFrame(s, a, clk);
  }

  /** A put is taken if and only if it can be sent and the source is open when asked, after two
      updates; then it sends its frame, once and last, under the next index, and otherwise none. */
  lemma PutIsTakenIff(s: SourceState, i: PutInput, frame: seq<byte>, sendOk: bool)
    ensures var p := Put(s, i, frame, sendOk);
            var s2 := Update(Update(s, i.a1, i.clk1).st, i.a2, i.clk2).st;
            && (p.ok <==> sendOk && s2.mode.Open?)
            && (p.ok ==>
                  && p.out != [] && AllBorrows(p.out[..|p.out| - 1])
                  && p.out[|p.out| - 1].msg == Enqueue(s.nextIdx, frame))
            && (!p.ok ==> AllBorrows(p.out))
  {
    UpdateFrame(s, i.a1, i.clk1);
    UpdateSends(s, i.a1, i.clk1);
    var t1 := Update(s, i.a1, i.clk1);
    UpdateFrame(t1.st, i.a2, i.clk2);
    UpdateSends(t1.st, i.a2, i.clk2);
    var t2 := Update(t1.st, i.a2, i.clk2);
    if t2.st.mode.Open? {
      UpdateFrame(t2.st, i.a3, i.clk3);
      UpdateSends(t2.st, i.a3, i.clk3);
      var t3 := Update(t2.st, i.a3, i.clk3);
      var r := SendFrame(t3.st, frame, sendOk, i.tm.stamp);
      assert t3.out == [] && t3.out + r.out == r.out;
      if sendOk {
        var before := t1.out + t2.out;
        assert Put(s, i, frame, sendOk).out == before + r.out;
        assert (before + r.out)[..|before + r.out| - 1] == before;
      }
    }
  }

  /** A source that is not open and hears nothing takes no frame. */
  lemma NotOpenTakesNothing(s: SourceState, i: PutInput, frame: seq<byte>, sendOk: bool)
    requires !s.mode.Open? && i.a1.Nothing? && i.a2.Nothing?
    ensures !Put(s, i, frame, sendOk).ok && AllBorrows(Put(s, i, frame, sendOk).out)
    ensures Put(s, i, frame, sendOk).st.nextIdx == s.nextIdx
  {
    PutIsTakenIff(s, i, frame, sendOk);
    UpdateFrame(s, i.a1, i.clk1);
    UpdateFrame(Update(s, i.a1, i.clk1).st, i.a2, i.clk2);
  }

  // ----- Ready count and timeout -----

  /** Updates that are not followed by a put leave the pacer alone while the source is open. */
  function Polls(s: SourceState, ps: seq<(Arrival, SourceClock)>): SourceState
    decreases |ps|
  {
    if ps == [] then s else Polls(Update(s, ps[0].0, ps[0].1).st, ps[1..])
  }

  lemma {:induction false} PollsKeepPacer(s: SourceState, ps: seq<(Arrival, SourceClock)>)
    requires Polls(s, ps).mode.Open? && !s.mode.Waiting?
    ensures s.mode.Open?
    ensures var s' := Polls(s, ps);
            s'.lastFrame == s.lastFrame && s'.frameMs == s.frameMs && s'.maxBuf == s.maxBuf
    decreases |ps|
  {
    if ps != [] {
      UpdateFrame(s, ps[0].0, ps[0].1);
      PollsKeepPacer(Update(s, ps[0].0, ps[0].1).st, ps[1..]);
    }
  }

  lemma QuotientSign(x: int, d: int)
    requires 0 <= x && d > 0
    ensures x / d > 0 <==> x >= d
  {
    if x < d { Residue(0, x, d); } else { FloorBound(1, x, d); }
  }

  /** Ready count at an instant less than 2^31 ms after the last frame. */
  lemma CountAt(s: SourceState, last: int, at: int)
    requires s.mode.Open? && s.frameMs > 0 && s.lastFrame == Stamp(last) && s.lastFrame != NULL_TIME
    requires 0 <= at - last < 0x8000_0000
    ensures ReadyCount(s, at) > 0 <==> at - last >= s.frameMs
    ensures ReadyCount(s, at) >= 0
  {
    ElapsedIsTrue(at, last);
    QuotientSign(at - last, s.frameMs);
    QuotientBound(at - last, s.frameMs);
  }

  /** The timeout is what is left of one duration since the last frame. */
  lemma TimeoutAt(s: SourceState, last: int, a: int, b: int)
    requires s.mode.Open? && 0 < s.frameMs < 0x8000_0000 && s.lastFrame == Stamp(last) && s.lastFrame != NULL_TIME
    requires last <= a <= b && b - last < 0x8000_0000
    ensures ReadyTimeout(s, a, b) == if a - last >= s.frameMs then 0 else last + s.frameMs - b
  {
    CountAt(s, last, a);
    StampOfDifference(last, s.frameMs);
    if a - last < s.frameMs { SignedDifference(last + s.frameMs, b); }
  }

  /** A non-zero ready count promises that every later timeout before the next put is zero. */
  lemma CountPromisesTimeout(s: SourceState, last: int, at: int, ps: seq<(Arrival, SourceClock)>, a: int, b: int)
    requires s.mode.Open? && s.frameMs > 0 && (s.lastFrame != NULL_TIME ==> s.lastFrame == Stamp(last))
    requires last <= at <= a <= b && a - last < 0x8000_0000
    requires ReadyCount(s, at) != 0
    requires Polls(s, ps).mode.Open?
    ensures Polls(s, ps).frameMs > 0 && ReadyTimeout(Polls(s, ps), a, b) == 0
  {
    PollsKeepPacer(s, ps);
    var s' := Polls(s, ps);
    if s.lastFrame != NULL_TIME {
      CountAt(s, last, at);
      CountAt(s', last, a);
    }
  }

  /** Waiting out a positive timeout makes the count positive, and a timeout that is not
      positive means that it is positive already. */
  lemma TimeoutPromisesCount(s: SourceState, last: int, a: int, b: int, ps: seq<(Arrival, SourceClock)>, at: int)
    requires s.mode.Open? && 0 < s.frameMs < 0x8000_0000 && s.maxBuf > 0
    requires s.lastFrame != NULL_TIME ==> s.lastFrame == Stamp(last)
    requires last <= a <= b <= at && at - last < 0x8000_0000
    requires Polls(s, ps).mode.Open?
    requires var timeout := ReadyTimeout(s, a, b); at >= b + (if timeout > 0 then timeout else 0)
    ensures Polls(s, ps).frameMs > 0 && ReadyCount(Polls(s, ps), at) > 0
  {
    PollsKeepPacer(s, ps);
    var s' := Polls(s, ps);
    if s.lastFrame != NULL_TIME {
      TimeoutAt(s, last, a, b);
      CountAt(s', last, at);
    }
  }
}
