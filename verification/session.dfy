/** One borrow session of a sink: which frames end up at which position, and which are shown.
    Arrivals carry their true sequence numbers; they may be lost, duplicated or reordered. */
module Session {
  import opened Arithmetic
  import opened Clock
  import opened Pattern
  import opened SinkSpec
  import opened SinkSteps
  import opened Wire
  import Runs = SinkRuns

  /** A frame of the borrower arrives, a frame is asked for, or something else happens. */
  datatype Event =
    | Arrive(seqNo: nat, id: u16, frame: Frame)
    | ShowAt(at: int)
    | Meanwhile(other: Runs.Micro)

  /** An admitted frame and its true number. */
  datatype Admitted = Admitted(seqNo: nat, frame: Frame)

  /** The sink, with the session's past: frames that were in the ring at the borrow, frames
      enqueued since, frames shown since, numbers admitted, and when the first was shown. */
  datatype Session = Session(
    st: SinkState,
    stale: seq<Frame>,
    hist: seq<Frame>,
    shown: seq<Frame>,
    log: seq<Admitted>,
    firstShow: int)

  function Start(s: SinkState): Session {
    Session(s, s.queue, [], [], [], 0)
  }

  function StepSession(x: Session, ev: Event): Session {
    match ev
    case Arrive(seqNo, id, frame) =>
      var s' := Handle(x.st, AskEnqueue(id, seqNo % 256, frame), x.st.borrower, 0).st;
      if |s'.queue| <= |x.st.queue| then x.(st := s')
      else x.(st := s', hist := x.hist + s'.queue[|x.st.queue|..], log := x.log + [Admitted(seqNo, frame)])
    case ShowAt(at) =>
      var s' := Show(x.st, at);
      if |s'.queue| >= |x.st.queue| then x.(st := s')
      else x.(st := s', shown := x.shown + x.st.queue[..|x.st.queue| - |s'.queue|],
              firstShow := if x.shown == [] then at else x.firstShow)
    case Meanwhile(m) => x.(st := Runs.Step(x.st, m))
  }

  /** What belongs to no session or to another's: keepalives, silence, messages of strangers and
      unexpected ones. */
  predicate Aside(s: SinkState, m: Runs.Micro) {
    && !m.Display? && Runs.Step(s, m).mode.Lent?
    && (m.Hear? && m.sender == s.borrower ==> m.request.Unexpected?)
  }

  /** A legal frame within the reconstruction window that fits into the ring, any call for a
      frame, and nothing that ends the borrow. */
  predicate Regular(x: Session, ev: Event) {
    match ev
    case Arrive(seqNo, id, frame) =>
      |frame| >= 3 && -127 <= seqNo - (|x.hist| - 1) <= 128 && seqNo + 1 - |x.hist| <= Room(x.st)
    case ShowAt(_) => true
    case Meanwhile(m) => Aside(x.st, m)
  }

  /** Once frames were shown, none is asked for while the virtual clock reads as "no time set". */
  predicate Clocked(x: Session, ev: Event) {
    ev.ShowAt? && x.shown != [] ==> x.st.origin != NULL_TIME
  }

  predicate ClockedRun(x: Session, evs: seq<Event>)
    decreases |evs|
  {
    evs == [] || (Clocked(x, evs[0]) && ClockedRun(StepSession(x, evs[0]), evs[1..]))
  }

  function RunSession(x: Session, evs: seq<Event>): Session
    decreases |evs|
  {
    if evs == [] then x else RunSession(StepSession(x, evs[0]), evs[1..])
  }

  predicate RegularRun(x: Session, evs: seq<Event>)
    decreases |evs|
  {
    evs == [] || (Regular(x, evs[0]) && RegularRun(StepSession(x, evs[0]), evs[1..]))
  }

  /** `log[i]` is the first admitted frame whose number is at least `p`. */
  predicate FirstFrom(log: seq<Admitted>, i: int, p: nat) {
    && 0 <= i < |log| && p <= log[i].seqNo
    && forall j :: 0 <= j < i ==> log[j].seqNo < p
  }

  /** `shown` is that frame, filled to `frameLen` bytes. */
  ghost predicate FilledFrom(log: seq<Admitted>, i: int, p: nat, frameLen: nat, shown: Frame) {
    FirstFrom(log, i, p) && |log[i].frame| > 0 && shown == Repeated(log[i].frame, frameLen)
  }

  predicate Increasing(log: seq<Admitted>) {
    forall i, j :: 0 <= i < j < |log| ==> log[i].seqNo < log[j].seqNo
  }

  /** The filled frame that belongs at position `p`. */
  ghost predicate Placed(x: Session, p: nat)
    requires p < |x.hist|
  {
    exists i :: FilledFrom(x.log, i, p, x.st.frameLen, x.hist[p])
  }

  ghost predicate Content(x: Session) {
    && Increasing(x.log)
    && (forall i :: 0 <= i < |x.log| ==> x.log[i].seqNo < |x.hist|)
    && (x.hist != [] ==> x.log != [] && x.log[|x.log| - 1].seqNo == |x.hist| - 1)
    && forall p :: 0 <= p < |x.hist| ==> Placed(x, p)
  }

  ghost predicate Conserved(x: Session) {
    x.shown + x.st.queue == x.stale + x.hist
  }

  ghost predicate CurrentIsLast(x: Session) {
    x.shown != [] ==> x.st.current == x.shown[|x.shown| - 1]
  }

  /** When the current frame began to be shown: one duration later for every frame shown. */
  function CurrentSince(x: Session): int {
    x.firstShow + (|x.shown| - 1) * x.st.frameMs
  }

  /** The virtual clock tells that time. */
  predicate OnClock(x: Session) {
    x.st.origin == if x.shown == [] then NULL_TIME else Stamp(CurrentSince(x))
  }

  ghost predicate Borrowing(x: Session) {
    && x.st.mode.Lent? && !x.st.hung && x.st.frameMs >= 10 && x.st.frameLen > 0
    && Numbered(x.st, |x.hist|)
  }

  ghost predicate Inv(x: Session) {
    Borrowing(x) && Content(x) && Conserved(x) && CurrentIsLast(x)
  }

  /** A session starts with an accepted borrow. */
  ghost predicate JustBorrowed(s: SinkState) {
    && s.mode.Lent? && !s.hung && s.lastIdx == -1 && s.origin == NULL_TIME
    && s.frameMs >= 10 && s.frameLen > 0
  }

  lemma BorrowStartsSession(s: SinkState, q: Request, sender: Endpoint, at: int)
    requires Grants(s, q, sender) && !s.hung && s.frameLen > 0
    ensures JustBorrowed(Handle(s, q, sender, at).st)
    ensures Handle(s, q, sender, at).st ==
              s.(mode := Mode.Lent, borrower := sender, frameMs := q.frameMs, origin := 0xFFFF_FFFF, lastIdx := -1,
                 lastRecv := 0xFFFF_FFFF, lastSendLent := Stamp(at), nextId := (s.nextId + 1) % 65536)
    ensures Handle(s, q, sender, at).st.queue == s.queue
    ensures Inv(Start(Handle(s, q, sender, at).st))
  {
    InvAtStart(Handle(s, q, sender, at).st);
  }

  lemma InvAtStart(s: SinkState)
    requires JustBorrowed(s)
    ensures Inv(Start(s)) && OnClock(Start(s))
  {
    assert Start(s).shown + s.queue == Start(s).stale + Start(s).hist;
  }

  // ----- An arrival -----

  lemma ContentGrows(x: Session, seqNo: nat, frame: Frame)
    requires Content(x) && |x.hist| <= seqNo && |frame| > 0
    ensures var added := Copies(Repeated(frame, x.st.frameLen), seqNo + 1 - |x.hist|);
            Content(x.(hist := x.hist + added, log := x.log + [Admitted(seqNo, frame)]))
  {
    var n := |x.hist|;
    var added := Copies(Repeated(frame, x.st.frameLen), seqNo + 1 - n);
    var x' := x.(hist := x.hist + added, log := x.log + [Admitted(seqNo, frame)]);
    forall p | 0 <= p < |x'.hist|
      ensures Placed(x', p)
    {
      if p < n {
        assert Placed(x, p);
        var i :| FilledFrom(x.log, i, p, x.st.frameLen, x.hist[p]);
        assert FilledFrom(x'.log, i, p, x.st.frameLen, x'.hist[p]);
      } else {
        assert x'.hist[p] == added[p - n];
        assert FilledFrom(x'.log, |x.log|, p, x.st.frameLen, x'.hist[p]);
      }
    }
  }

  /** What an arrival within the window does. */
  lemma ArrivalStep(x: Session, ev: Event)
    requires Borrowing(x) && ev.Arrive? && Regular(x, ev)
    ensures ev.seqNo < |x.hist| ==> StepSession(x, ev) == x
    ensures ev.seqNo >= |x.hist| ==>
              var added := Copies(Repeated(ev.frame, x.st.frameLen), ev.seqNo + 1 - |x.hist|);
              StepSession(x, ev) ==
                x.(st := x.st.(queue := x.st.queue + added, lastIdx := ev.seqNo % 256),
                   hist := x.hist + added, log := x.log + [Admitted(ev.seqNo, ev.frame)])
  {
    var n := |x.hist|;
    AdmitInWindow(x.st, n, ev.seqNo, ev.frame);
    var s' := Handle(x.st, AskEnqueue(ev.id, ev.seqNo % 256, ev.frame), x.st.borrower, 0).st;
    assert s' == Admit(x.st, ev.seqNo % 256, ev.frame);
    if ev.seqNo >= n {
      assert s'.queue[|x.st.queue|..] == Copies(Repeated(ev.frame, x.st.frameLen), ev.seqNo + 1 - n);
    }
  }

  /** A regular arrival brings the session to position `seqNo + 1`, or changes nothing. */
  lemma ArrivalKeepsInv(x: Session, ev: Event)
    requires Inv(x) && ev.Arrive? && Regular(x, ev)
    ensures Inv(StepSession(x, ev))
    ensures |StepSession(x, ev).hist| == Max(|x.hist|, ev.seqNo + 1)
    ensures StepSession(x, ev).stale == x.stale
  {
    ArrivalStep(x, ev);
    if ev.seqNo >= |x.hist| { Extends(x, StepSession(x, ev), ev.seqNo, ev.frame); }
  }

  lemma Extends(x: Session, x': Session, seqNo: nat, frame: Frame)
    requires Content(x) && Conserved(x) && |x.hist| <= seqNo && |frame| > 0
    requires var added := Copies(Repeated(frame, x.st.frameLen), seqNo + 1 - |x.hist|);
             x' == x.(st := x.st.(queue := x.st.queue + added, lastIdx := seqNo % 256),
                      hist := x.hist + added, log := x.log + [Admitted(seqNo, frame)])
    ensures Content(x') && Conserved(x')
  {
    var added := Copies(Repeated(frame, x.st.frameLen), seqNo + 1 - |x.hist|);
    ContentGrows(x, seqNo, frame);
    SameContent(x.(hist := x.hist + added, log := x.log + [Admitted(seqNo, frame)]), x');
    StillConserved(x, x', added);
  }

  lemma StillConserved(x: Session, x': Session, added: seq<Frame>)
    requires Conserved(x) && x'.shown == x.shown && x'.stale == x.stale
    requires x'.st.queue == x.st.queue + added && x'.hist == x.hist + added
    ensures Conserved(x')
  {
    assert x.shown + (x.st.queue + added) == (x.shown + x.st.queue) + added;
    assert x.stale + (x.hist + added) == (x.stale + x.hist) + added;
  }

  lemma SameContent(x: Session, x': Session)
    requires Content(x) && x'.hist == x.hist && x'.log == x.log && x'.st.frameLen == x.st.frameLen
    ensures Content(x')
  {
    forall p | 0 <= p < |x'.hist|
      ensures Placed(x', p)
    {
      assert Placed(x, p);
    }
  }

  lemma AdmitInWindow(s: SinkState, n: nat, seqNo: nat, frame: Frame)
    requires Numbered(s, n) && |frame| > 0 && !s.hung
    requires -127 <= seqNo - (n - 1) <= 128 && seqNo + 1 - n <= Room(s)
    ensures var s' := Admit(s, seqNo % 256, frame);
            if seqNo >= n
            then s' == s.(queue := s.queue + Copies(Repeated(frame, s.frameLen), seqNo + 1 - n), lastIdx := seqNo % 256)
            else s' == s
  {
    GapIsDistance(n, seqNo);
    var ahead := seqNo - (n - 1);
    if ahead >= 1 {
      ModBound(ahead);
    } else {
      Residue(if ahead < 0 then -1 else 0, if ahead < 0 then ahead + 256 else 0, 256);
    }
  }

  // ----- Showing -----

  /** How many frames a call shows. */
  function ShownNow(s: SinkState, at: int): nat
    requires s.frameMs > 0
  {
    if NothingToShow(s) then 0 else if s.origin == NULL_TIME then 1 else Taken(s, Stamp(at))
  }

  lemma ShowTakes(s: SinkState, at: int)
    requires s.frameMs > 0
    ensures ShownNow(s, at) <= |s.queue|
    ensures var k, s' := ShownNow(s, at), Show(s, at);
            && s' == s.(queue := s.queue[k..], current := s'.current, origin := s'.origin)
            && s'.current == if k == 0 then s.current else s.queue[k - 1]
  {
    if !NothingToShow(s) && s.origin != NULL_TIME { CatchUpPlays(s, Stamp(at)); }
  }

  lemma ShowStep(x: Session, ev: Event)
    requires Borrowing(x) && ev.ShowAt?
    ensures ShownNow(x.st, ev.at) <= |x.st.queue|
    ensures var k := ShownNow(x.st, ev.at);
            StepSession(x, ev) == x.(st := Show(x.st, ev.at), shown := x.shown + x.st.queue[..k],
                                     firstShow := if k > 0 && x.shown == [] then ev.at else x.firstShow)
  {
    ShowTakes(x.st, ev.at);
    if ShownNow(x.st, ev.at) == 0 { assert x.shown + x.st.queue[..0] == x.shown; }
  }

  lemma ShowKeepsInv(x: Session, ev: Event)
    requires Inv(x) && ev.ShowAt?
    ensures Inv(StepSession(x, ev))
    ensures StepSession(x, ev).hist == x.hist && StepSession(x, ev).stale == x.stale
  {
    ShowStep(x, ev);
    ShowTakes(x.st, ev.at);
    var k, q := ShownNow(x.st, ev.at), x.st.queue;
    assert x.shown + q[..k] + q[k..] == x.shown + q;
    SameContent(x, StepSession(x, ev));
  }

  /** Unless it reads as "no time set", the virtual clock moves by one duration per frame. */
  lemma ShowKeepsClock(x: Session, ev: Event)
    requires Borrowing(x) && OnClock(x) && ev.ShowAt? && Clocked(x, ev)
    ensures OnClock(StepSession(x, ev))
  {
    ShowStep(x, ev);
    if !NothingToShow(x.st) && x.shown != [] {
      CatchUpPlays(x.st, Stamp(ev.at));
      ClockAdvances(x.firstShow, |x.shown| - 1, Taken(x.st, Stamp(ev.at)), x.st.frameMs);
    }
  }

  lemma ClockAdvances(first: int, m: int, k: int, d: int)
    ensures Stamp(Stamp(first + m * d) + k * d) == Stamp(first + (m + k) * d)
  {
    AddToStamp(first + m * d, k * d);
    assert (m + k) * d == m * d + k * d;
  }

  /** "No time set" is a legal instant. When the clock of a session that has shown frames passes
      through it, the next call shows a frame whether or not it is due, and the clock restarts at
      the present: it is right afterwards only if a frame was due at exactly that instant. */
  lemma SentinelRestartsPlayback(x: Session, at: int)
    requires Inv(x) && OnClock(x) && x.shown != [] && x.st.origin == NULL_TIME && x.st.queue != []
    ensures var x' := StepSession(x, ShowAt(at));
            && x'.shown == x.shown + [x.st.queue[0]] && x'.st.queue == x.st.queue[1..]
            && (OnClock(x') <==> Elapsed(Stamp(at), x.st.origin) == x.st.frameMs)
            && (Elapsed(Stamp(at), x.st.origin) <= x.st.frameMs ==> Taken(x.st, Stamp(at)) == 0)
  {
    var x' := StepSession(x, ShowAt(at));
    assert x.st.queue[..1] == [x.st.queue[0]];
    ClockAdvances(x.firstShow, |x.shown| - 1, 1, x.st.frameMs);
    assert 1 * x.st.frameMs == x.st.frameMs;
    DueAfterOne(Elapsed(Stamp(at), x.st.origin), x.st.frameMs);
    NextStamp(Stamp(at), x.st.frameMs);
  }

  lemma NextStamp(now: u32, d: u32)
    ensures now == Stamp(NULL_TIME + d) <==> Elapsed(now, NULL_TIME) == d
  {}

  lemma RunStep(x: Session, ev: Event, rest: seq<Event>)
    ensures RunSession(x, [ev] + rest) == RunSession(StepSession(x, ev), rest)
    ensures RegularRun(x, [ev] + rest) <==> Regular(x, ev) && RegularRun(StepSession(x, ev), rest)
  {
    assert ([ev] + rest)[1..] == rest;
  }

  /** Two frames arrive in order. */
  lemma TwoArrive(x: Session, id: u16, frame: Frame)
    requires Inv(x) && x.st.queue == [] && x.hist == [] && |frame| >= 3
    ensures var e0, e1 := Arrive(0, id, frame), Arrive(1, id, frame);
            var x1 := StepSession(x, e0);
            var x2 := StepSession(x1, e1);
            && Regular(x, e0) && Regular(x1, e1) && Inv(x2)
            && x2.shown == x.shown && |x2.st.queue| == 2 && x2.st.origin == x.st.origin
  {
    var e0, e1 := Arrive(0, id, frame), Arrive(1, id, frame);
    ArrivalKeepsInv(x, e0);
    ArrivalStep(x, e0);
    ArrivalKeepsInv(StepSession(x, e0), e1);
    ArrivalStep(StepSession(x, e0), e1);
  }

  lemma FirstShownThen(x: Session)
    requires Inv(x) && OnClock(x) && x.shown == [] && |x.st.queue| == 2
    ensures var x' := StepSession(x, ShowAt(NULL_TIME));
            && Inv(x') && OnClock(x')
            && x'.shown != [] && x'.st.origin == NULL_TIME && x'.st.queue != []
  {
    ShowKeepsInv(x, ShowAt(NULL_TIME));
    ShowKeepsClock(x, ShowAt(NULL_TIME));
    ShowStep(x, ShowAt(NULL_TIME));
  }

  /** Two frames arrive and the first is shown at that very instant: then this happens. */
  lemma SentinelIsReached(s: SinkState, id: u16, frame: Frame)
    requires JustBorrowed(s) && s.queue == [] && |frame| >= 3
    ensures var evs := [Arrive(0, id, frame), Arrive(1, id, frame), ShowAt(NULL_TIME)];
            var x := RunSession(Start(s), evs);
            && RegularRun(Start(s), evs) && Inv(x) && OnClock(x)
            && x.shown != [] && x.st.origin == 0xFFFF_FFFF && x.st.queue != []
  {
    var e0, e1, show := Arrive(0, id, frame), Arrive(1, id, frame), ShowAt(NULL_TIME);
    var x0 := Start(s);
    InvAtStart(s);
    TwoArrive(x0, id, frame);
    var x2 := StepSession(StepSession(x0, e0), e1);
    FirstShownThen(x2);
    RunStep(x2, show, []);
    RunStep(StepSession(x0, e0), e1, [show]);
    RunStep(x0, e0, [e1, show]);
    assert [e0] + [e1, show] == [e0, e1, show] && [e1] + [show] == [e1, show] && [show] + [] == [show];
  }

  // ----- Anything else -----

  lemma AsideChangesNothing(s: SinkState, m: Runs.Micro)
    requires s.mode.Lent? && !s.hung && Aside(s, m)
    ensures var s' := Runs.Step(s, m);
            s' == s.(lastRecv := s'.lastRecv, lastSendLent := s'.lastSendLent, nextId := s'.nextId)
  {}

  /** Times and message ids are no part of a session. */
  lemma TimesKeepInv(x: Session, s': SinkState)
    requires Inv(x)
    requires s' == x.st.(lastRecv := s'.lastRecv, lastSendLent := s'.lastSendLent, nextId := s'.nextId)
    ensures Inv(x.(st := s'))
  {
    SameContent(x, x.(st := s'));
  }

  lemma AsideKeepsInv(x: Session, ev: Event)
    requires Inv(x) && ev.Meanwhile? && Regular(x, ev)
    ensures Inv(StepSession(x, ev))
    ensures StepSession(x, ev).hist == x.hist && StepSession(x, ev).stale == x.stale
  {
    AsideChangesNothing(x.st, ev.other);
    TimesKeepInv(x, StepSession(x, ev).st);
  }

  // ----- Whole sessions -----

  /** The highest number that arrived, plus one. */
  function Reached(evs: seq<Event>, n: nat): nat
    decreases |evs|
  {
    if evs == [] then n
    else Reached(evs[1..], if evs[0].Arrive? then Max(n, evs[0].seqNo + 1) else n)
  }

  lemma {:induction false} ClockOverRun(x: Session, evs: seq<Event>)
    requires Inv(x) && OnClock(x) && RegularRun(x, evs) && ClockedRun(x, evs)
    ensures OnClock(RunSession(x, evs))
    decreases |evs|
  {
    if evs != [] {
      SessionStep(x, evs[0]);
      if evs[0].ShowAt? {
        ShowKeepsClock(x, evs[0]);
      } else if evs[0].Arrive? {
        ArrivalStep(x, evs[0]);
      } else {
        AsideChangesNothing(x.st, evs[0].other);
      }
      ClockOverRun(StepSession(x, evs[0]), evs[1..]);
    }
  }

  lemma SessionStep(x: Session, ev: Event)
    requires Inv(x) && Regular(x, ev)
    ensures Inv(StepSession(x, ev)) && StepSession(x, ev).stale == x.stale
    ensures |StepSession(x, ev).hist| == if ev.Arrive? then Max(|x.hist|, ev.seqNo + 1) else |x.hist|
  {
    match ev
    case Arrive(_, _, _) => ArrivalKeepsInv(x, ev);
    case ShowAt(_) => ShowKeepsInv(x, ev);
    case Meanwhile(_) => AsideKeepsInv(x, ev);
  }

  lemma {:induction false} SessionRun(x: Session, evs: seq<Event>)
    requires Inv(x) && RegularRun(x, evs)
    ensures Inv(RunSession(x, evs)) && RunSession(x, evs).stale == x.stale
    ensures |RunSession(x, evs).hist| == Reached(evs, |x.hist|)
    decreases |evs|
  {
    if evs != [] {
      SessionStep(x, evs[0]);
      SessionRun(StepSession(x, evs[0]), evs[1..]);
    }
  }

  /** In every session, whatever is lost, duplicated or reordered within the window and whoever
      else talks to the sink: position `p` holds the filled frame of the first admitted number
      from `p` on, admitted numbers strictly increase, the session is as long as the highest
      number that arrived, and what has been shown is a prefix of the stale frames followed by
      the session's own. The virtual clock tells when the last of these began to be shown, if it
      never reads as "no time set" when a frame is asked for. */
  lemma SessionContent(s: SinkState, evs: seq<Event>)
    requires JustBorrowed(s) && RegularRun(Start(s), evs)
    ensures var x := RunSession(Start(s), evs);
            && |x.hist| == Reached(evs, 0)
            && Increasing(x.log)
            && (forall p :: 0 <= p < |x.hist| ==> Placed(x, p))
            && x.shown <= s.queue + x.hist
            && x.shown + x.st.queue == s.queue + x.hist
            && (x.shown != [] ==> x.st.current == x.shown[|x.shown| - 1])
            && (ClockedRun(Start(s), evs) && x.shown != [] ==> x.st.origin == Stamp(CurrentSince(x)))
  {
    var x0 := Start(s);
    InvAtStart(s);
    SessionRun(x0, evs);
    if ClockedRun(x0, evs) { ClockOverRun(x0, evs); }
    ShownIsPrefix(RunSession(x0, evs));
  }

  lemma ShownIsPrefix(x: Session)
    requires Conserved(x)
    ensures x.shown <= x.stale + x.hist
  {
    assert x.shown == (x.stale + x.hist)[..|x.shown|];
  }

  /** What a caller gets in a session whose clock is not asked when it reads as "no time set": once
      a frame was shown every call answers, with the last frame shown, whether or not the queue
      is empty; before that a call answers if and only if a frame is queued. */
  lemma EveryCallAnswers(s: SinkState, evs: seq<Event>, at: int)
    requires JustBorrowed(s) && RegularRun(Start(s), evs) && ClockedRun(Start(s), evs)
    requires Clocked(RunSession(Start(s), evs), ShowAt(at))
    ensures var x := RunSession(Start(s), evs);
            var x' := StepSession(x, ShowAt(at));
            var answers := x.st.mode == Mode.Lent && (x.st.origin != NULL_TIME || x.st.queue != []);
            && (answers <==> x.shown != [] || x.st.queue != [])
            && (answers <==> x'.shown != [])
            && (answers ==> x'.st.current == x'.shown[|x'.shown| - 1])
            && x'.st == Show(x.st, at)
  {
    var x0 := Start(s);
    InvAtStart(s);
    SessionRun(x0, evs);
    ClockOverRun(x0, evs);
    var x := RunSession(x0, evs);
    ShowStep(x, ShowAt(at));
    ShowKeepsInv(x, ShowAt(at));
  }

  /** Once the stale frames are gone, what a caller gets is the pattern of an admitted frame,
      cut to the size of the sink and repeated over the caller's buffer, whatever its length. */
  lemma ShownPattern(s: SinkState, evs: seq<Event>, outLen: nat, i: nat)
    requires JustBorrowed(s) && RegularRun(Start(s), evs) && i < outLen
    requires |RunSession(Start(s), evs).shown| > |s.queue|
    ensures var x := RunSession(Start(s), evs);
            var p := |x.shown| - 1 - |s.queue|;
            && p < |x.hist| && x.st.frameLen > 0 && |x.st.current| > 0
            && exists k :: FilledFrom(x.log, k, p, x.st.frameLen, x.st.current)
                 && Repeated(x.st.current, outLen)[i] == x.log[k].frame[(i % x.st.frameLen) % |x.log[k].frame|]
  {
    var x0 := Start(s);
    InvAtStart(s);
    SessionRun(x0, evs);
    var x := RunSession(x0, evs);
    var p := |x.shown| - 1 - |s.queue|;
    assert (x.shown + x.st.queue)[|x.shown| - 1] == x.st.current;
    assert (x.stale + x.hist)[|x.shown| - 1] == x.hist[p];
    assert Placed(x, p);
    var k :| FilledFrom(x.log, k, p, x.st.frameLen, x.hist[p]);
    RepeatedTwice(x.log[k].frame, x.st.frameLen, outLen, i);
  }
}
