/** What a source does, as functions on its state. The class in `source.dfy` is proved to
    compute these functions; theorems about whole runs are in `source_runs.dfy`. */
module SourceSpec {
  import opened Clock
  import opened Pattern
  import opened Wire

  const RETRY_TIMEOUT_MS_DEFAULT: int := 100
  const DISCONNECT_TIMEOUT_MS_DEFAULT: int := 750
  const MAX_BUFFERED_FRAMES_DEFAULT: int := 16
  const BLOCKING_MAKE_REFRESH_INTERVAL: int := 5

  datatype Mode = Waiting | Open | Error

  /** A field that creation leaves uninitialised until it is first assigned. */
  datatype Instant = Unset | Set(at: u32)

  datatype SourceState = SourceState(
    mode: Mode,
    errorSet: bool,
    nextIdx: byte,
    frameMs: u32,
    maxBuf: int,
    retryMs: u32,
    disconnectMs: u32,
    firstBorrow: u32,
    lastBorrow: u32,
    lastFrame: u32,
    lastRecvLent: Instant,
    nextId: u16)

  datatype Spec = Spec(frameMs: int, maxBuf: int, retryMs: int, disconnectMs: int)

  /** What a source distinguishes in a message it receives. */
  datatype Notice = LentNotice | Trouble

  datatype Arrival = Nothing | Datagram(notices: seq<Notice>)

  /** Readings of the clock during one update: when a lent message is handled, when packet loss
      is considered, when a borrow is sent again, when the connection is considered. */
  datatype SourceClock = SourceClock(recv: int, loss: int, borrow: int, check: int)

  /** Readings of the clock while a frame is put: the two that the timeout is computed from, the
      end of the sleep, and the one the first frame is dated with. */
  datatype PutClock = PutClock(a: int, b: int, wake: int, stamp: int)

  datatype Turn = Turn(st: SourceState, out: seq<Env>)

  datatype PutResult = PutResult(st: SourceState, out: seq<Env>, ok: bool)

  /** Fail messages must hold the error code that is read from them. */
  predicate Readable(r: Raw) {
    KnownTag(r.tag) && (r.tag == FAIL_TAG ==> |r.payload| >= 3)
  }

  function NoticeOf(r: Raw): Notice {
    if r.tag == LENT_TAG then LentNotice else Trouble
  }

  function NoticesOf(rs: seq<Raw>): seq<Notice> {
    if rs == [] then [] else [NoticeOf(rs[0])] + NoticesOf(rs[1..])
  }

  // ----- Creation -----

  function Fresh(spec: Spec): SourceState {
    SourceState(Waiting, false, 0, Stamp(spec.frameMs),
                if spec.maxBuf == 0 then MAX_BUFFERED_FRAMES_DEFAULT else spec.maxBuf,
                Stamp(if spec.retryMs == 0 then RETRY_TIMEOUT_MS_DEFAULT else spec.retryMs),
                Stamp(if spec.disconnectMs == 0 then DISCONNECT_TIMEOUT_MS_DEFAULT else spec.disconnectMs),
                0, 0, 0, Unset, 0)
  }

  function Failed(s: SourceState): SourceState {
    s.(mode := Error, errorSet := true)
  }

  function SendBorrow(s: SourceState, at: int): Turn {
    Turn(s.(lastBorrow := Stamp(at), nextId := (s.nextId + 1) % 65536),
         [Env(s.nextId, Borrow(s.frameMs % 256, s.maxBuf % 256))])
  }

  /** `atolla_source_make` without waiting for completion. */
  function Make(spec: Spec, socketOk: bool, resolved: bool, first: int, sent: int): Turn {
    var s := Fresh(spec);
    if socketOk && resolved then SendBorrow(s.(firstBorrow := Stamp(first)), sent)
    else Turn(Failed(s), [])
  }

  // ----- Updating -----

  function Hear(s: SourceState, n: Notice, at: int): SourceState {
    match n
    case Trouble => Failed(s)
    case LentNotice =>
      match s.mode
      case Waiting => s.(mode := Open, lastFrame := NULL_TIME, lastRecvLent := Set(Stamp(at)))
      case Open => s.(lastRecvLent := Set(Stamp(at)))
      case Error => s
  }

  function HearAll(s: SourceState, ns: seq<Notice>, at: int): SourceState
    decreases |ns|
  {
    if ns == [] then s else HearAll(Hear(s, ns[0], at), ns[1..], at)
  }

  function Receive(s: SourceState, a: Arrival, clk: SourceClock): SourceState {
    if a.Datagram? then HearAll(s, a.notices, clk.recv) else s
  }

  function ManageBorrowPacketLoss(s: SourceState, clk: SourceClock): Turn {
    if !s.mode.Waiting? then Turn(s, [])
    else if Elapsed(Stamp(clk.loss), s.firstBorrow) > s.disconnectMs then Turn(Failed(s), [])
    else if Elapsed(Stamp(clk.loss), s.lastBorrow) > s.retryMs then SendBorrow(s, clk.borrow)
    else Turn(s, [])
  }

  predicate ConnectionLost(s: SourceState, check: int) {
    s.mode.Open? && s.lastRecvLent.Set? && Elapsed(Stamp(check), s.lastRecvLent.at) >= s.disconnectMs
  }

  function EnsureLentResent(s: SourceState, clk: SourceClock): SourceState {
    if ConnectionLost(s, clk.check) then Failed(s) else s
  }

  function Update(s: SourceState, a: Arrival, clk: SourceClock): Turn {
    var t := ManageBorrowPacketLoss(Receive(s, a, clk), clk);
    Turn(EnsureLentResent(t.st, clk), t.out)
  }

  // ----- Putting frames -----

  /** `atolla_source_put_ready_count` after its update. */
  function ReadyCount(s: SourceState, at: int): int
    requires s.frameMs > 0
  {
    if !s.mode.Open? then 0
    else if s.lastFrame == NULL_TIME then s.maxBuf
    else ToInt(Elapsed(Stamp(at), s.lastFrame) / s.frameMs)
  }

  /** `atolla_source_put_ready_timeout` after its update; the clock is read twice. */
  function ReadyTimeout(s: SourceState, a: int, b: int): int
    requires s.frameMs > 0
  {
    if !s.mode.Open? then -1
    else if s.lastFrame == NULL_TIME then 0
    else if ToInt(Elapsed(Stamp(a), s.lastFrame) / s.frameMs) > 0 then 0
    else ToInt(Elapsed((s.lastFrame + s.frameMs) % TWO_32, Stamp(b)))
  }

  /** The time of the last frame after one more was sent. */
  function NextLastFrame(s: SourceState, stamp: int): u32 {
    if s.lastFrame == NULL_TIME then Stamp(Stamp(stamp) - (s.maxBuf - 1) * s.frameMs)
    else (s.lastFrame + s.frameMs) % TWO_32
  }

  function SendFrame(s: SourceState, frame: seq<byte>, sendOk: bool, stamp: int): PutResult {
    var e := Env(s.nextId, Enqueue(s.nextIdx, frame));
    var s' := s.(nextId := (s.nextId + 1) % 65536);
    if !sendOk then PutResult(s', [], false)
    else PutResult(s'.(nextIdx := (s.nextIdx + 1) % 256, lastFrame := NextLastFrame(s, stamp)), [e], true)
  }

  /** The part of `atolla_source_put` after the source was found to be open: the timeout is
      asked for, which updates once more, then the frame is sent whatever that update did. */
  function PutTail(s: SourceState, a: Arrival, clk: SourceClock, tm: PutClock, frame: seq<byte>,
                   sendOk: bool): PutResult
  {
    var t := Update(s, a, clk);
    var r := SendFrame(t.st, frame, sendOk, tm.stamp);
    PutResult(r.st, t.out + r.out, r.ok)
  }

  datatype PutInput = PutInput(a1: Arrival, clk1: SourceClock, a2: Arrival, clk2: SourceClock,
                               a3: Arrival, clk3: SourceClock, tm: PutClock)

  function Put(s: SourceState, i: PutInput, frame: seq<byte>, sendOk: bool): PutResult {
    var t1 := Update(s, i.a1, i.clk1);
    var t2 := Update(t1.st, i.a2, i.clk2);
    if !t2.st.mode.Open? then PutResult(t2.st, t1.out + t2.out, false)
    else
      var r := PutTail(t2.st, i.a3, i.clk3, i.tm, frame, sendOk);
      PutResult(r.st, t1.out + t2.out + r.out, r.ok)
  }

  /** The sleep before sending lasts at least as long as the timeout asks. */
  predicate Slept(s: SourceState, tm: PutClock) {
    && s.frameMs > 0
    && var timeout := ReadyTimeout(s, tm.a, tm.b);
    tm.a <= tm.b && tm.wake >= (if timeout > 0 then tm.b + timeout else tm.b) && tm.stamp >= tm.wake
  }

  // ----- Facts used by every proof about the source -----

  /** Receiving touches the state of the connection only, and cannot lead back to waiting. */
  lemma {:induction false} HearAllFrame(s: SourceState, ns: seq<Notice>, at: int)
    ensures var s' := HearAll(s, ns, at);
            && s' == s.(mode := s'.mode, errorSet := s'.errorSet, lastFrame := s'.lastFrame,
                        lastRecvLent := s'.lastRecvLent)
            && (s'.mode.Waiting? ==> s' == s)
            && (s.mode.Error? ==> s'.mode.Error?)
            && (s.errorSet ==> s'.errorSet)
            && (s'.mode.Error? ==> s'.errorSet || s.mode.Error?)
            && (s'.mode.Open? && s.mode.Open? ==> s'.lastFrame == s.lastFrame)
            && (s'.mode.Open? && !s.mode.Open? ==> s.mode.Waiting? && s'.lastFrame == NULL_TIME)
            && (s'.mode.Open? ==> s'.lastRecvLent == s.lastRecvLent || s'.lastRecvLent == Set(Stamp(at)))
            && (s'.mode.Open? && !s.mode.Open? ==> s'.lastRecvLent == Set(Stamp(at)))
            && (!s.mode.Waiting? && !s'.mode.Open? ==> s'.mode.Error? && s'.lastFrame == s.lastFrame)
    decreases |ns|
  {
    if ns != [] { HearAllFrame(Hear(s, ns[0], at), ns[1..], at); }
  }

  /** A source is still waiting after an update only if the attempt has not timed out. */
  lemma WaitingMeansInTime(s: SourceState, a: Arrival, clk: SourceClock)
    requires Update(s, a, clk).st.mode.Waiting?
    ensures s.mode.Waiting? && Elapsed(Stamp(clk.loss), s.firstBorrow) <= s.disconnectMs
    ensures Update(s, a, clk).st.firstBorrow == s.firstBorrow
  {
    if a.Datagram? { HearAllFrame(s, a.notices, clk.recv); }
  }

  lemma StillWaiting(s: SourceState, a: Arrival, clk: SourceClock, first: int)
    requires s.firstBorrow == Stamp(first) && 0 <= clk.loss - first < TWO_32
    ensures var s' := Update(s, a, clk).st;
            s'.mode.Waiting? ==> clk.loss <= first + s.disconnectMs && s'.firstBorrow == s.firstBorrow
  {
    if Update(s, a, clk).st.mode.Waiting? {
      WaitingMeansInTime(s, a, clk);
      ElapsedIsTrue(clk.loss, first);
    }
  }
}
