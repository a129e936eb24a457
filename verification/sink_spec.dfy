/** What a sink does, as functions on its state. The class in `sink.dfy` is proved to compute
    these functions; the theorems about whole runs are in `sink_runs.dfy` and `session.dfy`. */
module SinkSpec {
  import opened Arithmetic
  import opened Clock
  import opened Pattern
  import opened Wire

  const PENDING_FRAMES_CAPACITY: nat := 128
  const DROP_TIMEOUT: u32 := 1500
  const LENT_SEND_INTERVAL: u32 := 500
  const FRAME_LENGTH_MS_MIN: int := 10

  const NOT_BORROWED: byte := 0
  const REQUESTED_BUFFER_TOO_LARGE: byte := 1
  const REQUESTED_FRAME_DURATION_TOO_SHORT: byte := 2
  const LENT_TO_OTHER_SOURCE: byte := 3
  const BAD_MSG: byte := 4
  const TIMEOUT: byte := 5

  datatype Endpoint = Endpoint(addr: int, port: int)

  datatype Mode = Error | Open | Lent

  type Frame = seq<byte>

  /** `hung` marks a sink whose gap-filling loop can never end. */
  datatype SinkState = SinkState(
    mode: Mode,
    borrower: Endpoint,
    frameLen: nat,
    frameMs: u32,
    queue: seq<Frame>,
    current: Frame,
    origin: u32,
    lastIdx: int,
    lastRecv: u32,
    lastSendLent: u32,
    nextId: u16,
    hung: bool)

  /** What a sink distinguishes in a message it receives. */
  datatype Request =
    | AskBorrow(id: u16, frameMs: byte, bufferLen: byte)
    | AskEnqueue(id: u16, idx: byte, frame: Frame)
    | Unexpected(id: u16)

  datatype Reply = Reply(to: Endpoint, env: Env)

  datatype Turn = Turn(st: SinkState, out: seq<Reply>)

  /** Readings of the clock during one update, in the order they are taken: when a borrow is
      granted, when receiving ends, when the keepalive is considered and when it is sent. */
  datatype SinkClock = SinkClock(grant: int, recv: int, check: int, lent: int)

  predicate Readable(r: Raw) {
    && KnownTag(r.tag)
    && (r.tag == BORROW_TAG ==> |r.payload| >= 2)
    && (r.tag == ENQUEUE_TAG ==> |r.payload| >= 3)
  }

  function RequestOf(r: Raw): Request
    requires Readable(r)
  {
    if r.tag == BORROW_TAG then AskBorrow(r.id, r.payload[0], r.payload[1])
    else if r.tag == ENQUEUE_TAG then AskEnqueue(r.id, r.payload[0], r.payload[3..])
    else Unexpected(r.id)
  }

  function RequestsOf(rs: seq<Raw>): (qs: seq<Request>)
    requires forall r :: r in rs ==> Readable(r)
  {
    if rs == [] then [] else [RequestOf(rs[0])] + RequestsOf(rs[1..])
  }

  // ----- Messages -----

  function Say(s: SinkState, to: Endpoint, m: Msg): Turn {
    Turn(s.(nextId := (s.nextId + 1) % 65536), [Reply(to, Env(s.nextId, m))])
  }

  predicate MayBorrow(s: SinkState, sender: Endpoint) {
    s.mode.Open? || (s.mode.Lent? && sender == s.borrower)
  }

  predicate Acceptable(s: SinkState, frameMs: int, bufferLen: nat) {
    bufferLen * s.frameLen <= PENDING_FRAMES_CAPACITY * s.frameLen && frameMs >= FRAME_LENGTH_MS_MIN
  }

  predicate Grants(s: SinkState, q: Request, sender: Endpoint) {
    q.AskBorrow? && MayBorrow(s, sender) && Acceptable(s, q.frameMs, q.bufferLen)
  }

  function SayLent(s: SinkState, at: int): Turn {
    var t := Say(s, s.borrower, Wire.Lent);
    Turn(t.st.(lastSendLent := Stamp(at)), t.out)
  }

  /** A new session: nothing enqueued, nothing shown. The ring keeps what it holds. */
  function Borrowed(s: SinkState, frameMs: byte, sender: Endpoint): SinkState {
    s.(mode := Mode.Lent, borrower := sender, frameMs := frameMs, origin := NULL_TIME, lastIdx := -1,
       lastRecv := NULL_TIME)
  }

  function HandleBorrow(s: SinkState, id: u16, frameMs: byte, bufferLen: byte, sender: Endpoint, at: int): Turn {
    if MayBorrow(s, sender) then
      if !Acceptable(s, frameMs, bufferLen) then
        var code :=
          if bufferLen * s.frameLen > PENDING_FRAMES_CAPACITY * s.frameLen
          then REQUESTED_BUFFER_TOO_LARGE
          else REQUESTED_FRAME_DURATION_TOO_SHORT;
        var t := Say(s, sender, Fail(id, code));
        Turn(t.st.(mode := Open), t.out)
      else
        SayLent(Borrowed(s, frameMs, sender), at)
    else if s.mode.Lent? then Say(s, sender, Fail(id, LENT_TO_OTHER_SOURCE))
    else Turn(s, [])
  }

  function BoundedDiff(from: int, to: int, cap: int): int {
    if to < from then cap - from + to else to - from
  }

  /** How far `idx` is ahead of the last frame enqueued. */
  function Gap(lastIdx: int, idx: int): int {
    BoundedDiff(lastIdx, idx, 256)
  }

  function Copies(x: Frame, n: nat): seq<Frame> {
    seq(n, _ => x)
  }

  function Room(s: SinkState): int {
    PENDING_FRAMES_CAPACITY - |s.queue|
  }

  /** One attempt to enqueue: a full ring refuses, and then the index does not advance. */
  function EnqueueOnce(s: SinkState, frame: Frame): SinkState
    requires |frame| > 0
  {
    if Room(s) <= 0 then s
    else s.(queue := s.queue + [Repeated(frame, s.frameLen)], lastIdx := (s.lastIdx + 1) % 256)
  }

  /** Fills the gap before `idx`, and `idx` itself, with copies of `frame`. */
  function Admit(s: SinkState, idx: byte, frame: Frame): SinkState
    requires |frame| > 0
  {
    var gap := Gap(s.lastIdx, idx);
    if gap > 128 || gap <= 0 then s
    else if gap <= Room(s) then
      s.(queue := s.queue + Copies(Repeated(frame, s.frameLen), gap), lastIdx := idx)
    else s.(hung := true)
  }

  function HandleEnqueue(s: SinkState, id: u16, idx: byte, frame: Frame, sender: Endpoint): Turn {
    match s.mode
    case Error => Turn(s, [])
    case Open => Say(s, sender, Fail(id, NOT_BORROWED))
    case Lent =>
      if |frame| < 3 then
        var t := Say(s, sender, Fail(id, BAD_MSG));
        Turn(t.st.(mode := Open), t.out)
      else if sender == s.borrower then Turn(Admit(s, idx, frame), [])
      else Say(s, sender, Fail(id, LENT_TO_OTHER_SOURCE))
  }

  function Handle(s: SinkState, q: Request, sender: Endpoint, at: int): Turn {
    if s.hung then Turn(s, [])
    else
      match q
      case AskBorrow(id, frameMs, bufferLen) => HandleBorrow(s, id, frameMs, bufferLen, sender, at)
      case AskEnqueue(id, idx, frame) => HandleEnqueue(s, id, idx, frame, sender)
      case Unexpected(id) => Say(s, sender, Fail(id, BAD_MSG))
  }

  function HandleAll(s: SinkState, qs: seq<Request>, sender: Endpoint, at: int): Turn
    decreases |qs|
  {
    if qs == [] then Turn(s, [])
    else
      var t := Handle(s, qs[0], sender, at);
      var u := HandleAll(t.st, qs[1..], sender, at);
      Turn(u.st, t.out + u.out)
  }

  // ----- Calls -----

  datatype Delivery = Nothing | Datagram(sender: Endpoint, requests: seq<Request>)

  function Receive(s: SinkState, d: Delivery, clk: SinkClock): Turn {
    match d
    case Datagram(sender, qs) =>
      var t := HandleAll(s, qs, sender, clk.grant);
      if t.st.hung then t else Turn(t.st.(lastRecv := Stamp(clk.recv)), t.out)
    case Nothing =>
      if s.mode.Lent? && Elapsed(Stamp(clk.recv), s.lastRecv) > DROP_TIMEOUT then
        var t := Say(s, s.borrower, Fail(0, TIMEOUT));
        Turn(t.st.(mode := Open), t.out)
      else Turn(s, [])
  }

  function Send(s: SinkState, clk: SinkClock): Turn {
    if s.mode.Lent? && Elapsed(Stamp(clk.check), s.lastSendLent) > LENT_SEND_INTERVAL then
      SayLent(s, clk.lent)
    else Turn(s, [])
  }

  /** `atolla_sink_state`. */
  function Update(s: SinkState, d: Delivery, clk: SinkClock): Turn {
    if s.mode.Error? || s.hung then Turn(s, [])
    else
      var t := Receive(s, d, clk);
      if t.st.hung then t
      else
        var u := Send(t.st, clk);
        Turn(u.st, t.out + u.out)
  }

  /** Plays frames until the virtual clock has caught up or the queue is empty. */
  function CatchUp(s: SinkState, now: u32): SinkState
    decreases |s.queue|
  {
    if Elapsed(now, s.origin) > s.frameMs && s.queue != [] then
      CatchUp(s.(queue := s.queue[1..], current := s.queue[0],
                 origin := (s.origin + s.frameMs) % TWO_32), now)
    else s
  }

  /** Nothing is shown before the first frame of a session has arrived. */
  predicate NothingToShow(s: SinkState) {
    !s.mode.Lent? || (s.origin == NULL_TIME && s.queue == [])
  }

  /** `atolla_sink_get`, up to copying the current frame out. */
  function Show(s: SinkState, at: int): SinkState {
    if NothingToShow(s) then s
    else if s.origin == NULL_TIME then
      s.(queue := s.queue[1..], current := s.queue[0], origin := Stamp(at))
    else CatchUp(s, Stamp(at))
  }

  // ----- Facts used by every proof about the sink -----

  /** Accepting a buffer length is a matter of frames, not bytes. */
  lemma AcceptableInFrames(s: SinkState, frameMs: int, bufferLen: nat)
    requires s.frameLen > 0
    ensures Acceptable(s, frameMs, bufferLen)
       <==> bufferLen <= PENDING_FRAMES_CAPACITY && frameMs >= FRAME_LENGTH_MS_MIN
  {
    Multiples(bufferLen - PENDING_FRAMES_CAPACITY, s.frameLen);
    assert (bufferLen - PENDING_FRAMES_CAPACITY) * s.frameLen
        == bufferLen * s.frameLen - PENDING_FRAMES_CAPACITY * s.frameLen;
  }

  lemma {:induction false} HungIsFinal(s: SinkState, qs: seq<Request>, sender: Endpoint, at: int)
    requires s.hung
    ensures HandleAll(s, qs, sender, at) == Turn(s, [])
    decreases |qs|
  {
    if qs != [] { HungIsFinal(s, qs[1..], sender, at); }
  }

  predicate IdxInRange(s: SinkState) {
    -1 <= s.lastIdx < 256
  }

  /** Enqueuing one frame closes the gap by one. */
  lemma GapCloses(lastIdx: int, idx: int)
    requires -1 <= lastIdx < 256 && 0 <= idx < 256 && Gap(lastIdx, idx) > 0
    ensures Gap((lastIdx + 1) % 256, idx) == Gap(lastIdx, idx) - 1
    ensures Gap(lastIdx, idx) == 1 ==> (lastIdx + 1) % 256 == idx
  {}
}
