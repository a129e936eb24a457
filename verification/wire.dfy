/** The wire format: four kinds of message, each framed by a type byte, a message id and a
    payload length, and concatenated freely in one buffer. */
module Wire {
  import opened Pattern

  type u16 = x: int | 0 <= x < 65536

  const HEADER_LEN: nat := 5
  const MAX_PAYLOAD_LEN: nat := 65535

  const BORROW_TAG: byte := 0
  const LENT_TAG: byte := 1
  const ENQUEUE_TAG: byte := 2
  const FAIL_TAG: byte := 255

  datatype Msg =
    | Borrow(frameLength: byte, bufferLength: byte)
    | Lent
    | Enqueue(idx: byte, frame: seq<byte>)
    | Fail(cause: u16, code: byte)

  /** A message together with its id. */
  datatype Env = Env(id: u16, msg: Msg)

  /** A framed message before its payload is interpreted. */
  datatype Raw = Raw(tag: byte, id: u16, payload: seq<byte>)

  // ----- Printing -----

  function Le16(x: u16): seq<byte> {
    [x % 256, x / 256]
  }

  predicate Sendable(m: Msg) {
    m.Enqueue? ==> 3 + |m.frame| <= MAX_PAYLOAD_LEN
  }

  function Tag(m: Msg): byte {
    match m
    case Borrow(_, _) => BORROW_TAG
    case Lent => LENT_TAG
    case Enqueue(_, _) => ENQUEUE_TAG
    case Fail(_, _) => FAIL_TAG
  }

  function Payload(m: Msg): seq<byte>
    requires Sendable(m)
  {
    match m
    case Borrow(d, n) => [d, n]
    case Lent => []
    case Enqueue(idx, frame) => [idx] + Le16(|frame|) + frame
    case Fail(cause, code) => Le16(cause) + [code]
  }

  function ToRaw(e: Env): Raw
    requires Sendable(e.msg)
  {
    Raw(Tag(e.msg), e.id, Payload(e.msg))
  }

  function EncodeRaw(r: Raw): seq<byte>
    requires |r.payload| <= MAX_PAYLOAD_LEN
  {
    [r.tag] + Le16(r.id) + Le16(|r.payload|) + r.payload
  }

  function Encode(e: Env): seq<byte>
    requires Sendable(e.msg)
  {
    EncodeRaw(ToRaw(e))
  }

  function EncodeAll(es: seq<Env>): seq<byte>
    requires forall e :: e in es ==> Sendable(e.msg)
  {
    if es == [] then [] else Encode(es[0]) + EncodeAll(es[1..])
  }

  // ----- Parsing -----

  /** Two bytes copied into a 16-bit variable of the host. */
  function Native(b0: byte, b1: byte, bigEndian: bool): u16 {
    if bigEndian then b0 * 256 + b1 else b1 * 256 + b0
  }

  /** Little-endian to host: big-endian hosts swap the bytes. */
  function FromLe(x: u16, bigEndian: bool): u16 {
    if bigEndian then (x * 256 + x / 256) % 65536 else x
  }

  function U16At(b: seq<byte>, off: nat): u16
    requires off + 2 <= |b|
  {
    var low: int, high: int := b[off], b[off + 1];
    low + 256 * high
  }

  /** Both host byte orders read the same number. */
  lemma ReadIsHostIndependent(b0: byte, b1: byte, bigEndian: bool)
    ensures FromLe(Native(b0, b1, bigEndian), bigEndian) == b0 + 256 * b1
  {
    if bigEndian {
      var x := b0 * 256 + b1;
      assert x / 256 == b0;
      assert x * 256 + b0 == b0 * 65536 + (b1 * 256 + b0);
    }
  }

  predicate KnownTag(tag: byte) {
    tag == BORROW_TAG || tag == LENT_TAG || tag == ENQUEUE_TAG || tag == FAIL_TAG
  }

  /** The buffer starts with a whole message. */
  predicate HasWholeMsg(b: seq<byte>) {
    |b| >= HEADER_LEN && KnownTag(b[0]) && HEADER_LEN + U16At(b, 3) <= |b|
  }

  function MsgLen(b: seq<byte>): nat
    requires HasWholeMsg(b)
  {
    HEADER_LEN + U16At(b, 3)
  }

  function First(b: seq<byte>): Raw
    requires HasWholeMsg(b)
  {
    Raw(b[0], U16At(b, 1), b[HEADER_LEN..MsgLen(b)])
  }

  /** The buffer is a concatenation of whole messages. */
  predicate Framed(b: seq<byte>)
    decreases |b|
  {
    b == [] || (HasWholeMsg(b) && Framed(b[MsgLen(b)..]))
  }

  function Split(b: seq<byte>): seq<Raw>
    requires Framed(b)
    decreases |b|
  {
    if b == [] then [] else [First(b)] + Split(b[MsgLen(b)..])
  }

  /** The payload holds every field its type promises. */
  predicate Complete(r: Raw) {
    && KnownTag(r.tag)
    && (r.tag == BORROW_TAG ==> |r.payload| >= 2)
    && (r.tag == ENQUEUE_TAG ==> |r.payload| >= 3)
    && (r.tag == FAIL_TAG ==> |r.payload| >= 3)
  }

  function View(r: Raw): Env
    requires Complete(r)
  {
    Env(r.id,
        if r.tag == BORROW_TAG then Borrow(r.payload[0], r.payload[1])
        else if r.tag == LENT_TAG then Lent
        else if r.tag == ENQUEUE_TAG then Enqueue(r.payload[0], r.payload[3..])
        else Fail(U16At(r.payload, 0), r.payload[2]))
  }

  // ----- Bytes -----

  /** The bytes of each kind of message, low byte first, and which messages can be printed. */
  lemma PrintedBytes(id: u16, d: byte, n: byte, frame: seq<byte>, cause: u16)
    ensures Encode(Env(id, Borrow(d, n))) == [0, id % 256, id / 256, 2, 0, d, n]
    ensures Encode(Env(id, Lent)) == [1, id % 256, id / 256, 0, 0]
    ensures Encode(Env(id, Fail(cause, n))) == [255, id % 256, id / 256, 3, 0, cause % 256, cause / 256, n]
    ensures Sendable(Enqueue(d, frame)) <==> |frame| <= 65532
    ensures |frame| <= 65532 ==>
              Encode(Env(id, Enqueue(d, frame)))
              == [2, id % 256, id / 256, (3 + |frame|) % 256, (3 + |frame|) / 256, d, |frame| % 256, |frame| / 256]
                 + frame
  {
    if |frame| <= 65532 {
      assert |Payload(Enqueue(d, frame))| == 3 + |frame|;
    }
  }

  // ----- Round trips -----

  lemma Le16RoundTrip(x: u16)
    ensures U16At(Le16(x), 0) == x
    ensures x == x % 256 + 256 * (x / 256)
  {}

  lemma EncodeFirst(r: Raw, rest: seq<byte>)
    requires KnownTag(r.tag) && |r.payload| <= MAX_PAYLOAD_LEN
    ensures var b := EncodeRaw(r) + rest;
            HasWholeMsg(b) && First(b) == r && b[MsgLen(b)..] == rest
  {
    var b := EncodeRaw(r) + rest;
    Le16RoundTrip(r.id);
    Le16RoundTrip(|r.payload|);
    assert b[1] == r.id % 256 && b[2] == r.id / 256;
    assert b[3] == |r.payload| % 256 && b[4] == |r.payload| / 256;
    assert b == EncodeRaw(r)[..HEADER_LEN] + (r.payload + rest);
  }

  lemma ViewOfPrinted(e: Env)
    requires Sendable(e.msg)
    ensures Complete(ToRaw(e)) && View(ToRaw(e)) == e
    ensures e.msg.Enqueue? ==> U16At(ToRaw(e).payload, 1) == |e.msg.frame|
  {
    match e.msg
    case Borrow(d, n) =>
    case Lent =>
    case Enqueue(idx, frame) =>
      assert Payload(e.msg)[3..] == frame;
      Le16RoundTrip(|frame|);
    case Fail(cause, code) =>
      Le16RoundTrip(cause);
  }

  lemma FirstRoundTrip(e: Env, rest: seq<byte>)
    requires Sendable(e.msg) && Framed(rest)
    ensures var data := Encode(e) + rest;
            && Framed(data) && Split(data) == [ToRaw(e)] + Split(rest)
            && Complete(ToRaw(e)) && View(ToRaw(e)) == e
  {
    ViewOfPrinted(e);
    EncodeFirst(ToRaw(e), rest);
  }

  /** Parsing what was printed: any list of messages comes back, field by field, and the
      parser stops exactly at the end of the buffer. */
  lemma {:induction false} StreamRoundTrip(es: seq<Env>)
    requires forall e :: e in es ==> Sendable(e.msg)
    ensures Framed(EncodeAll(es))
    ensures var rs := Split(EncodeAll(es));
            |rs| == |es| && forall i :: 0 <= i < |es| ==> Complete(rs[i]) && View(rs[i]) == es[i]
  {
    if es != [] {
      StreamRoundTrip(es[1..]);
      var rest := EncodeAll(es[1..]);
      FirstRoundTrip(es[0], rest);
      assert EncodeAll(es) == Encode(es[0]) + rest;
      var rs := Split(EncodeAll(es));
      forall i | 0 <= i < |es|
        ensures Complete(rs[i]) && View(rs[i]) == es[i]
      {
        assert i > 0 ==> rs[i] == Split(rest)[i - 1] && es[i] == es[1..][i - 1];
      }
    }
  }

  function EncodeRaws(rs: seq<Raw>): seq<byte>
    requires forall r :: r in rs ==> |r.payload| <= MAX_PAYLOAD_LEN
  {
    if rs == [] then [] else EncodeRaw(rs[0]) + EncodeRaws(rs[1..])
  }

  lemma ReprintFirst(b: seq<byte>)
    requires HasWholeMsg(b)
    ensures |First(b).payload| <= MAX_PAYLOAD_LEN && EncodeRaw(First(b)) == b[..MsgLen(b)]
  {
    var r := First(b);
    assert |r.payload| == U16At(b, 3);
    assert Le16(r.id) == [b[1], b[2]];
    assert Le16(|r.payload|) == [b[3], b[4]];
    assert b[..MsgLen(b)] == b[..HEADER_LEN] + r.payload;
    assert b[..HEADER_LEN] == [b[0], b[1], b[2], b[3], b[4]];
  }

  /** Printing what was parsed: the messages cover every byte of the buffer, and each of
      them takes at least a header. */
  lemma {:induction false} SplitCoversBuffer(b: seq<byte>)
    requires Framed(b)
    ensures forall r :: r in Split(b) ==> |r.payload| <= MAX_PAYLOAD_LEN
    ensures EncodeRaws(Split(b)) == b
    ensures HEADER_LEN * |Split(b)| <= |b|
    decreases |b|
  {
    if b != [] {
      ReprintFirst(b);
      SplitCoversBuffer(b[MsgLen(b)..]);
      assert Split(b)[1..] == Split(b[MsgLen(b)..]);
    }
  }
}
