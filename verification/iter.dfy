/** The message iterator: a cursor that walks over the messages of a buffer. */
module Iter {
  import opened Pattern
  import opened Wire

  lemma SliceOfSlice<T>(s: seq<T>, from: nat, to: nat, i: nat, j: nat)
    requires from <= to <= |s| && i <= j <= to - from
    ensures s[from..to][i..j] == s[from + i..from + j]
  {
    var mid, inner := s[from..to], s[from + i..from + j];
    assert forall k :: 0 <= k < |inner| ==> inner[k] == s[from + i + k] == mid[i + k] == mid[i..j][k];
    assert mid[i..j] == inner;
  }

  class MsgIter {
    const buf: array<byte>
    const end: nat
    const bigEndian: bool
    var start: nat

    ghost predicate Valid()
      reads this, buf
    {
      start <= end <= buf.Length && Framed(buf[start..end])
    }

    /** The bytes from the selected message on. */
    ghost function Rest(): seq<byte>
      reads this, buf
      requires start <= end <= buf.Length
    {
      buf[start..end]
    }

    constructor (buf: array<byte>, size: nat, bigEndian: bool)
      requires size <= buf.Length && Framed(buf[..size])
      ensures Valid() && Rest() == buf[..size]
      ensures this.buf == buf && this.bigEndian == bigEndian
    {
      this.buf, this.end, this.bigEndian := buf, size, bigEndian;
      this.start := 0;
      new;
      assert buf[0..size] == buf[..size];
    }

    predicate HasMsg()
      reads this
    {
      start < end
    }

    /** Selects the next message. */
    method Next()
      requires Valid() && HasMsg()
      modifies this
      ensures Valid() && start >= old(start) + HEADER_LEN
      ensures Rest() == old(Rest())[MsgLen(old(Rest()))..]
      ensures [First(old(Rest()))] + Split(Rest()) == Split(old(Rest()))
    {
      var n := PayloadLength();
      ghost var rest := Rest();
      start := start + 5 + n;
      assert Rest() == rest[MsgLen(rest)..];
    }

    function Type(): (tag: byte)
      reads this, buf
      requires Valid() && HasMsg()
      ensures KnownTag(tag) && tag == First(Rest()).tag
    {
      buf[start]
    }

    function MsgId(): (id: u16)
      reads this, buf
      requires Valid() && HasMsg()
      ensures id == First(Rest()).id
    {
      ReadIsHostIndependent(buf[start + 1], buf[start + 2], bigEndian);
      FromLe(Native(buf[start + 1], buf[start + 2], bigEndian), bigEndian)
    }

    function PayloadLength(): (n: u16)
      reads this, buf
      requires Valid() && HasMsg()
      ensures n == |First(Rest()).payload|
    {
      ReadIsHostIndependent(buf[start + 3], buf[start + 4], bigEndian);
      FromLe(Native(buf[start + 3], buf[start + 4], bigEndian), bigEndian)
    }

    lemma PayloadInBuffer()
      requires Valid() && HasMsg()
      ensures start + HEADER_LEN + PayloadLength() <= end
      ensures buf[start + HEADER_LEN..start + HEADER_LEN + PayloadLength()] == First(Rest()).payload
    {
      SliceOfSlice(buf[..], start, end, HEADER_LEN, MsgLen(Rest()));
      assert buf[..][start..end] == Rest();
    }

    function BorrowFrameLength(): (d: byte)
      reads this, buf
      requires Valid() && HasMsg() && Type() == BORROW_TAG && PayloadLength() >= 2
      ensures d == First(Rest()).payload[0]
    {
      PayloadInBuffer();
      buf[start + 5]
    }

    function BorrowBufferLength(): (n: byte)
      reads this, buf
      requires Valid() && HasMsg() && Type() == BORROW_TAG && PayloadLength() >= 2
      ensures n == First(Rest()).payload[1]
    {
      PayloadInBuffer();
      buf[start + 6]
    }

    function EnqueueFrameIdx(): (idx: byte)
      reads this, buf
      requires Valid() && HasMsg() && Type() == ENQUEUE_TAG && PayloadLength() >= 3
      ensures idx == First(Rest()).payload[0]
    {
      PayloadInBuffer();
      buf[start + 5]
    }

    /** Offset and length of the frame inside the buffer. */
    function EnqueueFrame(): (slice: (nat, nat))
      reads this, buf
      requires Valid() && HasMsg() && Type() == ENQUEUE_TAG && PayloadLength() >= 3
      ensures slice.0 + slice.1 <= buf.Length
      ensures buf[slice.0..slice.0 + slice.1] == First(Rest()).payload[3..]
    {
      PayloadInBuffer();
      var n := PayloadLength();
      (start + 5 + 3, n - 3)
    }

    function FailOffendingMsgId(): (id: u16)
      reads this, buf
      requires Valid() && HasMsg() && Type() == FAIL_TAG && PayloadLength() >= 3
      ensures id == U16At(First(Rest()).payload, 0)
    {
      ReadIsHostIndependent(buf[start + 5], buf[start + 6], bigEndian);
      FromLe(Native(buf[start + 5], buf[start + 6], bigEndian), bigEndian)
    }

    function FailErrorCode(): (code: byte)
      reads this, buf
      requires Valid() && HasMsg() && Type() == FAIL_TAG && PayloadLength() >= 3
      ensures code == First(Rest()).payload[2]
    {
      PayloadInBuffer();
      buf[start + 7]
    }
  }
}
