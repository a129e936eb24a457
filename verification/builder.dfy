/** The message builder: every message is printed into one shared block of memory. */
module Builder {
  import opened Pattern
  import opened Memory
  import opened Wire

  const INITIAL_BLOCK_CAPACITY: nat := 32

  class MsgBuilder {
    const msgBuf: MemBlock
    var nextMsgId: u16

    ghost predicate Valid()
      reads this, msgBuf
    {
      msgBuf.Valid()
    }

    ghost function Repr(): set<object>
      reads this, msgBuf
    {
      {this, msgBuf, msgBuf.data}
    }

    /** The block of memory is replaced only by new memory. */
    twostate predicate Kept()
      reads this, msgBuf
    {
      msgBuf.data == old(msgBuf.data) || fresh(msgBuf.data)
    }

    constructor ()
      ensures Valid() && fresh(Repr()) && nextMsgId == 0
      ensures msgBuf.data.Length == 32 && msgBuf.Contents() == []
    {
      msgBuf := new MemBlock(INITIAL_BLOCK_CAPACITY);
      nextMsgId := 0;
    }

    /** Overwrites the block with one message and moves on to the next id, modulo 2^16. */
    method Build(tag: byte, payload: array<byte>, n: nat)
      requires Valid() && n <= payload.Length && n <= MAX_PAYLOAD_LEN
      requires payload != msgBuf.data
      modifies Repr()
      ensures Valid() && Kept()
      ensures msgBuf.Contents() == EncodeRaw(Raw(tag, old(nextMsgId), old(payload[..n])))
      ensures nextMsgId == (old(nextMsgId) + 1) % 65536
    {
      msgBuf.Resize(HEADER_LEN + n);
      SetUint8(0, tag);
      SetUint16(1, nextMsgId);
      nextMsgId := (nextMsgId + 1) % 65536;
      SetData(3, payload, n);
      assert msgBuf.Contents()[..3] == [tag] + Le16(old(nextMsgId));
      assert msgBuf.Contents()[3..] == Le16(n) + old(payload[..n]);
    }

    method SetUint8(off: nat, value: byte)
      requires Valid() && off + 1 <= msgBuf.size
      modifies msgBuf.data
      ensures msgBuf.data[..] == Splice(old(msgBuf.data[..]), off, [value])
    {
      msgBuf.data[off] := value;
    }

    method SetUint16(off: nat, value: u16)
      requires Valid() && off + 2 <= msgBuf.size
      modifies msgBuf.data
      ensures msgBuf.data[..] == Splice(old(msgBuf.data[..]), off, Le16(value))
    {
      msgBuf.data[off] := value % 256;
      msgBuf.data[off + 1] := value / 256;
    }

    method SetData(off: nat, payload: array<byte>, n: nat)
      requires Valid() && off + 2 + n <= msgBuf.size
      requires n <= payload.Length && n <= MAX_PAYLOAD_LEN && payload != msgBuf.data
      modifies msgBuf.data
      ensures msgBuf.data[..] == Splice(old(msgBuf.data[..]), off, Le16(n) + payload[..n])
    {
      SetUint16(off, n);
      if n > 0 {
        Copy(msgBuf.data, off + 2, payload, 0, n);
      }
    }

    method Borrow(frameLength: byte, bufferLength: byte)
      requires Valid()
      modifies Repr()
      ensures Valid() && Kept()
      ensures msgBuf.Contents() == Encode(Env(old(nextMsgId), Wire.Borrow(frameLength, bufferLength)))
      ensures nextMsgId == (old(nextMsgId) + 1) % 65536
    {
      var payload := new byte[] [frameLength, bufferLength];
      assert payload[..2] == [frameLength, bufferLength];
      Build(BORROW_TAG, payload, 2);
    }

    method Lent()
      requires Valid()
      modifies Repr()
      ensures Valid() && Kept()
      ensures msgBuf.Contents() == Encode(Env(old(nextMsgId), Wire.Lent))
      ensures nextMsgId == (old(nextMsgId) + 1) % 65536
    {
      var none := new byte[0];
      assert none[..0] == [];
      Build(LENT_TAG, none, 0);
    }

    method Enqueue(frameIdx: byte, frame: array<byte>, frameLen: nat)
      requires Valid() && frameLen <= frame.Length && 3 + frameLen <= MAX_PAYLOAD_LEN
      modifies Repr()
      ensures Valid() && Kept()
      ensures msgBuf.Contents() == Encode(Env(old(nextMsgId), Wire.Enqueue(frameIdx, old(frame[..frameLen]))))
      ensures nextMsgId == (old(nextMsgId) + 1) % 65536
    {
      var payload := new byte[3 + frameLen];
      payload[0] := frameIdx;
      payload[1] := frameLen % 256;
      payload[2] := frameLen / 256;
      Copy(payload, 3, frame, 0, frameLen);
      assert payload[..3 + frameLen] == [frameIdx] + Le16(frameLen) + frame[..frameLen];
      Build(ENQUEUE_TAG, payload, 3 + frameLen);
    }

    method Fail(causingMessageId: u16, errorCode: byte)
      requires Valid()
      modifies Repr()
      ensures Valid() && Kept()
      ensures msgBuf.Contents() == Encode(Env(old(nextMsgId), Wire.Fail(causingMessageId, errorCode)))
      ensures nextMsgId == (old(nextMsgId) + 1) % 65536
    {
      var payload := new byte[] [causingMessageId % 256, causingMessageId / 256, errorCode];
      assert payload[..3] == Le16(causingMessageId) + [errorCode];
      Build(FAIL_TAG, payload, 3);
    }
  }
}
