/** The ring buffer itself: bytes are copied in and out of one fixed block of memory. */
module Ring {
  import opened Pattern
  import opened RingSpec

  class MemRing {
    const buf: array<byte>
    var front: nat
    var len: nat

    ghost predicate Valid()
      reads this
    {
      front < buf.Length && len <= buf.Length
    }

    ghost function State(): Image
      reads this, buf
    {
      Image(buf[..], front, len)
    }

    constructor (capacity: nat)
      requires capacity > 0
      ensures Valid() && fresh(buf) && buf.Length == capacity && front == 0 && len == 0
    {
      buf := new byte[capacity];
      front, len := 0, 0;
    }

    /** Named after its source, which answers true when the ring is not empty. */
    method IsEmpty() returns (answer: bool)
      ensures answer <==> len != 0
    {
      answer := len > 0;
    }

    /** On success, `at` is where the oldest `n` bytes start. */
    method Peek(n: nat) returns (ok: bool, at: nat)
      requires Valid() && Step(State(), RingSpec.Peek(n)).1 != Fault
      ensures ok <==> Step(State(), RingSpec.Peek(n)).1 != Refused
      ensures ok ==> at + n <= buf.Length && Step(State(), RingSpec.Peek(n)).1 == Data(buf[at..at + n])
    {
      at := 0;
      ok := len >= n;
      if ok { at := front; }
    }

    method Dequeue(out: array<byte>, n: nat) returns (ok: bool)
      requires Valid() && n <= out.Length && out != buf
      requires Step(State(), RingSpec.Dequeue(n)).1 != Fault
      modifies this, out
      ensures Valid()
      ensures State() == Step(old(State()), RingSpec.Dequeue(n)).0
      ensures ok <==> Step(old(State()), RingSpec.Dequeue(n)).1 != Refused
      ensures ok ==> Step(old(State()), RingSpec.Dequeue(n)).1 == Data(out[..n]) && out[n..] == old(out[n..])
      ensures !ok ==> out[..] == old(out[..])
    {
      if len < n { return false; }
      var at := front;
      front := (front + n) % buf.Length;
      len := len - n;
      Copy(out, 0, buf, at, n);
      ok := true;
    }

    method Drop(n: nat) returns (ok: bool)
      requires Valid()
      modifies this
      ensures Valid()
      ensures State() == Step(old(State()), RingSpec.Drop(n)).0
      ensures ok <==> Step(old(State()), RingSpec.Drop(n)).1 != Refused
    {
      if len < n { return false; }
      front := (front + n) % buf.Length;
      len := len - n;
      ok := true;
    }

    method Enqueue(bytes: array<byte>, n: nat) returns (ok: bool)
      requires Valid() && n <= bytes.Length && bytes != buf
      requires Step(State(), RingSpec.Enqueue(bytes[..n])).1 != Fault
      modifies this, buf
      ensures Valid()
      ensures State() == Step(old(State()), RingSpec.Enqueue(bytes[..n])).0
      ensures ok <==> Step(old(State()), RingSpec.Enqueue(bytes[..n])).1 != Refused
    {
      if buf.Length < len + n { return false; }
      var back := (front + len) % buf.Length;
      len := len + n;
      Copy(buf, back, bytes, 0, n);
      ok := true;
    }
  }
}
