/** The 32-bit millisecond clock. A true instant is an unbounded integer; what the program
    reads is its residue modulo 2^32, and it only ever looks at differences of residues. */
module Clock {

  const TWO_32: int := 0x1_0000_0000

  type u32 = x: int | 0 <= x < 0x1_0000_0000

  /** "No time set". It is also a legal reading of the clock. */
  const NULL_TIME: u32 := 0xFFFF_FFFF

  /** What `time_now` returns at the true instant `t`. */
  function Stamp(t: int): u32 {
    t % TWO_32
  }

  /** The unsigned difference `now - since`. */
  function Elapsed(now: u32, since: u32): u32 {
    (now - since) % TWO_32
  }

  /** Converting an unsigned difference to a signed 32-bit integer. */
  function ToInt(x: u32): int {
    if x < 0x8000_0000 then x else x - TWO_32
  }

  lemma CongruentStamps(a: int, b: int, k: int)
    requires a == b + k * TWO_32
    ensures Stamp(a) == Stamp(b)
  {
    var q := b / TWO_32;
    assert b == q * TWO_32 + b % TWO_32;
    assert a == (q + k) * TWO_32 + b % TWO_32;
  }

  /** Unsigned subtraction of stamps is subtraction of instants, modulo 2^32. */
  lemma StampOfDifference(a: int, b: int)
    ensures Stamp(Stamp(a) - b) == Stamp(a - b)
    ensures Stamp(a - Stamp(b)) == Stamp(a - b)
    ensures Stamp(Stamp(a) + b) == Stamp(a + b)
  {
    CongruentStamps(Stamp(a) - b, a - b, -(a / TWO_32));
    CongruentStamps(a - Stamp(b), a - b, b / TWO_32);
    CongruentStamps(Stamp(a) + b, a + b, -(a / TWO_32));
  }

  /** A modular difference is the true elapsed time exactly when that time is below 2^32. */
  lemma ElapsedIsTrue(now: int, since: int)
    ensures Elapsed(Stamp(now), Stamp(since)) == Stamp(now - since)
    ensures Elapsed(Stamp(now), Stamp(since)) == now - since <==> 0 <= now - since < 0x1_0000_0000
  {
    StampOfDifference(now, Stamp(since));
    StampOfDifference(now, since);
  }

  /** Converted to a signed integer, a modular difference below 2^31 either way is the true one. */
  lemma SignedDifference(a: int, b: int)
    requires -0x8000_0000 <= a - b < 0x8000_0000
    ensures ToInt(Elapsed(Stamp(a), Stamp(b))) == a - b
  {
    ElapsedIsTrue(a, b);
    if a < b { CongruentStamps(a - b, a - b + TWO_32, -1); }
  }

  /** A reading lies the modular difference after the other reading. */
  lemma NowFromElapsed(now: u32, since: u32)
    ensures now == Stamp(since + Elapsed(now, since))
  {
    CongruentStamps(since + Elapsed(now, since), now, -((now - since) / TWO_32));
  }
}
