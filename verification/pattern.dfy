/** Bytes, and filling a buffer with a repeated pattern. */
module Pattern {
  import opened Arithmetic

  type byte = x: int | 0 <= x < 256

  /** `n` bytes that repeat `pattern` from its start and are cut off at the end. */
  function Repeated(pattern: seq<byte>, n: nat): (r: seq<byte>)
    requires |pattern| > 0
  {
    seq(n, i requires 0 <= i < n => pattern[i % |pattern|])
  }

  /** `n` bytes are a whole number of rounds of a pattern of length `len`. */
  predicate WholeRounds(n: nat, len: nat) {
    len > 0 && n % len == 0
  }

  lemma ShiftedIndex(n: nat, i: nat, len: nat)
    requires WholeRounds(n, len) && i <= len
    ensures i < len ==> (n + i) % len == i
    ensures i == len ==> WholeRounds(n + i, len)
  {
    var k := n / len;
    if i < len {
      Residue(k, i, len);
    } else {
      assert n + i == (k + 1) * len + 0;
      Residue(k + 1, 0, len);
    }
  }

  lemma AnotherRound(pattern: seq<byte>, n: nat, chunk: nat)
    requires WholeRounds(n, |pattern|) && chunk <= |pattern|
    ensures Repeated(pattern, n) + pattern[..chunk] == Repeated(pattern, n + chunk)
    ensures chunk == |pattern| ==> WholeRounds(n + chunk, |pattern|)
  {
    forall i | 0 <= i < chunk
      ensures pattern[..chunk][i] == Repeated(pattern, n + chunk)[n + i]
    {
      ShiftedIndex(n, i, |pattern|);
    }
    ShiftedIndex(n, chunk, |pattern|);
  }

  /** The memory after copying `x` to offset `off`. */
  function Splice(mem: seq<byte>, off: nat, x: seq<byte>): seq<byte>
    requires off + |x| <= |mem|
  {
    mem[..off] + x + mem[off + |x|..]
  }

  /** memcpy between two different buffers. */
  method Copy(dst: array<byte>, dstOff: nat, src: array<byte>, srcOff: nat, n: nat)
    requires dst != src && dstOff + n <= dst.Length && srcOff + n <= src.Length
    modifies dst
    ensures dst[..] == Splice(old(dst[..]), dstOff, src[srcOff..srcOff + n])
  {
    forall i | 0 <= i < n {
      dst[dstOff + i] := src[srcOff + i];
    }
  }

  /** Copies `pattern[off..off + len]` over and over into all of `target`. */
  method FillWithPattern(target: array<byte>, pattern: array<byte>, off: nat, len: nat)
    requires off + len <= pattern.Length && target != pattern
    modifies target
    ensures len == 0 ==> target[..] == old(target[..])
    ensures len > 0 ==> target[..] == Repeated(pattern[off..off + len], target.Length)
  {
    if target.Length == 0 || len == 0 { return; }
    var filled := 0;
    ghost var p := pattern[off..off + len];
    while filled < target.Length
      invariant filled <= target.Length
      invariant filled < target.Length ==> WholeRounds(filled, |p|)
      invariant target[..filled] == Repeated(p, filled)
    {
      var chunk := if len >= target.Length - filled then target.Length - filled else len;
      Copy(target, filled, pattern, off, chunk);
      AnotherRound(p, filled, chunk);
      assert target[..filled + chunk] == target[..filled] + p[..chunk];
      filled := filled + chunk;
    }
    assert target[..] == target[..filled];
  }

  /** Filling twice: the outer pattern is the inner one, repeated. */
  lemma RepeatedTwice(f: seq<byte>, mid: nat, n: nat, i: nat)
    requires |f| > 0 && mid > 0 && i < n
    ensures Repeated(Repeated(f, mid), n)[i] == f[(i % mid) % |f|]
  {}
}
