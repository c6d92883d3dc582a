/** Byte buffers: little-endian numbers in them and stretches written over. */
module ByteBuffers {

  type byte = x: int | 0 <= x < 256

  type Bytes = seq<byte>

  function Pow256(k: nat): nat {
    if k == 0 then 1 else 256 * Pow256(k - 1)
  }

  // GET_4_BYTES and GET_8_BYTES of gpt-utils.cpp, for any width.
  function FromLE(b: Bytes): (n: nat)
    ensures n < Pow256(|b|)
  {
    if b == [] then 0 else b[0] + 256 * FromLE(b[1..])
  }

  // PUT_4_BYTES for any width.
  function ToLE(n: nat, k: nat): (b: Bytes)
    ensures |b| == k
    decreases k
  {
    if k == 0 then [] else [n % 256] + ToLE(n / 256, k - 1)
  }

  lemma {:induction false} FromToLE(n: nat, k: nat)
    requires n < Pow256(k)
    ensures FromLE(ToLE(n, k)) == n
    decreases k
  {
    if k > 0 {
      FromToLE(n / 256, k - 1);
      assert ToLE(n, k)[1..] == ToLE(n / 256, k - 1);
    }
  }

  // The buffer with x written over it at off.
  function Splice(b: Bytes, off: nat, x: Bytes): (r: Bytes)
    requires off + |x| <= |b|
    ensures |r| == |b|
    ensures forall i :: 0 <= i < |b| ==> r[i] == if off <= i < off + |x| then x[i - off] else b[i]
  {
    b[..off] + x + b[off + |x|..]
  }

  lemma SpliceReads(b: Bytes, off: nat, x: Bytes, lo: nat, hi: nat)
    requires off + |x| <= |b| && lo <= hi <= |b|
    ensures Splice(b, off, x)[off..off + |x|] == x
    ensures hi <= off || off + |x| <= lo ==> Splice(b, off, x)[lo..hi] == b[lo..hi]
  {
    var r := Splice(b, off, x);
    assert forall i :: 0 <= i < |x| ==> r[off..off + |x|][i] == x[i];
    if hi <= off || off + |x| <= lo {
      assert forall i :: 0 <= i < hi - lo ==> r[lo..hi][i] == b[lo..hi][i];
    }
  }

  lemma SpliceWithin(b: Bytes, off: nat, x: Bytes, lo: nat, hi: nat)
    requires lo <= off && off + |x| <= hi <= |b|
    ensures Splice(b, off, x)[lo..hi] == Splice(b[lo..hi], off - lo, x)
  {}

  // What an interrupted write leaves: some bytes are already new, the others still old.
  function Mix(old': Bytes, new': Bytes, tear: nat -> bool): (m: Bytes)
    requires |old'| == |new'|
    ensures |m| == |old'|
    ensures forall i :: 0 <= i < |m| ==> m[i] == if tear(i) then new'[i] else old'[i]
  {
    seq(|old'|, i requires 0 <= i < |old'| => if tear(i) then new'[i] else old'[i])
  }
}
