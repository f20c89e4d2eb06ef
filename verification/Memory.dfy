/** Copies between arrays, and what they leave in the destination. */
module Memory {

  /** s with a block of its elements overwritten. */
  ghost function Splice<T>(s: seq<T>, off: nat, block: seq<T>): (r: seq<T>)
    requires off + |block| <= |s|
    ensures |r| == |s|
  {
    s[..off] + block + s[off + |block|..]
  }

  lemma SpliceNothing<T>(s: seq<T>, off: nat)
    requires off <= |s|
    ensures Splice(s, off, []) == s
  {
  }

  lemma SpliceOneMore<T>(s: seq<T>, off: nat, block: seq<T>, x: T)
    requires off + |block| < |s|
    ensures Splice(s, off, block + [x]) == Splice(s, off, block)[off + |block| := x]
  {
  }

  /** memcpy() between two arrays. */
  method CopyBlock<T>(dst: array<T>, dstOff: nat, src: array<T>, srcOff: nat, count: nat)
    requires dst != src && dstOff + count <= dst.Length && srcOff + count <= src.Length
    modifies dst
    ensures dst[..] == Splice(old(dst[..]), dstOff, src[..][srcOff..srcOff + count])
  {
    hide Splice;
    ghost var source := src[..];
    SpliceNothing(dst[..], dstOff);
    assert source[srcOff..srcOff] == [];
    var i := 0;
    while i < count
      invariant 0 <= i <= count
      invariant src[..] == source
      invariant dst[..] == Splice(old(dst[..]), dstOff, source[srcOff..srcOff + i])
    {
      SpliceOneMore(old(dst[..]), dstOff, source[srcOff..srcOff + i], source[srcOff + i]);
      assert source[srcOff..srcOff + i + 1] == source[srcOff..srcOff + i] + [source[srcOff + i]];
      dst[dstOff + i] := src[srcOff + i];
      i := i + 1;
    }
  }

  lemma SliceOfSlice<T>(s: seq<T>, off: nat, n: nat, k: nat)
    requires k <= n && off + n <= |s|
    ensures s[off..off + n][..k] == s[off..off + k]
    ensures s[off..off + n][k..] == s[off + k..off + n]
  {
  }
}
