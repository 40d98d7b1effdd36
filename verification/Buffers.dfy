/** Flat buffers that hold `batch` rows of `n` elements back to back, and what writing one row does to the others. */
module Buffers {

  /** Row `b` of a flat buffer. */
  function Row<T>(s: seq<T>, n: nat, b: nat): (row: seq<T>)
    requires (b + 1) * n <= |s|
    ensures |row| == n
  {
    assert 0 <= b * n <= (b + 1) * n == b * n + n;
    s[b * n..b * n + n]
  }

  function Rows<T>(s: seq<T>, n: nat, batch: nat): (rows: seq<seq<T>>)
    requires batch * n <= |s|
    ensures |rows| == batch
    ensures forall b :: 0 <= b < batch ==> |rows[b]| == n
  {
    seq(batch, b requires 0 <= b < batch => RowFits(n, b, batch); Row(s, n, b))
  }

  /** The rows that a buffer holds now. */
  function RowsIn<T>(buffer: array<T>, n: nat, batch: nat): (rows: seq<seq<T>>)
    requires batch * n <= buffer.Length
    reads buffer
    ensures |rows| == batch
    ensures forall b :: 0 <= b < batch ==> |rows[b]| == n
  {
    Rows(buffer[..], n, batch)
  }

  lemma RowFits(n: nat, b: nat, batch: nat)
    requires b < batch
    ensures 0 <= b * n
    ensures b * n + n == (b + 1) * n <= batch * n
  {
    MulMonotonic(b + 1, batch, n);
  }

  lemma MulMonotonic(a: nat, b: nat, n: nat)
    requires a <= b
    ensures a * n <= b * n
  {
    assert b * n == a * n + (b - a) * n;
  }

  /** `s` with the elements from `off` on overwritten by `x`. */
  function Splice<T>(s: seq<T>, off: nat, x: seq<T>): (r: seq<T>)
    requires off + |x| <= |s|
    ensures |r| == |s|
  {
    s[..off] + x + s[off + |x|..]
  }

  lemma SpliceParts<T>(s: seq<T>, off: nat, x: seq<T>, lo: nat, hi: nat)
    requires off + |x| <= |s| && lo <= hi <= |s|
    ensures Splice(s, off, x)[off..off + |x|] == x
    ensures hi <= off || off + |x| <= lo ==> Splice(s, off, x)[lo..hi] == s[lo..hi]
  {}

  lemma RowsDisjoint(n: nat, b: nat, c: nat)
    requires b != c
    ensures b * n + n <= c * n || c * n + n <= b * n
  {
    if b < c {
      MulMonotonic(b + 1, c, n);
      assert (b + 1) * n == b * n + n;
    } else {
      MulMonotonic(c + 1, b, n);
      assert (c + 1) * n == c * n + n;
    }
  }

  /** Writing row `b` replaces row `b` and nothing else. */
  lemma SpliceRow<T>(s: seq<T>, n: nat, batch: nat, b: nat, x: seq<T>)
    requires batch * n <= |s| && b < batch && |x| == n
    ensures 0 <= b * n && b * n + n <= batch * n
    ensures Rows(Splice(s, b * n, x), n, batch) == Rows(s, n, batch)[b := x]
    ensures Splice(s, b * n, x)[batch * n..] == s[batch * n..]
  {
    hide Splice;
    RowFits(n, b, batch);
    var t := Splice(s, b * n, x);
    SpliceParts(s, b * n, x, batch * n, |s|);
    forall c | 0 <= c < batch
      ensures Rows(t, n, batch)[c] == Rows(s, n, batch)[b := x][c]
    {
      RowFits(n, c, batch);
      var lo := c * n;
      SpliceParts(s, b * n, x, lo, lo + n);
      if c != b {
        RowsDisjoint(n, b, c);
      }
    }
  }

  /** A filled buffer has filled rows. */
  lemma RowsOfConstant<T>(s: seq<T>, v: T, n: nat, batch: nat)
    requires batch * n <= |s|
    requires forall p :: 0 <= p < |s| ==> s[p] == v
    ensures forall b, i :: 0 <= b < batch && 0 <= i < n ==> Rows(s, n, batch)[b][i] == v
  {
    forall b, i | 0 <= b < batch && 0 <= i < n
      ensures Rows(s, n, batch)[b][i] == v
    {
      RowFits(n, b, batch);
    }
  }

  lemma FrontOfSlice<T>(s: seq<T>, lo: nat, n: nat, m: nat)
    requires m <= n && lo + n <= |s|
    ensures s[lo..lo + n][..m] == s[lo..lo + m]
  {}

  /** Changing one row in any way keeps the others and whatever follows the rows. */
  lemma RowRewritten<T>(s: seq<T>, t: seq<T>, n: nat, batch: nat, b: nat)
    requires batch * n <= |s| == |t| && b < batch
    requires forall p :: 0 <= p < |s| && !(b * n <= p < b * n + n) ==> t[p] == s[p]
    ensures forall c :: 0 <= c < batch && c != b ==> Rows(t, n, batch)[c] == Rows(s, n, batch)[c]
    ensures t[batch * n..] == s[batch * n..]
  {
    RowFits(n, b, batch);
    var x := t[b * n..b * n + n];
    IsSplice(s, b * n, x, t);
    SpliceRow(s, n, batch, b, x);
  }

  lemma RowAt<T>(s: seq<T>, n: nat, batch: nat, b: nat)
    requires batch * n <= |s| && b < batch
    ensures 0 <= b * n && b * n + n <= batch * n
    ensures Rows(s, n, batch)[b] == s[b * n..b * n + n]
  {
    RowFits(n, b, batch);
  }

  /** Elementwise reading of `Splice`. */
  lemma IsSplice<T>(s: seq<T>, off: nat, x: seq<T>, t: seq<T>)
    requires off + |x| <= |s| == |t|
    requires forall p :: 0 <= p < |s| ==> t[p] == if off <= p < off + |x| then x[p - off] else s[p]
    ensures t == Splice(s, off, x)
  {}

  /** Copy a stretch of `src` over all of `dst`. */
  method CopyIn<T>(src: array<T>, off: nat, dst: array<T>)
    requires src != dst && off + dst.Length <= src.Length
    modifies dst
    ensures dst[..] == src[..][off..off + dst.Length]
  {
    forall i | 0 <= i < dst.Length {
      dst[i] := src[off + i];
    }
  }

  /** Copy all of `src` over a stretch of `dst`. */
  method CopyOut<T>(src: array<T>, dst: array<T>, off: nat)
    requires src != dst && off + src.Length <= dst.Length
    modifies dst
    ensures dst[..] == Splice(old(dst[..]), off, src[..])
  {
    forall p | off <= p < off + src.Length {
      dst[p] := src[p - off];
    }
    assert src[..] == old(src[..]);
    IsSplice(old(dst[..]), off, src[..], dst[..]);
  }

  /** Overwrite row `b`. */
  method WriteRow<T>(dst: array<T>, n: nat, batch: nat, b: nat, x: seq<T>)
    requires batch * n <= dst.Length && b < batch && |x| == n
    modifies dst
    ensures Rows(dst[..], n, batch) == old(Rows(dst[..], n, batch))[b := x]
    ensures dst[..][batch * n..] == old(dst[..])[batch * n..]
  {
    hide Rows, Splice;
    SpliceRow(dst[..], n, batch, b, x);
    var off := b * n;
    forall p | off <= p < off + n {
      dst[p] := x[p - off];
    }
    IsSplice(old(dst[..]), off, x, dst[..]);
  }

  lemma RowElement<T>(s: seq<T>, n: nat, batch: nat, b: nat, i: nat)
    requires batch * n <= |s| && b < batch && i < n
    ensures 0 <= b * n + i < batch * n
    ensures Rows(s, n, batch)[b][i] == s[b * n + i]
  {
    RowFits(n, b, batch);
  }
}
