/** Real matrices with an explicit shape (so that a 0 x n array keeps its
    width), boolean masks, and Python's slice arithmetic: the parts of
    numpy the model needs. */
module Matrices {

  datatype RawMatrix = RawMatrix(rows: nat, cols: nat, at: seq<seq<real>>)

  predicate Shaped(m: RawMatrix) {
    |m.at| == m.rows && forall i :: 0 <= i < |m.at| ==> |m.at[i]| == m.cols
  }

  type Matrix = m: RawMatrix | Shaped(m) witness RawMatrix(0, 0, [])

  type Vector = seq<real>

  function Min(a: int, b: int): int {
    if a < b then a else b
  }

  function Max(a: int, b: int): int {
    if a < b then b else a
  }

  /** np.zeros(n) */
  function ZeroVector(n: nat): (v: Vector)
    ensures |v| == n && forall i :: 0 <= i < n ==> v[i] == 0.0
  {
    seq(n, i => 0.0)
  }

  /** Sum of the products a[k] * b[k], accumulated from the first entry on. */
  function Dot(a: Vector, b: Vector): real
    requires |a| == |b|
    decreases |a|
  {
    if a == [] then 0.0 else Dot(a[..|a| - 1], b[..|b| - 1]) + a[|a| - 1] * b[|b| - 1]
  }

  /** A zero vector contributes nothing to a dot product. */
  lemma {:induction false} DotZeroRight(a: Vector, b: Vector)
    requires |a| == |b| && forall l :: 0 <= l < |b| ==> b[l] == 0.0
    ensures Dot(a, b) == 0.0
    decreases |a|
  {
    if a != [] {
      DotZeroRight(a[..|a| - 1], b[..|b| - 1]);
    }
  }

  /** Against a vector with one non-zero entry q, the dot product is a[q] * b[q]. */
  lemma {:induction false} DotSingle(a: Vector, b: Vector, q: nat)
    requires |a| == |b| && q < |a|
    requires forall l :: 0 <= l < |b| && l != q ==> b[l] == 0.0
    ensures Dot(a, b) == a[q] * b[q]
    decreases |a|
  {
    var n := |a| - 1;
    if q == n {
      DotZeroRight(a[..n], b[..n]);
    } else {
      DotSingle(a[..n], b[..n], q);
    }
  }

  /** Entries of a that are zero from position n on do not count. */
  lemma {:induction false} DotZeroTail(a: Vector, b: Vector, n: nat)
    requires |a| == |b| && n <= |a|
    requires forall l :: n <= l < |a| ==> a[l] == 0.0
    ensures Dot(a, b) == Dot(a[..n], b[..n])
    decreases |a|
  {
    if |a| == n {
      assert a[..n] == a && b[..n] == b;
    } else {
      var k := |a| - 1;
      DotZeroTail(a[..k], b[..k], n);
      assert a[..k][..n] == a[..n] && b[..k][..n] == b[..n];
    }
  }

  function Column(m: Matrix, j: nat): (c: Vector)
    requires j < m.cols
    ensures |c| == m.rows
  {
    seq(m.rows, i requires 0 <= i < m.rows => m.at[i][j])
  }

  /** m.T */
  function Transpose(m: Matrix): (t: Matrix)
    ensures t.rows == m.cols && t.cols == m.rows
  {
    RawMatrix(m.cols, m.rows, seq(m.cols, i requires 0 <= i < m.cols => seq(m.rows, j requires 0 <= j < m.rows => m.at[j][i])))
  }

  /** a.dot(b) */
  function MatMul(a: Matrix, b: Matrix): (c: Matrix)
    requires a.cols == b.rows
    ensures c.rows == a.rows && c.cols == b.cols
  {
    RawMatrix(a.rows, b.cols, seq(a.rows, i requires 0 <= i < a.rows =>
      seq(b.cols, j requires 0 <= j < b.cols => Dot(a.at[i], Column(b, j)))))
  }

  /** a.dot(v) */
  function MatVec(a: Matrix, v: Vector): (w: Vector)
    requires a.cols == |v|
    ensures |w| == a.rows
  {
    seq(a.rows, i requires 0 <= i < a.rows => Dot(a.at[i], v))
  }

  /** Two matrices with the same shape and the same entries are equal. */
  lemma MatrixExt(a: Matrix, b: Matrix)
    requires a.rows == b.rows && a.cols == b.cols
    requires forall i, j :: 0 <= i < a.rows && 0 <= j < a.cols ==> a.at[i][j] == b.at[i][j]
    ensures a == b
  {
    forall i | 0 <= i < a.rows
      ensures a.at[i] == b.at[i]
    {
    }
  }

  // ---------------------------------------------------------------------
  // Boolean masks

  function CountTrue(mask: seq<bool>): (n: nat)
    ensures n <= |mask|
    decreases |mask|
  {
    if mask == [] then 0
    else CountTrue(mask[..|mask| - 1]) + (if mask[|mask| - 1] then 1 else 0)
  }

  /** np.nonzero(mask): the positions of the true entries, in increasing order. */
  function TrueIndices(mask: seq<bool>): (ix: seq<nat>)
    ensures |ix| == CountTrue(mask)
    ensures forall k :: 0 <= k < |ix| ==> ix[k] < |mask| && mask[ix[k]]
    ensures forall k, l :: 0 <= k < l < |ix| ==> ix[k] < ix[l]
    ensures forall i :: 0 <= i < |mask| && mask[i] ==> i in ix
    decreases |mask|
  {
    if mask == [] then []
    else
      var n := |mask| - 1;
      TrueIndices(mask[..n]) + (if mask[n] then [n] else [])
  }

  /** The number of true entries before position i. */
  function Rank(mask: seq<bool>, i: nat): nat
    requires i <= |mask|
  {
    CountTrue(mask[..i])
  }

  /** The k-th true entry has exactly k true entries before it. */
  lemma {:induction false} RankOfTrueIndex(mask: seq<bool>, k: nat)
    requires k < CountTrue(mask)
    ensures TrueIndices(mask)[k] < |mask| && Rank(mask, TrueIndices(mask)[k]) == k
    decreases |mask|
  {
    var n := |mask| - 1;
    var p := mask[..n];
    if k < CountTrue(p) {
      RankOfTrueIndex(p, k);
      var i := TrueIndices(p)[k];
      assert TrueIndices(mask)[k] == i;
      assert mask[..i] == p[..i];
    } else {
      assert TrueIndices(mask)[k] == n;
      assert mask[..n] == p;
    }
  }

  /** A true position is the entry of TrueIndices numbered by its rank. */
  lemma TrueIndexAtRank(mask: seq<bool>, i: nat)
    requires i < |mask| && mask[i]
    ensures Rank(mask, i) < CountTrue(mask) && TrueIndices(mask)[Rank(mask, i)] == i
  {
    var ix := TrueIndices(mask);
    var k :| 0 <= k < |ix| && ix[k] == i;
    RankOfTrueIndex(mask, k);
  }

  lemma {:induction false} CountTrueAppend(a: seq<bool>, b: seq<bool>)
    ensures CountTrue(a + b) == CountTrue(a) + CountTrue(b)
    decreases |b|
  {
    if b == [] {
      assert a + b == a;
    } else {
      assert (a + b)[..|a + b| - 1] == a + b[..|b| - 1];
      CountTrueAppend(a, b[..|b| - 1]);
    }
  }

  /** v[mask] for a boolean mask as long as v. */
  function Gather(v: Vector, mask: seq<bool>): (w: Vector)
    requires |mask| == |v|
    ensures |w| == CountTrue(mask)
  {
    var ix := TrueIndices(mask);
    seq(|ix|, k requires 0 <= k < |ix| => v[ix[k]])
  }

  /** x = np.zeros(n); x[mask] = values */
  function Scatter(n: nat, mask: seq<bool>, values: Vector): (x: Vector)
    requires |mask| == n && |values| == CountTrue(mask)
    ensures |x| == n
  {
    seq(n, i requires 0 <= i < n =>
      if mask[i] then (RankBelowCount(mask, i); values[Rank(mask, i)]) else 0.0)
  }

  lemma RankBelowCount(mask: seq<bool>, i: nat)
    requires i < |mask| && mask[i]
    ensures Rank(mask, i) < CountTrue(mask)
  {
    CountTruePrefix(mask, i + 1);
    assert mask[..i + 1][..i] == mask[..i];
  }

  /** A prefix never holds more true entries than the whole mask. */
  lemma {:induction false} CountTruePrefix(mask: seq<bool>, i: nat)
    requires i <= |mask|
    ensures CountTrue(mask[..i]) <= CountTrue(mask)
    decreases |mask|
  {
    if i < |mask| {
      var n := |mask| - 1;
      assert mask[..n][..i] == mask[..i];
      CountTruePrefix(mask[..n], i);
    } else {
      assert mask[..i] == mask;
    }
  }

  /** Reading back the masked positions of a scatter gives the scattered
      values; every other position holds zero. */
  lemma GatherScatter(n: nat, mask: seq<bool>, values: Vector)
    requires |mask| == n && |values| == CountTrue(mask)
    ensures Gather(Scatter(n, mask, values), mask) == values
    ensures forall i :: 0 <= i < n && !mask[i] ==> Scatter(n, mask, values)[i] == 0.0
  {
    var x := Scatter(n, mask, values);
    var ix := TrueIndices(mask);
    forall k | 0 <= k < |ix|
      ensures Gather(x, mask)[k] == values[k]
    {
      RankOfTrueIndex(mask, k);
    }
  }

  // ---------------------------------------------------------------------
  // Python slices (step 1)

  /** Python's normalisation of one slice bound against a length n. */
  function SliceBound(i: int, n: nat): (b: nat)
    ensures b <= n
  {
    if i < 0 then (if i + n < 0 then 0 else i + n) else (if i > n then n else i)
  }

  /** The half-open index range [lo, hi) that a[start:stop] selects. */
  function SliceRange(n: nat, start: int, stop: int): (r: (nat, nat))
    ensures r.0 <= r.1 <= n
  {
    var lo := SliceBound(start, n);
    var hi := SliceBound(stop, n);
    (lo, if hi < lo then lo else hi)
  }

  /** A slice whose bounds already lie inside [0, n] selects exactly them. */
  lemma SliceRangeInside(n: nat, start: int, stop: int)
    requires 0 <= start <= stop <= n
    ensures SliceRange(n, start, stop) == (start, stop)
  {
  }

  /** m[r0:r1, c0:c1] */
  function Crop(m: Matrix, r0: int, r1: int, c0: int, c1: int): (c: Matrix)
    ensures c.rows == SliceRange(m.rows, r0, r1).1 - SliceRange(m.rows, r0, r1).0
    ensures c.cols == SliceRange(m.cols, c0, c1).1 - SliceRange(m.cols, c0, c1).0
  {
    var (a, b) := SliceRange(m.rows, r0, r1);
    var (c, d) := SliceRange(m.cols, c0, c1);
    RawMatrix(b - a, d - c, seq(b - a, i requires 0 <= i < b - a => m.at[a + i][c..d]))
  }

  /** A crop inside the matrix is the block it names. */
  lemma CropInside(m: Matrix, r0: int, r1: int, c0: int, c1: int)
    requires 0 <= r0 <= r1 <= m.rows && 0 <= c0 <= c1 <= m.cols
    ensures var c := Crop(m, r0, r1, c0, c1);
            c.rows == r1 - r0 && c.cols == c1 - c0
            && forall i, j :: 0 <= i < c.rows && 0 <= j < c.cols ==> c.at[i][j] == m.at[r0 + i][c0 + j]
  {
  }
}
