/** The second half of the estimator's construction: the sensitivity
    tensor, the corner matrix A, the masked submatrix Ause, its
    "normalisation", and the truncated pseudo-inverse assembled from given
    SVD factors. Each numpy expression is a function; BuildModel chains
    them in the order the constructor evaluates them. */
module Sensitivity {
  import opened Wrappers
  import opened Matrices
  import opened EstimatorParams

  /** What makes the construction raise. */
  datatype BuildError =
    | MissingSetting(name: string)   // attribute never assigned by the reader
    | ShapeError                     // reshape/concatenate with incompatible sizes
    | IndexOutOfRange                // an index past the end of an axis
    | UndefinedDivisor               // normalize_A set: dofUnitMat never assigned

  function Need<T>(v: Option<T>, name: string): Result<T, BuildError> {
    if v.None? then Err(MissingSetting(name)) else Ok(v.value)
  }

  // ---------------------------------------------------------------------
  // Reshaping in row-major order

  lemma MulStep(r: nat, d: nat)
    ensures r * d + d == (r + 1) * d
  {
  }

  lemma MulLe(a: nat, b: nat, d: nat)
    requires a <= b
    ensures a * d <= b * d
  {
  }

  /** s cut into k consecutive pieces of length d. */
  function Chunk<T>(s: seq<T>, k: nat, d: nat): (c: seq<seq<T>>)
    requires |s| == k * d
    ensures |c| == k && forall r :: 0 <= r < k ==> |c[r]| == d
    ensures forall r, j :: 0 <= r < k && 0 <= j < d ==> c[r][j] in s
  {
    seq(k, r requires 0 <= r < k => ChunkBounds(k, d, r); Piece(s, r * d, d))
  }

  /** s[lo:lo + d] */
  function Piece<T>(s: seq<T>, lo: nat, d: nat): (p: seq<T>)
    requires lo + d <= |s|
    ensures |p| == d && forall j :: 0 <= j < d ==> p[j] == s[lo + j]
    ensures forall j :: 0 <= j < d ==> p[j] in s
  {
    s[lo..lo + d]
  }

  lemma ChunkBounds(k: nat, d: nat, r: nat)
    requires r < k
    ensures r * d + d <= k * d
  {
    MulStep(r, d);
    MulLe(r + 1, k, d);
  }

  /** Entry j of piece r is entry r * d + j of s. */
  lemma ChunkEntry<T>(s: seq<T>, k: nat, d: nat, r: nat, j: nat)
    requires |s| == k * d && r < k && j < d
    ensures r * d + j < |s| && Chunk(s, k, d)[r][j] == s[r * d + j]
  {
    ChunkBounds(k, d, r);
  }

  /** The pieces laid end to end. */
  function Flatten<T>(rows: seq<seq<T>>): seq<T> {
    if rows == [] then [] else rows[0] + Flatten(rows[1..])
  }

  /** Rows of equal length d: their concatenation holds row r at r * d. */
  lemma {:induction false} FlattenEntry<T>(rows: seq<seq<T>>, d: nat, r: nat, j: nat)
    requires forall i :: 0 <= i < |rows| ==> |rows[i]| == d
    requires r < |rows| && j < d
    ensures |Flatten(rows)| == |rows| * d
    ensures r * d + j < |Flatten(rows)| && Flatten(rows)[r * d + j] == rows[r][j]
    decreases |rows|
  {
    FlattenLength(rows, d);
    if r > 0 {
      FlattenEntry(rows[1..], d, r - 1, j);
      MulStep(r - 1, d);
    }
  }

  lemma {:induction false} FlattenLength<T>(rows: seq<seq<T>>, d: nat)
    requires forall i :: 0 <= i < |rows| ==> |rows[i]| == d
    ensures |Flatten(rows)| == |rows| * d
    decreases |rows|
  {
    if rows != [] {
      FlattenLength(rows[1..], d);
      MulStep(|rows| - 1, d);
    }
  }

  /** Cutting rows of equal length back out of their concatenation gives
      the rows. */
  lemma ChunkFlatten<T>(rows: seq<seq<T>>, d: nat)
    requires forall i :: 0 <= i < |rows| ==> |rows[i]| == d
    ensures |Flatten(rows)| == |rows| * d
    ensures Chunk(Flatten(rows), |rows|, d) == rows
  {
    FlattenLength(rows, d);
    var c := Chunk(Flatten(rows), |rows|, d);
    forall r | 0 <= r < |rows|
      ensures c[r] == rows[r]
    {
      forall j | 0 <= j < d
        ensures c[r][j] == rows[r][j]
      {
        ChunkEntry(Flatten(rows), |rows|, d, r, j);
        FlattenEntry(rows, d, r, j);
      }
    }
  }

  lemma MulPositive(a: int, b: int)
    requires a > 0 && b > 0
    ensures a * b > 0
  {
  }

  lemma MulAssoc(a: int, b: int, c: int)
    ensures (a * b) * c == a * (b * c)
  {
  }

  lemma DivExact(n: nat, m: nat)
    requires m > 0
    ensures (n / m) * m == n <==> n % m == 0
  {
  }

  /** Groups of z rows of length d, as z x d matrices. */
  function Blocks(groups: seq<seq<seq<real>>>, z: nat, d: nat): (b: seq<Matrix>)
    requires forall q :: 0 <= q < |groups| ==> |groups[q]| == z
    requires forall q, i :: 0 <= q < |groups| && 0 <= i < z ==> |groups[q][i]| == d
    ensures |b| == |groups|
    ensures forall q :: 0 <= q < |b| ==> b[q].rows == z && b[q].cols == d && b[q].at == groups[q]
  {
    seq(|groups|, q requires 0 <= q < |groups| => RawMatrix(z, d, groups[q]))
  }

  /** table.reshape((-1, z, d)): blocks of z rows of d numbers each. */
  function Tensor(table: seq<real>, z: int, d: int): (r: Result<seq<Matrix>, BuildError>)
    ensures r.Ok? <==> z > 0 && d > 0 && |table| % (z * d) == 0
    ensures r.Ok? ==> forall q :: 0 <= q < |r.value| ==> r.value[q].rows == z && r.value[q].cols == d
  {
    if z <= 0 || d <= 0 then Err(ShapeError)
    else
      var zd := z * d;
      MulPositive(z, d);
      var p := |table| / zd;
      DivExact(|table|, zd);
      if p * zd != |table| then Err(ShapeError)
      else
        MulAssoc(p, z, d);
        Ok(TensorBlocks(table, p, z, d))
  }

  /** The p blocks of a table holding exactly p * z * d numbers. */
  function TensorBlocks(table: seq<real>, p: nat, z: nat, d: nat): (b: seq<Matrix>)
    requires |table| == (p * z) * d
    ensures |b| == p && forall q :: 0 <= q < p ==> b[q].rows == z && b[q].cols == d
  {
    Blocks(Chunk(Chunk(table, p * z, d), p, z), z, d)
  }

  /** How Tensor cuts a table it accepts. */
  lemma TensorIsBlocks(table: seq<real>, z: int, d: int)
    requires Tensor(table, z, d).Ok?
    ensures z > 0 && d > 0
    ensures var p := |table| / (z * d);
            |table| == (p * z) * d && Tensor(table, z, d).value == TensorBlocks(table, p, z, d)
  {
    var zd := z * d;
    MulAssoc(|table| / zd, z, d);
  }

  lemma NatProduct(a: nat, b: nat)
    ensures a * b >= 0
  {
  }

  /** The position of senM[q, m, j] in the flat table: (q * z + m) * d + j. */
  function FlatIndex(q: nat, m: nat, j: nat, z: nat, d: nat): nat {
    NatProduct(q, z);
    NatProduct(q * z + m, d);
    (q * z + m) * d + j
  }

  /** senM[q, m, j] is number (q * z + m) * d + j of the file. */
  lemma TensorEntry(table: seq<real>, z: int, d: int, q: nat, m: nat, j: nat)
    requires Tensor(table, z, d).Ok?
    requires q < |Tensor(table, z, d).value| && m < z && j < d
    ensures z > 0 && d > 0 && FlatIndex(q, m, j, z, d) < |table|
            && Tensor(table, z, d).value[q].at[m][j] == table[FlatIndex(q, m, j, z, d)]
  {
    TensorIsBlocks(table, z, d);
    BlocksEntry(table, |table| / (z * d), z, d, q, m, j);
  }

  lemma BlocksEntry(table: seq<real>, p: nat, z: nat, d: nat, q: nat, m: nat, j: nat)
    requires |table| == (p * z) * d && q < p && m < z && j < d
    ensures FlatIndex(q, m, j, z, d) < |table| && TensorBlocks(table, p, z, d)[q].at[m][j] == table[FlatIndex(q, m, j, z, d)]
  {
    var rows := Chunk(table, p * z, d);
    var groups := Chunk(rows, p, z);
    ChunkEntry(rows, p, z, q, m);
    var i := q * z + m;
    ChunkBounds(p, z, q);
    assert i < p * z;
    ChunkEntry(table, p * z, d, i, j);
    assert groups[q][m] == rows[i];
    assert TensorBlocks(table, p, z, d)[q].at == groups[q];
  }

  // ---------------------------------------------------------------------
  // Column reselection

  /** list(range(a, b)) */
  function PyRange(a: int, b: int): (r: seq<int>)
    ensures |r| == if b <= a then 0 else b - a
    ensures forall i :: 0 <= i < |r| ==> r[i] == a + i
  {
    if b <= a then [] else seq(b - a, i requires 0 <= i < b - a => a + i)
  }

  /** np.concatenate((range(10 + nB13), range(10 + nB13, 10 + nB13 + nB2))) */
  function ColumnOrder(nB13: int, nB2: int): seq<int> {
    PyRange(0, 10 + nB13) + PyRange(10 + nB13, 10 + nB13 + nB2)
  }

  /** With non-negative sizes the two ranges meet end to start: the
      reselection lists every column once, in order. */
  lemma ColumnOrderIdentity(nB13: int, nB2: int)
    requires 10 + nB13 >= 0 && nB2 >= 0
    ensures ColumnOrder(nB13, nB2) == PyRange(0, nB13 + nB2 + 10)
  {
  }

  /** A Python index into an axis of length n: negative values count from the end. */
  predicate ValidIndex(i: int, n: nat) {
    -(n as int) <= i < n
  }

  function PyIndex(i: int, n: nat): (k: nat)
    requires ValidIndex(i, n)
    ensures k < n && (i >= 0 ==> k == i)
  {
    if i < 0 then i + n else i
  }

  /** m[:, cols] */
  function SelectColumns(m: Matrix, cols: seq<int>): (r: Matrix)
    requires forall c :: 0 <= c < |cols| ==> ValidIndex(cols[c], m.cols)
    ensures r.rows == m.rows && r.cols == |cols|
  {
    RawMatrix(m.rows, |cols|, seq(m.rows, i requires 0 <= i < m.rows =>
      seq(|cols|, c requires 0 <= c < |cols| => m.at[i][PyIndex(cols[c], m.cols)])))
  }

  /** senM[:, :, cols] on blocks of width d. */
  function ReselectColumns(blocks: seq<Matrix>, d: nat, cols: seq<int>): (r: Result<seq<Matrix>, BuildError>)
    requires forall q :: 0 <= q < |blocks| ==> blocks[q].cols == d
    ensures r.Ok? <==> forall c :: 0 <= c < |cols| ==> ValidIndex(cols[c], d)
    ensures r.Ok? ==> |r.value| == |blocks|
    ensures r.Ok? ==> forall q :: 0 <= q < |blocks| ==> r.value[q].rows == blocks[q].rows && r.value[q].cols == |cols|
  {
    if exists c :: 0 <= c < |cols| && !ValidIndex(cols[c], d) then Err(IndexOutOfRange)
    else Ok(seq(|blocks|, q requires 0 <= q < |blocks| => SelectColumns(blocks[q], cols)))
  }

  /** Selecting every column in order changes nothing. */
  lemma ReselectIdentity(blocks: seq<Matrix>, d: nat)
    requires forall q :: 0 <= q < |blocks| ==> blocks[q].cols == d
    ensures ReselectColumns(blocks, d, PyRange(0, d)) == Ok(blocks)
  {
    var cols := PyRange(0, d);
    assert forall c :: 0 <= c < |cols| ==> ValidIndex(cols[c], d);
    var r := ReselectColumns(blocks, d, cols).value;
    forall q | 0 <= q < |blocks|
      ensures r[q] == blocks[q]
    {
      var sq := SelectColumns(blocks[q], cols);
      assert r[q] == sq;
      assert forall i, j :: 0 <= i < sq.rows && 0 <= j < sq.cols ==> sq.at[i][j] == blocks[q].at[i][j];
      MatrixExt(sq, blocks[q]);
    }
    assert r == blocks;
  }

  // ---------------------------------------------------------------------
  // The corner matrix A

  /** The rows of the blocks, block after block. */
  function StackRows(blocks: seq<Matrix>): seq<seq<real>> {
    Flatten(seq(|blocks|, q requires 0 <= q < |blocks| => blocks[q].at))
  }

  /** senM[-4:, :, :].reshape((-1, ndofA)) */
  function CornerMatrix(senM: seq<Matrix>, ndofA: int): Result<Matrix, BuildError> {
    var last := senM[SliceBound(-4, |senM|)..];
    var flat := Flatten(StackRows(last));
    if ndofA <= 0 then Err(ShapeError)
    else
      var k := |flat| / ndofA;
      if k * ndofA != |flat| then Err(ShapeError)
      else Ok(RawMatrix(k, ndofA, Chunk(flat, k, ndofA)))
  }

  lemma MulDiv(a: nat, b: nat)
    requires b > 0
    ensures (a * b) / b == a
  {
    var q := (a * b) / b;
    var r := (a * b) % b;
    assert a * b == q * b + r;
    SubMul(a, q, b);
    if a - q >= 1 {
      MulAtLeast(a - q, b);
    } else if a - q <= -1 {
      MulAtLeast(q - a, b);
      SubMul(q, a, b);
    }
  }

  lemma SubMul(a: int, q: int, b: int)
    ensures (a - q) * b == a * b - q * b
  {
  }

  lemma MulAtLeast(x: int, b: nat)
    requires x >= 1
    ensures x * b >= b
  {
  }

  /** When the last four blocks are z x ndofA, row q * z + m of A is row m
      of the q-th of those blocks. */
  lemma CornerRows(senM: seq<Matrix>, z: nat, ndofA: int, q: nat, m: nat)
    requires ndofA > 0
    requires forall p :: 0 <= p < |senM| ==> senM[p].rows == z && senM[p].cols == ndofA
    requires var last := senM[SliceBound(-4, |senM|)..]; q < |last| && m < z
    ensures CornerMatrix(senM, ndofA).Ok?
    ensures var a := CornerMatrix(senM, ndofA).value;
            var last := senM[SliceBound(-4, |senM|)..];
            a.rows == |last| * z && q * z + m < a.rows && a.at[q * z + m] == last[q].at[m]
  {
    var last := senM[SliceBound(-4, |senM|)..];
    var blocks := seq(|last|, p requires 0 <= p < |last| => last[p].at);
    var rows := StackRows(last);
    FlattenLength(blocks, z);
    forall i | 0 <= i < |rows|
      ensures |rows[i]| == ndofA
    {
      FlattenMember(blocks, i);
    }
    ChunkFlatten(rows, ndofA);
    MulDiv(|rows|, ndofA);
    assert m < |blocks[q]|;
    FlattenEntry(blocks, z, q, m);
  }

  /** Every element of a concatenation comes from one of the pieces. */
  lemma {:induction false} FlattenMember<T>(rows: seq<seq<T>>, i: nat)
    requires i < |Flatten(rows)|
    ensures exists r, j :: 0 <= r < |rows| && 0 <= j < |rows[r]| && Flatten(rows)[i] == rows[r][j]
    decreases |rows|
  {
    if i < |rows[0]| {
      assert Flatten(rows)[i] == rows[0][i];
    } else {
      FlattenMember(rows[1..], i - |rows[0]|);
      var r, j :| 0 <= r < |rows[1..]| && 0 <= j < |rows[1..][r]| && Flatten(rows[1..])[i - |rows[0]|] == rows[1..][r][j];
      assert Flatten(rows)[i] == rows[r + 1][j];
    }
  }

  // ---------------------------------------------------------------------
  // The masked submatrix

  /** np.repeat(mask, 4): every entry four times in a row. */
  function Repeat4(mask: seq<bool>): seq<bool> {
    if mask == [] then [] else [mask[0], mask[0], mask[0], mask[0]] + Repeat4(mask[1..])
  }

  /** Entry i of the repetition is entry i div 4 of the mask. */
  lemma {:induction false} Repeat4Entries(mask: seq<bool>)
    ensures |Repeat4(mask)| == 4 * |mask|
    ensures forall i :: 0 <= i < 4 * |mask| ==> Repeat4(mask)[i] == mask[i / 4]
    decreases |mask|
  {
    if mask != [] {
      var rest := mask[1..];
      Repeat4Entries(rest);
      var r := Repeat4(mask);
      assert r == [mask[0], mask[0], mask[0], mask[0]] + Repeat4(rest);
      forall i | 0 <= i < 4 * |mask|
        ensures r[i] == mask[i / 4]
      {
        if i >= 4 {
          assert (i - 4) / 4 == i / 4 - 1;
          assert r[i] == Repeat4(rest)[i - 4] == rest[(i - 4) / 4];
        }
      }
    }
  }

  /** The repetition holds four times as many true entries. */
  lemma {:induction false} Repeat4Count(mask: seq<bool>)
    ensures CountTrue(Repeat4(mask)) == 4 * CountTrue(mask)
    decreases |mask|
  {
    if mask != [] {
      var x := mask[0];
      Repeat4Count(mask[1..]);
      CountTrueAppend([x, x, x, x], Repeat4(mask[1..]));
      assert mask == [x] + mask[1..];
      CountTrueAppend([x], mask[1..]);
      var one := if x then 1 else 0;
      assert [x][..0] == [];
      assert CountTrue([x]) == one;
      assert [x, x][..1] == [x];
      assert CountTrue([x, x]) == 2 * one;
      assert [x, x, x][..2] == [x, x];
      assert CountTrue([x, x, x]) == 3 * one;
      assert [x, x, x, x][..3] == [x, x, x];
      assert CountTrue([x, x, x, x]) == 4 * one;
    }
  }

  /** Every true position of the mask lies below n. */
  predicate MaskFits(mask: seq<bool>, n: nat) {
    forall i :: 0 <= i < |mask| && mask[i] ==> i < n
  }

  /** a[np.ix_(rowMask, colMask)]: the rows and columns at the true
      positions, in their original order. */
  function SubMatrix(a: Matrix, rowMask: seq<bool>, colMask: seq<bool>): (r: Result<Matrix, BuildError>)
    ensures r.Ok? <==> MaskFits(rowMask, a.rows) && MaskFits(colMask, a.cols)
    ensures r.Ok? ==> r.value.rows == CountTrue(rowMask) && r.value.cols == CountTrue(colMask)
  {
    var ri := TrueIndices(rowMask);
    var ci := TrueIndices(colMask);
    if exists k :: 0 <= k < |ri| && ri[k] >= a.rows then Err(IndexOutOfRange)
    else if exists k :: 0 <= k < |ci| && ci[k] >= a.cols then Err(IndexOutOfRange)
    else Ok(RawMatrix(|ri|, |ci|, seq(|ri|, r requires 0 <= r < |ri| =>
      seq(|ci|, c requires 0 <= c < |ci| => a.at[ri[r]][ci[c]]))))
  }

  /** The entry of A at a true row i and a true column j lands in Ause at
      (number of true rows before i, number of true columns before j). */
  lemma SubMatrixByRank(a: Matrix, rowMask: seq<bool>, colMask: seq<bool>, i: nat, j: nat)
    requires SubMatrix(a, rowMask, colMask).Ok?
    requires i < |rowMask| && rowMask[i] && j < |colMask| && colMask[j]
    ensures var u := SubMatrix(a, rowMask, colMask).value;
            Rank(rowMask, i) < u.rows && Rank(colMask, j) < u.cols
            && i < a.rows && j < a.cols
            && u.at[Rank(rowMask, i)][Rank(colMask, j)] == a.at[i][j]
  {
    TrueIndexAtRank(rowMask, i);
    TrueIndexAtRank(colMask, j);
  }

  /** Every entry of Ause comes from a true row and a true column of A. */
  lemma SubMatrixFromMasked(a: Matrix, rowMask: seq<bool>, colMask: seq<bool>, r: nat, c: nat)
    requires SubMatrix(a, rowMask, colMask).Ok?
    requires r < CountTrue(rowMask) && c < CountTrue(colMask)
    ensures var i := TrueIndices(rowMask)[r];
            var j := TrueIndices(colMask)[c];
            rowMask[i] && colMask[j] && i < a.rows && j < a.cols
            && SubMatrix(a, rowMask, colMask).value.at[r][c] == a.at[i][j]
  {
  }

  // ---------------------------------------------------------------------
  // Normalisation

  /** self.Ause / dofUnitMat: with normalize_A set, dofUnitMat is never
      assigned and the division raises; otherwise it divides by ones. */
  function Normalize(ause: Matrix, normalizeA: bool): Result<Matrix, BuildError> {
    if normalizeA then Err(UndefinedDivisor)
    else Ok(RawMatrix(ause.rows, ause.cols, seq(ause.rows, i requires 0 <= i < ause.rows =>
      seq(ause.cols, j requires 0 <= j < ause.cols => ause.at[i][j] / 1.0))))
  }

  /** Anorm equals Ause when normalize_A is off, and fails when it is on. */
  lemma NormalizeKeeps(ause: Matrix, normalizeA: bool)
    ensures Normalize(ause, normalizeA) == if normalizeA then Err(UndefinedDivisor) else Ok(ause)
  {
    if !normalizeA {
      MatrixExt(Normalize(ause, false).value, ause);
    }
  }

  // ---------------------------------------------------------------------
  // The truncated pseudo-inverse

  /** What np.linalg.svd returns for an m x n matrix (full_matrices): U is
      m x m, Vt is n x n; the singular values arrive already inverted. */
  datatype Svd = Svd(u: Matrix, sigmaInv: seq<real>, vt: Matrix)

  predicate SvdShaped(f: Svd, m: nat, n: nat) {
    f.u.rows == m && f.u.cols == m && f.vt.rows == n && f.vt.cols == n && |f.sigmaInv| == Min(m, n)
  }

  /** siginv[-nInf:] = 0, done only when nInf > 1: the inverted singular
      values keep their order and the last nInf of them become zero. */
  function Truncate(s: seq<real>, nInf: int): (t: seq<real>)
    ensures |t| == |s|
    ensures forall i :: 0 <= i < |s| ==> t[i] == if nInf > 1 && i >= |s| - nInf then 0.0 else s[i]
  {
    if nInf > 1 then
      var k := SliceBound(-nInf, |s|);
      s[..k] + ZeroVector(|s| - k)
    else s
  }

  /** np.diag(t) */
  function Diag(t: seq<real>): (d: Matrix)
    ensures d.rows == |t| && d.cols == |t|
  {
    RawMatrix(|t|, |t|, seq(|t|, l requires 0 <= l < |t| =>
      seq(|t|, q requires 0 <= q < |t| => if l == q then t[l] else 0.0)))
  }

  /** np.concatenate((np.diag(t), np.zeros((n, m - len(t)))), axis=1):
      the diagonal padded with zero columns to n x m. */
  function PadDiagonal(t: seq<real>, n: nat, m: nat): (r: Result<Matrix, BuildError>)
    ensures r.Ok? <==> |t| == n && n <= m
    ensures r.Ok? ==> r.value.rows == n && r.value.cols == m
    ensures r.Ok? ==> forall l, q :: 0 <= l < n && 0 <= q < m ==>
                        r.value.at[l][q] == if l == q then t[l] else 0.0
  {
    if |t| > m || |t| != n then Err(ShapeError)
    else
      var d := Diag(t);
      Ok(RawMatrix(n, m, seq(n, l requires 0 <= l < n => PadRow(d.at[l], m))))
  }

  /** A row followed by zeros up to the given width. */
  function PadRow(row: Vector, width: nat): (r: Vector)
    requires |row| <= width
    ensures |r| == width
    ensures forall q :: 0 <= q < width ==> r[q] == if q < |row| then row[q] else 0.0
  {
    row + ZeroVector(width - |row|)
  }

  /** VaT.T.dot(Sainv).dot(Ua.T) */
  function PseudoInverse(f: Svd, nInf: int): Result<Matrix, BuildError>
    requires f.u.rows == f.u.cols
  {
    var p :- PadDiagonal(Truncate(f.sigmaInv, nInf), f.vt.rows, f.u.rows);
    Ok(MatMul(MatMul(Transpose(f.vt), p), Transpose(f.u)))
  }

  /** For an m x n matrix the pseudo-inverse exists exactly when n <= m
      (otherwise the padding fails) and is n x m. */
  lemma PseudoInverseShape(f: Svd, m: nat, n: nat, nInf: int)
    requires SvdShaped(f, m, n)
    ensures PseudoInverse(f, nInf).Ok? <==> n <= m
    ensures PseudoInverse(f, nInf).Ok? ==>
              PseudoInverse(f, nInf).value.rows == n && PseudoInverse(f, nInf).value.cols == m
  {
  }

  /** Column i of Vt weighted by the given inverted singular values. */
  function Weighted(vt: Matrix, t: seq<real>, i: nat): (w: Vector)
    requires i < vt.cols && |t| <= vt.rows
    ensures |w| == |t|
  {
    seq(|t|, l requires 0 <= l < |t| => vt.at[l][i] * t[l])
  }

  /** Row i of VaT.T.dot(Sainv) holds Vt[q][i] * t[q] in the first n
      columns and zeros after them. */
  lemma WeightedRow(vt: Matrix, t: seq<real>, m: nat, i: nat, q: nat)
    requires vt.rows == |t| && |t| <= m && i < vt.cols && q < m
    ensures var b := MatMul(Transpose(vt), PadDiagonal(t, |t|, m).value);
            b.at[i][q] == if q < |t| then vt.at[q][i] * t[q] else 0.0
  {
    var p := PadDiagonal(t, |t|, m).value;
    var vT := Transpose(vt);
    var col := Column(p, q);
    assert MatMul(vT, p).at[i][q] == Dot(vT.at[i], col);
    if q < |t| {
      DotSingle(vT.at[i], col, q);
    } else {
      DotZeroRight(vT.at[i], col);
    }
  }

  /** Entry (i, j) of the pseudo-inverse is the sum over the singular
      directions l of Vt[l][i] * t[l] * U[j][l]. */
  lemma PseudoInverseEntry(f: Svd, m: nat, n: nat, nInf: int, i: nat, j: nat)
    requires SvdShaped(f, m, n) && n <= m && i < n && j < m
    ensures PseudoInverse(f, nInf).Ok?
    ensures PseudoInverse(f, nInf).value.at[i][j] ==
            Dot(Weighted(f.vt, Truncate(f.sigmaInv, nInf), i), f.u.at[j][..n])
  {
    var t := Truncate(f.sigmaInv, nInf);
    var b := MatMul(Transpose(f.vt), PadDiagonal(t, n, m).value);
    var row := b.at[i];
    var w := Weighted(f.vt, t, i);
    forall q | 0 <= q < m
      ensures row[q] == if q < n then w[q] else 0.0
    {
      WeightedRow(f.vt, t, m, i, q);
    }
    var ucol := Column(Transpose(f.u), j);
    assert PseudoInverse(f, nInf).value == MatMul(b, Transpose(f.u));
    assert PseudoInverse(f, nInf).value.at[i][j] == Dot(row, ucol);
    PaddedDot(row, ucol, w, f.u.at[j][..n], n);
  }

  /** A row that is w followed by zeros meets ucol as w meets its first |w| entries. */
  lemma PaddedDot(row: Vector, ucol: Vector, w: Vector, ur: Vector, n: nat)
    requires |row| == |ucol| && n <= |row| && |w| == n && |ur| == n
    requires forall q :: 0 <= q < |row| ==> row[q] == if q < n then w[q] else 0.0
    requires forall q :: 0 <= q < n ==> ucol[q] == ur[q]
    ensures Dot(row, ucol) == Dot(w, ur)
  {
    DotZeroTail(row, ucol, n);
    assert row[..n] == w;
    assert ucol[..n] == ur;
  }

  /** With nInf > 1, only the first n - nInf singular directions contribute
      to the pseudo-inverse; nInf <= 1 keeps them all. */
  lemma PseudoInverseTruncated(f: Svd, m: nat, n: nat, nInf: int, i: nat, j: nat)
    requires SvdShaped(f, m, n) && n <= m && i < n && j < m
    ensures var k := if nInf > 1 then Max(0, n - nInf) else n;
            PseudoInverse(f, nInf).Ok? &&
            PseudoInverse(f, nInf).value.at[i][j] ==
            Dot(Weighted(f.vt, f.sigmaInv, i)[..k], f.u.at[j][..k])
  {
    var k := if nInf > 1 then Max(0, n - nInf) else n;
    var t := Truncate(f.sigmaInv, nInf);
    var w := Weighted(f.vt, t, i);
    var ur := f.u.at[j][..n];
    PseudoInverseEntry(f, m, n, nInf, i, j);
    DotZeroTail(w, ur, k);
    assert |f.sigmaInv| == n;
    var w0 := Weighted(f.vt, f.sigmaInv, i);
    forall l | 0 <= l < k
      ensures w[l] == w0[l]
    {
      assert t[l] == f.sigmaInv[l];
    }
    assert w[..k] == w0[..k];
    assert ur[..k] == f.u.at[j][..k];
  }

  // ---------------------------------------------------------------------
  // The whole construction

  /** What the constructor computes after reading the parameter file. */
  datatype Model = Model(
    zn3Max: int,
    ndofA: int,
    senM: seq<Matrix>,
    a: Matrix,
    zn3IdxAx4: seq<bool>,
    ause: Matrix,
    anorm: Matrix,
    ainv: Option<Matrix>)

  /** The SVD routine returns numpy's shapes for every matrix. */
  ghost predicate SvdWellShaped(svd: Matrix -> Svd) {
    forall m: Matrix :: SvdShaped(svd(m), m.rows, m.cols)
  }

  /** Ainv, computed only for the "pinv" strategy. */
  function Inverse(strategy: string, nInf: Option<int>, anorm: Matrix, svd: Matrix -> Svd): (r: Result<Option<Matrix>, BuildError>)
    requires SvdWellShaped(svd)
    ensures r.Ok? ==> (r.value.Some? <==> strategy == "pinv")
    ensures r.Ok? && r.value.Some? ==>
              anorm.cols <= anorm.rows && r.value.value.rows == anorm.cols && r.value.value.cols == anorm.rows
  {
    if strategy == "pinv" then
      var n :- Need(nInf, "nSingularInf");
      var f := svd(anorm);
      PseudoInverseShape(f, anorm.rows, anorm.cols, n);
      var p :- PseudoInverse(f, n);
      Ok(Some(p))
    else Ok(None)
  }

  /** Lines 66-81 of the constructor: the derived sizes, the reselected
      tensor and the corner matrix A. */
  datatype Corner = Corner(zn3Max: int, ndofA: int, senM: seq<Matrix>, a: Matrix)

  function BuildCorner(s: Settings, table: seq<real>): (r: Result<Corner, BuildError>)
    ensures r.Ok? ==> s.znMax.Some? && s.nB13Max.Some? && s.nB2Max.Some? && s.senMFile.Some?
    ensures r.Ok? ==>
              r.value.zn3Max == s.znMax.value - 3 > 0
              && r.value.ndofA == s.nB13Max.value + s.nB2Max.value + 10 > 0
              && r.value.a.cols == r.value.ndofA
  {
    var znMax :- Need(s.znMax, "znMax");
    var nB13 :- Need(s.nB13Max, "nB13Max");
    var nB2 :- Need(s.nB2Max, "nB2Max");
    var _ :- Need(s.senMFile, "senMFile");
    var ndofA := nB13 + nB2 + 10;
    var blocks :- Tensor(table, znMax - 3, ndofA);
    var senM :- ReselectColumns(blocks, ndofA, ColumnOrder(nB13, nB2));
    var a :- CornerMatrix(senM, ndofA);
    Ok(Corner(znMax - 3, ndofA, senM, a))
  }

  /** Lines 82-110: the masks, Ause, Anorm and Ainv. Ause keeps the rows
      where zn3IdxAx4 (zn3Idx with every entry four times) is true and the
      columns where compIdx is true; Anorm equals Ause (normalize_A set
      fails); Ainv exists exactly for the "pinv" strategy and then has the
      transposed shape of Ause, which needs at least as many rows as
      columns. */
  function BuildUsable(s: Settings, c: Corner, svd: Matrix -> Svd): (r: Result<Model, BuildError>)
    requires SvdWellShaped(svd)
    ensures r.Ok? ==> s.zn3Idx.Some? && s.compIdx.Some? && s.strategy.Some?
    ensures r.Ok? ==> s.normalizeA.Some? && !s.normalizeA.value
    ensures r.Ok? ==>
              r.value.zn3IdxAx4 == Repeat4(s.zn3Idx.value)
              && |r.value.zn3IdxAx4| == 4 * |s.zn3Idx.value|
              && (forall i :: 0 <= i < |r.value.zn3IdxAx4| ==> r.value.zn3IdxAx4[i] == s.zn3Idx.value[i / 4])
              && CountTrue(r.value.zn3IdxAx4) == 4 * CountTrue(s.zn3Idx.value)
    ensures r.Ok? ==> SubMatrix(c.a, r.value.zn3IdxAx4, s.compIdx.value) == Ok(r.value.ause)
    ensures r.Ok? ==>
              r.value.ause.rows == 4 * CountTrue(s.zn3Idx.value)
              && r.value.ause.cols == CountTrue(s.compIdx.value)
              && r.value.anorm == r.value.ause
    ensures r.Ok? ==> (r.value.ainv.Some? <==> s.strategy.value == "pinv")
    ensures r.Ok? && r.value.ainv.Some? ==>
              r.value.ause.cols <= r.value.ause.rows
              && r.value.ainv.value.rows == r.value.ause.cols
              && r.value.ainv.value.cols == r.value.ause.rows
    ensures r.Ok? ==> r.value.zn3Max == c.zn3Max && r.value.ndofA == c.ndofA && r.value.a == c.a
  {
    var zn3Idx :- Need(s.zn3Idx, "zn3Idx");
    var ax4 := Repeat4(zn3Idx);
    Repeat4Entries(zn3Idx);
    Repeat4Count(zn3Idx);
    var compIdx :- Need(s.compIdx, "compIdx");
    var ause :- SubMatrix(c.a, ax4, compIdx);
    var normalizeA :- Need(s.normalizeA, "normalizeA");
    NormalizeKeeps(ause, normalizeA);
    var anorm :- Normalize(ause, normalizeA);
    var strategy :- Need(s.strategy, "strategy");
    var ainv :- Inverse(strategy, s.nSingularInf, anorm, svd);
    Ok(Model(c.zn3Max, c.ndofA, c.senM, c.a, ax4, ause, anorm, ainv))
  }

  /** The constructor after the parameter file has been read, given the
      numbers of the sensitivity file and the SVD routine. It needs every
      setting it reads; with normalize_A set it always fails; the sizes are
      znmax - 3 and nB13 + nB2 + 10; Ause has one row per true entry of
      zn3IdxAx4 and one column per true entry of compIdx, and Ainv, present
      exactly for "pinv", has the transposed shape. */
  function BuildModel(s: Settings, table: seq<real>, svd: Matrix -> Svd): (r: Result<Model, BuildError>)
    requires SvdWellShaped(svd)
    ensures r.Ok? ==>
              s.znMax.Some? && s.nB13Max.Some? && s.nB2Max.Some? && s.senMFile.Some?
              && s.zn3Idx.Some? && s.compIdx.Some? && s.strategy.Some?
    ensures s.normalizeA.Some? && s.normalizeA.value ==> r.Err?
    ensures r.Ok? ==>
              r.value.zn3Max == s.znMax.value - 3 > 0
              && r.value.ndofA == s.nB13Max.value + s.nB2Max.value + 10 > 0
              && r.value.a.cols == r.value.ndofA
    ensures r.Ok? ==>
              r.value.zn3IdxAx4 == Repeat4(s.zn3Idx.value)
              && |r.value.zn3IdxAx4| == 4 * |s.zn3Idx.value|
              && (forall i :: 0 <= i < |r.value.zn3IdxAx4| ==> r.value.zn3IdxAx4[i] == s.zn3Idx.value[i / 4])
              && CountTrue(r.value.zn3IdxAx4) == 4 * CountTrue(s.zn3Idx.value)
    ensures r.Ok? ==> SubMatrix(r.value.a, r.value.zn3IdxAx4, s.compIdx.value) == Ok(r.value.ause)
    ensures r.Ok? ==>
              r.value.ause.rows == 4 * CountTrue(s.zn3Idx.value)
              && r.value.ause.cols == CountTrue(s.compIdx.value)
              && r.value.anorm == r.value.ause
    ensures r.Ok? ==> (r.value.ainv.Some? <==> s.strategy.value == "pinv")
    ensures r.Ok? && r.value.ainv.Some? ==>
              r.value.ause.cols <= r.value.ause.rows
              && r.value.ainv.value.rows == r.value.ause.cols
              && r.value.ainv.value.cols == r.value.ause.rows
  {
    var c :- BuildCorner(s, table);
    BuildUsable(s, c, svd)
  }

  /** With non-negative bending-mode counts the column reselection keeps
      the reshaped tensor as it is. */
  lemma CornerKeepsTensor(s: Settings, table: seq<real>)
    requires BuildCorner(s, table).Ok?
    requires s.nB13Max.Some? && s.nB2Max.Some? && 10 + s.nB13Max.value >= 0 && s.nB2Max.value >= 0
    ensures s.znMax.Some?
    ensures var ndofA := s.nB13Max.value + s.nB2Max.value + 10;
            Tensor(table, s.znMax.value - 3, ndofA) == Ok(BuildCorner(s, table).value.senM)
  {
    var ndofA := s.nB13Max.value + s.nB2Max.value + 10;
    var blocks := Tensor(table, s.znMax.value - 3, ndofA).value;
    ColumnOrderIdentity(s.nB13Max.value, s.nB2Max.value);
    ReselectIdentity(blocks, ndofA);
  }
}
