/** The arithmetic rules inside aosWFS.py: the instrument-name rules of the
    constructor, the tiling of the covariance matrix, the stamp windows of
    preprocess() and the flip-rotate-flip of corner-raft stamps. */
module WfsGeometry {
  import opened Wrappers
  import opened PyText
  import opened PyNumbers
  import opened Matrices

  // ---------------------------------------------------------------------
  // Instrument-name rules

  /** s[:k] */
  function Head(s: string, k: nat): string {
    if k <= |s| then s[..k] else s
  }

  /** s[-k:] */
  function Tail(s: string, k: nat): string {
    s[SliceBound(-(k as int), |s|)..]
  }

  lemma HeadIsPrefix(s: string, p: string)
    ensures Head(s, |p|) == p <==> StartsWith(s, p)
  {
  }

  /** Sensors, runs and exposures per iteration. */
  datatype Layout = Layout(nWFS: nat, nRun: nat, nExp: nat)

  /** comcam: nine sensors, two runs (intra and extra are separate
      exposures), one exposure each; any other instrument: the four
      corner sensors, one run, two exposures. */
  function LayoutOf(instruFile: string): (r: Layout)
    ensures StartsWith(instruFile, "comcam") ==> r == Layout(9, 2, 1)
    ensures !StartsWith(instruFile, "comcam") ==> r == Layout(4, 1, 2)
  {
    HeadIsPrefix(instruFile, "comcam");
    if Head(instruFile, 6) == "comcam" then Layout(9, 2, 1) else Layout(4, 1, 2)
  }

  /** What the constructor raises: float() of the last two characters
      failed, or np.zeros was given a negative size (fewer than three
      Zernike terms). */
  datatype WfsError = OffsetNotANumber | NegativeDimension

  /** The names that carry their own defocus offset: "comcam" or "lsst"
      followed by exactly two characters. */
  predicate NamesOffset(instruFile: string) {
    (Head(instruFile, 6) == "comcam" && |instruFile| == 8)
    || (Head(instruFile, 4) == "lsst" && |instruFile| == 6)
  }

  /** The intra/extra defocus offsets in millimetres. */
  function OffsetOf(instruFile: string): (r: Result<(real, real), WfsError>)
    ensures r.Ok? ==> r.value.0 == -r.value.1
    ensures !NamesOffset(instruFile) ==> r == Ok((-1.5, 1.5))
    // a name with a suffix fails exactly when the suffix is not a float,
    // and otherwise gives the suffix's value over ten
    ensures NamesOffset(instruFile) ==> (r.Err? <==> PyFloat(Tail(instruFile, 2)).None?)
    ensures NamesOffset(instruFile) && r.Ok? ==> r.value.1 == PyFloat(Tail(instruFile, 2)).value / 10.0
  {
    if NamesOffset(instruFile) then
      match PyFloat(Tail(instruFile, 2))
      case None => Err(OffsetNotANumber)
      case Some(v) => Ok((-(v / 10.0), v / 10.0))
    else Ok((-1.5, 1.5))
  }

  /** "lsst10", "comcam15": the trailing two digits d give the offsets
      -d/10 and d/10. */
  lemma OffsetFromDigits(prefix: string, d1: char, d2: char)
    requires prefix == "comcam" || prefix == "lsst"
    requires IsDigit(d1) && IsDigit(d2)
    ensures var d := (10 * DigitValue(d1) + DigitValue(d2)) as real;
            OffsetOf(prefix + [d1, d2]) == Ok((-(d / 10.0), d / 10.0))
  {
    var name := prefix + [d1, d2];
    var t := [d1, d2];
    assert Tail(name, 2) == t;
    assert Head(name, |prefix|) == prefix;
    assert NamesOffset(name);
    StripUnchanged(t);
    assert Strip(t) == t;
    assert IndexOf(t, '.') == None;
    assert AllDigits(t);
    assert t[..1] == [d1];
    assert [d1][..0] == [];
    assert DigitsValue([d1]) == DigitValue(d1);
    assert DigitsValue(t) == DigitsValue(t[..1]) * 10 + DigitValue(t[1]);
    assert DigitsValue(t) == 10 * DigitValue(d1) + DigitValue(d2);
    assert UnsignedDecimal(t) == Some((10 * DigitValue(d1) + DigitValue(d2)) as real);
    assert PyFloat(t) == UnsignedDecimal(t);
  }

  /** The data directory name: the instrument name without its trailing
      two digits, when they are digits. */
  function BaseName(instruFile: string): (r: string)
    ensures StartsWith(instruFile, r) && |instruFile| - 2 <= |r|
  {
    var t := Tail(instruFile, 2);
    if t != [] && AllDigits(t) then instruFile[..SliceBound(-2, |instruFile|)] else instruFile
  }

  lemma BaseNameDropsDigits(name: string, d1: char, d2: char)
    requires IsDigit(d1) && IsDigit(d2)
    ensures BaseName(name + [d1, d2]) == name
  {
    assert Tail(name + [d1, d2], 2) == [d1, d2];
  }

  /** A name whose last two characters are not all digits is kept, even
      when it ends in one digit ("t5".isdigit() is false). */
  lemma BaseNameKeeps(name: string)
    requires Tail(name, 2) == [] || !AllDigits(Tail(name, 2))
    ensures BaseName(name) == name
  {
  }

  /** A name ending in a letter and one digit keeps the digit. */
  lemma BaseNameKeepsOneDigit(name: string, c: char, d: char)
    requires !IsDigit(c) && IsDigit(d)
    ensures BaseName(name + [c, d]) == name + [c, d]
  {
    var t := Tail(name + [c, d], 2);
    assert t == [c, d];
    assert !AllDigits(t) by {
      assert t[0] == c;
    }
    BaseNameKeeps(name + [c, d]);
  }

  // ---------------------------------------------------------------------
  // Covariance matrix

  lemma PositiveFactor(i: nat, n: nat, r: nat)
    requires i < n * r
    ensures r > 0
  {
  }

  /** np.tile(m, (n, n)) */
  function Tile(m: Matrix, n: nat): (t: Matrix)
    ensures t.rows == n * m.rows && t.cols == n * m.cols
  {
    var rows, cols := n * m.rows, n * m.cols;
    RawMatrix(rows, cols, seq(rows, i requires 0 <= i < rows =>
      seq(cols, j requires 0 <= j < cols =>
        PositiveFactor(i, n, m.rows); PositiveFactor(j, n, m.cols);
        m.at[i % m.rows][j % m.cols])))
  }

  /** ceil(a / 4) for a >= 0 */
  function CeilQuarter(a: nat): (q: nat)
    ensures 4 * q >= a && 4 * (q - 1) < a
  {
    (a + 3) / 4
  }

  function Scale(m: Matrix, c: real): (s: Matrix)
    ensures s.rows == m.rows && s.cols == m.cols
    ensures forall i, j :: 0 <= i < m.rows && 0 <= j < m.cols ==> s.at[i][j] == c * m.at[i][j]
  {
    RawMatrix(m.rows, m.cols, seq(m.rows, i requires 0 <= i < m.rows =>
      seq(m.cols, j requires 0 <= j < m.cols => c * m.at[i][j])))
  }

  /** Lines 63-69: more than four sensors tile the covariance matrix
      ceil(nWFS / 4) times along both axes and keep its first
      znwcs3 * nWFS rows and columns; the result is scaled from nm^2 to
      um^2. */
  function Covariance(covM: Matrix, nWFS: nat, znwcs3: int): Matrix {
    var c := if nWFS > 4 then
               var k := znwcs3 * nWFS;
               Crop(Tile(covM, CeilQuarter(nWFS)), 0, k, 0, k)
             else covM;
    Scale(c, 0.000001)
  }

  /** With enough copies to cover it, the covariance of nWFS > 4 sensors is
      square of side znwcs3 * nWFS, and entry (i, j) is the original entry
      (i mod R, j mod C) in um^2. */
  lemma CovarianceTiles(covM: Matrix, nWFS: nat, znwcs3: nat, i: nat, j: nat)
    requires nWFS > 4 && covM.rows > 0 && covM.cols > 0
    requires znwcs3 * nWFS <= CeilQuarter(nWFS) * covM.rows
    requires znwcs3 * nWFS <= CeilQuarter(nWFS) * covM.cols
    requires i < znwcs3 * nWFS && j < znwcs3 * nWFS
    ensures var c := Covariance(covM, nWFS, znwcs3);
            c.rows == c.cols == znwcs3 * nWFS
            && c.at[i][j] == 0.000001 * covM.at[i % covM.rows][j % covM.cols]
  {
    var k := znwcs3 * nWFS;
    var t := Tile(covM, CeilQuarter(nWFS));
    CropInside(t, 0, k, 0, k);
  }

  /** Four sensors or fewer keep the matrix as read, in um^2. */
  lemma CovarianceUntiled(covM: Matrix, nWFS: nat, znwcs3: int)
    requires nWFS <= 4
    ensures Covariance(covM, nWFS, znwcs3) == Scale(covM, 0.000001)
  {
  }

  /** What the constructor derives from the instrument name, the
      algorithm's number of Zernike terms and the covariance file. */
  datatype WfsConfig = WfsConfig(
    layout: Layout,
    offset: (real, real),
    baseName: string,
    znwcs3: int,
    covM: Matrix)

  function Configure(instruFile: string, numTerms: int, covM86: Matrix): (r: Result<WfsConfig, WfsError>)
    ensures OffsetOf(instruFile).Err? ==> r == Err(OffsetNotANumber)
    ensures OffsetOf(instruFile).Ok? && numTerms < 3 ==> r == Err(NegativeDimension)
    ensures r.Ok? <==> OffsetOf(instruFile).Ok? && numTerms >= 3
    ensures r.Ok? ==>
              r.value.layout == LayoutOf(instruFile)
              && r.value.offset == OffsetOf(instruFile).value
              && r.value.baseName == BaseName(instruFile)
              && r.value.znwcs3 == numTerms - 3
              && r.value.covM == Covariance(covM86, r.value.layout.nWFS, numTerms - 3)
  {
    var layout := LayoutOf(instruFile);
    var offset :- OffsetOf(instruFile);
    if numTerms - 3 < 0 then Err(NegativeDimension)
    else Ok(WfsConfig(layout, offset, BaseName(instruFile), numTerms - 3,
                 Covariance(covM86, layout.nWFS, numTerms - 3)))
  }

  // ---------------------------------------------------------------------
  // Stamp windows (preprocess, lines 95-125)

  /** 0.020 deg at 180000 um per deg and 10 um pixels. */
  const Pull: int := 360

  /** The reference column of a stamp: lsst pulls the intra image (C0)
      360 pixels in from the chip's right edge and the extra image (C1)
      360 pixels out of its left edge; comcam keeps px0; any other
      instrument never assigns px. */
  function StampX(inst: string, intra: bool, px0: int, chipWidth: int): (r: Option<int>)
    ensures StartsWith(inst, "lsst") ==> r == Some(if intra then px0 - Pull else px0 + Pull - chipWidth)
    ensures !StartsWith(inst, "lsst") && StartsWith(inst, "comcam") ==> r == Some(px0)
    ensures !StartsWith(inst, "lsst") && !StartsWith(inst, "comcam") ==> r.None?
  {
    HeadIsPrefix(inst, "lsst");
    HeadIsPrefix(inst, "comcam");
    if Head(inst, 4) == "lsst" then Some(if intra then px0 - Pull else px0 + Pull - chipWidth)
    else if Head(inst, 6) == "comcam" then Some(px0)
    else None
  }

  /** The extra-focal stamp sits 2 * 360 pixels minus the chip width to the
      right of the intra-focal one. */
  lemma StampXSeparation(inst: string, px0: int, chipWidth: int)
    requires StartsWith(inst, "lsst")
    ensures StampX(inst, false, px0, chipWidth).value - StampX(inst, true, px0, chipWidth).value == 2 * Pull - chipWidth
  {
  }

  /** [max(0, p - 2s), p + 2s): the oversized window along one axis, four
      stamps wide, clipped at the chip's first pixel. */
  function WideWindow(p: int, s: int): (w: (int, int))
    ensures w.0 >= 0 && w.0 >= p - 2 * s && w.1 == p + 2 * s
    ensures p - 2 * s >= 0 ==> w.1 - w.0 == 4 * s
  {
    (Max(0, p - 2 * s), p + 2 * s)
  }

  /** The shift from p to the centroid c found inside the wide window.
      Whether or not the window was clipped, p + offset is the centroid's
      position on the chip plus one. */
  function CentroidOffset(p: int, s: int, c: real): (off: real)
    ensures p as real + off == WideWindow(p, s).0 as real + c + 1.0
    ensures p - 2 * s < 0 ==> off == c - (2 * s) as real + 1.0 + (2 * s - p) as real
  {
    var off := c - (2 * s) as real + 1.0;
    if p - 2 * s < 0 then off - (p - 2 * s) as real else off
  }

  /** int() of a float: truncation toward zero. */
  function Trunc(x: real): int {
    if x >= 0.0 then x.Floor else -((-x).Floor)
  }

  /** [int(p - s/2 + off), int(p + s/2 + off)): the final stamp window. */
  function StampWindow(p: int, s: int, off: real): (int, int) {
    (Trunc(p as real - s as real / 2.0 + off), Trunc(p as real + s as real / 2.0 + off))
  }

  /** Away from the chip's first pixel, the final window holds exactly s
      pixels and is placed around the centroid whatever the clipping of the
      wide window. */
  lemma StampWindowCentred(p: int, s: nat, c: real)
    requires p as real - s as real / 2.0 + CentroidOffset(p, s, c) >= 0.0
    ensures var a := WideWindow(p, s).0 as real + c + 1.0;
            var w := StampWindow(p, s, CentroidOffset(p, s, c));
            w.1 - w.0 == s
            && w.0 == (a - s as real / 2.0).Floor
  {
    var off := CentroidOffset(p, s, c);
    var lo := p as real - s as real / 2.0 + off;
    assert p as real + s as real / 2.0 + off == lo + s as real;
    FloorShift(lo, s);
  }

  lemma FloorShift(x: real, n: nat)
    ensures (x + n as real).Floor == x.Floor + n
  {
  }

  // ---------------------------------------------------------------------
  // Corner-raft reorientation (lines 127-139)

  /** np.flipud */
  function FlipUd(m: Matrix): (f: Matrix)
    ensures f.rows == m.rows && f.cols == m.cols
    ensures forall i, j :: 0 <= i < m.rows && 0 <= j < m.cols ==> f.at[i][j] == m.at[m.rows - 1 - i][j]
  {
    RawMatrix(m.rows, m.cols, seq(m.rows, i requires 0 <= i < m.rows => m.at[m.rows - 1 - i]))
  }

  /** np.rot90 with k = 1: a quarter turn counter-clockwise of the array. */
  function RotQuarter(m: Matrix): (r: Matrix)
    ensures r.rows == m.cols && r.cols == m.rows
    ensures forall i, j :: 0 <= i < m.cols && 0 <= j < m.rows ==> r.at[i][j] == m.at[j][m.cols - 1 - i]
  {
    RawMatrix(m.cols, m.rows, seq(m.cols, i requires 0 <= i < m.cols =>
      seq(m.rows, j requires 0 <= j < m.rows => m.at[j][m.cols - 1 - i])))
  }

  /** np.rot90(m, k) */
  function Rot90(m: Matrix, k: nat): Matrix
    decreases k
  {
    if k == 0 then m else Rot90(RotQuarter(m), k - 1)
  }

  /** flipud(rot90(flipud(psf), k)) */
  function Reorient(m: Matrix, k: nat): Matrix {
    FlipUd(Rot90(FlipUd(m), k))
  }

  /** k = 2 turns the stamp half way round: same shape, pixel (i, j) from
      (R-1-i, C-1-j). */
  lemma ReorientHalf(m: Matrix)
    ensures var r := Reorient(m, 2);
            r.rows == m.rows && r.cols == m.cols
            && forall i, j :: 0 <= i < m.rows && 0 <= j < m.cols ==> r.at[i][j] == m.at[m.rows - 1 - i][m.cols - 1 - j]
  {
    var f := FlipUd(m);
    assert Rot90(f, 2) == RotQuarter(RotQuarter(f));
  }

  /** k = 1: transposed shape, pixel (i, j) from (R-1-j, i). */
  lemma ReorientOne(m: Matrix)
    ensures var r := Reorient(m, 1);
            r.rows == m.cols && r.cols == m.rows
            && forall i, j :: 0 <= i < m.cols && 0 <= j < m.rows ==> r.at[i][j] == m.at[m.rows - 1 - j][i]
  {
    var f := FlipUd(m);
    assert Rot90(f, 1) == RotQuarter(f);
  }

  /** k = 3: transposed shape, pixel (i, j) from (j, C-1-i). */
  lemma ReorientThree(m: Matrix)
    ensures var r := Reorient(m, 3);
            r.rows == m.cols && r.cols == m.rows
            && forall i, j :: 0 <= i < m.cols && 0 <= j < m.rows ==> r.at[i][j] == m.at[j][m.cols - 1 - i]
  {
    var f := FlipUd(m);
    assert Rot90(f, 3) == RotQuarter(RotQuarter(RotQuarter(f)));
  }

  /** The reorientations only move pixels: k = 2 undoes itself ... */
  lemma ReorientHalfInvolution(m: Matrix)
    ensures Reorient(Reorient(m, 2), 2) == m
  {
    ReorientHalf(m);
    ReorientHalf(Reorient(m, 2));
    MatrixExt(Reorient(Reorient(m, 2), 2), m);
  }

  /** ... and k = 1 and k = 3 undo each other, so every pixel lands on
      exactly one position. */
  lemma ReorientQuarterInverse(m: Matrix)
    ensures Reorient(Reorient(m, 1), 3) == m
    ensures Reorient(Reorient(m, 3), 1) == m
  {
    ReorientOneThree(m);
    ReorientThreeOne(m);
  }

  lemma ReorientOneThree(m: Matrix)
    ensures Reorient(Reorient(m, 1), 3) == m
  {
    ReorientOne(m);
    ReorientThree(Reorient(m, 1));
    QuarterTurnsCancel(m, Reorient(m, 1), Reorient(Reorient(m, 1), 3));
  }

  /** The quarter turn k = 1 followed by the quarter turn k = 3, stated
      entry by entry, gives back the original. */
  lemma QuarterTurnsCancel(m: Matrix, n: Matrix, r: Matrix)
    requires n.rows == m.cols && n.cols == m.rows
    requires forall i, j :: 0 <= i < m.cols && 0 <= j < m.rows ==> n.at[i][j] == m.at[m.rows - 1 - j][i]
    requires r.rows == n.cols && r.cols == n.rows
    requires forall i, j :: 0 <= i < n.cols && 0 <= j < n.rows ==> r.at[i][j] == n.at[j][n.cols - 1 - i]
    ensures r == m
  {
    forall i, j | 0 <= i < r.rows && 0 <= j < r.cols
      ensures r.at[i][j] == m.at[i][j]
    {
      assert r.at[i][j] == n.at[j][m.rows - 1 - i];
    }
    MatrixExt(r, m);
  }

  lemma ReorientThreeOne(m: Matrix)
    ensures Reorient(Reorient(m, 3), 1) == m
  {
    ReorientThree(m);
    ReorientOne(Reorient(m, 3));
    MatrixExt(Reorient(Reorient(m, 3), 1), m);
  }

  /** Which turn an lsst corner field needs: nField -> 2, nField + 1 -> 3,
      nField + 3 -> 1; every other field and instrument keeps its stamp. */
  function OrientStamp(inst: string, iField: int, nField: int, psf: Matrix): (r: Matrix)
    ensures !StartsWith(inst, "lsst") ==> r == psf
    ensures iField != nField && iField != nField + 1 && iField != nField + 3 ==> r == psf
    ensures iField == nField ==> r.rows == psf.rows && r.cols == psf.cols
    ensures StartsWith(inst, "lsst") && (iField == nField + 1 || iField == nField + 3) ==>
              r.rows == psf.cols && r.cols == psf.rows
    // nField is turned half way round
    ensures StartsWith(inst, "lsst") && iField == nField ==>
              forall i, j :: 0 <= i < psf.rows && 0 <= j < psf.cols ==>
                r.at[i][j] == psf.at[psf.rows - 1 - i][psf.cols - 1 - j]
    // nField + 1 takes pixel (i, j) from (j, C-1-i)
    ensures StartsWith(inst, "lsst") && iField == nField + 1 ==>
              forall i, j :: 0 <= i < psf.cols && 0 <= j < psf.rows ==>
                r.at[i][j] == psf.at[j][psf.cols - 1 - i]
    // nField + 3 takes pixel (i, j) from (R-1-j, i)
    ensures StartsWith(inst, "lsst") && iField == nField + 3 ==>
              forall i, j :: 0 <= i < psf.cols && 0 <= j < psf.rows ==>
                r.at[i][j] == psf.at[psf.rows - 1 - j][i]
  {
    HeadIsPrefix(inst, "lsst");
    ReorientHalf(psf);
    ReorientOne(psf);
    ReorientThree(psf);
    if Head(inst, 4) != "lsst" then psf
    else if iField == nField then Reorient(psf, 2)
    else if iField == nField + 1 then Reorient(psf, 3)
    else if iField == nField + 3 then Reorient(psf, 1)
    else psf
  }

  /** The corner stamps are only turned, never altered: the opposite turn
      gives the stamp as cut from the chip. */
  lemma OrientStampUndo(inst: string, iField: int, nField: int, psf: Matrix)
    requires StartsWith(inst, "lsst")
    ensures iField == nField ==> Reorient(OrientStamp(inst, iField, nField, psf), 2) == psf
    ensures iField == nField + 1 ==> Reorient(OrientStamp(inst, iField, nField, psf), 1) == psf
    ensures iField == nField + 3 ==> Reorient(OrientStamp(inst, iField, nField, psf), 3) == psf
  {
    HeadIsPrefix(inst, "lsst");
    ReorientHalfInvolution(psf);
    ReorientQuarterInverse(psf);
  }
}
