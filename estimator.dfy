/** The estimator object of aosEstimator.py: reading the parameter file,
    building the sensitivity model, and turning wavefront measurements into
    an estimate of the degrees of freedom. */
module Estimator {
  import opened Wrappers
  import opened PyText
  import opened Matrices
  import opened EstimatorParams
  import opened Sensitivity

  // ---------------------------------------------------------------------
  // Vector arithmetic of estimate()

  /** What numpy's in-place `y -= d` / `y += d` accept for two column
      vectors: equal lengths, or a one-entry right-hand side that is
      repeated. None is the broadcasting error. */
  function Broadcast(d: Vector, n: nat): (r: Option<Vector>)
    ensures r.Some? <==> |d| == n || |d| == 1
    ensures r.Some? ==> |r.value| == n
    ensures r.Some? ==> forall i :: 0 <= i < n ==> r.value[i] == if |d| == n then d[i] else d[0]
  {
    if |d| == n then Some(d)
    else if |d| == 1 then Some(seq(n, i => d[0]))
    else None
  }

  function Minus(a: Vector, b: Vector): (r: Vector)
    requires |a| == |b|
    ensures |r| == |a| && forall i :: 0 <= i < |a| ==> r[i] == a[i] - b[i]
  {
    seq(|a|, i requires 0 <= i < |a| => a[i] - b[i])
  }

  function Negated(a: Vector): (r: Vector)
    ensures |r| == |a| && forall i :: 0 <= i < |a| ==> r[i] == -a[i]
  {
    seq(|a|, i requires 0 <= i < |a| => -a[i])
  }

  function Plus(a: Vector, b: Vector): (r: Vector)
    requires |a| == |b|
    ensures |r| == |a| && forall i :: 0 <= i < |a| ==> r[i] == a[i] + b[i]
  {
    seq(|a|, i requires 0 <= i < |a| => a[i] + b[i])
  }

  /** aa[-4:, 3:znMax].reshape((-1, 1)): the Zernike terms from the fourth
      on of the last four rows of the measurement file, row after row. */
  function Measurement(aa: Matrix, znMax: int): Vector {
    Flatten(Crop(aa, -4, aa.rows, 3, znMax).at)
  }

  /** With at least four rows and 3 <= znMax <= columns, the measurement
      vector lists, for each of the four corner sensors q, its terms 4 to
      znMax at q * (znMax - 3). */
  lemma MeasurementEntries(aa: Matrix, znMax: int, q: nat, j: nat)
    requires 4 <= aa.rows && 3 <= znMax <= aa.cols
    requires q < 4 && j < znMax - 3
    ensures |Measurement(aa, znMax)| == 4 * (znMax - 3)
    ensures q * (znMax - 3) + j < 4 * (znMax - 3)
    ensures Measurement(aa, znMax)[q * (znMax - 3) + j] == aa.at[aa.rows - 4 + q][3 + j]
  {
    var c := Crop(aa, aa.rows - 4, aa.rows, 3, znMax);
    assert SliceBound(-4, aa.rows) == aa.rows - 4;
    assert Crop(aa, -4, aa.rows, 3, znMax) == c;
    CropInside(aa, aa.rows - 4, aa.rows, 3, znMax);
    FlattenEntry(c.at, znMax - 3, q, j);
  }

  // ---------------------------------------------------------------------
  // estimate() as a function of the state before the call

  /** The exceptions estimate() can raise. */
  datatype EstimateError =
    | NoMeasurement       // yfinal was never assigned (sensoroff false on the first call)
    | NoInverse           // Ainv exists only for the "pinv" strategy
    | MaskLength          // a boolean mask whose length differs from the indexed vector
    | BroadcastMismatch   // `-=` / `+=` on column vectors of incompatible lengths

  /** The attributes estimate() writes, and the exception it stopped with. */
  datatype Outcome = Outcome(yfinal: Option<Vector>, xhat: Option<Vector>, yresi: Option<Vector>, failure: Option<EstimateError>)

  /** What the construction guarantees about the settings and the model
      estimate() uses: the masks and znmax are set, zn3IdxAx4 repeats every
      zn3Idx entry four times, Anorm has one column per true compIdx entry
      and one row per true zn3IdxAx4 entry, and Ainv, when present, has the
      transposed shape. */
  predicate Fits(m: Model, s: Settings) {
    s.compIdx.Some? && s.zn3Idx.Some? && s.znMax.Some?
    && m.ndofA > 0
    && m.zn3IdxAx4 == Repeat4(s.zn3Idx.value)
    && m.anorm.cols == CountTrue(s.compIdx.value)
    && m.anorm.rows == CountTrue(m.zn3IdxAx4)
    && (m.ainv.Some? ==> m.ainv.value.rows == m.anorm.cols && m.ainv.value.cols == m.anorm.rows)
  }

  /** The vector yfinal holds when the subtraction starts: a fresh
      measurement on the sensor-off path, else what the last call left. */
  function Observed(s: Settings, before: Outcome, sensorOff: Option<Matrix>): Option<Vector>
    requires s.znMax.Some?
  {
    if sensorOff.Some? then Some(Measurement(sensorOff.value, s.znMax.value)) else before.yfinal
  }

  /** Lines 113-121, statement by statement; every attribute assigned before
      the failing statement keeps its new value. */
  function EstimateSpec(m: Model, s: Settings, before: Outcome, sensorOff: Option<Matrix>, intrinsic: Vector): Outcome
    requires Fits(m, s)
  {
    var compIdx := s.compIdx.value;
    var y0 := Observed(s, before, sensorOff);
    if y0.None? then before.(failure := Some(NoMeasurement))
    else
      var d := Broadcast(intrinsic, |y0.value|);
      if d.None? then before.(yfinal := y0, failure := Some(BroadcastMismatch))
      else
        var y := Minus(y0.value, d.value);
        var zeros := ZeroVector(m.ndofA);
        if m.ainv.None? then Outcome(Some(y), Some(zeros), before.yresi, Some(NoInverse))
        else if |m.zn3IdxAx4| != |y| || |compIdx| != |zeros| then Outcome(Some(y), Some(zeros), before.yresi, Some(MaskLength))
        else
          var x := Scatter(|zeros|, compIdx, MatVec(m.ainv.value, Gather(y, m.zn3IdxAx4)));
          var fit := Broadcast(MatVec(m.anorm, Negated(Gather(x, compIdx))), |y|);
          if fit.None? then Outcome(Some(y), Some(x), Some(y), Some(BroadcastMismatch))
          else Outcome(Some(y), Some(x), Some(Plus(y, fit.value)), None)
  }

  /** estimate() returns exactly when a measurement is available, the
      intrinsic vector broadcasts, the strategy is "pinv", the measurement
      has four entries per zn3Idx entry, compIdx has one entry per degree of
      freedom, and zn3Idx keeps every term: with a term left out the fit
      Anorm * xhat[compIdx] is shorter than yfinal and, its length being a
      multiple of four, never broadcasts. */
  lemma EstimateSucceeds(m: Model, s: Settings, before: Outcome, sensorOff: Option<Matrix>, intrinsic: Vector)
    requires Fits(m, s)
    ensures var y0 := Observed(s, before, sensorOff);
            var zn3Idx := s.zn3Idx.value;
            EstimateSpec(m, s, before, sensorOff, intrinsic).failure.None? <==>
              y0.Some?
              && (|intrinsic| == |y0.value| || |intrinsic| == 1)
              && m.ainv.Some?
              && |y0.value| == 4 * |zn3Idx|
              && |s.compIdx.value| == m.ndofA
              && forall i :: 0 <= i < |zn3Idx| ==> zn3Idx[i]
  {
    var zn3Idx := s.zn3Idx.value;
    var compIdx := s.compIdx.value;
    Repeat4Entries(zn3Idx);
    var y0 := Observed(s, before, sensorOff);
    if y0.Some? && Broadcast(intrinsic, |y0.value|).Some? && m.ainv.Some?
       && |m.zn3IdxAx4| == |y0.value| && |compIdx| == m.ndofA
    {
      var y := Minus(y0.value, Broadcast(intrinsic, |y0.value|).value);
      var x := Scatter(m.ndofA, compIdx, MatVec(m.ainv.value, Gather(y, m.zn3IdxAx4)));
      var g := MatVec(m.anorm, Negated(Gather(x, compIdx)));
      assert EstimateSpec(m, s, before, sensorOff, intrinsic).failure.None? <==> Broadcast(g, |y|).Some?;
      Repeat4Count(zn3Idx);
      FitBroadcasts(g, y, zn3Idx);
    } else {
      assert EstimateSpec(m, s, before, sensorOff, intrinsic).failure.Some?;
    }
  }

  /** The fit, with four terms per kept zn3Idx entry, broadcasts to yfinal,
      with four terms per zn3Idx entry, exactly when every entry is kept. */
  lemma FitBroadcasts(g: Vector, y: Vector, zn3Idx: seq<bool>)
    requires |g| == 4 * CountTrue(zn3Idx) && |y| == 4 * |zn3Idx|
    ensures Broadcast(g, |y|).Some? <==> forall i :: 0 <= i < |zn3Idx| ==> zn3Idx[i]
  {
    AllTrueCount(zn3Idx);
  }

  /** A mask has as many true entries as entries exactly when every entry
      is true. */
  lemma {:induction false} AllTrueCount(mask: seq<bool>)
    ensures CountTrue(mask) == |mask| <==> forall i :: 0 <= i < |mask| ==> mask[i]
    decreases |mask|
  {
    if mask != [] {
      var n := |mask| - 1;
      AllTrueCount(mask[..n]);
      assert forall i :: 0 <= i < n ==> mask[..n][i] == mask[i];
    }
  }

  /** Once line 119 runs (a measurement, an intrinsic vector that
      broadcasts, Ainv, and masks that fit), the estimate is zero at every
      degree of freedom compIdx leaves out and holds Ainv times the used
      terms of yfinal at the ones it keeps, whether the call then returns or
      the residual at line 121 fails to broadcast. */
  lemma EstimateScatters(m: Model, s: Settings, before: Outcome, sensorOff: Option<Matrix>, intrinsic: Vector)
    requires Fits(m, s)
    requires Observed(s, before, sensorOff).Some?
    requires |intrinsic| == |Observed(s, before, sensorOff).value| || |intrinsic| == 1
    requires m.ainv.Some?
    requires |m.zn3IdxAx4| == |Observed(s, before, sensorOff).value| && |s.compIdx.value| == m.ndofA
    ensures var o := EstimateSpec(m, s, before, sensorOff, intrinsic);
            var compIdx := s.compIdx.value;
            (o.failure.None? || o.failure == Some(BroadcastMismatch))
            && o.yfinal.Some? && o.xhat.Some? && m.ainv.Some?
            && |o.xhat.value| == m.ndofA == |compIdx|
            && |o.yfinal.value| == |m.zn3IdxAx4|
            && (forall i :: 0 <= i < m.ndofA && !compIdx[i] ==> o.xhat.value[i] == 0.0)
            && Gather(o.xhat.value, compIdx) == MatVec(m.ainv.value, Gather(o.yfinal.value, m.zn3IdxAx4))
            // when line 121 raises, yresi is left as the copy of yfinal
            && (o.failure.Some? ==> o.yresi == o.yfinal)
  {
    var o := EstimateSpec(m, s, before, sensorOff, intrinsic);
    var y := o.yfinal.value;
    GatherScatter(m.ndofA, s.compIdx.value, MatVec(m.ainv.value, Gather(y, m.zn3IdxAx4)));
  }

  /** Line 117 subtracts the intrinsic aberrations from the measurement:
      entry by entry when the lengths agree, and the one entry from every
      term when intrinsic has length 1. Any other length raises at line 117
      and leaves yfinal as the measurement, not yet subtracted. */
  lemma EstimateSubtracts(m: Model, s: Settings, before: Outcome, sensorOff: Option<Matrix>, intrinsic: Vector)
    requires Fits(m, s)
    requires Observed(s, before, sensorOff).Some?
    ensures var y0 := Observed(s, before, sensorOff).value;
            var o := EstimateSpec(m, s, before, sensorOff, intrinsic);
            (|intrinsic| == |y0| || |intrinsic| == 1) ==>
              o.yfinal.Some? && |o.yfinal.value| == |y0|
              && forall i :: 0 <= i < |y0| ==>
                   o.yfinal.value[i] == y0[i] - (if |intrinsic| == |y0| then intrinsic[i] else intrinsic[0])
    ensures var y0 := Observed(s, before, sensorOff).value;
            var o := EstimateSpec(m, s, before, sensorOff, intrinsic);
            !(|intrinsic| == |y0| || |intrinsic| == 1) ==>
              o.yfinal == Some(y0) && o.failure == Some(BroadcastMismatch)
  {
  }

  /** The residual is yfinal minus the fit Anorm * xhat[compIdx]. */
  lemma EstimateResidual(m: Model, s: Settings, before: Outcome, sensorOff: Option<Matrix>, intrinsic: Vector)
    requires Fits(m, s)
    requires EstimateSpec(m, s, before, sensorOff, intrinsic).failure.None?
    ensures var o := EstimateSpec(m, s, before, sensorOff, intrinsic);
            var compIdx := s.compIdx.value;
            o.yfinal.Some? && o.xhat.Some? && o.yresi.Some?
            && |o.xhat.value| == |compIdx|
            && |o.yresi.value| == |o.yfinal.value| == m.anorm.rows
            && forall i :: 0 <= i < |o.yresi.value| ==>
                 o.yresi.value[i] == o.yfinal.value[i] - MatVec(m.anorm, Gather(o.xhat.value, compIdx))[i]
  {
    var o := EstimateSpec(m, s, before, sensorOff, intrinsic);
    var y := o.yfinal.value;
    var x := o.xhat.value;
    var g := Gather(x, s.compIdx.value);
    var fit := MatVec(m.anorm, g);
    Repeat4Count(s.zn3Idx.value);
    forall i | 0 <= i < |y|
      ensures o.yresi.value[i] == y[i] - fit[i]
    {
      DotNegated(m.anorm.at[i], g);
    }
  }

  lemma {:induction false} DotNegated(a: Vector, b: Vector)
    requires |a| == |b|
    ensures Dot(a, Negated(b)) == -Dot(a, b)
    decreases |a|
  {
    if a != [] {
      var n := |a| - 1;
      assert Negated(b)[..n] == Negated(b[..n]);
      DotNegated(a[..n], b[..n]);
    }
  }

  /** Without a new measurement file, each call subtracts the intrinsic
      aberration from the yfinal the previous call left: two calls subtract
      it twice. */
  lemma RepeatedSubtraction(m: Model, s: Settings, before: Outcome, intrinsic: Vector)
    requires Fits(m, s)
    requires before.yfinal.Some? && |intrinsic| == |before.yfinal.value|
    ensures var first := EstimateSpec(m, s, before, None, intrinsic);
            var second := EstimateSpec(m, s, first, None, intrinsic);
            first.yfinal.Some? && second.yfinal.Some?
            && |second.yfinal.value| == |before.yfinal.value|
            && forall i :: 0 <= i < |intrinsic| ==>
                 second.yfinal.value[i] == before.yfinal.value[i] - 2.0 * intrinsic[i]
  {
  }

  // ---------------------------------------------------------------------
  // The object

  /** The outcome of a step of the reader: the exception it raised, if any,
      else the state it leaves. */
  function Raised<T>(err: Option<ConfigError>, v: T): Result<T, ConfigError> {
    if err.Some? then Err(err.value) else Ok(v)
  }

  /** Errors of the constructor: the parameter file or the matrix build. */
  datatype InitError = ConfigFailure(config: ConfigError) | BuildFailure(build: BuildError)

  class AosEstimator {
    /** The attributes the parameter file assigns. */
    var settings: Settings
    /** zn3Max, ndofA, senM, A, zn3IdxAx4, Ause, Anorm and Ainv, once built. */
    var model: Option<Model>
    var yfinal: Option<Vector>
    var xhat: Option<Vector>
    var yresi: Option<Vector>

    /** What the construction guarantees for estimate(). */
    predicate Valid()
      reads this
    {
      model.Some? ==> Fits(model.value, settings)
    }

    constructor()
      ensures settings == NoSettings && model.None?
      ensures yfinal.None? && xhat.None? && yresi.None?
      ensures Valid()
    {
      settings := NoSettings;
      model := None;
      yfinal := None;
      xhat := None;
      yresi := None;
    }

    /** Lines 14-64: the parameter file, line after line. The settings end
        as the fold of Step over the lines leaves them, and the first
        exception is the one reported. */
    method ReadParams(lines: seq<string>, icompArg: Option<int>, izn3Arg: Option<int>) returns (err: Option<ConfigError>)
      modifies this`settings
      ensures var r := Run(Initial, lines, icompArg, izn3Arg);
              (r.Ok? ==> err.None? && settings == r.value.settings)
              && (r.Err? ==> err == Some(r.error))
    {
      settings := NoSettings;
      var inComment := false;
      var cursor: Option<Cursor> := None;
      var i := 0;
      while i < |lines|
        invariant i <= |lines|
        invariant Run(Initial, lines, icompArg, izn3Arg) ==
                  Run(ParseState(settings, inComment, cursor), lines[i..], icompArg, izn3Arg)
      {
        assert lines[i..][0] == lines[i] && lines[i..][1..] == lines[i + 1..];
        var e: Option<ConfigError>;
        e, inComment, cursor := ReadLine(lines[i], inComment, cursor, icompArg, izn3Arg);
        if e.Some? {
          return e;
        }
        i := i + 1;
      }
      err := None;
    }

    /** One pass of the loop body: strip the line, toggle the block-comment
        flag on "###", skip comments and blank lines, and hand key lines and
        option lines on. */
    method ReadLine(raw: string, inComment: bool, cursor: Option<Cursor>, icompArg: Option<int>, izn3Arg: Option<int>)
      returns (err: Option<ConfigError>, inComment': bool, cursor': Option<Cursor>)
      modifies this`settings
      ensures Step(ParseState(old(settings), inComment, cursor), raw, icompArg, izn3Arg) ==
              Raised(err, ParseState(settings, inComment', cursor'))
    {
      err, inComment', cursor' := None, inComment, cursor;
      var line := Strip(raw);
      if StartsWith(line, "###") {
        inComment' := !inComment';
      }
      ghost var r := Step(ParseState(settings, inComment, cursor), raw, icompArg, izn3Arg);
      ghost var st := ParseState(settings, inComment', cursor);
      if !StartsWith(line, "#") && !inComment' && line != [] {
        assert st == ParseState(settings, false, cursor);
        var key := KeyOf(line);
        if key.Some? {
          assert r == KeyLine(st, line, key.value, icompArg, izn3Arg);
          err, cursor' := ReadKey(line, key.value, cursor, icompArg, izn3Arg);
        } else {
          assert r == OptionLine(st, line);
          err, cursor' := ReadOptionLine(line, cursor);
        }
      } else {
        assert r == Ok(st);
      }
    }

    /** Lines 22-49: a line that starts with key k assigns that attribute;
        icomp and izn3 also restart the counting of option lines. */
    method ReadKey(line: string, k: Key, cursor: Option<Cursor>, icompArg: Option<int>, izn3Arg: Option<int>)
      returns (err: Option<ConfigError>, cursor': Option<Cursor>)
      modifies this`settings
      ensures KeyLine(ParseState(old(settings), false, cursor), line, k, icompArg, izn3Arg) ==
              Raised(err, ParseState(settings, false, cursor'))
    {
      cursor' := cursor;
      err := None;
      match k
      case StrategyKey =>
        var v := Value(line, k);
        if v.Err? { return Some(v.error), cursor'; }
        settings := settings.(strategy := Some(v.value));
      case SenMFileKey =>
        var v := Value(line, k);
        if v.Err? { return Some(v.error), cursor'; }
        settings := settings.(senMFile := Some(v.value));
      case NB13MaxKey =>
        var n := IntValue(line, k);
        if n.Err? { return Some(n.error), cursor'; }
        settings := settings.(nB13Max := Some(n.value));
      case NB2MaxKey =>
        var n := IntValue(line, k);
        if n.Err? { return Some(n.error), cursor'; }
        settings := settings.(nB2Max := Some(n.value));
      case ZnMaxKey =>
        var n := IntValue(line, k);
        if n.Err? { return Some(n.error), cursor'; }
        settings := settings.(znMax := Some(n.value));
      case NormalizeAKey =>
        var n := IntValue(line, k);
        if n.Err? { return Some(n.error), cursor'; }
        settings := settings.(normalizeA := Some(n.value != 0));
      case NSingularInfKey =>
        var n := IntValue(line, k);
        if n.Err? { return Some(n.error), cursor'; }
        settings := settings.(nSingularInf := Some(n.value));
      case IcompKey =>
        var n := if icompArg.None? then IntValue(line, k) else Ok(icompArg.value);
        if n.Err? { return Some(n.error), cursor'; }
        settings := settings.(icomp := Some(n.value));
        cursor' := Some(Cursor(CompArray, 0));
      case Izn3Key =>
        var n := if izn3Arg.None? then IntValue(line, k) else Ok(izn3Arg.value);
        if n.Err? { return Some(n.error), cursor'; }
        settings := settings.(izn3 := Some(n.value));
        cursor' := Some(Cursor(Zn3Array, 0));
    }

    /** Lines 50-62: any other line. Lines starting with a digit are
        counted; the one whose number is icomp (izn3) becomes compIdx
        (zn3Idx) and stops the counting for that mask. */
    method ReadOptionLine(line: string, cursor: Option<Cursor>) returns (err: Option<ConfigError>, cursor': Option<Cursor>)
      requires line != []
      modifies this`settings
      ensures OptionLine(ParseState(old(settings), false, cursor), line) ==
              Raised(err, ParseState(settings, false, cursor'))
    {
      if cursor.None? {
        return Some(MaskBeforeKey), cursor;
      }
      err := None;
      var count := cursor.value.count;
      if IsDigit(line[0]) {
        count := count + 1;
      }
      if cursor.value.kind == CompArray && settings.icomp == Some(count) {
        settings := settings.(compIdx := Some(MaskOf(line)));
        cursor' := Some(Cursor(NoArray, 0));
      } else if cursor.value.kind == Zn3Array && settings.izn3 == Some(count) {
        settings := settings.(zn3Idx := Some(MaskOf(line)));
        cursor' := Some(Cursor(NoArray, 0));
      } else {
        cursor' := Some(Cursor(cursor.value.kind, count));
      }
    }

    /** Lines 66-110: the model built from the settings just read. */
    method BuildMatrices(table: seq<real>, svd: Matrix -> Svd) returns (err: Option<BuildError>)
      requires SvdWellShaped(svd)
      modifies this`model
      ensures var r := BuildModel(settings, table, svd);
              (r.Ok? ==> err.None? && model == Some(r.value))
              && (r.Err? ==> err == Some(r.error) && model == old(model))
      ensures old(model).None? ==> Valid()
    {
      var r := BuildModel(settings, table, svd);
      if r.Err? {
        return Some(r.error);
      }
      model := Some(r.value);
      err := None;
    }

    /** The constructor: the parameter file, then the matrices. */
    method Load(lines: seq<string>, icompArg: Option<int>, izn3Arg: Option<int>, table: seq<real>, svd: Matrix -> Svd)
      returns (err: Option<InitError>)
      requires SvdWellShaped(svd) && model.None?
      modifies this`settings, this`model
      ensures Valid()
      ensures var r := Run(Initial, lines, icompArg, izn3Arg);
              (r.Err? ==> err == Some(ConfigFailure(r.error)) && model.None?)
              && (r.Ok? ==>
                    var b := BuildModel(r.value.settings, table, svd);
                    settings == r.value.settings
                    && (b.Ok? ==> err.None? && model == Some(b.value))
                    && (b.Err? ==> err == Some(BuildFailure(b.error)) && model.None?))
    {
      var e := ReadParams(lines, icompArg, izn3Arg);
      if e.Some? {
        return Some(ConfigFailure(e.value));
      }
      var b := BuildMatrices(table, svd);
      if b.Some? {
        return Some(BuildFailure(b.value));
      }
      err := None;
    }

    /** Lines 112-121. sensorOff carries the measurement file when the
        sensor-off path reads one. */
    method Estimate(sensorOff: Option<Matrix>, intrinsic: Vector) returns (err: Option<EstimateError>)
      requires Valid() && model.Some?
      modifies this`yfinal, this`xhat, this`yresi
      ensures Outcome(yfinal, xhat, yresi, err) ==
              EstimateSpec(model.value, settings, Outcome(old(yfinal), old(xhat), old(yresi), None), sensorOff, intrinsic)
      ensures Valid()
    {
      var m := model.value;
      var compIdx := settings.compIdx.value;
      if sensorOff.Some? {
        yfinal := Some(Measurement(sensorOff.value, settings.znMax.value));
      }
      if yfinal.None? {
        return Some(NoMeasurement);
      }
      var d := Broadcast(intrinsic, |yfinal.value|);
      if d.None? {
        return Some(BroadcastMismatch);
      }
      yfinal := Some(Minus(yfinal.value, d.value));
      var y := yfinal.value;
      var x := ZeroVector(m.ndofA);
      xhat := Some(x);
      if m.ainv.None? {
        return Some(NoInverse);
      }
      if |m.zn3IdxAx4| != |y| || |compIdx| != |x| {
        return Some(MaskLength);
      }
      x := Scatter(|x|, compIdx, MatVec(m.ainv.value, Gather(y, m.zn3IdxAx4)));
      xhat := Some(x);
      yresi := Some(y);
      var fit := Broadcast(MatVec(m.anorm, Negated(Gather(x, compIdx))), |y|);
      if fit.None? {
        return Some(BroadcastMismatch);
      }
      yresi := Some(Plus(y, fit.value));
      err := None;
    }
  }
}
