/** The wavefront-sensor catalog of aosWFS.py: preprocess() writes one line
    per usable corner star, parallelCwfs() reads the lines back into solver
    tasks, and runcwfs() turns each solution into a row of the result
    table. Field positions are integers in micro-degrees, the resolution of
    the '%9.6f' format the catalog is written with. */
module WfsCatalog {
  import opened Wrappers
  import opened PyText
  import opened PyNumbers
  import WfsGeometry

  // ---------------------------------------------------------------------
  // Writing the catalog (preprocess, lines 207-242)

  /** A field point in micro-degrees. */
  datatype Point = Point(x: int, y: int)

  /** 0.020 deg */
  const Shift: int := 20000

  /** The intra- and extra-focal star positions of field i, or None when
      no line is written for it. lsst pulls the two halves of corner
      sensor 31 (33) apart along x and those of 32 (34) along y; comcam
      writes the field point twice. */
  function CatalogCoords(inst: string, i: int, f: Point): (r: Option<(Point, Point)>)
    ensures r.Some? ==> r.value.0.x + r.value.1.x == 2 * f.x && r.value.0.y + r.value.1.y == 2 * f.y
    ensures StartsWith(inst, "lsst") ==> (r.Some? <==> 31 <= i <= 34)
    ensures StartsWith(inst, "lsst") && (i == 31 || i == 33) ==>
              r.value.0.y == f.y == r.value.1.y
              && r.value.0.x == f.x + (if i == 31 then -Shift else Shift)
    ensures StartsWith(inst, "lsst") && (i == 32 || i == 34) ==>
              r.value.0.x == f.x == r.value.1.x
              && r.value.0.y == f.y + (if i == 32 then -Shift else Shift)
    ensures !StartsWith(inst, "lsst") && StartsWith(inst, "comcam") ==> r == Some((f, f))
    ensures !StartsWith(inst, "lsst") && !StartsWith(inst, "comcam") ==> r.None?
  {
    WfsGeometry.HeadIsPrefix(inst, "lsst");
    WfsGeometry.HeadIsPrefix(inst, "comcam");
    if WfsGeometry.Head(inst, 4) == "lsst" then
      if i == 31 then Some((Point(f.x - Shift, f.y), Point(f.x + Shift, f.y)))
      else if i == 32 then Some((Point(f.x, f.y - Shift), Point(f.x, f.y + Shift)))
      else if i == 33 then Some((Point(f.x + Shift, f.y), Point(f.x - Shift, f.y)))
      else if i == 34 then Some((Point(f.x, f.y + Shift), Point(f.x, f.y - Shift)))
      else None
    else if WfsGeometry.Head(inst, 6) == "comcam" then Some((f, f))
    else None
  }

  /** A star of the loop: its field index, field point and the two stamp
      files found for it. */
  datatype Star = Star(index: int, field: Point, intraFile: string, extraFile: string)

  /** '%9.6f %9.6f %9.6f %9.6f %s %s' */
  function CatalogLine(intra: Point, extra: Point, intraFile: string, extraFile: string): string {
    Join([FormatField(intra.x), FormatField(intra.y), FormatField(extra.x), FormatField(extra.y), intraFile, extraFile])
  }

  /** The lines the loop writes for the stars, in their order. */
  function CatalogText(inst: string, stars: seq<Star>): seq<string>
    decreases |stars|
  {
    if stars == [] then []
    else
      var s := stars[|stars| - 1];
      CatalogText(inst, stars[..|stars| - 1]) +
      match CatalogCoords(inst, s.index, s.field)
      case None => []
      case Some(p) => [CatalogLine(p.0, p.1, s.intraFile, s.extraFile)]
  }

  /** The loop over the stars, appending a line for each one that has
      coordinates. */
  method WriteCatalog(inst: string, stars: seq<Star>) returns (lines: seq<string>)
    ensures lines == CatalogText(inst, stars)
  {
    lines := [];
    var i := 0;
    while i < |stars|
      invariant i <= |stars|
      invariant lines == CatalogText(inst, stars[..i])
    {
      var s := stars[i];
      var coords := CatalogCoords(inst, s.index, s.field);
      CatalogTextSnoc(inst, stars, i);
      if coords.Some? {
        lines := lines + [CatalogLine(coords.value.0, coords.value.1, s.intraFile, s.extraFile)];
      }
      i := i + 1;
    }
    assert stars[..i] == stars;
  }

  /** The catalog of one more star: its line, if it has coordinates. */
  lemma CatalogTextSnoc(inst: string, stars: seq<Star>, i: nat)
    requires i < |stars|
    ensures var s := stars[i];
            CatalogText(inst, stars[..i + 1]) ==
            CatalogText(inst, stars[..i]) +
            match CatalogCoords(inst, s.index, s.field)
            case None => []
            case Some(p) => [CatalogLine(p.0, p.1, s.intraFile, s.extraFile)]
  {
    assert stars[..i + 1][..i] == stars[..i];
  }

  // ---------------------------------------------------------------------
  // Reading the catalog (parallelCwfs, lines 247-256)

  /** The images and field points handed to the solver:
      (I1File, I1Field, I2File, I2Field). */
  datatype Task = Task(intraFile: string, intraField: (real, real), extraFile: string, extraField: (real, real))

  /** data[k] raised IndexError, or float(data[k]) raised ValueError. */
  datatype CatalogError = MissingToken(k: nat) | NotAFloat(k: nat)

  function Token(data: seq<string>, k: nat): Result<string, CatalogError> {
    if k < |data| then Ok(data[k]) else Err(MissingToken(k))
  }

  function Number(data: seq<string>, k: nat): Result<real, CatalogError> {
    var t :- Token(data, k);
    match PyFloat(t)
    case None => Err(NotAFloat(k))
    case Some(v) => Ok(v)
  }

  /** One catalog line: the first four tokens are the two field points, the
      fifth and sixth the intra and extra image files. */
  function ParseLine(line: string): (r: Result<Task, CatalogError>)
    ensures var d := Words(line);
            r.Ok? <==> |d| >= 6 && PyFloat(d[0]).Some? && PyFloat(d[1]).Some? && PyFloat(d[2]).Some? && PyFloat(d[3]).Some?
    ensures var d := Words(line);
            r.Ok? ==>
              r.value.intraFile == d[4] && r.value.extraFile == d[5]
              && PyFloat(d[0]) == Some(r.value.intraField.0) && PyFloat(d[1]) == Some(r.value.intraField.1)
              && PyFloat(d[2]) == Some(r.value.extraField.0) && PyFloat(d[3]) == Some(r.value.extraField.1)
  {
    var data := Words(line);
    var x1 :- Number(data, 0);
    var y1 :- Number(data, 1);
    var x2 :- Number(data, 2);
    var y2 :- Number(data, 3);
    var f1 :- Token(data, 4);
    var f2 :- Token(data, 5);
    Ok(Task(f1, (x1, y1), f2, (x2, y2)))
  }

  /** The lines in order; the first line that fails stops the reading. */
  function ParseCatalog(lines: seq<string>): Result<seq<Task>, CatalogError>
    decreases |lines|
  {
    if lines == [] then Ok([])
    else
      var init :- ParseCatalog(lines[..|lines| - 1]);
      var t :- ParseLine(lines[|lines| - 1]);
      Ok(init + [t])
  }

  lemma {:induction false} ParseCatalogStops(lines: seq<string>, k: nat)
    requires k <= |lines| && ParseCatalog(lines[..k]).Err?
    ensures ParseCatalog(lines) == ParseCatalog(lines[..k])
    decreases |lines| - k
  {
    if k < |lines| {
      assert lines[..|lines| - 1][..k] == lines[..k];
      ParseCatalogStops(lines[..|lines| - 1], k);
    } else {
      assert lines[..k] == lines;
    }
  }

  /** A catalog reads without error exactly when every line parses, and
      then gives one task per line, in line order. */
  lemma ParseCatalogLines(lines: seq<string>)
    ensures ParseCatalog(lines).Ok? <==> forall k :: 0 <= k < |lines| ==> ParseLine(lines[k]).Ok?
    ensures ParseCatalog(lines).Ok? ==>
              |ParseCatalog(lines).value| == |lines|
              && forall k :: 0 <= k < |lines| ==> ParseCatalog(lines).value[k] == ParseLine(lines[k]).value
  {
    var rs := LineResults(lines);
    ParseCatalogSequenced(lines);
    SequencedOk(rs);
    forall k | 0 <= k < |lines|
      ensures rs[k] == ParseLine(lines[k])
    {
    }
  }

  /** The result of each line, read on its own. */
  function LineResults(lines: seq<string>): (rs: seq<Result<Task, CatalogError>>)
    ensures |rs| == |lines|
  {
    seq(|lines|, k requires 0 <= k < |lines| => ParseLine(lines[k]))
  }

  /** The first error among rs, else all their values. */
  function Sequenced(rs: seq<Result<Task, CatalogError>>): Result<seq<Task>, CatalogError>
    decreases |rs|
  {
    if rs == [] then Ok([])
    else
      var init :- Sequenced(rs[..|rs| - 1]);
      var t :- rs[|rs| - 1];
      Ok(init + [t])
  }

  lemma {:induction false} ParseCatalogSequenced(lines: seq<string>)
    ensures ParseCatalog(lines) == Sequenced(LineResults(lines))
    decreases |lines|
  {
    if lines != [] {
      var n := |lines| - 1;
      var init := lines[..n];
      var rs := LineResults(lines);
      ParseCatalogSequenced(init);
      forall k | 0 <= k < n
        ensures rs[..n][k] == LineResults(init)[k]
      {
        assert init[k] == lines[k];
      }
      assert rs[..n] == LineResults(init);
      assert rs[n] == ParseLine(lines[n]);
    }
  }

  lemma {:induction false} SequencedOk(rs: seq<Result<Task, CatalogError>>)
    ensures Sequenced(rs).Ok? <==> forall k :: 0 <= k < |rs| ==> rs[k].Ok?
    ensures Sequenced(rs).Ok? ==>
              |Sequenced(rs).value| == |rs|
              && forall k :: 0 <= k < |rs| ==> Sequenced(rs).value[k] == rs[k].value
    decreases |rs|
  {
    if rs != [] {
      var n := |rs| - 1;
      var init := rs[..n];
      SequencedOk(init);
      assert forall k :: 0 <= k < n ==> init[k] == rs[k];
    }
  }

  /** The loop building argList: one task per line, in line order. */
  method ReadCatalog(lines: seq<string>) returns (tasks: seq<Task>, err: Option<CatalogError>)
    ensures ParseCatalog(lines) == if err.Some? then Err(err.value) else Ok(tasks)
  {
    tasks := [];
    var i := 0;
    while i < |lines|
      invariant i <= |lines|
      invariant ParseCatalog(lines[..i]) == Ok(tasks)
    {
      var t := ParseLine(lines[i]);
      assert lines[..i + 1][..i] == lines[..i];
      if t.Err? {
        ParseCatalogStops(lines, i + 1);
        return [], Some(t.error);
      }
      tasks := tasks + [t.value];
      i := i + 1;
    }
    assert lines[..i] == lines;
    err := None;
  }

  // ---------------------------------------------------------------------
  // The catalog round trip

  /** A field point in degrees, as float() reads it back. */
  function Degrees(p: Point): (real, real) {
    (p.x as real / Micro as real, p.y as real / Micro as real)
  }

  /** The tasks the written catalog describes. */
  function StarTasks(inst: string, stars: seq<Star>): seq<Task>
    decreases |stars|
  {
    if stars == [] then []
    else
      var s := stars[|stars| - 1];
      StarTasks(inst, stars[..|stars| - 1]) +
      match CatalogCoords(inst, s.index, s.field)
      case None => []
      case Some(p) => [Task(s.intraFile, Degrees(p.0), s.extraFile, Degrees(p.1))]
  }

  predicate IsWord(w: string) {
    w != [] && NoSpace(w)
  }

  lemma LineWords(intra: Point, extra: Point, f1: string, f2: string)
    requires IsWord(f1) && IsWord(f2)
    ensures Words(CatalogLine(intra, extra, f1, f2)) ==
            [FormatFixed6(intra.x), FormatFixed6(intra.y), FormatFixed6(extra.x), FormatFixed6(extra.y), f1, f2]
  {
    WordsOfWord(f1);
    WordsOfWord(f2);
    FormatFieldWords(intra.x);
    FormatFieldWords(intra.y);
    FormatFieldWords(extra.x);
    FormatFieldWords(extra.y);
    SixFields(FormatField(intra.x), FormatField(intra.y), FormatField(extra.x), FormatField(extra.y), f1, f2,
              FormatFixed6(intra.x), FormatFixed6(intra.y), FormatFixed6(extra.x), FormatFixed6(extra.y), f1, f2);
  }

  lemma SixFields(a: string, b: string, c: string, d: string, e: string, f: string,
                  va: string, vb: string, vc: string, vd: string, ve: string, vf: string)
    requires Words(a) == [va] && Words(b) == [vb] && Words(c) == [vc]
    requires Words(d) == [vd] && Words(e) == [ve] && Words(f) == [vf]
    ensures Words(Join([a, b, c, d, e, f])) == [va, vb, vc, vd, ve, vf]
  {
    var fields, values := [a, b, c, d, e, f], [va, vb, vc, vd, ve, vf];
    forall i | 0 <= i < 6
      ensures Words(fields[i]) == [values[i]]
    {
      if i == 0 {} else if i == 1 {} else if i == 2 {} else if i == 3 {} else if i == 4 {} else {}
    }
    WordsOfJoin(fields, values);
  }

  /** A written line reads back as the task it was written for. */
  lemma LineRoundTrip(intra: Point, extra: Point, f1: string, f2: string)
    requires IsWord(f1) && IsWord(f2)
    ensures ParseLine(CatalogLine(intra, extra, f1, f2)) == Ok(Task(f1, Degrees(intra), f2, Degrees(extra)))
  {
    LineWords(intra, extra, f1, f2);
    FormatFixed6RoundTrip(intra.x);
    FormatFixed6RoundTrip(intra.y);
    FormatFixed6RoundTrip(extra.x);
    FormatFixed6RoundTrip(extra.y);
    ParseSixWords(CatalogLine(intra, extra, f1, f2),
                  FormatFixed6(intra.x), FormatFixed6(intra.y), FormatFixed6(extra.x), FormatFixed6(extra.y), f1, f2,
                  Degrees(intra), Degrees(extra));
  }

  /** A line of six words whose first four are the given numbers. */
  lemma ParseSixWords(line: string, a: string, b: string, c: string, d: string, f1: string, f2: string,
                      p1: (real, real), p2: (real, real))
    requires Words(line) == [a, b, c, d, f1, f2]
    requires PyFloat(a) == Some(p1.0) && PyFloat(b) == Some(p1.1)
    requires PyFloat(c) == Some(p2.0) && PyFloat(d) == Some(p2.1)
    ensures ParseLine(line) == Ok(Task(f1, p1, f2, p2))
  {
    var data := Words(line);
    assert data[0] == a && data[1] == b && data[2] == c && data[3] == d;
    assert Number(data, 0) == Ok(p1.0) && Number(data, 1) == Ok(p1.1);
    assert Number(data, 2) == Ok(p2.0) && Number(data, 3) == Ok(p2.1);
    assert Token(data, 4) == Ok(f1) && Token(data, 5) == Ok(f2);
  }

  /** Reading the catalog preprocess() writes gives, in star order, one
      task per written star: its two files and its two positions. */
  lemma {:induction false} CatalogRoundTrip(inst: string, stars: seq<Star>)
    requires forall k :: 0 <= k < |stars| ==> IsWord(stars[k].intraFile) && IsWord(stars[k].extraFile)
    ensures ParseCatalog(CatalogText(inst, stars)) == Ok(StarTasks(inst, stars))
    decreases |stars|
  {
    if stars != [] {
      var n := |stars| - 1;
      var s := stars[n];
      var init := stars[..n];
      CatalogRoundTrip(inst, init);
      var text := CatalogText(inst, init);
      match CatalogCoords(inst, s.index, s.field)
      case None =>
        assert CatalogText(inst, stars) == text;
        assert StarTasks(inst, stars) == StarTasks(inst, init);
      case Some(p) =>
        var line := CatalogLine(p.0, p.1, s.intraFile, s.extraFile);
        LineRoundTrip(p.0, p.1, s.intraFile, s.extraFile);
        assert CatalogText(inst, stars) == text + [line];
        assert StarTasks(inst, stars) == StarTasks(inst, init) + [Task(s.intraFile, Degrees(p.0), s.extraFile, Degrees(p.1))];
        assert (text + [line])[..|text|] == text;
    }
  }

  // ---------------------------------------------------------------------
  // The result table (runcwfs, line 348; the pool map, line 262)

  /** What the solver leaves in algo after runIt: the Zernike coefficients
      from Z4 on in nm, and whether the donut is caustic. */
  datatype Solution = Solution(zer4UpNm: seq<real>, caustic: bool)

  /** np.append(algo.zer4UpNm * 1e-3, algo.caustic): the coefficients in
      um with the caustic flag as a last number. */
  function ResultRow(s: Solution): (row: seq<real>)
    ensures |row| == |s.zer4UpNm| + 1
    ensures forall k :: 0 <= k < |s.zer4UpNm| ==> row[k] == s.zer4UpNm[k] * 0.001
    ensures row[|s.zer4UpNm|] == if s.caustic then 1.0 else 0.0
  {
    seq(|s.zer4UpNm|, k requires 0 <= k < |s.zer4UpNm| => s.zer4UpNm[k] * 0.001) + [if s.caustic then 1.0 else 0.0]
  }

  /** One exposure of parallelCwfs(): the catalog's tasks, each solved, in
      catalog order. */
  function ResultTable(lines: seq<string>, solve: Task -> Solution): Result<seq<seq<real>>, CatalogError> {
    var tasks :- ParseCatalog(lines);
    Ok(seq(|tasks|, i requires 0 <= i < |tasks| => ResultRow(solve(tasks[i]))))
  }

  /** For a catalog preprocess() wrote, row k of the table is the solution
      of the k-th written star, one entry longer than its coefficients. */
  lemma TableOfWrittenCatalog(inst: string, stars: seq<Star>, solve: Task -> Solution, k: nat)
    requires forall j :: 0 <= j < |stars| ==> IsWord(stars[j].intraFile) && IsWord(stars[j].extraFile)
    requires k < |StarTasks(inst, stars)|
    ensures var t := ResultTable(CatalogText(inst, stars), solve);
            var task := StarTasks(inst, stars)[k];
            t.Ok? && |t.value| == |StarTasks(inst, stars)|
            && t.value[k] == ResultRow(solve(task))
            && |t.value[k]| == |solve(task).zer4UpNm| + 1
  {
    CatalogRoundTrip(inst, stars);
  }
}
