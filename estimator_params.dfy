/** The parameter-file reader of the estimator as a line-by-line state
    machine. Step is one pass of the loop body; Run folds it over the file.
    The class in module Estimator executes the same loop on its fields and
    is proved to agree with Run. */
module EstimatorParams {
  import opened Wrappers
  import opened PyText
  import opened PyNumbers

  /** The recognised keys, in the order the reader tests them. */
  datatype Key =
    | StrategyKey | SenMFileKey | NB13MaxKey | NB2MaxKey | ZnMaxKey
    | NormalizeAKey | NSingularInfKey | IcompKey | Izn3Key

  function KeyText(k: Key): string {
    match k
    case StrategyKey => "estimator_strategy"
    case SenMFileKey => "senMFile"
    case NB13MaxKey => "n_bending_M1M3"
    case NB2MaxKey => "n_bending_M2"
    case ZnMaxKey => "znmax"
    case NormalizeAKey => "normalize_A"
    case NSingularInfKey => "n_singular_inf"
    case IcompKey => "icomp"
    case Izn3Key => "izn3"
  }

  /** The first key, in reading order, that the line starts with. */
  function KeyOf(line: string): (k: Option<Key>)
    ensures k.Some? ==> StartsWith(line, KeyText(k.value))
  {
    if StartsWith(line, "estimator_strategy") then Some(StrategyKey)
    else if StartsWith(line, "senMFile") then Some(SenMFileKey)
    else if StartsWith(line, "n_bending_M1M3") then Some(NB13MaxKey)
    else if StartsWith(line, "n_bending_M2") then Some(NB2MaxKey)
    else if StartsWith(line, "znmax") then Some(ZnMaxKey)
    else if StartsWith(line, "normalize_A") then Some(NormalizeAKey)
    else if StartsWith(line, "n_singular_inf") then Some(NSingularInfKey)
    else if StartsWith(line, "icomp") then Some(IcompKey)
    else if StartsWith(line, "izn3") then Some(Izn3Key)
    else None
  }

  /** What makes the reader raise. */
  datatype ConfigError =
    | MissingValue(key: Key)     // line.split()[1] on a key with no value
    | NotAnInteger(key: Key)     // int() of a value that is not an integer literal
    | MaskBeforeKey              // an option line before any icomp/izn3 key

  /** The attributes the reader assigns; None while unassigned. */
  datatype Settings = Settings(
    strategy: Option<string>,
    senMFile: Option<string>,
    nB13Max: Option<int>,
    nB2Max: Option<int>,
    znMax: Option<int>,
    normalizeA: Option<bool>,
    nSingularInf: Option<int>,
    icomp: Option<int>,
    izn3: Option<int>,
    compIdx: Option<seq<bool>>,
    zn3Idx: Option<seq<bool>>)

  const NoSettings := Settings(None, None, None, None, None, None, None, None, None, None, None)

  /** Which mask the option lines are being counted for. */
  datatype ArrayKind = NoArray | CompArray | Zn3Array

  /** arrayType and arrayCount, which are always assigned together. */
  datatype Cursor = Cursor(kind: ArrayKind, count: int)

  /** The loop's state: the attributes, the block-comment flag, and the
      cursor (None before the first icomp/izn3 key, when arrayType and
      arrayCount are still unbound). */
  datatype ParseState = ParseState(settings: Settings, inComment: bool, cursor: Option<Cursor>)

  const Initial := ParseState(NoSettings, false, None)

  /** np.fromstring(line, dtype=bool, sep=' ') after every '0' and '1' has
      been followed by a space, for masks written with 0s and 1s: '1' is
      true, '0' is false, whitespace separates, and this model stops at the
      first other character (numpy would read a run of the digits 2 to 9 as
      one more true flag). */
  function MaskOf(line: string): seq<bool> {
    if line == [] then []
    else if line[0] == '1' then [true] + MaskOf(line[1..])
    else if line[0] == '0' then [false] + MaskOf(line[1..])
    else if IsSpace(line[0]) then MaskOf(line[1..])
    else []
  }

  /** A line of 0s and 1s is read one entry per character, '1' as true. */
  lemma {:induction false} MaskOfBits(line: string)
    requires forall i :: 0 <= i < |line| ==> line[i] == '0' || line[i] == '1'
    ensures |MaskOf(line)| == |line|
    ensures forall i :: 0 <= i < |line| ==> (MaskOf(line)[i] <==> line[i] == '1')
  {
    if line != [] {
      MaskOfBits(line[1..]);
    }
  }

  /** Whitespace between the 0s and 1s only separates them. */
  lemma {:induction false} MaskOfJoin(a: string, b: string)
    requires forall i :: 0 <= i < |a| ==> a[i] == '0' || a[i] == '1' || IsSpace(a[i])
    ensures MaskOf(a + " " + b) == MaskOf(a) + MaskOf(b)
  {
    if a == [] {
      assert (a + " " + b)[1..] == b;
    } else {
      assert (a + " " + b)[1..] == a[1..] + " " + b;
      MaskOfJoin(a[1..], b);
    }
  }

  /** The second whitespace-separated token: line.split()[1]. */
  function Value(line: string, k: Key): Result<string, ConfigError> {
    var ws := Words(line);
    if |ws| < 2 then Err(MissingValue(k)) else Ok(ws[1])
  }

  /** int(line.split()[1]) */
  function IntValue(line: string, k: Key): Result<int, ConfigError> {
    var v :- Value(line, k);
    match ParseInt(v)
    case None => Err(NotAnInteger(k))
    case Some(n) => Ok(n)
  }

  /** The value an icomp/izn3 line gives: the argument when one was
      passed (the line's own value is then not read), else the file's. */
  function Override(arg: Option<int>, line: string, k: Key): Result<int, ConfigError> {
    if arg.None? then IntValue(line, k) else Ok(arg.value)
  }

  /** One pass of the loop body over a raw line of the file. */
  function Step(st: ParseState, raw: string, icompArg: Option<int>, izn3Arg: Option<int>): Result<ParseState, ConfigError> {
    var line := Strip(raw);
    var st := if StartsWith(line, "###") then st.(inComment := !st.inComment) else st;
    if StartsWith(line, "#") || st.inComment || line == [] then Ok(st)
    else match KeyOf(line)
      case Some(k) => KeyLine(st, line, k, icompArg, izn3Arg)
      case None => OptionLine(st, line)
  }

  /** A line that starts with key k. */
  function KeyLine(st: ParseState, line: string, k: Key, icompArg: Option<int>, izn3Arg: Option<int>): Result<ParseState, ConfigError> {
    var s := st.settings;
    match k
    case StrategyKey =>
      var v :- Value(line, StrategyKey); Ok(st.(settings := s.(strategy := Some(v))))
    case SenMFileKey =>
      var v :- Value(line, SenMFileKey); Ok(st.(settings := s.(senMFile := Some(v))))
    case NB13MaxKey =>
      var n :- IntValue(line, NB13MaxKey); Ok(st.(settings := s.(nB13Max := Some(n))))
    case NB2MaxKey =>
      var n :- IntValue(line, NB2MaxKey); Ok(st.(settings := s.(nB2Max := Some(n))))
    case ZnMaxKey =>
      var n :- IntValue(line, ZnMaxKey); Ok(st.(settings := s.(znMax := Some(n))))
    case NormalizeAKey =>
      var n :- IntValue(line, NormalizeAKey); Ok(st.(settings := s.(normalizeA := Some(n != 0))))
    case NSingularInfKey =>
      var n :- IntValue(line, NSingularInfKey); Ok(st.(settings := s.(nSingularInf := Some(n))))
    case IcompKey =>
      var n :- Override(icompArg, line, IcompKey);
      Ok(st.(settings := s.(icomp := Some(n)), cursor := Some(Cursor(CompArray, 0))))
    case Izn3Key =>
      var n :- Override(izn3Arg, line, Izn3Key);
      Ok(st.(settings := s.(izn3 := Some(n)), cursor := Some(Cursor(Zn3Array, 0))))
  }

  /** A line that is not a key: counted when it starts with a digit; the
      counted line whose number equals icomp (izn3) becomes the mask. */
  function OptionLine(st: ParseState, line: string): Result<ParseState, ConfigError>
    requires line != []
  {
    match st.cursor
    case None => Err(MaskBeforeKey)
    case Some(c) =>
      var count := if IsDigit(line[0]) then c.count + 1 else c.count;
      if c.kind == CompArray && st.settings.icomp == Some(count) then
        Ok(st.(settings := st.settings.(compIdx := Some(MaskOf(line))), cursor := Some(Cursor(NoArray, 0))))
      else if c.kind == Zn3Array && st.settings.izn3 == Some(count) then
        Ok(st.(settings := st.settings.(zn3Idx := Some(MaskOf(line))), cursor := Some(Cursor(NoArray, 0))))
      else Ok(st.(cursor := Some(Cursor(c.kind, count))))
  }

  /** The whole file, line after line; the first exception ends reading. */
  function Run(st: ParseState, lines: seq<string>, icompArg: Option<int>, izn3Arg: Option<int>): Result<ParseState, ConfigError>
    decreases |lines|
  {
    if lines == [] then Ok(st)
    else
      var next :- Step(st, lines[0], icompArg, izn3Arg);
      Run(next, lines[1..], icompArg, izn3Arg)
  }

  // ---------------------------------------------------------------------
  // Properties of the reader

  lemma RunAppend(st: ParseState, a: seq<string>, b: seq<string>, ic: Option<int>, iz: Option<int>)
    ensures Run(st, a + b, ic, iz) ==
            match Run(st, a, ic, iz)
            case Err(e) => Err(e)
            case Ok(mid) => Run(mid, b, ic, iz)
    decreases |a|
  {
    if a == [] {
      assert a + b == b;
    } else {
      assert (a + b)[0] == a[0] && (a + b)[1..] == a[1..] + b;
      match Step(st, a[0], ic, iz)
      case Err(_) =>
      case Ok(next) => RunAppend(next, a[1..], b, ic, iz);
    }
  }

  /** A line starting with '#' (other than a "###" toggle), and a blank line,
      change nothing. */
  lemma CommentOrBlankInert(st: ParseState, raw: string, ic: Option<int>, iz: Option<int>)
    requires var line := Strip(raw); line == [] || (StartsWith(line, "#") && !StartsWith(line, "###"))
    ensures Step(st, raw, ic, iz) == Ok(st)
  {
  }

  /** A "###" line flips the block-comment flag and changes nothing else. */
  lemma ToggleLine(st: ParseState, raw: string, ic: Option<int>, iz: Option<int>)
    requires StartsWith(Strip(raw), "###")
    ensures Step(st, raw, ic, iz) == Ok(st.(inComment := !st.inComment))
  {
  }

  /** Inside a comment block, no line but a "###" line has any effect. */
  lemma {:induction false} InsideBlockInert(st: ParseState, body: seq<string>, ic: Option<int>, iz: Option<int>)
    requires st.inComment
    requires forall l :: l in body ==> !StartsWith(Strip(l), "###")
    ensures Run(st, body, ic, iz) == Ok(st)
    decreases |body|
  {
    if body != [] {
      assert Step(st, body[0], ic, iz) == Ok(st);
      InsideBlockInert(st, body[1..], ic, iz);
    }
  }

  /** Everything between a pair of "###" lines leaves the settings, the
      cursor and the comment flag as they were. */
  lemma CommentBlockInert(st: ParseState, open: string, body: seq<string>, close: string, ic: Option<int>, iz: Option<int>)
    requires !st.inComment
    requires StartsWith(Strip(open), "###") && StartsWith(Strip(close), "###")
    requires forall l :: l in body ==> !StartsWith(Strip(l), "###")
    ensures Run(st, [open] + body + [close], ic, iz) == Ok(st)
  {
    var inside := st.(inComment := true);
    ToggleLine(st, open, ic, iz);
    assert Run(st, [open], ic, iz) == Ok(inside);
    InsideBlockInert(inside, body, ic, iz);
    RunAppend(st, [open], body, ic, iz);
    ToggleLine(inside, close, ic, iz);
    assert Run(inside, [close], ic, iz) == Ok(st);
    RunAppend(st, [open] + body, [close], ic, iz);
  }

  predicate IntKey(k: Key) {
    k.NB13MaxKey? || k.NB2MaxKey? || k.ZnMaxKey? || k.NormalizeAKey? || k.NSingularInfKey?
  }

  /** The settings after "key n" for a key whose value is an integer. */
  function SetInt(s: Settings, k: Key, n: int): Settings
    requires IntKey(k)
  {
    match k
    case NB13MaxKey => s.(nB13Max := Some(n))
    case NB2MaxKey => s.(nB2Max := Some(n))
    case ZnMaxKey => s.(znMax := Some(n))
    case NormalizeAKey => s.(normalizeA := Some(n != 0))
    case NSingularInfKey => s.(nSingularInf := Some(n))
  }

  /** A line made of a key, a space and more text is recognised as that key. */
  lemma KeyOfKeyLine(k: Key, rest: string)
    ensures KeyOf(KeyText(k) + " " + rest) == Some(k)
  {
    var key := KeyText(k);
    var line := key + " " + rest;
    assert line[..|key|] == key;
    KeyOfPrefix(line, k);
  }

  /** No key is a prefix of an earlier one, so a line that starts with a
      key is recognised as that key: each earlier key differs from it at
      some character. */
  lemma KeyOfPrefix(line: string, k: Key)
    requires StartsWith(line, KeyText(k))
    ensures KeyOf(line) == Some(k)
  {
    var key := KeyText(k);
    match k
    case StrategyKey =>
    case SenMFileKey =>
      assert line[0] == 's' by { assert line[..|key|][0] == key[0]; }
      NotStartsWith(line, "estimator_strategy", 0);
    case NB13MaxKey =>
      assert line[0] == 'n' by { assert line[..|key|][0] == key[0]; }
      NotStartsWith(line, "estimator_strategy", 0);
      NotStartsWith(line, "senMFile", 0);
    case NB2MaxKey =>
      assert line[0] == 'n' by { assert line[..|key|][0] == key[0]; }
      assert line[11] == '2' by { assert line[..|key|][11] == key[11]; }
      NotStartsWith(line, "estimator_strategy", 0);
      NotStartsWith(line, "senMFile", 0);
      NotStartsWith(line, "n_bending_M1M3", 11);
    case ZnMaxKey =>
      assert line[0] == 'z' by { assert line[..|key|][0] == key[0]; }
      NotStartsWith(line, "estimator_strategy", 0);
      NotStartsWith(line, "senMFile", 0);
      NotStartsWith(line, "n_bending_M1M3", 0);
      NotStartsWith(line, "n_bending_M2", 0);
    case NormalizeAKey =>
      assert line[0] == 'n' by { assert line[..|key|][0] == key[0]; }
      assert line[1] == 'o' by { assert line[..|key|][1] == key[1]; }
      NotStartsWith(line, "estimator_strategy", 0);
      NotStartsWith(line, "senMFile", 0);
      NotStartsWith(line, "n_bending_M1M3", 1);
      NotStartsWith(line, "n_bending_M2", 1);
      NotStartsWith(line, "znmax", 0);
    case NSingularInfKey =>
      assert line[0] == 'n' by { assert line[..|key|][0] == key[0]; }
      assert line[1] == '_' by { assert line[..|key|][1] == key[1]; }
      assert line[2] == 's' by { assert line[..|key|][2] == key[2]; }
      NotStartsWith(line, "estimator_strategy", 0);
      NotStartsWith(line, "senMFile", 0);
      NotStartsWith(line, "n_bending_M1M3", 2);
      NotStartsWith(line, "n_bending_M2", 2);
      NotStartsWith(line, "znmax", 0);
      NotStartsWith(line, "normalize_A", 1);
    case IcompKey =>
      assert line[0] == 'i' by { assert line[..|key|][0] == key[0]; }
      NotStartsWith(line, "estimator_strategy", 0);
      NotStartsWith(line, "senMFile", 0);
      NotStartsWith(line, "n_bending_M1M3", 0);
      NotStartsWith(line, "n_bending_M2", 0);
      NotStartsWith(line, "znmax", 0);
      NotStartsWith(line, "normalize_A", 0);
      NotStartsWith(line, "n_singular_inf", 0);
    case Izn3Key =>
      assert line[0] == 'i' by { assert line[..|key|][0] == key[0]; }
      assert line[1] == 'z' by { assert line[..|key|][1] == key[1]; }
      NotStartsWith(line, "estimator_strategy", 0);
      NotStartsWith(line, "senMFile", 0);
      NotStartsWith(line, "n_bending_M1M3", 0);
      NotStartsWith(line, "n_bending_M2", 0);
      NotStartsWith(line, "znmax", 0);
      NotStartsWith(line, "normalize_A", 0);
      NotStartsWith(line, "n_singular_inf", 0);
      NotStartsWith(line, "icomp", 1);
  }

  lemma NotStartsWith(line: string, p: string, i: nat)
    requires i < |p| && i < |line| && line[i] != p[i]
    ensures !StartsWith(line, p)
  {
    if |p| <= |line| {
      assert line[..|p|][i] == line[i];
    }
  }

  /** Every key is one word that starts with a letter. */
  lemma KeyTextIsWord(k: Key)
    ensures var key := KeyText(k); key != [] && NoSpace(key) && 'a' <= key[0] <= 'z'
  {
    match k
    case StrategyKey => NoSpaceWord("estimator_strategy");
    case SenMFileKey => NoSpaceWord("senMFile");
    case NB13MaxKey => NoSpaceWord("n_bending_M1M3");
    case NB2MaxKey => NoSpaceWord("n_bending_M2");
    case ZnMaxKey => NoSpaceWord("znmax");
    case NormalizeAKey => NoSpaceWord("normalize_A");
    case NSingularInfKey => NoSpaceWord("n_singular_inf");
    case IcompKey => NoSpaceWord("icomp");
    case Izn3Key => NoSpaceWord("izn3");
  }

  /** A string of letters, digits and underscores holds no whitespace. */
  lemma NoSpaceWord(w: string)
    requires forall i :: 0 <= i < |w| ==> w[i] == '_' || 'a' <= w[i] <= 'z' || 'A' <= w[i] <= 'Z' || '0' <= w[i] <= '9'
    ensures NoSpace(w)
  {
  }

  /** A key line "key v" has nothing to strip. */
  lemma KeyLineStripped(k: Key, v: string)
    requires v != [] && NoSpace(v)
    ensures Strip(KeyText(k) + " " + v) == KeyText(k) + " " + v
  {
    var key := KeyText(k);
    KeyTextIsWord(k);
    var line := key + " " + v;
    assert line[0] == key[0] && line[|line| - 1] == v[|v| - 1];
    StripUnchanged(line);
  }

  /** The words of a key line "key v", with v one word, are the key and v. */
  lemma KeyLineWords(k: Key, v: string)
    requires v != [] && NoSpace(v)
    ensures Words(KeyText(k) + " " + v) == [KeyText(k), v]
  {
    var key := KeyText(k);
    KeyTextIsWord(k);
    WordsJoin(key, v);
    WordsOfWord(key);
    WordsOfWord(v);
  }

  /** Outside a comment block, a line starting with a key is handled as
      that key's line. */
  lemma StepOnKeyLine(st: ParseState, raw: string, k: Key, ic: Option<int>, iz: Option<int>)
    requires !st.inComment && KeyOf(Strip(raw)) == Some(k)
    ensures Step(st, raw, ic, iz) == KeyLine(st, Strip(raw), k, ic, iz)
  {
    var line := Strip(raw);
    KeyTextIsWord(k);
    assert line[0] == KeyText(k)[0];
    NotStartsWith(line, "#", 0);
    NotStartsWith(line, "###", 0);
  }

  /** str(n) is one word. */
  lemma IntToStringIsWord(n: int)
    ensures IntToString(n) != [] && NoSpace(IntToString(n))
  {
    NatToDigitsSpec(if n < 0 then -n else n);
  }

  /** Outside a comment block, any line starting with an integer key whose
      second word is an integer n sets the key's attribute to n
      (normalize_A to n != 0) and changes nothing else, whatever the
      spacing, the spelling of n or the words after it. */
  lemma IntKeyLine(st: ParseState, raw: string, k: Key, n: int, ic: Option<int>, iz: Option<int>)
    requires !st.inComment && IntKey(k) && KeyOf(Strip(raw)) == Some(k)
    requires |Words(Strip(raw))| >= 2 && ParseInt(Words(Strip(raw))[1]) == Some(n)
    ensures Step(st, raw, ic, iz) == Ok(st.(settings := SetInt(st.settings, k, n)))
  {
    StepOnKeyLine(st, raw, k, ic, iz);
    assert IntValue(Strip(raw), k) == Ok(n);
  }

  /** Outside a comment block, a line starting with estimator_strategy or
      senMFile sets the attribute to its second word. */
  lemma WordKeyLine(st: ParseState, raw: string, k: Key, ic: Option<int>, iz: Option<int>)
    requires !st.inComment && (k.StrategyKey? || k.SenMFileKey?) && KeyOf(Strip(raw)) == Some(k)
    requires |Words(Strip(raw))| >= 2
    ensures var w := Words(Strip(raw))[1];
            Step(st, raw, ic, iz) ==
            Ok(st.(settings := if k.StrategyKey? then st.settings.(strategy := Some(w))
                               else st.settings.(senMFile := Some(w))))
  {
    StepOnKeyLine(st, raw, k, ic, iz);
  }

  /** With no argument, a line starting with icomp (izn3) whose second word
      is the integer n sets the attribute to n and starts counting option
      lines for that mask. */
  lemma IndexKeyLine(st: ParseState, raw: string, k: Key, n: int, ic: Option<int>, iz: Option<int>)
    requires !st.inComment && (k.IcompKey? || k.Izn3Key?) && KeyOf(Strip(raw)) == Some(k)
    requires k.IcompKey? ==> ic.None?
    requires k.Izn3Key? ==> iz.None?
    requires |Words(Strip(raw))| >= 2 && ParseInt(Words(Strip(raw))[1]) == Some(n)
    ensures Step(st, raw, ic, iz) ==
            if k.IcompKey? then Ok(st.(settings := st.settings.(icomp := Some(n)), cursor := Some(Cursor(CompArray, 0))))
            else Ok(st.(settings := st.settings.(izn3 := Some(n)), cursor := Some(Cursor(Zn3Array, 0))))
  {
    StepOnKeyLine(st, raw, k, ic, iz);
    assert IntValue(Strip(raw), k) == Ok(n);
  }

  /** The errors a key line raises outside a comment block: a key with no
      second word raises IndexError, and an integer key whose second word
      is not an integer raises ValueError, unless an icomp/izn3 argument
      means the line's value is never read. */
  lemma KeyLineErrors(st: ParseState, raw: string, k: Key, ic: Option<int>, iz: Option<int>)
    requires !st.inComment && KeyOf(Strip(raw)) == Some(k)
    requires !(k.IcompKey? && ic.Some?) && !(k.Izn3Key? && iz.Some?)
    ensures |Words(Strip(raw))| < 2 ==> Step(st, raw, ic, iz) == Err(MissingValue(k))
    ensures |Words(Strip(raw))| >= 2 && !(k.StrategyKey? || k.SenMFileKey?) && ParseInt(Words(Strip(raw))[1]).None? ==>
              Step(st, raw, ic, iz) == Err(NotAnInteger(k))
  {
    StepOnKeyLine(st, raw, k, ic, iz);
  }

  /** The canonical "key n" line: one space, n written by str(). */
  lemma IntKeyCanonical(st: ParseState, k: Key, n: int, ic: Option<int>, iz: Option<int>)
    requires !st.inComment && IntKey(k)
    ensures Step(st, KeyText(k) + " " + IntToString(n), ic, iz) == Ok(st.(settings := SetInt(st.settings, k, n)))
  {
    var v := IntToString(n);
    var line := KeyText(k) + " " + v;
    IntToStringIsWord(n);
    KeyLineStripped(k, v);
    KeyOfKeyLine(k, v);
    KeyLineWords(k, v);
    ParseIntRoundTrip(n);
    IntKeyLine(st, line, k, n, ic, iz);
  }

  /** The canonical "key w" line for estimator_strategy and senMFile. */
  lemma WordKeyCanonical(st: ParseState, k: Key, w: string, ic: Option<int>, iz: Option<int>)
    requires !st.inComment && (k.StrategyKey? || k.SenMFileKey?)
    requires w != [] && NoSpace(w)
    ensures Step(st, KeyText(k) + " " + w, ic, iz) ==
            Ok(st.(settings := if k.StrategyKey? then st.settings.(strategy := Some(w))
                               else st.settings.(senMFile := Some(w))))
  {
    KeyLineStripped(k, w);
    KeyLineWords(k, w);
    KeyOfKeyLine(k, w);
    WordKeyLine(st, KeyText(k) + " " + w, k, ic, iz);
  }

  /** The canonical "icomp n" ("izn3 n") line, with no argument. */
  lemma IndexKeyCanonical(st: ParseState, k: Key, n: int, ic: Option<int>, iz: Option<int>)
    requires !st.inComment && (k.IcompKey? || k.Izn3Key?)
    requires k.IcompKey? ==> ic.None?
    requires k.Izn3Key? ==> iz.None?
    ensures Step(st, KeyText(k) + " " + IntToString(n), ic, iz) ==
            if k.IcompKey? then Ok(st.(settings := st.settings.(icomp := Some(n)), cursor := Some(Cursor(CompArray, 0))))
            else Ok(st.(settings := st.settings.(izn3 := Some(n)), cursor := Some(Cursor(Zn3Array, 0))))
  {
    var v := IntToString(n);
    var line := KeyText(k) + " " + v;
    IntToStringIsWord(n);
    KeyLineStripped(k, v);
    KeyOfKeyLine(k, v);
    KeyLineWords(k, v);
    ParseIntRoundTrip(n);
    IndexKeyLine(st, line, k, n, ic, iz);
  }

  /** An icomp argument replaces whatever an icomp line says, even a
      missing or malformed value; likewise for izn3. */
  lemma ArgumentOverrides(st: ParseState, raw: string, k: Key, ic: Option<int>, iz: Option<int>)
    requires !st.inComment && KeyOf(Strip(raw)) == Some(k)
    requires (k.IcompKey? && ic.Some?) || (k.Izn3Key? && iz.Some?)
    ensures Step(st, raw, ic, iz) ==
            if k.IcompKey? then Ok(st.(settings := st.settings.(icomp := ic), cursor := Some(Cursor(CompArray, 0))))
            else Ok(st.(settings := st.settings.(izn3 := iz), cursor := Some(Cursor(Zn3Array, 0))))
  {
    StepOnKeyLine(st, raw, k, ic, iz);
  }

  /** A line whose stripped text starts with a digit: an option line. */
  predicate IsOptionLine(raw: string) {
    var t := Strip(raw);
    t != [] && IsDigit(t[0])
  }

  /** The attribute that picks the option line for a mask. */
  function MaskIndex(s: Settings, kind: ArrayKind): Option<int> {
    match kind
    case CompArray => s.icomp
    case Zn3Array => s.izn3
    case NoArray => None
  }

  /** The settings with the mask of the given kind assigned. */
  function SetMask(s: Settings, kind: ArrayKind, m: seq<bool>): Settings {
    match kind
    case CompArray => s.(compIdx := Some(m))
    case Zn3Array => s.(zn3Idx := Some(m))
    case NoArray => s
  }

  /** No key starts with a digit. */
  lemma KeyOfDigitLine(line: string)
    requires line != [] && IsDigit(line[0])
    ensures KeyOf(line) == None
  {
    if KeyOf(line).Some? {
      KeyTextIsWord(KeyOf(line).value);
    }
  }

  /** Outside a comment block an option line goes to OptionLine. */
  lemma StepOnOptionLine(st: ParseState, raw: string, ic: Option<int>, iz: Option<int>)
    requires !st.inComment && IsOptionLine(raw)
    ensures Step(st, raw, ic, iz) == OptionLine(st, Strip(raw))
  {
    var line := Strip(raw);
    NotStartsWith(line, "#", 0);
    NotStartsWith(line, "###", 0);
    KeyOfDigitLine(line);
  }

  /** Before the selected one, option lines only advance the count. */
  lemma {:induction false} CountsOptionLines(st: ParseState, lines: seq<string>, kind: ArrayKind, j: nat, ic: Option<int>, iz: Option<int>)
    requires !st.inComment && kind != NoArray && st.cursor == Some(Cursor(kind, 0))
    requires forall l :: l in lines ==> IsOptionLine(l)
    requires j <= |lines| && forall i :: 1 <= i <= j ==> MaskIndex(st.settings, kind) != Some(i)
    ensures Run(st, lines[..j], ic, iz) == Ok(st.(cursor := Some(Cursor(kind, j))))
    decreases j
  {
    if j == 0 {
      assert lines[..0] == [];
    } else {
      CountsOptionLines(st, lines, kind, j - 1, ic, iz);
      var mid := st.(cursor := Some(Cursor(kind, j - 1)));
      assert lines[j - 1] in lines;
      StepOnOptionLine(mid, lines[j - 1], ic, iz);
      assert Run(mid, [lines[j - 1]], ic, iz) == Ok(st.(cursor := Some(Cursor(kind, j))));
      assert lines[..j] == lines[..j - 1] + [lines[j - 1]];
      RunAppend(st, lines[..j - 1], [lines[j - 1]], ic, iz);
    }
  }

  /** Right after an icomp (izn3) key with value n >= 1, the n-th of the
      following option lines becomes compIdx (zn3Idx) and the counting
      stops. */
  lemma SelectsNthOptionLine(st: ParseState, lines: seq<string>, kind: ArrayKind, n: int, ic: Option<int>, iz: Option<int>)
    requires !st.inComment && kind != NoArray && st.cursor == Some(Cursor(kind, 0))
    requires MaskIndex(st.settings, kind) == Some(n) && 1 <= n <= |lines|
    requires forall l :: l in lines ==> IsOptionLine(l)
    ensures Run(st, lines[..n], ic, iz) ==
            Ok(st.(settings := SetMask(st.settings, kind, MaskOf(Strip(lines[n - 1]))), cursor := Some(Cursor(NoArray, 0))))
  {
    CountsOptionLines(st, lines, kind, n - 1, ic, iz);
    var mid := st.(cursor := Some(Cursor(kind, n - 1)));
    assert lines[n - 1] in lines;
    StepOnOptionLine(mid, lines[n - 1], ic, iz);
    assert lines[..n] == lines[..n - 1] + [lines[n - 1]];
    RunAppend(st, lines[..n - 1], [lines[n - 1]], ic, iz);
  }

  /** Once a mask has been read, lines that are not keys never assign a
      mask again: the settings stay as they are. */
  lemma {:induction false} MaskNotOverwritten(st: ParseState, lines: seq<string>, ic: Option<int>, iz: Option<int>)
    requires st.cursor.Some? && st.cursor.value.kind == NoArray
    requires forall l :: l in lines ==> KeyOf(Strip(l)) == None
    ensures Run(st, lines, ic, iz).Ok?
    ensures Run(st, lines, ic, iz).value.settings == st.settings
    decreases |lines|
  {
    if lines != [] {
      assert lines[0] in lines;
      var next := Step(st, lines[0], ic, iz).value;
      assert next.settings == st.settings && next.cursor.Some? && next.cursor.value.kind == NoArray;
      assert forall l :: l in lines[1..] ==> l in lines;
      MaskNotOverwritten(next, lines[1..], ic, iz);
    }
  }
}
