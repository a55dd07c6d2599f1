/** The few Python string operations the parsers rely on: str.strip(),
    str.startswith() and str.split() with no argument. */
module PyText {

  /** The ASCII whitespace: space, tab, line feed, vertical tab, form feed
      and carriage return. Python's strip() and split() also treat U+1C to
      U+1F and the Unicode spaces as whitespace; this model does not. */
  predicate IsSpace(c: char) {
    c == ' ' || c == '\t' || c == '\n' || c == '\r' || c == '\U{B}' || c == '\U{C}'
  }

  predicate IsDigit(c: char) {
    '0' <= c <= '9'
  }

  predicate NoSpace(s: string) {
    forall i :: 0 <= i < |s| ==> !IsSpace(s[i])
  }

  predicate AllSpace(s: string) {
    forall i :: 0 <= i < |s| ==> IsSpace(s[i])
  }

  /** str.startswith(p) */
  predicate StartsWith(s: string, p: string) {
    |p| <= |s| && s[..|p|] == p
  }

  /** str.lstrip() */
  function StripLeft(s: string): string {
    if s != [] && IsSpace(s[0]) then StripLeft(s[1..]) else s
  }

  /** lstrip() drops the leading whitespace and nothing else. */
  lemma {:induction false} StripLeftSpec(s: string)
    ensures var r := StripLeft(s);
            |r| <= |s| && r == s[|s| - |r|..] && AllSpace(s[..|s| - |r|])
            && (r == [] || !IsSpace(r[0]))
    decreases |s|
  {
    if s != [] && IsSpace(s[0]) {
      StripLeftSpec(s[1..]);
    }
  }

  /** str.rstrip() */
  function StripRight(s: string): string {
    if s != [] && IsSpace(s[|s| - 1]) then StripRight(s[..|s| - 1]) else s
  }

  lemma StripLeftShape(s: string)
    ensures |StripLeft(s)| <= |s|
    ensures StripLeft(s) == [] || !IsSpace(StripLeft(s)[0])
  {
    StripLeftSpec(s);
  }

  /** rstrip() drops the trailing whitespace and nothing else. */
  lemma {:induction false} StripRightSpec(s: string)
    ensures var r := StripRight(s);
            |r| <= |s| && r == s[..|r|] && AllSpace(s[|r|..])
            && (r == [] || !IsSpace(r[|r| - 1]))
    decreases |s|
  {
    if s != [] && IsSpace(s[|s| - 1]) {
      var s' := s[..|s| - 1];
      StripRightSpec(s');
      var r := StripRight(s');
      assert s[..|r|] == s'[..|r|];
      assert s[|r|..] == s'[|r|..] + [s[|s| - 1]];
    }
  }

  /** str.strip() */
  function Strip(s: string): string {
    StripRight(StripLeft(s))
  }

  /** The longest prefix of s without whitespace. */
  function WordPrefix(s: string): (w: string)
    ensures |w| <= |s| && w == s[..|w|] && NoSpace(w)
    ensures |w| < |s| ==> IsSpace(s[|w|])
  {
    if s == [] || IsSpace(s[0]) then [] else [s[0]] + WordPrefix(s[1..])
  }

  /** str.split(): the maximal runs of non-whitespace characters, in order. */
  function Words(s: string): seq<string>
    decreases |s|
  {
    var t := StripLeft(s);
    if t == [] then []
    else
      StripLeftShape(s);
      var w := WordPrefix(t);
      [w] + Words(t[|w|..])
  }

  /** Every word split() returns is non-empty and holds no whitespace. */
  lemma {:induction false} WordsAreWords(s: string)
    ensures forall k :: 0 <= k < |Words(s)| ==> Words(s)[k] != [] && NoSpace(Words(s)[k])
    decreases |s|
  {
    var t := StripLeft(s);
    if t != [] {
      StripLeftSpec(s);
      var w := WordPrefix(t);
      WordsAreWords(t[|w|..]);
    }
  }

  /** A string with no whitespace at either end is its own strip(). */
  lemma StripUnchanged(s: string)
    requires s == [] || (!IsSpace(s[0]) && !IsSpace(s[|s| - 1]))
    ensures Strip(s) == s
  {
  }

  /** strip() removes exactly the whitespace at both ends: what remains is
      an infix of s with whitespace only before and after it. */
  lemma StripIsInfix(s: string)
    ensures var r := Strip(s);
            exists a :: 0 <= a <= |s| - |r| && s[a..a + |r|] == r
                        && AllSpace(s[..a]) && AllSpace(s[a + |r|..])
    ensures var r := Strip(s); r == [] || (!IsSpace(r[0]) && !IsSpace(r[|r| - 1]))
  {
    var l := StripLeft(s);
    var r := StripRight(l);
    StripLeftSpec(s);
    StripRightSpec(l);
    var a := |s| - |l|;
    assert s[a..a + |r|] == l[..|r|] == r;
    assert s[a + |r|..] == l[|r|..];
    if r != [] {
      assert r[0] == l[0];
    }
  }

  lemma StripLeftIdempotent(s: string)
    ensures StripLeft(StripLeft(s)) == StripLeft(s)
  {
  }

  /** Leading whitespace is invisible to split(). */
  lemma WordsAfterSpaces(p: string, s: string)
    requires AllSpace(p)
    ensures Words(p + s) == Words(s)
  {
    StripLeftOfSpaces(p, s);
  }

  lemma {:induction false} StripLeftOfSpaces(p: string, s: string)
    requires AllSpace(p)
    ensures StripLeft(p + s) == StripLeft(s)
    decreases |p|
  {
    if p != [] {
      assert (p + s)[1..] == p[1..] + s;
      StripLeftOfSpaces(p[1..], s);
    } else {
      assert p + s == s;
    }
  }

  lemma {:induction false} StripLeftAppend(a: string, c: string)
    requires StripLeft(a) != []
    ensures StripLeft(a + c) == StripLeft(a) + c
    decreases |a|
  {
    if IsSpace(a[0]) {
      assert (a + c)[1..] == a[1..] + c;
      StripLeftAppend(a[1..], c);
    }
  }

  lemma {:induction false} WordPrefixAppend(t: string, c: string)
    requires c != [] && IsSpace(c[0])
    ensures WordPrefix(t + c) == WordPrefix(t)
    decreases |t|
  {
    if t == [] {
      assert t + c == c;
    } else if !IsSpace(t[0]) {
      assert (t + c)[1..] == t[1..] + c;
      WordPrefixAppend(t[1..], c);
    }
  }

  /** A single word splits to itself. */
  lemma WordsOfWord(w: string)
    requires w != [] && NoSpace(w)
    ensures Words(w) == [w]
  {
    WordPrefixWhole(w);
    assert w[|w|..] == [];
  }

  lemma {:induction false} WordPrefixWhole(w: string)
    requires NoSpace(w)
    ensures WordPrefix(w) == w
    decreases |w|
  {
    if w != [] {
      WordPrefixWhole(w[1..]);
      assert [w[0]] + w[1..] == w;
    }
  }

  /** Joining two strings with a space concatenates their split()s: the
      separator never merges or splits a word. */
  lemma {:induction false} WordsJoin(a: string, b: string)
    ensures Words(a + " " + b) == Words(a) + Words(b)
    decreases |a|
  {
    var t := StripLeft(a);
    if t == [] {
      WordsJoinBlank(a, b);
    } else {
      var w := WordPrefix(t);
      var rest := t[|w|..];
      StripLeftShape(a);
      assert w != [];
      var ab := a + " " + b;
      var rb := rest + " " + b;
      assert ab == a + (" " + b);
      assert rb == rest + (" " + b);
      WordsJoinStep(a, " " + b, t, w, rest);
      WordsUnfold(a, w, rest);
      WordsJoin(rest, b);
      ConsAssoc(w, Words(rest), Words(b));
    }
  }

  lemma ConsAssoc(w: string, p: seq<string>, q: seq<string>)
    ensures [w] + (p + q) == ([w] + p) + q
  {
  }

  lemma WordsJoinBlank(a: string, b: string)
    requires StripLeft(a) == []
    ensures Words(a + " " + b) == Words(a) + Words(b)
  {
    StripLeftSpec(a);
    assert AllSpace(a + " ");
    assert a + " " + b == (a + " ") + b;
    WordsAfterSpaces(a + " ", b);
  }

  lemma WordsJoinStep(a: string, c: string, t: string, w: string, rest: string)
    requires t == StripLeft(a) && t != [] && w == WordPrefix(t) && rest == t[|w|..]
    requires c != [] && IsSpace(c[0])
    ensures Words(a + c) == [w] + Words(rest + c)
  {
    StripLeftShape(a);
    StripLeftAppend(a, c);
    WordPrefixAppend(t, c);
    assert (t + c)[|w|..] == rest + c;
    WordsUnfold(a + c, w, rest + c);
  }

  /** One step of split(): the first word, then the split of what follows it. */
  lemma WordsUnfold(s: string, w: string, rest: string)
    requires StripLeft(s) != [] && w == WordPrefix(StripLeft(s))
    requires rest == StripLeft(s)[|w|..]
    ensures Words(s) == [w] + Words(rest)
  {
  }

  /** ' '.join(fields) */
  function Join(fields: seq<string>): string
    decreases |fields|
  {
    if fields == [] then []
    else if |fields| == 1 then fields[0]
    else fields[0] + " " + Join(fields[1..])
  }

  /** Fields that each split to one word, joined by spaces, split to those
      words in order. */
  lemma {:induction false} WordsOfJoin(fields: seq<string>, values: seq<string>)
    requires |fields| == |values|
    requires forall i :: 0 <= i < |fields| ==> Words(fields[i]) == [values[i]]
    ensures Words(Join(fields)) == values
    decreases |fields|
  {
    if |fields| > 1 {
      WordsOfJoin(fields[1..], values[1..]);
      WordsJoin(fields[0], Join(fields[1..]));
      assert values == [values[0]] + values[1..];
    } else if |fields| == 0 {
      assert StripLeft([]) == [];
    }
  }
}
