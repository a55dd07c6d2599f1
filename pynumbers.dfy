/** Python's int() and float() on the decimal literals the parameter and
    catalog files hold, and the '%.6f' formatting the catalog writer uses. */
module PyNumbers {
  import opened Wrappers
  import opened PyText

  predicate AllDigits(s: string) {
    forall i :: 0 <= i < |s| ==> IsDigit(s[i])
  }

  function DigitValue(c: char): nat
    requires IsDigit(c)
  {
    c as int - '0' as int
  }

  function DigitChar(d: nat): (c: char)
    requires d < 10
    ensures IsDigit(c) && DigitValue(c) == d
  {
    ('0' as int + d) as char
  }

  function Pow10(k: nat): (p: nat)
    ensures p >= 1
  {
    if k == 0 then 1 else 10 * Pow10(k - 1)
  }

  /** The value of a string of decimal digits, most significant digit first. */
  function DigitsValue(s: string): nat
    requires AllDigits(s)
    decreases |s|
  {
    if s == [] then 0 else DigitsValue(s[..|s| - 1]) * 10 + DigitValue(s[|s| - 1])
  }

  /** The shortest decimal spelling of n (str(n) for n >= 0). */
  function NatToDigits(n: nat): string
    decreases n
  {
    if n < 10 then [DigitChar(n)] else NatToDigits(n / 10) + [DigitChar(n % 10)]
  }

  /** NatToDigits spells a number that DigitsValue reads back. */
  lemma {:induction false} NatToDigitsSpec(n: nat)
    ensures var s := NatToDigits(n);
            0 < |s| && AllDigits(s) && DigitsValue(s) == n
    decreases n
  {
    if n >= 10 {
      NatToDigitsSpec(n / 10);
      var s := NatToDigits(n);
      assert s[..|s| - 1] == NatToDigits(n / 10);
    }
  }

  /** A number below 10^k takes at most k digits. */
  lemma {:induction false} NatToDigitsLength(n: nat, k: nat)
    requires 0 < k && n < Pow10(k)
    ensures |NatToDigits(n)| <= k
    decreases k
  {
    if n >= 10 {
      NatToDigitsLength(n / 10, k - 1);
    }
  }

  function Zeros(k: nat): (z: string)
    ensures |z| == k && AllDigits(z)
  {
    if k == 0 then "" else "0" + Zeros(k - 1)
  }

  /** Left-pads a digit string with zeros to the given width. */
  function ZeroPad(s: string, width: nat): string {
    if |s| >= width then s else Zeros(width - |s|) + s
  }

  lemma {:induction false} ZeroPrefix(t: string)
    requires AllDigits(t)
    ensures AllDigits("0" + t) && DigitsValue("0" + t) == DigitsValue(t)
    decreases |t|
  {
    var u := "0" + t;
    if t != [] {
      assert u[..|u| - 1] == "0" + t[..|t| - 1];
      assert u[|u| - 1] == t[|t| - 1];
      ZeroPrefix(t[..|t| - 1]);
    }
  }

  /** Leading zeros do not change the value of a digit string. */
  lemma {:induction false} LeadingZeros(k: nat, s: string)
    requires AllDigits(s)
    ensures AllDigits(Zeros(k) + s) && DigitsValue(Zeros(k) + s) == DigitsValue(s)
    decreases k
  {
    if k == 0 {
      assert Zeros(k) + s == s;
    } else {
      assert Zeros(k) + s == "0" + (Zeros(k - 1) + s);
      LeadingZeros(k - 1, s);
      ZeroPrefix(Zeros(k - 1) + s);
    }
  }

  /** Zero-padding keeps a digit string's value. */
  lemma ZeroPadValue(s: string, width: nat)
    requires AllDigits(s)
    ensures var z := ZeroPad(s, width);
            AllDigits(z) && DigitsValue(z) == DigitsValue(s) && |z| == if |s| >= width then |s| else width
  {
    if |s| < width {
      LeadingZeros(width - |s|, s);
    }
  }

  /** Python's int() on a token that holds no whitespace: an optional sign
      followed by decimal digits. */
  function ParseInt(s: string): Option<int> {
    if |s| > 1 && (s[0] == '-' || s[0] == '+') && AllDigits(s[1..]) then
      Some(if s[0] == '-' then -(DigitsValue(s[1..]) as int) else DigitsValue(s[1..]) as int)
    else if |s| > 0 && AllDigits(s) then
      Some(DigitsValue(s) as int)
    else
      None
  }

  /** str(n) */
  function IntToString(n: int): string {
    if n < 0 then "-" + NatToDigits(-n) else NatToDigits(n)
  }

  /** int(str(n)) == n */
  lemma ParseIntRoundTrip(n: int)
    ensures ParseInt(IntToString(n)) == Some(n)
  {
    if n < 0 {
      NatToDigitsSpec(-n);
      assert IntToString(n)[1..] == NatToDigits(-n);
    } else {
      NatToDigitsSpec(n);
    }
  }

  /** The first position of c in s. */
  function IndexOf(s: string, c: char): (r: Option<nat>)
    ensures r.Some? ==> r.value < |s| && s[r.value] == c
                        && forall i :: 0 <= i < r.value ==> s[i] != c
    ensures r.None? ==> forall i :: 0 <= i < |s| ==> s[i] != c
  {
    if s == [] then None
    else if s[0] == c then Some(0)
    else match IndexOf(s[1..], c)
      case None => None
      case Some(k) => Some(k + 1)
  }

  /** An unsigned decimal literal: digits, optionally with one point, and at
      least one digit on some side of the point. */
  function UnsignedDecimal(s: string): Option<real> {
    match IndexOf(s, '.')
    case None =>
      if s != [] && AllDigits(s) then Some(DigitsValue(s) as real) else None
    case Some(k) =>
      var ip, fp := s[..k], s[k + 1..];
      if AllDigits(ip) && AllDigits(fp) && (ip != [] || fp != []) then
        Some(DigitsValue(ip) as real + DigitsValue(fp) as real / Pow10(|fp|) as real)
      else
        None
  }

  function ParseDecimal(s: string): Option<real> {
    if s != [] && (s[0] == '-' || s[0] == '+') then
      match UnsignedDecimal(s[1..])
      case None => None
      case Some(v) => Some(if s[0] == '-' then -v else v)
    else
      UnsignedDecimal(s)
  }

  /** Python's float() on plain decimal literals, surrounding whitespace
      allowed. */
  function PyFloat(s: string): Option<real> {
    ParseDecimal(Strip(s))
  }

  const Micro: int := 1000000

  /** '%.6f' % (n / 10^6): the value of n micro-units with six decimals. */
  function FormatFixed6(n: int): string {
    if n < 0 then "-" + UnsignedFixed6(-n) else UnsignedFixed6(n)
  }

  /** '%.6f' % (m / 10^6) for m >= 0. */
  function UnsignedFixed6(m: nat): string {
    NatToDigits(m / Micro) + "." + ZeroPad(NatToDigits(m % Micro), 6)
  }

  function Spaces(k: nat): (p: string)
    ensures |p| == k && AllSpace(p)
  {
    if k == 0 then "" else " " + Spaces(k - 1)
  }

  /** '%9.6f' % (n / 10^6): FormatFixed6 right-aligned in nine columns. */
  function FormatField(n: int): string {
    var s := FormatFixed6(n);
    if |s| >= 9 then s else Spaces(9 - |s|) + s
  }

  lemma IndexOfPoint(d: string, rest: string)
    requires AllDigits(d)
    ensures IndexOf(d + "." + rest, '.') == Some(|d|)
  {
    var s := d + "." + rest;
    assert s[|d|] == '.';
    assert forall i :: 0 <= i < |d| ==> s[i] == d[i];
  }

  /** The unsigned six-decimal field is a whitespace-free word that starts
      and ends with a digit. */
  lemma UnsignedFixed6IsWord(m: nat)
    ensures var u := UnsignedFixed6(m);
            u != [] && NoSpace(u) && IsDigit(u[0]) && IsDigit(u[|u| - 1])
  {
    var d := NatToDigits(m / Micro);
    var z := ZeroPad(NatToDigits(m % Micro), 6);
    NatToDigitsSpec(m / Micro);
    NatToDigitsSpec(m % Micro);
    ZeroPadValue(NatToDigits(m % Micro), 6);
    var u := UnsignedFixed6(m);
    assert u == d + "." + z;
    assert u[|u| - 1] == z[|z| - 1];
    assert u[0] == d[0];
    forall i | 0 <= i < |u|
      ensures u[i] == '.' || IsDigit(u[i])
    {
      if i < |d| {
        assert u[i] == d[i];
      } else if i > |d| {
        assert u[i] == z[i - |d| - 1];
      }
    }
  }

  /** The six-decimal field is one whitespace-free word. */
  lemma FormatFixed6IsWord(n: int)
    ensures var s := FormatFixed6(n);
            s != [] && NoSpace(s) && (s[0] == '-' || IsDigit(s[0])) && IsDigit(s[|s| - 1])
  {
    UnsignedFixed6IsWord(if n < 0 then -n else n);
  }

  /** The unsigned field reads back as m / 10^6. */
  lemma UnsignedFixed6Value(m: nat)
    ensures UnsignedDecimal(UnsignedFixed6(m)) == Some(m as real / Micro as real)
  {
    var q, f := m / Micro, m % Micro;
    var d := NatToDigits(q);
    var fd := NatToDigits(f);
    NatToDigitsSpec(q);
    NatToDigitsSpec(f);
    assert Pow10(6) == Micro;
    NatToDigitsLength(f, 6);
    var z := ZeroPad(fd, 6);
    ZeroPadValue(fd, 6);
    var u := d + "." + z;
    IndexOfPoint(d, z);
    assert u[..|d|] == d && u[|d| + 1..] == z;
    assert UnsignedDecimal(u) == Some(q as real + f as real / Micro as real);
    MicroSplit(m);
  }

  lemma SignedDecimal(u: string, v: real)
    requires u != [] && IsDigit(u[0]) && UnsignedDecimal(u) == Some(v)
    ensures ParseDecimal(u) == Some(v)
    ensures ParseDecimal("-" + u) == Some(-v)
  {
    assert ("-" + u)[1..] == u;
  }

  lemma MicroSplit(m: nat)
    ensures (m / Micro) as real + (m % Micro) as real / Micro as real == m as real / Micro as real
  {
  }

  /** float('%.6f' % (n / 10^6)) == n / 10^6: the catalog's number format
      reads back exactly. */
  lemma FormatFixed6RoundTrip(n: int)
    ensures PyFloat(FormatFixed6(n)) == Some(n as real / Micro as real)
  {
    var m: nat := if n < 0 then -n else n;
    var u := UnsignedFixed6(m);
    var s := FormatFixed6(n);
    FormatFixed6IsWord(n);
    StripUnchanged(s);
    UnsignedFixed6Value(m);
    UnsignedFixed6IsWord(m);
    SignedRoundTrip(n, u, s, m as real / Micro as real);
  }

  /** The sign step of the round trip, over the unsigned text u. */
  lemma SignedRoundTrip(n: int, u: string, s: string, v: real)
    requires u != [] && IsDigit(u[0]) && UnsignedDecimal(u) == Some(v)
    requires v == (if n < 0 then -n else n) as real / Micro as real
    requires s == (if n < 0 then "-" + u else u) && Strip(s) == s
    ensures PyFloat(s) == Some(n as real / Micro as real)
  {
    SignedDecimal(u, v);
  }

  /** The nine-column field splits to the six-decimal word. */
  lemma FormatFieldWords(n: int)
    ensures Words(FormatField(n)) == [FormatFixed6(n)]
  {
    var s := FormatFixed6(n);
    FormatFixed6IsWord(n);
    WordsOfWord(s);
    if |s| < 9 {
      WordsAfterSpaces(Spaces(9 - |s|), s);
    }
  }
}
