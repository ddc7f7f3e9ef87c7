/**
 * The string primitives the row parser and the override sanitiser rely on:
 * `String.prototype.split` on one character, `trim`, removal of every comma,
 * `parseFloat` and `Number` on decimal text.
 *
 * `parseFloat` reads the longest decimal prefix after leading white space
 * (an optional sign, digits, an optional '.' and more digits) and gives NaN
 * when there is none; `Number` accepts the same literal only when it spans the
 * whole trimmed string, and reads the empty string as 0.
 */
module Text {
  import opened Wrappers
  import opened Numbers

  /** Number of occurrences of c in s. */
  function Count(s: string, c: char): (n: nat)
    ensures n <= |s|
    ensures n == 0 <==> c !in s
  {
    if s == [] then 0 else (if s[0] == c then 1 else 0) + Count(s[1..], c)
  }

  lemma CountAppend(a: string, b: string, c: char)
    ensures Count(a + b, c) == Count(a, c) + Count(b, c)
  {
    if a == [] {
      assert a + b == b;
    } else {
      assert (a + b)[1..] == a[1..] + b;
      CountAppend(a[1..], b, c);
    }
  }

  /** `s.split(sep)`: the pieces between the separators, one more piece than separators. */
  function Split(s: string, sep: char): (parts: seq<string>)
    ensures |parts| == Count(s, sep) + 1
    ensures forall i :: 0 <= i < |parts| ==> sep !in parts[i]
  {
    if s == [] then [[]]
    else
      var rest := Split(s[1..], sep);
      if s[0] == sep then [[]] + rest
      else [[s[0]] + rest[0]] + rest[1..]
  }

  /** `parts.join(sep)`, the inverse of Split. */
  function Join(parts: seq<string>, sep: char): string
  {
    if |parts| == 0 then []
    else if |parts| == 1 then parts[0]
    else parts[0] + [sep] + Join(parts[1..], sep)
  }

  /** An empty first piece contributes only its separator. */
  lemma JoinEmptyHead(rest: seq<string>, sep: char)
    requires |rest| >= 1
    ensures Join([[]] + rest, sep) == [sep] + Join(rest, sep)
  {
    assert ([[]] + rest)[1..] == rest;
  }

  /** A character put in front of the first piece ends up in front of the joined text. */
  lemma JoinConsHead(c: char, rest: seq<string>, sep: char)
    requires |rest| >= 1
    ensures Join([[c] + rest[0]] + rest[1..], sep) == [c] + Join(rest, sep)
  {
    var parts := [[c] + rest[0]] + rest[1..];
    if |rest| > 1 {
      assert parts[1..] == rest[1..];
    }
  }

  /** Splitting loses nothing: joining the pieces back gives the original text. */
  lemma {:induction false} JoinSplit(s: string, sep: char)
    ensures Join(Split(s, sep), sep) == s
  {
    if s != [] {
      var rest := Split(s[1..], sep);
      JoinSplit(s[1..], sep);
      if s[0] == sep {
        JoinEmptyHead(rest, sep);
      } else {
        JoinConsHead(s[0], rest, sep);
      }
      assert s == [s[0]] + s[1..];
    }
  }

  /**
   * The characters `String.prototype.trim` removes: the ECMAScript WhiteSpace
   * (tab, vertical tab, form feed, space, no-break space, the byte order mark
   * and every other space separator of Unicode category Zs) and the
   * LineTerminators (line feed, carriage return, line and paragraph separator).
   */
  predicate IsSpace(c: char)
  {
    c == ' ' || c == '\t' || c == '\n' || c == '\r' || c == '\U{0B}' || c == '\U{0C}'
    || c == '\U{A0}' || c == '\U{FEFF}' || c == '\U{1680}' || '\U{2000}' <= c <= '\U{200A}'
    || c == '\U{2028}' || c == '\U{2029}' || c == '\U{202F}' || c == '\U{205F}' || c == '\U{3000}'
  }

  /** `s.trimStart()`: drops leading white space and nothing else. */
  function TrimStart(s: string): (r: string)
    ensures |r| <= |s| && r == s[|s| - |r|..]
    ensures r == [] || !IsSpace(r[0])
    ensures forall i :: 0 <= i < |s| - |r| ==> IsSpace(s[i])
  {
    if s != [] && IsSpace(s[0]) then TrimStart(s[1..]) else s
  }

  /** `s.trimEnd()`: drops trailing white space and nothing else. */
  function TrimEnd(s: string): (r: string)
    ensures |r| <= |s| && r == s[..|r|]
    ensures r == [] || !IsSpace(r[|r| - 1])
    ensures forall i :: |r| <= i < |s| ==> IsSpace(s[i])
  {
    if s != [] && IsSpace(s[|s| - 1]) then TrimEnd(s[..|s| - 1]) else s
  }

  /** `s.trim()`. */
  function Trim(s: string): string
  {
    TrimEnd(TrimStart(s))
  }

  /** `s.replace(/c/g, '')`: every occurrence of c removed, the rest kept in order. */
  function RemoveAll(s: string, c: char): (r: string)
    ensures c !in r
    ensures |r| == |s| - Count(s, c)
    ensures c !in s ==> r == s
  {
    if s == [] then []
    else if s[0] == c then RemoveAll(s[1..], c)
    else [s[0]] + RemoveAll(s[1..], c)
  }

  /** Removal distributes over concatenation, so it works character by character. */
  lemma {:induction false} RemoveAllAppend(a: string, b: string, c: char)
    ensures RemoveAll(a + b, c) == RemoveAll(a, c) + RemoveAll(b, c)
  {
    if a == [] {
      assert a + b == b;
    } else {
      assert (a + b)[0] == a[0] && (a + b)[1..] == a[1..] + b;
      RemoveAllAppend(a[1..], b, c);
    }
  }

  /** On one character: it goes if it is c and stays otherwise. */
  lemma RemoveAllSingle(x: char, c: char)
    ensures RemoveAll([x], c) == if x == c then [] else [x]
  {
    assert [x][1..] == [];
  }

  predicate IsDigit(c: char)
  {
    '0' <= c <= '9'
  }

  function DigitValue(c: char): (d: nat)
    requires IsDigit(c)
    ensures d <= 9
  {
    (c as int - '0' as int) as nat
  }

  predicate AllDigits(s: string)
  {
    forall i :: 0 <= i < |s| ==> IsDigit(s[i])
  }

  /** Length of the run of digits that starts s. */
  function LeadingDigits(s: string): (n: nat)
    ensures n <= |s|
    ensures AllDigits(s[..n])
    ensures n < |s| ==> !IsDigit(s[n])
  {
    if s != [] && IsDigit(s[0]) then
      var k := LeadingDigits(s[1..]);
      assert s[..k + 1] == [s[0]] + s[1..][..k];
      1 + k
    else 0
  }

  /** The integer a string of decimal digits denotes. */
  function DigitsValue(ds: string): nat
    requires AllDigits(ds)
  {
    if ds == [] then 0
    else 10 * DigitsValue(ds[..|ds| - 1]) + DigitValue(ds[|ds| - 1])
  }

  /** The value of the digits after a decimal point: 0.d1 d2 d3 ... */
  function FractionValue(ds: string): (f: real)
    requires AllDigits(ds)
    ensures 0.0 <= f < 1.0
  {
    if ds == [] then 0.0
    else (DigitValue(ds[0]) as real + FractionValue(ds[1..])) / 10.0
  }

  /** A decimal literal read from the front of a string: its value and how many characters it used. */
  datatype Scan = Scan(value: real, length: nat)

  /** The longest prefix of u of the form digits [. digits] or . digits, if any. */
  function ScanUnsigned(u: string): (r: Option<Scan>)
    ensures r.Some? ==> 0 < r.value.length <= |u| && r.value.value >= 0.0
    ensures u != [] && IsDigit(u[0]) ==> r.Some?
  {
    var n := LeadingDigits(u);
    var hasDot := n < |u| && u[n] == '.';
    var fracLen := if hasDot then LeadingDigits(u[n + 1..]) else 0;
    if n == 0 && fracLen == 0 then
      None
    else
      var fraction := if hasDot then FractionValue(u[n + 1..][..fracLen]) else 0.0;
      Some(Scan(DigitsValue(u[..n]) as real + fraction, n + (if hasDot then 1 + fracLen else 0)))
  }

  /** The longest prefix of t that is a decimal literal with an optional sign, if any. */
  function ScanDecimal(t: string): (r: Option<Scan>)
    ensures r.Some? ==> 0 < r.value.length <= |t|
    ensures r.Some? && t[0] != '-' ==> r.value.value >= 0.0
  {
    if t != [] && (t[0] == '-' || t[0] == '+') then
      match ScanUnsigned(t[1..])
      case None => None
      case Some(sc) => Some(Scan(if t[0] == '-' then -sc.value else sc.value, sc.length + 1))
    else ScanUnsigned(t)
  }

  /** `parseFloat(s)`. */
  function ParseFloat(s: string): Number
  {
    match ScanDecimal(TrimStart(s))
    case None => NaN
    case Some(sc) => Num(sc.value)
  }

  /** `Number(s)` for decimal text. */
  function ToNumber(s: string): Number
  {
    var t := Trim(s);
    if t == [] then Num(0.0)
    else match ScanDecimal(t)
      case Some(sc) => if sc.length == |t| then Num(sc.value) else NaN
      case None => NaN
  }

  /** Empty text reads as NaN. */
  lemma ParseFloatOfEmpty(s: string)
    requires s == []
    ensures ParseFloat(s) == NaN
  {
    assert TrimStart(s) == [];
    assert LeadingDigits(s) == 0;
  }

  /** A non-empty run of digits is read whole, as the integer it spells. */
  lemma ScanOfDigits(ds: string)
    requires ds != [] && AllDigits(ds)
    ensures ScanDecimal(ds) == Some(Scan(DigitsValue(ds) as real, |ds|))
  {
    var n := LeadingDigits(ds);
    assert n == |ds|;
    assert ds[..n] == ds;
    assert ds[0] != '-' && ds[0] != '+' by {
      assert IsDigit(ds[0]);
    }
    assert ScanDecimal(ds) == ScanUnsigned(ds);
    assert ScanUnsigned(ds) == Some(Scan(DigitsValue(ds[..n]) as real + 0.0, n));
  }

  /** A non-empty run of digits parses to the integer it spells. */
  lemma ParseFloatOfDigits(ds: string)
    requires ds != [] && AllDigits(ds)
    ensures ParseFloat(ds) == Num(DigitsValue(ds) as real)
  {
    assert IsDigit(ds[0]);
    assert TrimStart(ds) == ds;
    ScanOfDigits(ds);
  }

  /** Splitting text without the separator gives the text itself. */
  lemma {:induction false} SplitNoSeparator(a: string, sep: char)
    requires sep !in a
    ensures Split(a, sep) == [a]
  {
    if a != [] {
      SplitNoSeparator(a[1..], sep);
      assert [a[0]] + a[1..] == a;
    }
  }

  /** A leading piece without the separator splits off as the first part. */
  lemma {:induction false} SplitLeadingPiece(a: string, rest: string, sep: char)
    requires sep !in a
    ensures Split(a + [sep] + rest, sep) == [a] + Split(rest, sep)
  {
    var s := a + [sep] + rest;
    if a == [] {
      assert s == [sep] + rest && s[1..] == rest;
    } else {
      assert s[0] == a[0] && s[1..] == a[1..] + [sep] + rest;
      SplitLeadingPiece(a[1..], rest, sep);
      assert [a[0]] + a[1..] == a;
    }
  }

  /** Joining pieces that do not contain the separator and splitting again gives the pieces back. */
  lemma {:induction false} SplitJoin(parts: seq<string>, sep: char)
    requires |parts| >= 1
    requires forall i :: 0 <= i < |parts| ==> sep !in parts[i]
    ensures Split(Join(parts, sep), sep) == parts
  {
    if |parts| == 1 {
      SplitNoSeparator(parts[0], sep);
    } else {
      SplitJoin(parts[1..], sep);
      SplitLeadingPiece(parts[0], Join(parts[1..], sep), sep);
      assert [parts[0]] + parts[1..] == parts;
    }
  }

  function DigitChar(d: nat): (c: char)
    requires d <= 9
    ensures IsDigit(c) && DigitValue(c) == d
  {
    ('0' as int + d) as char
  }

  /** The decimal digits of n, without leading zeros. */
  function NatToDigits(n: nat): (ds: string)
    ensures ds != [] && AllDigits(ds)
    ensures DigitsValue(ds) == n
  {
    if n < 10 then
      [DigitChar(n)]
    else
      var init := NatToDigits(n / 10);
      var ds := init + [DigitChar(n % 10)];
      assert ds[..|ds| - 1] == init;
      ds
  }

  /** Digits are not white space, so trimming leaves them alone. */
  lemma TrimOfDigits(ds: string)
    requires AllDigits(ds)
    ensures Trim(ds) == ds
  {
    if ds != [] {
      DigitIsNotSpace(ds[0]);
      assert TrimStart(ds) == ds;
      DigitIsNotSpace(ds[|ds| - 1]);
    }
  }

  lemma DigitIsNotSpace(c: char)
    requires IsDigit(c)
    ensures !IsSpace(c)
  {
  }

  /** `Number` of a non-empty run of digits is the integer it spells. */
  lemma ToNumberOfDigits(ds: string)
    requires ds != [] && AllDigits(ds)
    ensures ToNumber(ds) == Num(DigitsValue(ds) as real)
  {
    TrimOfDigits(ds);
    ScanOfDigits(ds);
  }

  /** Decimal text: the digits of `whole`, then a point and `frac` unless `frac` is empty. */
  function DecimalText(whole: nat, frac: string): (s: string)
    requires AllDigits(frac)
    ensures s != [] && IsDigit(s[0]) && IsDigit(s[|s| - 1])
  {
    NatToDigits(whole) + (if frac == [] then [] else ['.'] + frac)
  }

  /** The value decimal text denotes: the whole part plus the fraction `0.frac`. */
  function DecimalValue(whole: nat, frac: string): (v: real)
    requires AllDigits(frac)
    ensures whole as real <= v < whole as real + 1.0
  {
    whole as real + FractionValue(frac)
  }

  /** A run of digits is a leading run as a whole. */
  lemma {:induction false} LeadingDigitsOfDigits(ds: string)
    requires AllDigits(ds)
    ensures LeadingDigits(ds) == |ds|
  {
    if ds != [] {
      assert IsDigit(ds[0]);
      LeadingDigitsOfDigits(ds[1..]);
    }
  }

  /** The leading run of digits stops at the first character that is not a digit. */
  lemma {:induction false} LeadingDigitsStop(ds: string, rest: string)
    requires AllDigits(ds) && rest != [] && !IsDigit(rest[0])
    ensures LeadingDigits(ds + rest) == |ds|
  {
    if ds == [] {
      assert ds + rest == rest;
    } else {
      assert IsDigit(ds[0]);
      assert (ds + rest)[0] == ds[0] && (ds + rest)[1..] == ds[1..] + rest;
      LeadingDigitsStop(ds[1..], rest);
    }
  }

  /** Decimal text is read whole by `parseFloat`, to the value it denotes. */
  lemma ParseFloatOfDecimal(whole: nat, frac: string)
    requires AllDigits(frac)
    ensures ParseFloat(DecimalText(whole, frac)) == Num(DecimalValue(whole, frac))
  {
    var ip := NatToDigits(whole);
    var s := DecimalText(whole, frac);
    if frac == [] {
      assert s == ip;
      ParseFloatOfDigits(ip);
    } else {
      assert s == ip + (['.'] + frac);
      DigitIsNotSpace(s[0]);
      assert TrimStart(s) == s;
      assert ScanDecimal(s) == ScanUnsigned(s);
      LeadingDigitsStop(ip, ['.'] + frac);
      var n := |ip|;
      assert s[..n] == ip && s[n] == '.' && s[n + 1..] == frac;
      LeadingDigitsOfDigits(frac);
      assert frac[..|frac|] == frac;
      assert ScanUnsigned(s) == Some(Scan(DigitsValue(ip) as real + FractionValue(frac), |s|));
    }
  }

  /** Decimal text has no white space at either end and no character c other than digits and the point. */
  lemma DecimalTextPlain(whole: nat, frac: string, c: char)
    requires AllDigits(frac) && !IsDigit(c) && c != '.'
    ensures Trim(DecimalText(whole, frac)) == DecimalText(whole, frac)
    ensures c !in DecimalText(whole, frac)
  {
    var s := DecimalText(whole, frac);
    DigitIsNotSpace(s[0]);
    assert TrimStart(s) == s;
    DigitIsNotSpace(s[|s| - 1]);
    assert c !in NatToDigits(whole);
  }

  /** Appending a digit multiplies the value by ten and adds the digit. */
  lemma DigitsValueSnoc(ds: string, c: char)
    requires AllDigits(ds) && IsDigit(c)
    ensures DigitsValue(ds + [c]) == 10 * DigitsValue(ds) + DigitValue(c)
  {
    assert (ds + [c])[..|ds|] == ds;
  }
}
