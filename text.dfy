/** The string operations the services rely on: Python's `str.split` with a
    one-character separator, `str(int)`, `float(str)` for plain decimal
    literals, `s[:-1]`, and ASCII case folding (`lower`, `upper`). */
module Text {
  import opened Wrappers

  // ---------------------------------------------------------------------------
  // split / join

  /** `s.split(sep)`: the pieces between separators, empty pieces kept; an
      empty string splits into one empty piece. */
  function Split(s: string, sep: char): (r: seq<string>)
    ensures |r| >= 1
    ensures forall i :: 0 <= i < |r| ==> sep !in r[i]
    decreases |s|
  {
    if |s| == 0 then [""]
    else if s[0] == sep then [""] + Split(s[1..], sep)
    else
      var rest := Split(s[1..], sep);
      [[s[0]] + rest[0]] + rest[1..]
  }

  /** `sep.join(parts)`. */
  function Join(parts: seq<string>, sep: char): string
    requires |parts| >= 1
    decreases |parts|
  {
    if |parts| == 1 then parts[0] else parts[0] + [sep] + Join(parts[1..], sep)
  }

  /** Splitting loses nothing: joining the pieces back gives the input. */
  lemma {:induction false} JoinSplit(s: string, sep: char)
    ensures Join(Split(s, sep), sep) == s
    decreases |s|
  {
    if |s| == 0 {
    } else if s[0] == sep {
      JoinSplit(s[1..], sep);
      assert s == [sep] + s[1..];
    } else {
      JoinSplit(s[1..], sep);
      var rest := Split(s[1..], sep);
      if |rest| == 1 {
        assert s == [s[0]] + s[1..];
      } else {
        assert Join(rest, sep) == rest[0] + [sep] + Join(rest[1..], sep);
        assert s == [s[0]] + s[1..];
      }
    }
  }

  /** And the other direction: pieces free of the separator are recovered
      exactly by splitting their join. */
  lemma {:induction false} SplitJoin(parts: seq<string>, sep: char)
    requires |parts| >= 1
    requires forall i :: 0 <= i < |parts| ==> sep !in parts[i]
    ensures Split(Join(parts, sep), sep) == parts
    decreases |parts|, |parts[0]|
  {
    var p := parts[0];
    if |parts| == 1 {
      if |p| > 0 {
        assert sep !in p[1..] by { assert forall k :: 0 <= k < |p[1..]| ==> p[1..][k] == p[k + 1]; }
        SplitJoin([p[1..]], sep);
        assert p[0] != sep by { assert p[0] in p; }
        assert [p[0]] + p[1..] == p;
      }
    } else {
      var j := Join(parts, sep);
      assert j == p + [sep] + Join(parts[1..], sep);
      if |p| == 0 {
        assert j == [sep] + Join(parts[1..], sep);
        assert j[1..] == Join(parts[1..], sep);
        SplitJoin(parts[1..], sep);
        assert parts == [""] + parts[1..];
      } else {
        var shorter := [p[1..]] + parts[1..];
        assert sep !in p[1..] by { assert forall k :: 0 <= k < |p[1..]| ==> p[1..][k] == p[k + 1]; }
        assert forall i :: 0 <= i < |shorter| ==> sep !in shorter[i] by {
          forall i | 0 <= i < |shorter| ensures sep !in shorter[i] {
            if i > 0 { assert shorter[i] == parts[i]; }
          }
        }
        SplitJoin(shorter, sep);
        assert Join(shorter, sep) == p[1..] + [sep] + Join(parts[1..], sep);
        assert j[1..] == Join(shorter, sep);
        assert p[0] != sep by { assert p[0] in p; }
        assert j[0] == p[0];
        assert [p[0]] + p[1..] == p;
        assert [[p[0]] + p[1..]] + parts[1..] == parts;
      }
    }
  }

  // ---------------------------------------------------------------------------
  // digits, str(int), int(str)

  predicate IsDigit(c: char) {
    '0' <= c <= '9'
  }

  predicate AllDigits(s: string) {
    forall i :: 0 <= i < |s| ==> IsDigit(s[i])
  }

  function DigitChar(d: nat): (c: char)
    requires d < 10
  {
    (48 + d) as char
  }

  function DigitValue(c: char): nat
    requires IsDigit(c)
  {
    (c as int) - 48
  }

  /** `str(n)` for a non-negative integer: decimal digits, no leading zero. */
  function NatStr(n: nat): (s: string)
    ensures |s| >= 1 && AllDigits(s)
    decreases n
  {
    if n < 10 then [DigitChar(n)] else NatStr(n / 10) + [DigitChar(n % 10)]
  }

  /** `str(i)` for any integer. */
  function IntStr(i: int): (s: string)
    ensures |s| >= 1
    ensures (i < 0) == (s[0] == '-')
  {
    if i < 0 then "-" + NatStr(-i) else NatStr(i)
  }

  /** The value of a string of decimal digits (the empty string reads as 0). */
  function ParseNat(s: string): nat
    requires AllDigits(s)
    decreases |s|
  {
    if |s| == 0 then 0 else ParseNat(s[..|s| - 1]) * 10 + DigitValue(s[|s| - 1])
  }

  /** Reading back what `NatStr` wrote gives the number. */
  lemma {:induction false} ParseNatStr(n: nat)
    ensures ParseNat(NatStr(n)) == n
    decreases n
  {
    var s := NatStr(n);
    if n >= 10 {
      ParseNatStr(n / 10);
      assert s[..|s| - 1] == NatStr(n / 10);
    }
  }

  /** Distinct numbers print distinctly. */
  lemma NatStrInjective(a: nat, b: nat)
    requires NatStr(a) == NatStr(b)
    ensures a == b
  {
    ParseNatStr(a);
    ParseNatStr(b);
  }

  function Pow10(k: nat): (r: nat)
    ensures r >= 1
  {
    if k == 0 then 1 else 10 * Pow10(k - 1)
  }

  // ---------------------------------------------------------------------------
  // float(str)

  /** What a left-to-right scan of an unsigned decimal literal has read so
      far: the integer part, the fraction digits as a number and their count,
      whether the point was seen, and how many digits there were in all. */
  datatype Literal = Literal(whole: nat, frac: nat, fracLen: nat, sawPoint: bool, digits: nat)

  /** Digits with at most one point; `None` on any other character. */
  function ScanLiteral(s: string): Option<Literal>
    decreases |s|
  {
    if |s| == 0 then Some(Literal(0, 0, 0, false, 0))
    else match ScanLiteral(s[..|s| - 1])
      case None => None
      case Some(l) =>
        var c := s[|s| - 1];
        if IsDigit(c) then
          if l.sawPoint then Some(l.(frac := l.frac * 10 + DigitValue(c), fracLen := l.fracLen + 1, digits := l.digits + 1))
          else Some(l.(whole := l.whole * 10 + DigitValue(c), digits := l.digits + 1))
        else if c == '.' && !l.sawPoint then Some(l.(sawPoint := true))
        else None
  }

  /** An unsigned decimal literal: digits, optionally a point and more digits,
      at least one digit in all. */
  function ParseUnsigned(s: string): Option<real> {
    match ScanLiteral(s)
    case None => None
    case Some(l) =>
      if l.digits == 0 then None else Some(l.whole as real + l.frac as real / Pow10(l.fracLen) as real)
  }

  /** The scan of `str(n)` reads the integer part `n` and nothing else. */
  lemma {:induction false} ScanNatStr(n: nat)
    ensures ScanLiteral(NatStr(n)) == Some(Literal(n, 0, 0, false, |NatStr(n)|))
    decreases n
  {
    var s := NatStr(n);
    if n < 10 {
      assert s[..0] == [];
    } else {
      ScanNatStr(n / 10);
      assert s[..|s| - 1] == NatStr(n / 10);
      assert DigitValue(DigitChar(n % 10)) == n % 10;
    }
  }

  /** `float(s)` for a decimal literal with an optional sign; `None` stands for
      the ValueError Python raises on anything else. */
  function ParseDecimal(s: string): Option<real> {
    if |s| > 0 && (s[0] == '-' || s[0] == '+') then
      match ParseUnsigned(s[1..])
      case None => None
      case Some(v) => Some(if s[0] == '-' then -v else v)
    else
      ParseUnsigned(s)
  }

  /** `float(str(i))` gives back `i`. */
  lemma ParseIntStr(i: int)
    ensures ParseDecimal(IntStr(i)) == Some(i as real)
  {
    var n: nat := if i < 0 then -i else i;
    var d := NatStr(n);
    ScanNatStr(n);
    assert ParseUnsigned(d) == Some(n as real);
    assert IsDigit(d[0]);
    if i < 0 {
      assert IntStr(i)[1..] == d;
    }
  }

  /** `int(s)` for an optionally signed string of decimal digits; `None`
      stands for the ValueError Python raises on anything else. */
  function ParseInt(s: string): Option<int> {
    if |s| > 0 && (s[0] == '-' || s[0] == '+') then
      if |s| > 1 && AllDigits(s[1..]) then Some(if s[0] == '-' then -(ParseNat(s[1..]) as int) else ParseNat(s[1..]) as int) else None
    else if |s| > 0 && AllDigits(s) then Some(ParseNat(s))
    else None
  }

  /** `int(str(i))` gives back `i`. */
  lemma ParseIntOfIntStr(i: int)
    ensures ParseInt(IntStr(i)) == Some(i)
  {
    var n: nat := if i < 0 then -i else i;
    ParseNatStr(n);
    assert IsDigit(NatStr(n)[0]);
    if i < 0 {
      assert IntStr(i)[1..] == NatStr(n);
    }
  }

  /** Python's `s[:-1]`: everything but the last character; empty stays empty. */
  function DropLast(s: string): (r: string)
    ensures |s| > 0 ==> |r| == |s| - 1 && s == r + [s[|s| - 1]]
    ensures |s| == 0 ==> r == ""
  {
    if |s| == 0 then "" else s[..|s| - 1]
  }

  // ---------------------------------------------------------------------------
  // ASCII case folding

  function LowerChar(c: char): char {
    if 'A' <= c <= 'Z' then (c as int + 32) as char else c
  }

  function UpperChar(c: char): char {
    if 'a' <= c <= 'z' then (c as int - 32) as char else c
  }

  /** `s.lower()` on ASCII letters. */
  function Lower(s: string): (r: string)
    ensures |r| == |s|
    ensures forall i :: 0 <= i < |s| ==> r[i] == LowerChar(s[i])
  {
    seq(|s|, i requires 0 <= i < |s| => LowerChar(s[i]))
  }

  /** `s.upper()` on ASCII letters. */
  function Upper(s: string): (r: string)
    ensures |r| == |s|
    ensures forall i :: 0 <= i < |s| ==> r[i] == UpperChar(s[i])
  {
    seq(|s|, i requires 0 <= i < |s| => UpperChar(s[i]))
  }

  /** Commands are compared case-insensitively: folding twice is folding once,
      and upper-casing first changes nothing after folding. */
  lemma LowerCanonical(s: string)
    ensures Lower(Lower(s)) == Lower(s)
    ensures Lower(Upper(s)) == Lower(s)
  {
    assert forall i :: 0 <= i < |s| ==> LowerChar(LowerChar(s[i])) == LowerChar(s[i]);
    assert forall i :: 0 <= i < |s| ==> LowerChar(UpperChar(s[i])) == LowerChar(s[i]);
  }

  /** Folding works character by character, so it distributes over
      concatenation. */
  lemma LowerAppend(a: string, b: string)
    ensures Lower(a + b) == Lower(a) + Lower(b)
  {
    assert forall i :: 0 <= i < |a + b| ==> Lower(a + b)[i] == (Lower(a) + Lower(b))[i];
  }

  /** A string without capital letters, digits for instance, folds to
      itself. */
  lemma LowerKeeps(s: string)
    requires forall i :: 0 <= i < |s| ==> !('A' <= s[i] <= 'Z')
    ensures Lower(s) == s
  {
  }
}
