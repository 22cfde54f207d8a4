/**
 * The fragment of JavaScript string and number semantics the codecs rely on:
 * strings as sequences of UTF-16 code units, String.fromCharCode's 16-bit
 * truncation, the truncating remainder operator, decimal Number-to-string
 * conversion, parseInt in base 10, and String.prototype.split / Array.prototype.join
 * with a one-character separator.
 */
module JsText {
  import opened Wrappers

  /** One UTF-16 code unit, the element of a JavaScript string. */
  type CodeUnit = x: int | 0 <= x < 0x1_0000

  type JsString = seq<CodeUnit>

  /** String.fromCharCode applies ToUint16 to its argument. */
  function FromCharCode(n: int): (c: CodeUnit)
    ensures 0 <= n < 0x1_0000 ==> c == n
    ensures (c - n) % 0x1_0000 == 0
  {
    n % 0x1_0000
  }

  /** The character codes of a Dafny string literal (all in the Basic Multilingual Plane here). */
  function Units(s: string): (r: JsString)
    requires forall i :: 0 <= i < |s| ==> (s[i] as int) < 0x1_0000
    ensures |r| == |s|
    ensures forall i :: 0 <= i < |s| ==> r[i] == s[i] as int
  {
    if s == [] then [] else [s[0] as int] + Units(s[1..])
  }

  /** The JavaScript remainder operator `a % b`: the result takes the sign of `a`. */
  function Rem(a: int, b: int): (r: int)
    requires b != 0
    ensures a >= 0 ==> 0 <= r < (if b > 0 then b else -b)
    ensures a < 0 ==> -(if b > 0 then b else -b) < r <= 0
  {
    var m := if b > 0 then b else -b;
    if a >= 0 then a % m else -((-a) % m)
  }

  const Zero: CodeUnit := 48
  const Minus: CodeUnit := 45
  const Plus: CodeUnit := 43

  predicate IsDigit(c: CodeUnit) {
    Zero <= c < Zero + 10
  }

  /** Number.prototype.toString() for a non-negative integer. */
  function ToDecimal(n: nat): (r: JsString)
    ensures |r| >= 1
    ensures forall i :: 0 <= i < |r| ==> IsDigit(r[i])
    decreases n
  {
    if n < 10 then [Zero + n] else ToDecimal(n / 10) + [Zero + n % 10]
  }

  /** The value of a non-empty run of decimal digits. */
  function DigitsValue(s: JsString): nat
    requires forall i :: 0 <= i < |s| ==> IsDigit(s[i])
  {
    if s == [] then 0
    else
      assert IsDigit(s[|s| - 1]);
      DigitsValue(s[..|s| - 1]) * 10 + (s[|s| - 1] - Zero)
  }

  /** Length of the longest prefix of `s` made of decimal digits. */
  function DigitPrefix(s: JsString): (k: nat)
    ensures k <= |s|
    ensures forall i :: 0 <= i < k ==> IsDigit(s[i])
    ensures k < |s| ==> !IsDigit(s[k])
  {
    if s == [] || !IsDigit(s[0]) then 0 else 1 + DigitPrefix(s[1..])
  }

  /**
   * parseInt(s, 10): an optional sign followed by the longest run of decimal
   * digits; None stands for NaN (no digit at all). Leading white space, which
   * the codecs never produce, is not skipped.
   */
  function ParseInt(s: JsString): (r: Option<int>)
    ensures r.None? <==> (s == [] || (!IsDigit(s[0]) &&
                                     (s[0] !in {Minus, Plus} || |s| == 1 || !IsDigit(s[1]))))
  {
    if s != [] && (s[0] == Minus || s[0] == Plus) then
      var rest := s[1..];
      var k := DigitPrefix(rest);
      if k == 0 then None
      else
        var magnitude: int := DigitsValue(rest[..k]);
        Some(if s[0] == Minus then -magnitude else magnitude)
    else
      var k := DigitPrefix(s);
      if k == 0 then None else Some(DigitsValue(s[..k]))
  }

  lemma {:induction false} DigitsOfDecimal(n: nat)
    ensures DigitsValue(ToDecimal(n)) == n
    decreases n
  {
    if n >= 10 {
      DigitsOfDecimal(n / 10);
      var r := ToDecimal(n);
      assert r[..|r| - 1] == ToDecimal(n / 10);
    }
  }

  /** parseInt inverts the decimal rendering of a non-negative integer. */
  lemma ParseDecimal(n: nat)
    ensures ParseInt(ToDecimal(n)) == Some(n)
  {
    var r := ToDecimal(n);
    assert DigitPrefix(r) == |r| by { DigitPrefixAll(r); }
    assert r[..|r|] == r;
    DigitsOfDecimal(n);
  }

  /** Number.prototype.toString() for an integer: a minus sign before the digits of a negative one. */
  function NumberText(n: int): (r: JsString)
    ensures |r| >= 1
    ensures n >= 0 ==> forall i :: 0 <= i < |r| ==> IsDigit(r[i])
  {
    if n < 0 then [Minus] + ToDecimal(-n) else ToDecimal(n)
  }

  /** parseInt inverts the decimal rendering of every integer. */
  lemma ParseNumber(n: int)
    ensures ParseInt(NumberText(n)) == Some(n)
  {
    if n < 0 {
      var r := ToDecimal(-n);
      var s := NumberText(n);
      assert s[1..] == r;
      assert DigitPrefix(r) == |r| by { DigitPrefixAll(r); }
      assert r[..|r|] == r;
      DigitsOfDecimal(-n);
    } else {
      ParseDecimal(n);
    }
  }

  lemma {:induction false} DigitPrefixAll(s: JsString)
    requires forall i :: 0 <= i < |s| ==> IsDigit(s[i])
    ensures DigitPrefix(s) == |s|
  {
    if s != [] {
      DigitPrefixAll(s[1..]);
    }
  }

  /** Array.prototype.join(sep) over strings. */
  function Join(parts: seq<JsString>, sep: CodeUnit): (r: JsString)
  {
    if |parts| == 0 then []
    else if |parts| == 1 then parts[0]
    else parts[0] + [sep] + Join(parts[1..], sep)
  }

  /** String.prototype.split(sep): always at least one piece, splitting at every `sep`. */
  function Split(s: JsString, sep: CodeUnit): (r: seq<JsString>)
    ensures |r| >= 1
    ensures forall i :: 0 <= i < |r| ==> sep !in r[i]
    decreases |s|
  {
    var k := IndexOf(s, sep);
    if k == |s| then [s]
    else [s[..k]] + Split(s[k + 1..], sep)
  }

  /** Index of the first `c` in `s`, or |s| when there is none. */
  function IndexOf(s: JsString, c: CodeUnit): (k: nat)
    ensures k <= |s|
    ensures k < |s| ==> s[k] == c
    ensures forall i :: 0 <= i < k ==> s[i] != c
  {
    if s == [] then 0 else if s[0] == c then 0 else 1 + IndexOf(s[1..], c)
  }

  lemma {:induction false} IndexOfPrefix(a: JsString, b: JsString, c: CodeUnit)
    requires c !in a
    ensures IndexOf(a + b, c) == |a| + IndexOf(b, c)
  {
    if a != [] {
      assert (a + b)[0] == a[0] && a[0] != c;
      assert (a + b)[1..] == a[1..] + b;
      assert c !in a[1..] by { assert forall x :: x in a[1..] ==> x in a; }
      IndexOfPrefix(a[1..], b, c);
    } else {
      assert a + b == b;
    }
  }

  /** Splitting a join recovers the pieces, provided no piece contains the separator. */
  lemma {:induction false} SplitJoin(parts: seq<JsString>, sep: CodeUnit)
    requires |parts| >= 1
    requires forall i :: 0 <= i < |parts| ==> sep !in parts[i]
    ensures Split(Join(parts, sep), sep) == parts
  {
    if |parts| == 1 {
      IndexOfPrefix(parts[0], [], sep);
      assert parts[0] + [] == parts[0];
    } else {
      SplitFirst(parts[0], Join(parts[1..], sep), sep);
      SplitJoin(parts[1..], sep);
      assert parts == [parts[0]] + parts[1..];
    }
  }

  /** Splitting at the first separator: the piece before it, then the split of the rest. */
  lemma SplitFirst(a: JsString, rest: JsString, sep: CodeUnit)
    requires sep !in a
    ensures Split(a + [sep] + rest, sep) == [a] + Split(rest, sep)
  {
    var s := a + [sep] + rest;
    assert s == a + ([sep] + rest);
    IndexOfPrefix(a, [sep] + rest, sep);
    assert s[..|a|] == a;
    assert s[|a| + 1..] == rest;
  }

  lemma {:induction false} JoinNoSep(parts: seq<JsString>, sep: CodeUnit, c: CodeUnit)
    requires c != sep
    requires forall i :: 0 <= i < |parts| ==> c !in parts[i]
    ensures c !in Join(parts, sep)
  {
    if |parts| > 1 {
      JoinNoSep(parts[1..], sep, c);
    }
  }
}
