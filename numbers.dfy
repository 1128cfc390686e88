/**
 * Decimal integers as text: printing (`str(n)`, template literals) and the two
 * parsers the route code relies on, JavaScript's `parseInt(s, 10)` and
 * Python's `int(s)`. Integers are unbounded here.
 */
module Numbers {
  import opened Wrappers
  import opened Text

  predicate IsDigit(c: char) {
    '0' <= c <= '9'
  }

  predicate AllDigits(s: string) {
    forall i :: 0 <= i < |s| ==> IsDigit(s[i])
  }

  function DigitChar(d: nat): (c: char)
    requires d < 10
    ensures IsDigit(c)
  {
    ('0' as int + d) as char
  }

  function DigitValue(c: char): nat
    requires IsDigit(c)
  {
    c as int - '0' as int
  }

  /** Value of a string of decimal digits, most significant first; "" is 0. */
  function DigitsValue(ds: string): nat
    requires AllDigits(ds)
  {
    if ds == [] then 0 else DigitsValue(ds[..|ds| - 1]) * 10 + DigitValue(ds[|ds| - 1])
  }

  /** Decimal text of a natural number, without leading zeros. */
  function NatToString(n: nat): (r: string)
    ensures r != [] && AllDigits(r)
    ensures r[0] != '0' || n == 0
  {
    if n < 10 then [DigitChar(n)] else NatToString(n / 10) + [DigitChar(n % 10)]
  }

  /** Decimal text of an integer, with a leading '-' when negative (`str(i)`, `${i}`). */
  function IntToString(i: int): string {
    if i < 0 then "-" + NatToString(-i) else NatToString(i)
  }

  /** Reading back the printed digits gives the number. */
  lemma {:induction false} NatToStringValue(n: nat)
    ensures DigitsValue(NatToString(n)) == n
  {
    if n >= 10 {
      var r := NatToString(n);
      NatToStringValue(n / 10);
      assert r[..|r| - 1] == NatToString(n / 10);
    }
  }

  /** Distinct numbers print differently. */
  lemma NatToStringInjective(m: nat, n: nat)
    requires m != n
    ensures NatToString(m) != NatToString(n)
  {
    NatToStringValue(m);
    NatToStringValue(n);
  }

  /** The longest prefix of `s` made of decimal digits. */
  function LeadingDigits(s: string): (r: string)
    ensures |r| <= |s| && r == s[..|r|] && AllDigits(r)
    ensures |r| == |s| || !IsDigit(s[|r|])
  {
    if s != [] && IsDigit(s[0]) then [s[0]] + LeadingDigits(s[1..]) else []
  }

  /** The text starts with a '-' or '+' sign. */
  predicate HasSign(t: string) {
    t != [] && (t[0] == '-' || t[0] == '+')
  }

  /** The text after its sign, if it has one. */
  function Unsigned(t: string): (r: string)
    ensures r == if HasSign(t) then t[1..] else t
  {
    if HasSign(t) then t[1..] else t
  }

  /** The value with the sign the text starts with: negated after a '-'. */
  function ApplySign(t: string, value: nat): int {
    if t != [] && t[0] == '-' then -(value as int) else value
  }

  /**
   * JavaScript `parseInt(s, 10)`: skip leading whitespace, read an optional
   * sign, then as many decimal digits as there are; no digit at all gives NaN
   * (None). Whatever follows the digits is ignored.
   */
  function ParseInt(s: string): Option<int> {
    ParseSigned(TrimStart(JavaScript, s))
  }

  /** `parseInt` once the leading whitespace is gone. */
  function ParseSigned(t: string): Option<int> {
    var ds := LeadingDigits(Unsigned(t));
    if ds == [] then None else Some(ApplySign(t, DigitsValue(ds)))
  }

  /** Digits with single underscores between them, as Python's `int` accepts: "1_000". */
  predicate IsPyDigitBody(b: string) {
    && b != []
    && IsDigit(b[0])
    && IsDigit(b[|b| - 1])
    && DigitsOrUnderscores(b)
    && forall i :: 0 <= i < |b| - 1 && b[i] == '_' ==> b[i + 1] != '_'
  }

  predicate DigitsOrUnderscores(b: string) {
    forall i :: 0 <= i < |b| ==> IsDigit(b[i]) || b[i] == '_'
  }

  function RemoveUnderscores(b: string): (r: string)
    ensures |r| <= |b|
    ensures DigitsOrUnderscores(b) ==> AllDigits(r)
  {
    if b == [] then []
    else if b[0] == '_' then RemoveUnderscores(b[1..])
    else [b[0]] + RemoveUnderscores(b[1..])
  }

  /**
   * Python `int(s)`: the whole string, once stripped of surrounding
   * whitespace, must be an optional sign followed by decimal digits
   * (single underscores allowed between digits); anything else raises
   * ValueError (None).
   */
  function PyInt(s: string): Option<int> {
    PyIntStripped(Trim(Python, s))
  }

  /** `int` once the surrounding whitespace is gone. */
  function PyIntStripped(t: string): Option<int> {
    var body := Unsigned(t);
    if !IsPyDigitBody(body) then None
    else Some(ApplySign(t, DigitsValue(RemoveUnderscores(body))))
  }

  lemma {:induction false} LeadingDigitsOfDigits(s: string)
    requires AllDigits(s)
    ensures LeadingDigits(s) == s
  {
    if s != [] {
      LeadingDigitsOfDigits(s[1..]);
    }
  }

  lemma {:induction false} RemoveUnderscoresOfDigits(s: string)
    requires AllDigits(s)
    ensures RemoveUnderscores(s) == s
  {
    if s != [] {
      RemoveUnderscoresOfDigits(s[1..]);
    }
  }

  lemma DigitsArePyBody(b: string)
    requires b != [] && AllDigits(b)
    ensures IsPyDigitBody(b)
  {
    assert IsDigit(b[0]) && IsDigit(b[|b| - 1]);
  }

  /** An optional '-' or '+' followed by at least one digit, and nothing else. */
  predicate IsPlainInteger(s: string) {
    Unsigned(s) != [] && AllDigits(Unsigned(s))
  }

  /**
   * On a plain signed decimal the two parsers agree: the page's `parseInt`
   * and the server's `int` read the same altitude.
   */
  lemma ParsersAgreeOnPlainIntegers(s: string)
    requires IsPlainInteger(s)
    ensures ParseInt(s) == PyInt(s) != None
  {
    var body := Unsigned(s);
    PlainIntegerUnpadded(s);
    LeadingDigitsOfDigits(body);
    RemoveUnderscoresOfDigits(body);
    DigitsArePyBody(body);
  }

  lemma PlainIntegerUnpadded(s: string)
    requires IsPlainInteger(s)
    ensures TrimStart(JavaScript, s) == s && Trim(JavaScript, s) == s && Trim(Python, s) == s
  {
    var body := Unsigned(s);
    assert s[0] == body[0] || HasSign(s);
    assert s[|s| - 1] == body[|body| - 1];
    Unpadded(JavaScript, s);
    Unpadded(Python, s);
  }

  /** Both parsers read back what `IntToString` prints. */
  lemma ParseIntToString(i: int)
    ensures ParseInt(IntToString(i)) == Some(i) == PyInt(IntToString(i))
  {
    ParseIntBeforeUnit(i, []);
    assert IntToString(i) + [] == IntToString(i);
    PrintedIsPlain(i);
    ParsersAgreeOnPlainIntegers(IntToString(i));
  }

  /**
   * An information separator before a number is whitespace to `int` and not
   * to `parseInt`: the server reads "\U{001F}5000" as 5000, the page as NaN.
   */
  lemma SeparatorBeforeNumberSplitsParsers(i: int)
    ensures PyInt("\U{001F}" + IntToString(i)) == Some(i)
    ensures ParseInt("\U{001F}" + IntToString(i)) == None
  {
    var p := IntToString(i);
    var t := "\U{001F}" + p;
    PrintedIsPlain(i);
    PlainNoSeparator(p);
    PlainIntegerUnpadded(p);
    SeparatorTrimmedByPythonOnly(p);
    ParseIntToString(i);
    assert t[0] == '\U{001F}';
    TrimStartUnpadded(t);
  }

  /** A plain signed decimal holds only a sign and digits, so no information separator. */
  lemma PlainNoSeparator(s: string)
    requires IsPlainInteger(s)
    ensures NoSeparatorControl(s)
  {
    var body := Unsigned(s);
    forall k | 0 <= k < |s| ensures !IsSeparatorControl(s[k]) {
      if HasSign(s) && k > 0 {
        assert s[k] == body[k - 1];
      } else if !HasSign(s) {
        assert s[k] == body[k];
      }
    }
  }

  /** A printed integer is a plain signed decimal. */
  lemma PrintedIsPlain(i: int)
    ensures IsPlainInteger(IntToString(i))
  {
    assert Unsigned(IntToString(i)) == NatToString(if i < 0 then -i else i);
  }

  /** Text starting with a non-space character has nothing for `parseInt` to skip. */
  lemma TrimStartUnpadded(s: string)
    requires s != [] && !IsSpace(JavaScript, s[0])
    ensures TrimStart(JavaScript, s) == s
  {
  }

  /** After a leading minus sign, `parseInt` reads what follows as the magnitude. */
  lemma MinusThen(t: string)
    ensures ParseInt("-" + t) == if LeadingDigits(t) == [] then None else Some(-(DigitsValue(LeadingDigits(t)) as int))
  {
    var s := "-" + t;
    assert s[0] == '-' && s[1..] == t;
    TrimStartUnpadded(s);
  }

  lemma DigitFirst(ds: string, rest: string)
    requires ds != [] && AllDigits(ds)
    ensures IsDigit((ds + rest)[0])
  {
    assert (ds + rest)[0] == ds[0];
  }

  /** A printed integer followed by a unit, as sign, digits and unit. */
  lemma PrintedThen(i: int, unit: string, digits: string)
    requires digits == NatToString(if i < 0 then -i else i)
    ensures IntToString(i) + unit == if i < 0 then "-" + (digits + unit) else digits + unit
  {
  }

  /** `parseInt` on text that starts with a digit reads its leading digits. */
  lemma ParseIntUnsigned(s: string)
    requires s != [] && IsDigit(s[0])
    ensures ParseInt(s) == Some(DigitsValue(LeadingDigits(s)) as int)
  {
    TrimStartUnpadded(s);
    assert Unsigned(s) == s;
  }

  /** `int` on unpadded text that starts with a digit accepts exactly a digit body. */
  lemma PyIntUnsigned(s: string)
    requires s != [] && IsDigit(s[0]) && !IsSpace(Python, s[|s| - 1])
    ensures PyInt(s) == if IsPyDigitBody(s) then PyIntBodyValue(s) else None
  {
    TrimOfTrimmed(Python, s);
    assert Unsigned(s) == s;
  }

  function PyIntBodyValue(s: string): Option<int>
    requires IsPyDigitBody(s)
  {
    Some(DigitsValue(RemoveUnderscores(s)) as int)
  }

  lemma {:induction false} LeadingDigitsConcat(a: string, b: string)
    requires AllDigits(a)
    requires b == [] || !IsDigit(b[0])
    ensures LeadingDigits(a + b) == a
  {
    if a == [] {
      assert a + b == b;
    } else {
      assert (a + b)[1..] == a[1..] + b;
      LeadingDigitsConcat(a[1..], b);
    }
  }

  /** `parseInt` reads a printed integer back even when a unit follows it. */
  lemma ParseIntBeforeUnit(i: int, unit: string)
    requires unit == [] || !IsDigit(unit[0])
    ensures ParseInt(IntToString(i) + unit) == Some(i)
  {
    var n: nat := if i < 0 then -i else i;
    var digits := NatToString(n);
    NatToStringValue(n);
    PrintedThen(i, unit, digits);
    LeadingDigitsConcat(digits, unit);
    if i < 0 {
      MinusThen(digits + unit);
    } else {
      DigitFirst(digits, unit);
      ParseIntUnsigned(digits + unit);
    }
  }

  /** A unit after a number that `int` cannot read past: "ft", "ft MSL". */
  predicate IsUnit(unit: string) {
    unit != [] && !IsDigit(unit[0]) && unit[0] != '_' && !IsSpace(Python, unit[|unit| - 1])
  }

  /** The characters at the seams of a concatenation. */
  lemma ConcatEnds(a: string, b: string)
    requires a != [] && b != []
    ensures (a + b)[0] == a[0] && (a + b)[|a|] == b[0] && (a + b)[|a + b| - 1] == b[|b| - 1]
  {
  }

  lemma MinusShape(t: string)
    requires t != []
    ensures ("-" + t)[0] == '-' && ("-" + t)[1..] == t && ("-" + t)[|t|] == t[|t| - 1]
  {
  }

  /**
   * A printed integer followed by a unit has no surrounding whitespace, and
   * the unit starts right after the digits of its unsigned part.
   */
  lemma PrintedUnitShape(i: int, unit: string)
    requires IsUnit(unit)
    ensures Trim(Python, IntToString(i) + unit) == IntToString(i) + unit
    ensures |NatToString(if i < 0 then -i else i)| < |Unsigned(IntToString(i) + unit)|
    ensures Unsigned(IntToString(i) + unit)[|NatToString(if i < 0 then -i else i)|] == unit[0]
  {
    var digits := NatToString(if i < 0 then -i else i);
    PrintedThen(i, unit, digits);
    if i < 0 {
      MinusDigitsUnitShape(digits, unit);
    } else {
      DigitsUnitShape(digits, unit);
    }
  }

  lemma DigitsUnitShape(digits: string, unit: string)
    requires digits != [] && AllDigits(digits) && IsUnit(unit)
    ensures Trim(Python, digits + unit) == digits + unit
    ensures Unsigned(digits + unit) == digits + unit
    ensures (digits + unit)[|digits|] == unit[0]
  {
    ConcatEnds(digits, unit);
    assert IsDigit(digits[0]);
    Unpadded(Python, digits + unit);
  }

  lemma MinusDigitsUnitShape(digits: string, unit: string)
    requires digits != [] && IsUnit(unit)
    ensures |digits| < |digits + unit| && (digits + unit)[|digits|] == unit[0]
    ensures Trim(Python, "-" + (digits + unit)) == "-" + (digits + unit)
    ensures Unsigned("-" + (digits + unit)) == digits + unit
  {
    ConcatEnds(digits, unit);
    MinusShape(digits + unit);
    Unpadded(Python, "-" + (digits + unit));
  }

  /** `int` refuses unpadded text whose unsigned part holds a character that is neither a digit nor '_'. */
  lemma PyIntRejectsAt(s: string, k: nat)
    requires Trim(Python, s) == s
    requires k < |Unsigned(s)| && !IsDigit(Unsigned(s)[k]) && Unsigned(s)[k] != '_'
    ensures PyInt(s) == None
  {
  }

  /** `parseInt` stops at the first non-digit where `int` refuses the whole field: "5000ft". */
  lemma TrailingUnitSplitsParsers(i: int, unit: string)
    requires IsUnit(unit)
    ensures ParseInt(IntToString(i) + unit) == Some(i)
    ensures PyInt(IntToString(i) + unit) == None
  {
    ParseIntBeforeUnit(i, unit);
    PrintedUnitShape(i, unit);
    PyIntRejectsAt(IntToString(i) + unit, |NatToString(if i < 0 then -i else i)|);
  }

  lemma {:induction false} RemoveUnderscoresConcat(a: string, b: string)
    ensures RemoveUnderscores(a + b) == RemoveUnderscores(a) + RemoveUnderscores(b)
  {
    if a == [] {
      assert a + b == b;
    } else {
      assert (a + b)[0] == a[0];
      assert (a + b)[1..] == a[1..] + b;
      RemoveUnderscoresConcat(a[1..], b);
    }
  }

  /** Two digit runs joined by one underscore form a digit body for `int`. */
  lemma UnderscoreBody(a: string, b: string)
    requires a != [] && AllDigits(a) && b != [] && AllDigits(b)
    ensures IsPyDigitBody(a + "_" + b)
    ensures RemoveUnderscores(a + "_" + b) == a + b
  {
    var s := a + "_" + b;
    assert |s| == |a| + 1 + |b|;
    forall k | 0 <= k < |s|
      ensures IsDigit(s[k]) || s[k] == '_'
      ensures s[k] == '_' ==> k == |a|
    {
      if k < |a| {
        assert s[k] == a[k];
      } else if k > |a| {
        assert s[k] == b[k - |a| - 1];
      }
    }
    assert s[0] == a[0] && s[|s| - 1] == b[|b| - 1];
    RemoveUnderscoresConcat(a + "_", b);
    RemoveUnderscoresConcat(a, "_");
    RemoveUnderscoresOfDigits(a);
    RemoveUnderscoresOfDigits(b);
    assert RemoveUnderscores("_") == [];
    assert a + [] == a;
  }

  /** Python reads "1_000" as one thousand; `parseInt` stops at the underscore and reads 1. */
  lemma UnderscoreSplitsParsers(a: string, b: string)
    requires a != [] && AllDigits(a) && b != [] && AllDigits(b)
    ensures ParseInt(a + "_" + b) == Some(DigitsValue(a) as int)
    ensures PyInt(a + "_" + b) == Some(DigitsValue(a + b) as int)
  {
    UnderscoreSeams(a, b);
    UnderscoreParseInt(a, b);
    UnderscorePyInt(a, b);
  }

  lemma UnderscorePyInt(a: string, b: string)
    requires a != [] && AllDigits(a) && b != [] && AllDigits(b)
    requires IsDigit((a + "_" + b)[0]) && IsDigit((a + "_" + b)[|a + "_" + b| - 1])
    ensures PyInt(a + "_" + b) == Some(DigitsValue(a + b) as int)
  {
    UnderscoreBody(a, b);
    PyIntUnsigned(a + "_" + b);
  }

  lemma UnderscoreSeams(a: string, b: string)
    requires a != [] && b != []
    ensures (a + "_" + b)[0] == a[0] && (a + "_" + b)[|a + "_" + b| - 1] == b[|b| - 1]
    ensures a + "_" + b == a + ("_" + b)
  {
  }

  lemma UnderscoreParseInt(a: string, b: string)
    requires a != [] && AllDigits(a)
    requires IsDigit((a + "_" + b)[0])
    requires a + "_" + b == a + ("_" + b)
    ensures ParseInt(a + "_" + b) == Some(DigitsValue(a) as int)
  {
    LeadingDigitsConcat(a, "_" + b);
    ParseIntUnsigned(a + "_" + b);
  }
}
