/** How the task's setters interpret the values the build file gives them:
    boolean switches accept a bool or a string, and the SSH credentials
    ignore values that still hold an unexpanded ${...} property. */
module Settings {
  import opened Wrappers
  import opened Text

  /** A value handed to a setter: already a bool, or a string. */
  datatype SettingValue = Flag(b: bool) | Str(s: string)

  /** The white space PHP allows around a numeric string. */
  const NumericSpace: set<char> := {' ', '\t', '\n', '\r', '\U{B}', '\U{C}'}

  /** A numeric string without its surrounding white space. */
  function NumericCore(s: string): string {
    TrimRight(TrimLeft(s, NumericSpace), NumericSpace)
  }

  predicate IsDigit(c: char) {
    '0' <= c <= '9'
  }

  predicate AllDigits(d: string) {
    forall k :: 0 <= k < |d| ==> IsDigit(d[k])
  }

  /** The number of decimal digits `s` starts with. */
  function DigitRun(s: string): (n: nat)
    ensures n <= |s| && AllDigits(s[..n])
    ensures n < |s| ==> !IsDigit(s[n])
  {
    if s != [] && IsDigit(s[0]) then
      var n := 1 + DigitRun(s[1..]);
      assert forall k :: 1 <= k < n ==> s[k] == s[1..][k - 1];
      n
    else 0
  }

  /** The value of a string of decimal digits. */
  function DigitsValue(d: string): nat
    requires AllDigits(d)
  {
    if d == [] then 0 else 10 * DigitsValue(d[..|d| - 1]) + (d[|d| - 1] as int - '0' as int)
  }

  function Pow10(n: nat): (r: nat)
    ensures r >= 1
  {
    if n == 0 then 1 else 10 * Pow10(n - 1)
  }

  /** A numeric string as PHP 8 reads it: its sign, and its magnitude
      mantissa * 10^scale. */
  datatype Numeral = Numeral(negative: bool, mantissa: nat, scale: int)

  /** What follows the digits of a numeric string: nothing (exponent 0), or
      e or E, an optional sign and at least one digit. */
  function Exponent(s: string): Option<int> {
    if s == [] then Some(0)
    else if s[0] != 'e' && s[0] != 'E' then None
    else
      var t := s[1..];
      var u := if t != [] && (t[0] == '+' || t[0] == '-') then t[1..] else t;
      if u != [] && DigitRun(u) == |u| then
        assert u[..|u|] == u;
        Some(if t[0] == '-' then -(DigitsValue(u) as int) else DigitsValue(u))
      else None
  }

  /** PHP 8's numeric strings: optional white space, an optional sign,
      digits with at most one decimal point and at least one digit, an
      optional exponent, optional white space; None for any other string. */
  function ParseNumeric(s: string): Option<Numeral> {
    var t := NumericCore(s);
    var body := if t != [] && (t[0] == '+' || t[0] == '-') then t[1..] else t;
    match ParseMagnitude(body)
    case None => None
    case Some(n) => Some(n.(negative := t[0] == '-'))
  }

  /** An unsigned numeric string: its leading digits, then the rest. */
  function ParseMagnitude(body: string): Option<Numeral> {
    var i := DigitRun(body);
    ParseFraction(body[..i], body[i..])
  }

  /** The digits `whole`, then an optional decimal point with more digits,
      then the exponent part; at least one digit in all. */
  function ParseFraction(whole: string, rest: string): Option<Numeral>
    requires AllDigits(whole)
  {
    var point := rest != [] && rest[0] == '.';
    var after := if point then rest[1..] else rest;
    var j := if point then DigitRun(after) else 0;
    if |whole| + j == 0 then None
    else
      var digits := whole + after[..j];
      assert AllDigits(digits) by {
        forall k | |whole| <= k < |digits| ensures IsDigit(digits[k]) {
          assert digits[k] == after[..j][k - |whole|];
        }
      }
      match Exponent(after[j..])
      case None => None
      case Some(e) => Some(Numeral(false, DigitsValue(digits), e - j))
  }

  const TwoTo53: nat := 0x20_0000_0000_0000
  const TwoTo54: nat := 0x40_0000_0000_0000

  /** mantissa * 10^scale converts to the double 1.0: it lies between the
      midpoints 1 - 2^-54 and 1 + 2^-53 to the neighbouring doubles, and
      round-half-even takes both midpoints to 1.0. */
  predicate RoundsToOne(mantissa: nat, scale: int) {
    var p := if scale >= 0 then mantissa * Pow10(scale) else mantissa;
    var q := if scale >= 0 then 1 else Pow10(-scale);
    TwoTo54 * p >= (TwoTo54 - 1) * q && TwoTo53 * p <= (TwoTo53 + 1) * q
  }

  /** PHP 8's `s == 1` for a string `s`: `s` is a numeric string whose
      value, as an integer or as the nearest double, is one. */
  predicate EqualsOne(s: string) {
    match ParseNumeric(s)
    case None => false
    case Some(n) => !n.negative && RoundsToOne(n.mantissa, n.scale)
  }

  /** The boolean setters' rule: a bool is kept, a string counts as true
      when it equals "true" or the number one. */
  function Coerce(v: SettingValue): (r: bool)
    ensures v.Flag? ==> r == v.b
  {
    match v
    case Flag(b) => b
    case Str(s) => s == "true" || EqualsOne(s)
  }

  /** An integer scaled by 10^0 converts to 1.0 only if it is one. */
  lemma RoundsToOneInteger(m: nat)
    ensures RoundsToOne(m, 0) <==> m == 1
  {
  }

  lemma AllDigitsAppend(a: string, b: string)
    requires AllDigits(a) && AllDigits(b)
    ensures AllDigits(a + b)
  {
    forall k | 0 <= k < |a + b| ensures IsDigit((a + b)[k]) {
      if k >= |a| {
        assert (a + b)[k] == b[k - |a|];
      }
    }
  }

  /** The value of digits written one after the other: the first part
      shifted by the length of the second, plus the second. */
  lemma {:induction false} DigitsValueAppend(a: string, b: string)
    requires AllDigits(a) && AllDigits(b)
    ensures AllDigits(a + b)
    ensures DigitsValue(a + b) == DigitsValue(a) * Pow10(|b|) + DigitsValue(b)
    decreases |b|
  {
    AllDigitsAppend(a, b);
    if b == [] {
      assert a + b == a;
    } else {
      var front := b[..|b| - 1];
      assert AllDigits(front) by {
        forall k | 0 <= k < |front| ensures IsDigit(front[k]) {
          assert front[k] == b[k];
        }
      }
      DigitsValueAppend(a, front);
      assert (a + b)[..|a + b| - 1] == a + front;
      var last := b[|b| - 1] as int - '0' as int;
      assert DigitsValue(a + b) == 10 * DigitsValue(a + front) + last;
      assert DigitsValue(b) == 10 * DigitsValue(front) + last;
      ShiftByTen(DigitsValue(a), Pow10(|front|), DigitsValue(front), last);
    }
  }

  /** The arithmetic step of DigitsValueAppend. */
  lemma ShiftByTen(x: int, p: int, y: int, last: int)
    ensures 10 * (x * p + y) + last == x * (10 * p) + (10 * y + last)
  {
  }

  /** The digit run of `w + t` is `w` when `t` does not start with a
      digit. */
  lemma {:induction false} DigitRunOf(w: string, t: string)
    requires AllDigits(w)
    requires t != [] ==> !IsDigit(t[0])
    ensures DigitRun(w + t) == |w|
    decreases |w|
  {
    if w == [] {
      assert w + t == t;
    } else {
      var rest := w[1..];
      assert AllDigits(rest) by {
        forall k | 0 <= k < |rest| ensures IsDigit(rest[k]) {
          assert rest[k] == w[k + 1];
        }
      }
      assert (w + t)[1..] == rest + t;
      DigitRunOf(rest, t);
    }
  }

  /** A string of digits is its own numeric core. */
  lemma {:induction false} DigitsAreCore(d: string)
    requires d != [] && AllDigits(d)
    ensures NumericCore(d) == d
  {
    assert d[0] !in NumericSpace;
    assert TrimLeft(d, NumericSpace) == d;
    assert d[|d| - 1] !in NumericSpace;
  }

  /** A plain digit string switches a boolean setting on exactly when its
      value is one, leading zeros allowed. */
  lemma {:induction false} CoerceDigits(d: string)
    requires d != [] && AllDigits(d)
    ensures Coerce(Str(d)) <==> DigitsValue(d) == 1
  {
    DigitsAreCore(d);
    assert d[0] != '+' && d[0] != '-';
    DigitRunOf(d, []);
    assert d + [] == d && d[..|d|] == d && d[|d|..] == [];
    assert d + [][..0] == d;
    assert ParseFraction(d, []) == Some(Numeral(false, DigitsValue(d), 0));
    assert ParseMagnitude(d) == Some(Numeral(false, DigitsValue(d), 0));
    assert d != "true" by { assert IsDigit(d[0]); }
    RoundsToOneInteger(DigitsValue(d));
  }

  /** Digits, a decimal point and digits read as the digits run together,
      scaled down by the number of digits after the point. */
  lemma {:induction false} ParseDecimal(w: string, f: string)
    requires w != [] && AllDigits(w) && AllDigits(f)
    ensures AllDigits(w + f)
    ensures ParseNumeric(w + "." + f) == Some(Numeral(false, DigitsValue(w + f), -|f|))
  {
    AllDigitsAppend(w, f);
    var s := w + ("." + f);
    assert w + "." + f == s;
    DecimalIsCore(w, f);
    assert IsDigit(s[0]);
    ParseUnsigned(s);
    MagnitudeOfDecimal(w, f);
  }

  /** A string that is its own numeric core and starts with a digit reads
      as its unsigned part. */
  lemma {:induction false} ParseUnsigned(s: string)
    requires s != [] && NumericCore(s) == s && IsDigit(s[0])
    ensures ParseNumeric(s) == (match ParseMagnitude(s) case None => None case Some(n) => Some(n.(negative := false)))
  {
  }

  /** A decimal that starts with a digit is its own numeric core. */
  lemma {:induction false} DecimalIsCore(w: string, f: string)
    requires w != [] && AllDigits(w) && AllDigits(f)
    ensures NumericCore(w + ("." + f)) == w + ("." + f)
  {
    var s := w + ("." + f);
    assert s[0] == w[0] && s[0] !in NumericSpace;
    assert TrimLeft(s, NumericSpace) == s;
    assert s[|s| - 1] == (if f == [] then '.' else f[|f| - 1]);
  }

  /** The unsigned reading of such a decimal. */
  lemma {:induction false} MagnitudeOfDecimal(w: string, f: string)
    requires AllDigits(w) && AllDigits(f) && (w != [] || f != [])
    ensures ParseMagnitude(w + ("." + f)) == Some(Numeral(false, DigitsValue(w + f), -|f|))
  {
    var s := w + ("." + f);
    DigitRunOf(w, "." + f);
    assert s[..|w|] == w && s[|w|..] == "." + f;
    FractionOf(w, f);
  }

  /** The fraction part of a decimal: the digits after the point. */
  lemma {:induction false} FractionOf(w: string, f: string)
    requires AllDigits(w) && AllDigits(f) && (w != [] || f != [])
    ensures ParseFraction(w, "." + f) == Some(Numeral(false, DigitsValue(w + f), -|f|))
  {
    AllDigitsAppend(w, f);
    assert ("." + f)[1..] == f;
    DigitRunOf(f, []);
    assert f + [] == f && f[..|f|] == f && f[|f|..] == [];
  }

  /** `n` copies of `c`. */
  function Repeat(c: char, n: nat): (r: string)
    ensures |r| == n && forall k :: 0 <= k < n ==> r[k] == c
  {
    if n == 0 then [] else Repeat(c, n - 1) + [c]
  }

  lemma {:induction false} NinesValue(n: nat)
    ensures AllDigits(Repeat('9', n)) && DigitsValue(Repeat('9', n)) == Pow10(n) - 1
  {
    if n > 0 {
      NinesValue(n - 1);
      assert Repeat('9', n)[..n - 1] == Repeat('9', n - 1);
    }
  }

  lemma {:induction false} ZerosValue(n: nat)
    ensures AllDigits(Repeat('0', n)) && DigitsValue(Repeat('0', n)) == 0
  {
    if n > 0 {
      ZerosValue(n - 1);
      assert Repeat('0', n)[..n - 1] == Repeat('0', n - 1);
    }
  }

  lemma {:induction false} Pow10Grows(m: nat, n: nat)
    requires m <= n
    ensures Pow10(m) <= Pow10(n)
    decreases n
  {
    if m < n {
      Pow10Grows(m, n - 1);
    }
  }

  lemma {:induction false} Pow10Add(m: nat, n: nat)
    ensures Pow10(m + n) == Pow10(m) * Pow10(n)
    decreases n
  {
    if n > 0 {
      Pow10Add(m, n - 1);
      TenTimes(Pow10(m), Pow10(n - 1));
    }
  }

  lemma TenTimes(a: int, b: int)
    ensures 10 * (a * b) == a * (10 * b)
  {
  }

  /** 10^n reaches 2^53 from n = 16 on, and 2^54 from n = 17 on. */
  lemma Pow10PastDoublePrecision(n: nat)
    ensures Pow10(n) >= TwoTo53 <==> n >= 16
    ensures Pow10(n) >= TwoTo54 <==> n >= 17
  {
    assert Pow10(2) == 100;
    Pow10Add(2, 2);
    Pow10Add(4, 4);
    Pow10Add(8, 8);
    assert Pow10(16) == 10_000_000_000_000_000;
    assert Pow10(15) == 1_000_000_000_000_000;
    assert Pow10(17) == 100_000_000_000_000_000;
    if n <= 15 {
      Pow10Grows(n, 15);
    } else if n >= 17 {
      Pow10Grows(17, n);
    }
  }

  /** "0." followed by n nines switches a boolean setting on exactly when
      n is at least 17: from there on, 1 - 10^-n converts to the double
      1.0. */
  lemma {:induction false} CoerceNines(n: nat)
    ensures Coerce(Str("0." + Repeat('9', n))) <==> n >= 17
  {
    var nines := Repeat('9', n);
    NinesValue(n);
    ParseZeroPoint(nines);
    var s := "0." + nines;
    assert s != "true" by { assert s[0] == '0'; }
    NinesRound(Pow10(n), n);
    Pow10PastDoublePrecision(n);
  }

  /** "0." followed by digits f reads as f scaled down by |f| digits. */
  lemma {:induction false} ParseZeroPoint(f: string)
    requires AllDigits(f)
    ensures ParseNumeric("0." + f) == Some(Numeral(false, DigitsValue(f), -|f|))
  {
    assert AllDigits("0");
    ParseDecimal("0", f);
    LeadingZero(f);
    assert "0." + f == "0" + "." + f;
  }

  /** A leading zero does not change the value of digits. */
  lemma {:induction false} LeadingZero(d: string)
    requires AllDigits(d)
    ensures AllDigits("0" + d) && DigitsValue("0" + d) == DigitsValue(d)
    decreases |d|
  {
    assert AllDigits("0");
    AllDigitsAppend("0", d);
    if d == [] {
      assert "0" + d == "0";
    } else {
      var front := d[..|d| - 1];
      assert AllDigits(front) by {
        forall k | 0 <= k < |front| ensures IsDigit(front[k]) {
          assert front[k] == d[k];
        }
      }
      LeadingZero(front);
      assert ("0" + d)[..|d|] == "0" + front;
      assert ("0" + d)[|d|] == d[|d| - 1];
    }
  }

  /** 1 - 10^-n converts to 1.0 exactly when 10^n is at least 2^54. */
  lemma NinesRound(p: nat, n: nat)
    requires p == Pow10(n)
    ensures RoundsToOne(p - 1, -(n as int)) <==> p >= TwoTo54
  {
  }

  /** 1 + 10^-n converts to 1.0 exactly when 10^n is at least 2^53. */
  lemma AboveOneRound(p: nat, n: nat)
    requires p == Pow10(n) && n > 0
    ensures RoundsToOne(p + 1, -(n as int)) <==> p >= TwoTo53
  {
  }

  /** "1." followed by n zeros and a 1 switches a boolean setting on exactly
      when n is at least 15: from there on, 1 + 10^-(n+1) converts to the
      double 1.0. */
  lemma {:induction false} CoerceJustAboveOne(n: nat)
    ensures Coerce(Str("1." + Repeat('0', n) + "1")) <==> n >= 15
  {
    var f := Repeat('0', n) + "1";
    var s := "1." + Repeat('0', n) + "1";
    assert s == "1." + f;
    ZerosThenOne(n);
    ParseOnePoint(f);
    assert s != "true" by { assert s[0] == '1'; }
    AboveOneRound(Pow10(n + 1), n + 1);
    Pow10PastDoublePrecision(n + 1);
  }

  /** n zeros and a 1 are n + 1 digits worth one. */
  lemma {:induction false} ZerosThenOne(n: nat)
    ensures AllDigits(Repeat('0', n) + "1")
    ensures DigitsValue(Repeat('0', n) + "1") == 1 && |Repeat('0', n) + "1"| == n + 1
  {
    ZerosValue(n);
    assert AllDigits("1") && DigitsValue("1") == 1;
    DigitsValueAppend(Repeat('0', n), "1");
  }

  /** "1." followed by digits f reads as 10^|f| + f scaled down by |f|
      digits. */
  lemma {:induction false} ParseOnePoint(f: string)
    requires AllDigits(f)
    ensures ParseNumeric("1." + f) == Some(Numeral(false, Pow10(|f|) + DigitsValue(f), -|f|))
  {
    assert AllDigits("1");
    ParseDecimal("1", f);
    LeadingOne(f);
    assert "1." + f == "1" + "." + f;
  }

  /** A leading one adds 10^|f| to the value of digits f. */
  lemma {:induction false} LeadingOne(f: string)
    requires AllDigits(f)
    ensures AllDigits("1" + f) && DigitsValue("1" + f) == Pow10(|f|) + DigitsValue(f)
  {
    assert AllDigits("1") && DigitsValue("1") == 1;
    DigitsValueAppend("1", f);
  }

  /** One written with a leading zero switches a boolean setting on. */
  lemma CoerceAcceptsLeadingZero()
    ensures Coerce(Str("01"))
  {
    assert AllDigits("0") && AllDigits("1");
    DigitsValueAppend("0", "1");
    assert "0" + "1" == "01";
    CoerceDigits("01");
  }

  /** And one written with a decimal point. */
  lemma CoerceAcceptsDecimal()
    ensures Coerce(Str("1.0"))
  {
    assert AllDigits("1") && AllDigits("0");
    ParseDecimal("1", "0");
    DigitsValueAppend("1", "0");
    assert "1" + "." + "0" == "1.0";
  }

  /** Ten leaves a boolean setting off. */
  lemma CoerceRejectsTen()
    ensures !Coerce(Str("10"))
  {
    assert AllDigits("1") && AllDigits("0");
    DigitsValueAppend("1", "0");
    assert "1" + "0" == "10";
    CoerceDigits("10");
  }

  /** So does zero. */
  lemma CoerceRejectsZero()
    ensures !Coerce(Str("0"))
  {
    CoerceDigits("0");
  }

  /** The comparison with "true" is case-sensitive, and "TRUE" is not a
      numeric string. */
  lemma CoerceIsCaseSensitive()
    ensures !Coerce(Str("TRUE"))
  {
    var t := "TRUE";
    assert t[0] !in NumericSpace && t[|t| - 1] !in NumericSpace;
    assert NumericCore(t) == t;
    DigitRunOf([], t);
    assert [] + t == t;
  }

  /** A one with a sign: "+1" switches a boolean setting on, "-1" does not. */
  lemma CoerceSigns()
    ensures Coerce(Str("+1")) && !Coerce(Str("-1"))
  {
    var plus, minus := "+1", "-1";
    assert plus[0] !in NumericSpace && plus[|plus| - 1] !in NumericSpace;
    assert minus[0] !in NumericSpace && minus[|minus| - 1] !in NumericSpace;
    assert NumericCore(plus) == plus && NumericCore(minus) == minus;
    assert plus[1..] == "1" && minus[1..] == "1";
    assert AllDigits("1") && DigitsValue("1") == 1;
    DigitRunOf("1", []);
    assert "1" + [] == "1" && "1"[..1] == "1" && "1"[1..] == [];
    assert ParseMagnitude("1") == Some(Numeral(false, 1, 0));
  }

  /** White space around a one is allowed. */
  lemma CoerceTrimsSpace()
    ensures Coerce(Str(" 1\n"))
  {
    var s := " 1\n";
    assert TrimLeft(s, NumericSpace) == "1\n";
    assert TrimRight("1\n", NumericSpace) == "1";
    assert NumericCore(s) == "1";
    CoerceDigits("1");
    assert AllDigits("1") && DigitsValue("1") == 1;
  }

  /** One written with an exponent switches a boolean setting on. */
  lemma CoerceAcceptsExponent()
    ensures Coerce(Str("0.1e1"))
  {
    ParseOneTenthTimesTen();
    RoundsToOneInteger(1);
    assert "0.1e1" != "true";
  }

  /** "0.1e1" reads as 1 * 10^0. */
  lemma ParseOneTenthTimesTen()
    ensures ParseNumeric("0.1e1") == Some(Numeral(false, 1, 0))
  {
    var s := "0.1e1";
    assert s[0] !in NumericSpace && s[|s| - 1] !in NumericSpace;
    assert NumericCore(s) == s;
    ParseUnsigned(s);
    assert AllDigits("0");
    DigitRunOf("0", ".1e1");
    assert "0" + ".1e1" == s && s[..1] == "0" && s[1..] == ".1e1";
    PointOneTimesTen();
  }

  /** ".1e1" after the digit 0: mantissa 01, scale 1 - 1. */
  lemma PointOneTimesTen()
    ensures AllDigits("0") && ParseFraction("0", ".1e1") == Some(Numeral(false, 1, 0))
  {
    assert AllDigits("0") && AllDigits("1");
    assert ".1e1"[1..] == "1e1";
    DigitRunOf("1", "e1");
    assert "1e1"[..1] == "1" && "1e1"[1..] == "e1";
    ExponentOfOne();
    DigitsValueAppend("0", "1");
    assert "0" + "1" == "01" && DigitsValue("01") == 1;
  }

  lemma ExponentOfOne()
    ensures Exponent("e1") == Some(1)
  {
    assert "e1"[1..] == "1";
    assert AllDigits("1");
    DigitRunOf("1", []);
    assert "1" + [] == "1" && "1"[..1] == "1";
  }

  const Placeholder: string := "${"

  /** The credential setters' rule: a value still holding "${" (an
      unexpanded build property) leaves the setting as it was. */
  function Guarded(previous: string, v: string): (r: string)
    ensures r == (if Contains(v, Placeholder) then previous else v)
  {
    if Find(v, Placeholder).None? then v else previous
  }
}
