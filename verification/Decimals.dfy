/** Exact decimal numbers as the architecture writes them in plain notation and reads them back. */
module Decimals {
  import opened Options

  // --- digits --------------------------------------------------------------------------------------

  predicate IsDigit(c: char) {
    '0' <= c <= '9'
  }

  predicate AreDigits(s: string) {
    forall i :: 0 <= i < |s| ==> IsDigit(s[i])
  }

  function DigitOf(c: char): nat
    requires IsDigit(c)
  {
    c as int - '0' as int
  }

  function CharOf(d: nat): (c: char)
    requires d < 10
    ensures IsDigit(c) && DigitOf(c) == d
  {
    (d + '0' as int) as char
  }

  function Pow10(n: nat): (p: nat)
    ensures p > 0
  {
    if n == 0 then 1 else 10 * Pow10(n - 1)
  }

  function Digits(n: nat): (s: string)
    ensures s != "" && AreDigits(s)
  {
    if n < 10 then [CharOf(n)] else Digits(n / 10) + [CharOf(n % 10)]
  }

  function Number(s: string): nat
    requires AreDigits(s)
  {
    if s == "" then 0 else 10 * Number(s[..|s| - 1]) + DigitOf(s[|s| - 1])
  }

  function Zeros(k: nat): (s: string)
    ensures |s| == k && AreDigits(s)
  {
    if k == 0 then "" else Zeros(k - 1) + "0"
  }

  lemma {:induction false} NumberOfDigits(n: nat)
    ensures Number(Digits(n)) == n
  {
    if n >= 10 {
      NumberOfDigits(n / 10);
      assert Digits(n)[..|Digits(n)| - 1] == Digits(n / 10);
    } else {
      assert Digits(n)[..0] == "";
    }
  }

  lemma {:induction false} DigitsLength(n: nat, k: nat)
    ensures k > 0 ==> (|Digits(n)| <= k <==> n < Pow10(k))
    decreases k
  {
    if k == 1 {
      assert Pow10(1) == 10 * Pow10(0);
    } else if k > 1 {
      if n >= 10 {
        DigitsLength(n / 10, k - 1);
        assert Pow10(k) == 10 * Pow10(k - 1);
      } else {
        SmallBelow(n, k);
      }
    }
  }

  lemma {:induction false} SmallBelow(n: nat, k: nat)
    requires n < 10 && k > 0
    ensures n < Pow10(k)
    decreases k
  {
    if k > 1 {
      SmallBelow(n, k - 1);
    }
  }

  lemma {:induction false} NumberJoined(a: string, b: string)
    requires AreDigits(a) && AreDigits(b)
    ensures AreDigits(a + b) && Number(a + b) == Number(a) * Pow10(|b|) + Number(b)
    decreases |b|
  {
    if b == "" {
      assert a + b == a;
    } else {
      var z := |b| - 1;
      NumberJoined(a, b[..z]);
      assert (a + b)[..|a + b| - 1] == a + b[..z];
      assert Pow10(|b|) == 10 * Pow10(z);
      var p := Pow10(z);
      assert Number(a) * (10 * p) == 10 * (Number(a) * p);
    }
  }

  lemma {:induction false} NumberOfZeros(k: nat)
    ensures Number(Zeros(k)) == 0
  {
    if k > 0 {
      NumberOfZeros(k - 1);
      assert Zeros(k)[..k - 1] == Zeros(k - 1);
    }
  }

  // --- decimal numbers -----------------------------------------------------------------------------

  /** `digits` times ten to the `exponent`, signed; zero has a sign too. */
  datatype Decimal = Decimal(negative: bool, digits: nat, exponent: int)

  /** The same number without trailing zeros. */
  function Normalize(d: Decimal): Decimal
    decreases d.digits
  {
    if d.digits == 0 then Decimal(d.negative, 0, 0)
    else if d.digits % 10 == 0 then Normalize(Decimal(d.negative, d.digits / 10, d.exponent + 1))
    else d
  }

  /** Without trailing zeros, and zero without a sign. */
  function Canonical(d: Decimal): Decimal {
    if d.digits == 0 then Decimal(false, 0, 0) else Normalize(d)
  }

  lemma {:induction false} Normalized(d: Decimal)
    ensures var m := Normalize(d);
            m.negative == d.negative && (m.digits == 0 <==> d.digits == 0) && (m.digits == 0 ==> m.exponent == 0)
            && (m.digits != 0 ==> m.digits % 10 != 0 && m.exponent >= d.exponent
                                  && d.digits == m.digits * Pow10(m.exponent - d.exponent))
    decreases d.digits
  {
    if d.digits != 0 && d.digits % 10 == 0 {
      var e := Decimal(d.negative, d.digits / 10, d.exponent + 1);
      Normalized(e);
      var m := Normalize(e);
      var k := m.exponent - e.exponent;
      assert Pow10(k + 1) == 10 * Pow10(k);
      assert m.digits * (10 * Pow10(k)) == 10 * (m.digits * Pow10(k));
    } else {
      assert Pow10(0) == 1;
    }
  }

  /** Two decimals stand for the same number: the same digits at a common exponent, and the same sign. */
  predicate SameNumber(a: Decimal, b: Decimal) {
    var low := if a.exponent < b.exponent then a.exponent else b.exponent;
    && a.digits * Pow10(a.exponent - low) == b.digits * Pow10(b.exponent - low)
    && (a.digits != 0 ==> a.negative == b.negative)
  }

  lemma {:induction false} PowSum(a: nat, b: nat)
    ensures Pow10(a + b) == Pow10(a) * Pow10(b)
    decreases a
  {
    if a > 0 {
      PowSum(a - 1, b);
      assert 10 * (Pow10(a - 1) * Pow10(b)) == (10 * Pow10(a - 1)) * Pow10(b);
    }
  }

  /** What is left of a common factor. */
  lemma CancelPow(x: nat, y: nat, p: nat)
    requires p > 0 && x * p == y * p
    ensures x == y
  {
  }

  /** Numbers without trailing zeros that are the same number have the same digits and exponent. */
  lemma SameDigits(c: nat, e: int, d: nat, f: int, low: int)
    requires c % 10 != 0 && d % 10 != 0 && low <= e && low <= f && c * Pow10(e - low) == d * Pow10(f - low)
    ensures c == d && e == f
  {
    if e < f {
      HigherDivides(c, e, d, f, low);
      assert false;
    } else if f < e {
      HigherDivides(d, f, c, e, low);
      assert false;
    } else {
      CancelPow(c, d, Pow10(e - low));
    }
  }

  lemma HigherDivides(c: nat, e: int, d: nat, f: int, low: int)
    requires low <= e < f && c * Pow10(e - low) == d * Pow10(f - low)
    ensures c % 10 == 0
  {
    hide Pow10;
    var k := f - e;
    PowSum(k, e - low);
    PowStep(k);
    TenDivides(c, Pow10(e - low), d, Pow10(k), Pow10(k - 1));
  }

  lemma PowStep(k: nat)
    requires k > 0
    ensures Pow10(k) == 10 * Pow10(k - 1)
  {
  }

  lemma TenDivides(c: nat, p: nat, d: nat, k: nat, j: nat)
    requires p > 0 && k == 10 * j && c * p == d * (k * p)
    ensures c % 10 == 0
  {
    assert d * (k * p) == (d * k) * p;
    CancelPow(c, d * k, p);
    assert d * k == 10 * (d * j);
  }

  /** At an exponent no higher, the digits are those of the normalized number moved. */
  lemma AtExponent(d: Decimal, low: int)
    requires d.digits != 0 && low <= d.exponent
    ensures var m := Normalize(d);
            m.exponent >= low && d.digits * Pow10(d.exponent - low) == m.digits * Pow10(m.exponent - low)
  {
    Normalized(d);
    var m := Normalize(d);
    PowSum(m.exponent - d.exponent, d.exponent - low);
    var a, b := Pow10(m.exponent - d.exponent), Pow10(d.exponent - low);
    assert (m.digits * a) * b == m.digits * (a * b);
  }

  /** The canonical form decides equality: two decimals are the same number exactly when it is the same. */
  lemma CanonicalDecides(a: Decimal, b: Decimal)
    ensures SameNumber(a, b) <==> Canonical(a) == Canonical(b)
  {
    var low := if a.exponent < b.exponent then a.exponent else b.exponent;
    Normalized(a);
    Normalized(b);
    var p, q := Pow10(a.exponent - low), Pow10(b.exponent - low);
    if a.digits == 0 || b.digits == 0 {
      ZeroProduct(a.digits, p);
      ZeroProduct(b.digits, q);
    } else {
      AtExponent(a, low);
      AtExponent(b, low);
      var m, n := Normalize(a), Normalize(b);
      if SameNumber(a, b) {
        SameDigits(m.digits, m.exponent, n.digits, n.exponent, low);
      }
    }
  }

  lemma ZeroProduct(x: nat, p: nat)
    requires p > 0
    ensures x * p == 0 <==> x == 0
  {
  }

  // --- plain notation ------------------------------------------------------------------------------

  /** No exponent, no trailing zeros. */
  function Written(d: Decimal): string {
    var m := Normalize(d);
    Sign(m.negative) + Unsigned(m.digits, m.exponent)
  }

  function Unsigned(digits: nat, exponent: int): string {
    var s := Digits(digits);
    if exponent >= 0 then s + Zeros(exponent)
    else if |s| > -exponent then s[..|s| + exponent] + "." + s[|s| + exponent..]
    else "0." + Zeros(-exponent - |s|) + s
  }

  /** The first point, or the length of the text. */
  function PointIn(s: string): (k: nat)
    ensures k <= |s| && (k < |s| ==> s[k] == '.') && forall i :: 0 <= i < k ==> s[i] != '.'
  {
    if s == "" || s[0] == '.' then 0 else 1 + PointIn(s[1..])
  }

  /** One to eighteen digits. */
  predicate IsRun(s: string) {
    1 <= |s| <= 18 && AreDigits(s)
  }

  function Sign(negative: bool): string {
    if negative then "-" else ""
  }

  /** An optional sign, a run of digits, and an optional point with another run. */
  function Read(text: string): Option<Decimal> {
    if text != "" && text[0] == '-' then ReadUnsigned(true, text[1..]) else ReadUnsigned(false, text)
  }

  function ReadUnsigned(negative: bool, s: string): Option<Decimal> {
    var k := PointIn(s);
    if k == |s| then (if IsRun(s) then Some(Decimal(negative, Number(s), 0)) else None)
    else
      var whole, part := s[..k], s[k + 1..];
      if IsRun(whole) && IsRun(part) then NumberOf(negative, whole, part) else None
  }

  lemma ReadSigned(negative: bool, s: string)
    requires s != "" && IsDigit(s[0])
    ensures Read(Sign(negative) + s) == ReadUnsigned(negative, s)
  {
    hide ReadUnsigned;
    var text := Sign(negative) + s;
    assert negative ==> text[1..] == s;
    assert !negative ==> text == s;
  }

  function NumberOf(negative: bool, whole: string, part: string): Option<Decimal>
    requires AreDigits(whole) && AreDigits(part)
  {
    NumberJoined(whole, part);
    Some(Decimal(negative, Number(whole + part), -|part|))
  }

  /** At most nine decimal places and below 10^15: what the architecture holds. */
  predicate Fits(d: Decimal) {
    var m := Normalize(d);
    m.exponent >= -9 && (if m.exponent >= 0 then m.digits * Pow10(m.exponent) < Pow10(15)
        else m.digits < Pow10(15 - m.exponent))
  }

  lemma PointNone(s: string)
    requires AreDigits(s)
    ensures PointIn(s) == |s|
  {
    forall i | 0 <= i < |s|
      ensures s[i] != '.'
    {
      assert IsDigit(s[i]);
    }
  }

  lemma PointAt(whole: string, part: string)
    requires AreDigits(whole)
    ensures PointIn(whole + "." + part) == |whole|
  {
    var s := whole + "." + part;
    var k := PointIn(s);
    assert s[|whole|] == '.';
    forall i | 0 <= i < |whole|
      ensures s[i] != '.'
    {
      assert s[i] == whole[i] && IsDigit(whole[i]);
    }
  }

  lemma ReadWhole(negative: bool, s: string)
    requires IsRun(s)
    ensures Read(Sign(negative) + s) == Some(Decimal(negative, Number(s), 0))
  {
    hide Number, Read, PointIn;
    PointNone(s);
    ReadSigned(negative, s);
  }

  lemma ReadParts(negative: bool, whole: string, part: string)
    requires IsRun(whole) && IsRun(part)
    ensures AreDigits(whole + part)
    ensures Read(Sign(negative) + (whole + "." + part)) == Some(Decimal(negative, Number(whole + part), -|part|))
  {
    hide Number, Read, PointIn;
    var s := whole + "." + part;
    PointAt(whole, part);
    assert s[0] == whole[0];
    ReadSigned(negative, s);
    assert s[..|whole|] == whole && s[|whole| + 1..] == part;
    NumberJoined(whole, part);
  }

  /** A whole number: its digits and the zeros its exponent adds. */
  lemma ReadsWhole(negative: bool, digits: nat, exponent: nat)
    requires digits * Pow10(exponent) < Pow10(15) && (digits == 0 ==> exponent == 0)
    ensures Read(Sign(negative) + Unsigned(digits, exponent)) == Some(Decimal(negative, digits * Pow10(exponent), 0))
  {
    hide Read, Digits, Number, Pow10, Zeros;
    NumberOfDigits(digits);
    NumberOfZeros(exponent);
    NumberJoined(Digits(digits), Zeros(exponent));
    WholeFits(digits, exponent);
    ReadWhole(negative, Digits(digits) + Zeros(exponent));
  }

  lemma {:induction false} PowGrows(a: nat, b: nat)
    requires a <= b
    ensures Pow10(a) <= Pow10(b)
    decreases b
  {
    if a < b {
      PowGrows(a, b - 1);
    }
  }

  /** Moved to billionths, the digits stay below the same bound moved. */
  lemma InBillionths(c: nat, e: int)
    requires e >= -9
    ensures c * Pow10(e + 9) < Pow10(24) <==>
            if e >= 0 then c * Pow10(e) < Pow10(15) else c < Pow10(15 - e)
  {
    hide Pow10;
    if e >= 0 {
      PowSum(e, 9);
      PowSum(15, 9);
      assert c * (Pow10(e) * Pow10(9)) == (c * Pow10(e)) * Pow10(9);
      ScaledBelow(c * Pow10(e), Pow10(15), Pow10(9));
    } else {
      PowSum(15 - e, e + 9);
      ScaledBelow(c, Pow10(15 - e), Pow10(e + 9));
    }
  }

  lemma ScaledBelow(x: nat, y: nat, p: nat)
    requires p > 0
    ensures x * p < y * p <==> x < y
  {
    assert x < y ==> x * p < y * p;
    assert x >= y ==> x * p >= y * p;
  }

  /** The bounds: a number that is a whole number of billionths, and below 10^15. */
  lemma FitsExactly(d: Decimal)
    ensures Fits(d) <==> exists n: nat :: n < Pow10(24) && SameNumber(d, Decimal(d.negative, n, -9))
  {
    hide Pow10, SameNumber, Normalize;
    Normalized(d);
    var m := Normalize(d);
    if Fits(d) {
      var n := if d.digits == 0 then 0 else m.digits * Pow10(m.exponent + 9);
      InBillionths(m.digits, m.exponent);
      Billionths(d, n);
      PowersPositive();
    }
    if n: nat :| n < Pow10(24) && SameNumber(d, Decimal(d.negative, n, -9)) {
      Billionths(d, n);
      InBillionths(m.digits, m.exponent);
      PowersPositive();
    }
  }

  lemma PowersPositive()
    ensures 0 < Pow10(24) && 0 * Pow10(0) < Pow10(15)
  {
    PowGrows(0, 15);
    PowGrows(0, 24);
  }

  /** A number is that many billionths exactly when its digits without trailing zeros, moved, are. */
  lemma Billionths(d: Decimal, n: nat)
    ensures SameNumber(d, Decimal(d.negative, n, -9)) <==>
            if d.digits == 0 then n == 0
            else n != 0 && Normalize(d).exponent >= -9 && n == Normalize(d).digits * Pow10(Normalize(d).exponent + 9)
  {
    hide Pow10, SameNumber;
    var b, m := Decimal(d.negative, n, -9), Normalize(d);
    CanonicalDecides(d, b);
    Normalized(d);
    Normalized(b);
    if d.digits != 0 && n != 0 {
      var c := Normalize(b);
      if m.exponent >= -9 && n == m.digits * Pow10(m.exponent + 9) {
        SameDigits(c.digits, c.exponent, m.digits, m.exponent, -9);
      }
    }
  }

  lemma WholeFits(digits: nat, exponent: nat)
    requires digits * Pow10(exponent) < Pow10(15) && (digits == 0 ==> exponent == 0)
    ensures |Digits(digits)| + exponent <= 15
  {
    hide Digits, Pow10;
    if digits == 0 {
      OneDigit();
    } else {
      AtLeast(digits, Pow10(exponent));
      if exponent >= 15 {
        PowGrows(15, exponent);
        assert false;
      }
      PowSum(15 - exponent, exponent);
      Below(digits, Pow10(15 - exponent), Pow10(exponent));
      DigitsLength(digits, 15 - exponent);
    }
  }

  lemma OneDigit()
    ensures |Digits(0)| == 1
  {
  }

  lemma AtLeast(a: nat, b: nat)
    requires a > 0
    ensures a * b >= b
  {
  }

  lemma Below(a: nat, b: nat, p: nat)
    requires p > 0 && a * p < b * p
    ensures a < b
  {
  }

  lemma ZeroText()
    ensures AreDigits("0") && Number("0") == 0
  {
    assert "0"[..0] == "";
  }

  /** A number with decimal places: its digits around the point, with zeros before them when it is below one. */
  lemma ReadsPlaces(negative: bool, digits: nat, places: int)
    requires 1 <= places <= 9 && digits < Pow10(15 + places)
    ensures Read(Sign(negative) + Unsigned(digits, -places)) == Some(Decimal(negative, digits, -places))
  {
    hide Read, Digits, Number, Pow10, Zeros, IsDigit;
    var s := Digits(digits);
    NumberOfDigits(digits);
    DigitsLength(digits, 15 + places);
    if |s| > places {
      var whole, part := s[..|s| - places], s[|s| - places..];
      assert whole + part == s;
      ReadParts(negative, whole, part);
    } else {
      PaddedPart(negative, digits, places);
    }
  }

  lemma PaddedPart(negative: bool, digits: nat, places: int)
    requires 1 <= places <= 9 && |Digits(digits)| <= places
    ensures Read(Sign(negative) + Unsigned(digits, -places)) == Some(Decimal(negative, digits, -places))
  {
    hide Read, Digits, Number, Pow10, Zeros, IsDigit;
    var s := Digits(digits);
    var zeros := Zeros(places - |s|);
    NumberOfDigits(digits);
    NumberOfZeros(places - |s|);
    NumberJoined(zeros, s);
    ZeroText();
    NumberJoined("0", zeros + s);
    ReadParts(negative, "0", zeros + s);
    assert "0." + zeros + s == "0" + "." + (zeros + s);
  }

  /** Every number the architecture holds is read back exactly from its text. */
  lemma RoundTrip(d: Decimal)
    requires Fits(d)
    ensures Read(Written(d)).Some? && Normalize(Read(Written(d)).value) == Normalize(d)
  {
    hide Read, Unsigned, Fits;
    Normalized(d);
    FitsMeans(d);
    var m := Normalize(d);
    if m.exponent >= 0 {
      ReadsWhole(m.negative, m.digits, m.exponent);
      MovedSame(m.negative, m.digits, m.exponent);
      NormalTwice(d);
    } else {
      ReadsPlaces(m.negative, m.digits, -m.exponent);
      NormalTwice(d);
    }
  }

  lemma FitsMeans(d: Decimal)
    requires Fits(d)
    ensures var m := Normalize(d);
            m.exponent >= -9 && (if m.exponent >= 0 then m.digits * Pow10(m.exponent) < Pow10(15)
                else m.digits < Pow10(15 - m.exponent))
  {
  }

  lemma NormalTwice(d: Decimal)
    ensures Normalize(Normalize(d)) == Normalize(d)
  {
    Normalized(d);
  }

  lemma {:induction false} MovedSame(negative: bool, digits: nat, exponent: nat)
    ensures Normalize(Decimal(negative, digits * Pow10(exponent), 0)) == Normalize(Decimal(negative, digits, exponent))
    decreases exponent
  {
    if digits == 0 {
    } else if exponent > 0 {
      var p := Pow10(exponent - 1);
      assert digits * (10 * p) == 10 * (digits * p) == (10 * digits) * p;
      Shift(negative, 10 * digits, exponent - 1);
      assert Normalize(Decimal(negative, 10 * digits, exponent - 1)) == Normalize(Decimal(negative, digits, exponent));
      MovedSame(negative, 10 * digits, exponent - 1);
    }
  }

  lemma Shift(negative: bool, digits: nat, exponent: int)
    requires digits % 10 == 0 && digits > 0
    ensures Normalize(Decimal(negative, digits, exponent)) == Normalize(Decimal(negative, digits / 10, exponent + 1))
  {
  }

  /** Numbers have the same text exactly when they are the same number, zero's sign included. */
  lemma SameText(a: Decimal, b: Decimal)
    requires Fits(a) && Fits(b)
    ensures Written(a) == Written(b) <==> Normalize(a) == Normalize(b)
  {
    hide Normalize, Fits, Read, Written;
    RoundTrip(a);
    RoundTrip(b);
    if Normalize(a) == Normalize(b) {
      SameWritten(a, b);
    }
  }

  lemma SameWritten(a: Decimal, b: Decimal)
    requires Normalize(a) == Normalize(b)
    ensures Written(a) == Written(b)
  {
  }

  // --- configuration values ------------------------------------------------------------------------

  /** A number held in memory, and the form it is written in. */
  datatype Held = Whole(n: int) | Exact(d: Decimal)

  datatype Form = JsonNumber(n: int) | JsonText(text: string)

  function FormOf(v: Held): Form {
    match v
    case Whole(n) => JsonNumber(n)
    case Exact(d) => JsonText(Written(d))
  }

  function OfInt(n: int): Decimal {
    Decimal(n < 0, if n < 0 then -n else n, 0)
  }

  /** A decimal property as read: any number becomes an exact, canonical decimal. */
  function ReadDecimal(f: Form): Option<Held> {
    match f
    case JsonNumber(n) => Some(Exact(Canonical(OfInt(n))))
    case JsonText(text) => if Read(text).Some? then Some(Exact(Canonical(Read(text).value))) else None
  }

  /** A decimal property as held: an int, or a canonical decimal. */
  predicate HeldFits(v: Held) {
    match v
    case Whole(n) => Fits(OfInt(n))
    case Exact(d) => Fits(d) && Canonical(d) == d
  }

  function DecimalOf(v: Held): Decimal {
    match v
    case Whole(n) => OfInt(n)
    case Exact(d) => d
  }

  lemma CanonicalFits(d: Decimal)
    requires Fits(d)
    ensures Fits(Canonical(d)) && Canonical(Canonical(d)) == Canonical(d)
  {
    Normalized(d);
    NormalTwice(d);
    assert Pow10(0) == 1;
    if d.digits == 0 {
      assert Normalize(Decimal(false, 0, 0)) == Decimal(false, 0, 0);
    }
  }

  /** Writing and reading a decimal property keeps its number, and gives a canonical decimal. */
  lemma PropertyRoundTrip(v: Held)
    requires HeldFits(v)
    ensures var r := ReadDecimal(FormOf(v));
            r.Some? && r.value.Exact? && HeldFits(r.value) && SameNumber(r.value.d, DecimalOf(v))
    ensures v.Exact? ==> ReadDecimal(FormOf(v)) == Some(v)
  {
    hide Read, Written, Fits;
    var d := DecimalOf(v);
    CanonicalFits(d);
    CanonicalDecides(Canonical(d), d);
    if v.Exact? {
      RoundTrip(d);
      CanonicalOf(Read(Written(d)).value, d);
    }
  }

  lemma CanonicalOf(a: Decimal, b: Decimal)
    requires Normalize(a) == Normalize(b)
    ensures Canonical(a) == Canonical(b)
  {
    Normalized(a);
    Normalized(b);
  }

  /** The written form is the same after a round trip exactly when the value was held as a decimal. */
  lemma FormIsStable(v: Held)
    requires HeldFits(v)
    ensures ReadDecimal(FormOf(v)).Some? && (FormOf(ReadDecimal(FormOf(v)).value) == FormOf(v) <==> v.Exact?)
    ensures var once := ReadDecimal(FormOf(v)).value; ReadDecimal(FormOf(once)) == Some(once)
  {
    hide Read, Written, Fits;
    PropertyRoundTrip(v);
    PropertyRoundTrip(ReadDecimal(FormOf(v)).value);
  }
}
