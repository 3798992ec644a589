/**
 * A float as Python's repr writes it: the fewest digits that read back as the
 * same double, laid out with a point or an exponent. What the C library does
 * is taken as given (Floats, Sound): strtod reads the nearest double, and
 * printf's %.*e prints correctly rounded digits, of which seventeen are
 * always enough.
 */
module FloatRepr {
  import opened Basics
  import opened JsonGrammar

  // ---- What a number's text says ----

  function Power(e: int): real
    decreases if e < 0 then -e else e
  {
    if e == 0 then 1.0 else if e > 0 then 10.0 * Power(e - 1) else Power(e + 1) / 10.0
  }

  lemma PowerUp(e: int)
    ensures Power(e + 1) == 10.0 * Power(e)
  {
  }

  /** The digits of a list after those of acc. */
  function Digits(acc: nat, ds: List<Byte>): nat
    requires WfDigits(ds)
    decreases ds
  {
    match ds
    case Nil => acc
    case Cons(d, tail) => Digits(acc * 10 + (d - ZERO), tail)
  }

  function ExponentOf(e: Exponent): int
    requires WfExp(e)
  {
    match e
    case NoExp => 0
    case Exp(_, sign, ds) =>
      var d: int := Digits(0, ds);
      if sign == Some(MINUS) then -d else d
  }

  /** A number's value but for its sign. */
  function Magnitude(n: Number): real
    requires WfNumber(n)
  {
    Times(Digits(Digits(0, n.whole), n.frac), Power(ExponentOf(n.exp) - Length(n.frac)))
  }

  lemma {:induction false} DigitsOn(acc: nat, a: List<Byte>, b: List<Byte>)
    requires WfDigits(a) && WfDigits(b)
    ensures WfDigits(Append(a, b)) && Digits(acc, Append(a, b)) == Digits(Digits(acc, a), b)
    decreases a
  {
    if a.Cons? { DigitsOn(acc * 10 + (a.head - ZERO), a.tail, b); }
  }

  predicate AllDigits(s: Bytes) { WfDigits(ListOf(s)) }

  lemma DigitsOnSeq(acc: nat, a: Bytes, b: Bytes)
    requires AllDigits(a) && AllDigits(b)
    ensures AllDigits(a + b) && Digits(acc, ListOf(a + b)) == Digits(Digits(acc, ListOf(a)), ListOf(b))
  {
    ListOfConcat(a, b);
    DigitsOn(acc, ListOf(a), ListOf(b));
  }

  lemma {:induction false} AllDigitsCut(s: Bytes, k: nat)
    requires AllDigits(s) && k <= |s|
    ensures AllDigits(s[..k]) && AllDigits(s[k..])
    decreases k
  {
    if k > 0 {
      AllDigitsCut(s[1..], k - 1);
      assert s[..k][1..] == s[1..][..k - 1] && s[1..][k - 1..] == s[k..];
      assert s[..k][0] == s[0];
    } else {
      assert s[..0] == [] && s[0..] == s;
    }
  }

  function Zeros(k: nat): Bytes { seq(k, _ => ZERO) }

  function Times(n: nat, q: real): real { n as real * q }

  /** Zeros after its digits are powers of ten. */
  lemma {:induction false} ZerosShift(acc: nat, k: nat)
    ensures AllDigits(Zeros(k)) && Digits(acc, ListOf(Zeros(k))) as real == Times(acc, Power(k))
    decreases k
  {
    hide Times;
    if k > 0 {
      var z: Bytes := Zeros(k);
      assert z[1..] == Zeros(k - 1);
      ZerosShift(acc * 10, k - 1);
      ZeroFirst(acc, z);
      TenTimes(acc, Power(k - 1));
    } else {
      TimesOne(acc);
    }
  }

  lemma TimesOne(n: nat)
    ensures Times(n, 1.0) == n as real
  {
  }

  lemma TenTimes(n: nat, q: real)
    ensures Times(n * 10, q) == Times(n, 10.0 * q)
  {
    assert (n * 10) as real == n as real * 10.0;
  }

  lemma ZeroFirst(acc: nat, z: Bytes)
    requires z != [] && z[0] == ZERO && AllDigits(z[1..])
    ensures AllDigits(z) && Digits(acc, ListOf(z)) == Digits(acc * 10, ListOf(z[1..]))
  {
  }

  lemma {:induction false} LeadingZeros(k: nat, ds: List<Byte>)
    requires WfDigits(ds)
    ensures WfDigits(Append(ListOf(Zeros(k)), ds)) && Digits(0, Append(ListOf(Zeros(k)), ds)) == Digits(0, ds)
    decreases k
  {
    if k > 0 {
      assert Zeros(k)[1..] == Zeros(k - 1);
      LeadingZeros(k - 1, ds);
    }
  }

  // ---- Doubles ----

  datatype Double = Finite(neg: bool, size: real) | Infinite(neg: bool)

  /** Significant digits and the power of ten of the first. */
  datatype Printed = Printed(digits: Bytes, exp10: int)

  /**
   * nearest: the double nearest a real that is not negative, none past the greatest. printed: a
   * double's first digits, as many as asked for.
   */
  datatype Floats = Floats(nearest: real -> Option<real>, printed: (real, nat) -> Printed)

  function Denotes(p: Printed): real
    requires AllDigits(p.digits)
  {
    Times(Digits(0, ListOf(p.digits)), Power(p.exp10 - |p.digits| + 1))
  }

  ghost predicate PrintedOk(p: Printed, count: nat) {
    |p.digits| == count > 0 && AllDigits(p.digits) && p.digits[0] != ZERO && -400 < p.exp10 < 400
  }

  predicate IsDouble(f: Floats, size: real, x: real) { f.nearest(x) == Some(size) }

  ghost predicate Sound(f: Floats) {
    && f.nearest(0.0) == Some(0.0)
    && (forall x, size :: IsDouble(f, size, x) ==> size >= 0.0)
    && (forall size, p: nat :: size > 0.0 && 1 <= p <= 17 ==> PrintedOk(f.printed(size, p), p))
    && (forall x, size :: IsDouble(f, size, x) && size > 0.0 ==> f.nearest(Denotes(f.printed(size, 17))) == Some(size))
  }

  /** What strtod reads. */
  function ReadDouble(f: Floats, n: Number): Double
    requires WfNumber(n)
  {
    match f.nearest(Magnitude(n))
    case None => Infinite(n.minus)
    case Some(size) => Finite(n.minus, size)
  }

  // ---- The fewest digits ----

  function Shortest(f: Floats, size: real, p: nat): (r: Printed)
    requires Sound(f) && size > 0.0 && 1 <= p <= 17
    ensures PrintedOk(r, |r.digits|) && p <= |r.digits| <= 17
    ensures forall q :: p <= q < |r.digits| ==> f.nearest(Denotes(f.printed(size, q))) != Some(size)
    ensures |r.digits| == 17 || f.nearest(Denotes(r)) == Some(size)
    ensures r == f.printed(size, |r.digits|)
    decreases 17 - p
  {
    var e := f.printed(size, p);
    assert PrintedOk(e, p);
    if p == 17 || f.nearest(Denotes(e)) == Some(size) then e else Shortest(f, size, p + 1)
  }

  function Trim(digits: Bytes): Bytes {
    if |digits| > 1 && digits[|digits| - 1] == ZERO then Trim(digits[..|digits| - 1]) else digits
  }

  lemma {:induction false} TrimDenotes(digits: Bytes, exp10: int)
    requires digits != [] && AllDigits(digits)
    ensures var t := Trim(digits);
            && 0 < |t| <= |digits| && AllDigits(t) && t[0] == digits[0]
            && Denotes(Printed(t, exp10)) == Denotes(Printed(digits, exp10))
    decreases |digits|
  {
    hide Times;
    hide Power;
    var n := |digits| - 1;
    if n > 0 && digits[n] == ZERO {
      var most: Bytes := digits[..n];
      AllDigitsCut(digits, n);
      TrimDenotes(most, exp10);
      assert digits == most + [ZERO];
      DigitsOnSeq(0, most, [ZERO]);
      OneDigit(Digits(0, ListOf(most)), 0);
      PowerUp(exp10 - |digits| + 1);
      TenTimes(Digits(0, ListOf(most)), Power(exp10 - |digits| + 1));
    }
  }

  // ---- Layout ----

  /** A number in decimal, at least two digits of it. */
  function TwoDigits(n: nat): Bytes { if n < 10 then [ZERO, ZERO + n] else Decimal(n) }

  function Decimal(n: nat): Bytes { if n < 10 then [ZERO + n] else Decimal(n / 10) + [ZERO + n % 10] }

  lemma OneDigit(acc: nat, d: nat)
    requires d < 10
    ensures AllDigits([ZERO + d]) && Digits(acc, ListOf<Byte>([ZERO + d])) == acc * 10 + d
  {
    var s: Bytes := [ZERO + d];
    assert ListOf(s) == Cons(ZERO + d, ListOf(s[1..]));
  }

  lemma {:induction false} DecimalSays(n: nat)
    ensures Decimal(n) != [] && AllDigits(Decimal(n)) && Digits(0, ListOf(Decimal(n))) == n
  {
    if n < 10 {
      OneDigit(0, n);
    } else {
      DecimalSays(n / 10);
      DigitsOnSeq(0, Decimal(n / 10), [ZERO + n % 10]);
      OneDigit(n / 10, n % 10);
    }
  }

  lemma TwoDigitsSay(n: nat)
    ensures TwoDigits(n) != [] && AllDigits(TwoDigits(n)) && Digits(0, ListOf(TwoDigits(n))) == n
    ensures n < 400 ==> |TwoDigits(n)| <= 3
  {
    if n < 10 {
      assert [ZERO, ZERO + n] == [ZERO] + [ZERO + n];
      OneDigit(0, 0);
      OneDigit(0, n);
      DigitsOnSeq(0, [ZERO], [ZERO + n]);
    } else {
      DecimalSays(n);
      DecimalLength(n);
    }
  }

  lemma DecimalLength(n: nat)
    ensures n < 1000 ==> |Decimal(n)| <= 3
  {
    if n < 1000 {
      assert n / 10 < 100 && n / 10 / 10 < 10;
      assert n / 10 >= 10 ==> Decimal(n / 10) == Decimal(n / 10 / 10) + [ZERO + n / 10 % 10];
    }
  }

  /** Digits with a point or an exponent, where Python puts it. */
  function Laid(neg: bool, d: Bytes, exp10: int): Number
    requires d != []
  {
    var decpt := exp10 + 1;
    var nd := |d|;
    if decpt <= -4 || decpt > 16 then
      Number(neg, ListOf(d[..1]), ListOf(d[1..]),
             Exp(LOWER_E, Some(if exp10 < 0 then MINUS else PLUS),
                 ListOf(TwoDigits(if exp10 < 0 then -exp10 else exp10))))
    else if decpt <= 0 then Number(neg, ListOf([ZERO]), ListOf(Zeros(-decpt) + d), NoExp)
    else if decpt >= nd then Number(neg, ListOf(d + Zeros(decpt - nd)), ListOf([ZERO]), NoExp)
    else Number(neg, ListOf(d[..decpt]), ListOf(d[decpt..]), NoExp)
  }

  /** Whether a number has a fraction or an exponent. */
  predicate IsFloat(n: Number) { n.frac.Cons? || n.exp.Exp? }

  lemma LaidExponent(neg: bool, d: Bytes, exp10: int)
    requires d != [] && AllDigits(d) && d[0] != ZERO && !(-4 < exp10 + 1 <= 16)
    ensures var n := Laid(neg, d, exp10);
            WfNumber(n) && IsFloat(n) && n.minus == neg && Magnitude(n) == Denotes(Printed(d, exp10))
  {
    TwoDigitsSay(if exp10 < 0 then -exp10 else exp10);
    AllDigitsCut(d, 1);
    ListOfLength(d[1..]);
    DigitsOnSeq(0, d[..1], d[1..]);
    assert d == d[..1] + d[1..];
    assert ListOf(d[..1]) == Cons(d[0], ListOf(d[..1][1..]));
  }

  lemma LaidSmall(neg: bool, d: Bytes, exp10: int)
    requires d != [] && AllDigits(d) && d[0] != ZERO && -4 < exp10 + 1 <= 0
    ensures var n := Laid(neg, d, exp10);
            WfNumber(n) && IsFloat(n) && n.minus == neg && Magnitude(n) == Denotes(Printed(d, exp10))
  {
    hide Power;
    hide Digits;
    var k := -(exp10 + 1);
    ListOfConcat(Zeros(k), d);
    LeadingZeros(k, ListOf(d));
    ListOfLength(Zeros(k) + d);
    OneDigit(0, 0);
    assert ListOf<Byte>([ZERO]) == Cons(ZERO, ListOf<Byte>([ZERO][1..]));
    assert Laid(neg, d, exp10) == Number(neg, ListOf([ZERO]), ListOf(Zeros(k) + d), NoExp);
  }

  lemma WholeTenths(n: nat)
    ensures (n * 10) as real * Power(-1) == n as real
  {
    assert Power(-1) == 0.1;
  }

  lemma LaidWhole(neg: bool, d: Bytes, exp10: int)
    requires d != [] && AllDigits(d) && d[0] != ZERO && |d| <= exp10 + 1 <= 16
    ensures var n := Laid(neg, d, exp10);
            WfNumber(n) && IsFloat(n) && n.minus == neg && Magnitude(n) == Denotes(Printed(d, exp10))
  {
    var k := exp10 + 1 - |d|;
    ZerosShift(Digits(0, ListOf(d)), k);
    DigitsOnSeq(0, d, Zeros(k));
    var whole := Digits(0, ListOf(d + Zeros(k)));
    OneDigit(whole, 0);
    WholeTenths(whole);
    hide Power;
    assert ListOf<Byte>([ZERO]) == Cons(ZERO, ListOf<Byte>([ZERO][1..]));
    assert (d + Zeros(k))[0] == d[0];
  }

  lemma LaidInside(neg: bool, d: Bytes, exp10: int)
    requires d != [] && AllDigits(d) && d[0] != ZERO && 0 < exp10 + 1 < |d| && exp10 + 1 <= 16
    ensures var n := Laid(neg, d, exp10);
            WfNumber(n) && IsFloat(n) && n.minus == neg && Magnitude(n) == Denotes(Printed(d, exp10))
  {
    var k := exp10 + 1;
    AllDigitsCut(d, k);
    ListOfLength(d[k..]);
    DigitsOnSeq(0, d[..k], d[k..]);
    assert d == d[..k] + d[k..];
    assert d[..k][0] == d[0];
  }

  /** However it is laid out, the text says what the digits and the exponent do. */
  lemma LaidDenotes(neg: bool, d: Bytes, exp10: int)
    requires d != [] && AllDigits(d) && d[0] != ZERO
    ensures var n := Laid(neg, d, exp10);
            WfNumber(n) && IsFloat(n) && n.minus == neg && Magnitude(n) == Denotes(Printed(d, exp10))
  {
    var decpt := exp10 + 1;
    if decpt <= -4 || decpt > 16 { LaidExponent(neg, d, exp10); }
    else if decpt <= 0 { LaidSmall(neg, d, exp10); }
    else if decpt >= |d| { LaidWhole(neg, d, exp10); }
    else { LaidInside(neg, d, exp10); }
  }

  // ---- Where it is put ----

  lemma {:induction false} PowerPositive(e: int)
    ensures Power(e) > 0.0
    decreases if e < 0 then -e else e
  {
    if e > 0 { PowerPositive(e - 1); } else if e < 0 { PowerPositive(e + 1); }
  }

  lemma {:induction false} PowerUpTo(a: int, b: int)
    requires a <= b
    ensures Power(a) <= Power(b)
    decreases b - a
  {
    if a < b {
      PowerUpTo(a, b - 1);
      PowerUp(b - 1);
      PowerPositive(b - 1);
    }
  }

  lemma Powers()
    ensures Power(-4) == 0.0001 && Power(16) == 10000000000000000.0
  {
    assert Power(-2) == 0.01;
    assert Power(4) == 10000.0;
    assert Power(8) == 100000000.0;
    assert Power(12) == 1000000000000.0;
  }

  lemma TimesLess(m: nat, n: nat, q: real)
    requires m < n && q > 0.0
    ensures Times(m, q) < Times(n, q)
  {
  }

  /** Digits after others are between those others and one more, shifted. */
  lemma {:induction false} DigitsBetween(acc: nat, ds: List<Byte>, x: int)
    requires WfDigits(ds)
    ensures Times(acc, Power(x + Length(ds))) <= Times(Digits(acc, ds), Power(x))
    ensures Times(Digits(acc, ds), Power(x)) < Times(acc + 1, Power(x + Length(ds)))
    decreases ds
  {
    hide Times;
    match ds {
      case Nil =>
        PowerPositive(x);
        TimesLess(acc, acc + 1, Power(x));
      case Cons(d, tail) =>
        hide Power;
        var next := acc * 10 + (d - ZERO);
        var e := x + Length(tail);
        DigitsBetween(next, tail, x);
        PowerPositive(e);
        PowerUp(e);
        TenTimes(acc, Power(e));
        TenTimes(acc + 1, Power(e));
        if acc * 10 < next { TimesLess(acc * 10, next, Power(e)); }
        if next + 1 < (acc + 1) * 10 { TimesLess(next + 1, (acc + 1) * 10, Power(e)); }
    }
  }

  /** The power of ten of the first digit is the number's size. */
  lemma SizedByFirst(d: Bytes, exp10: int)
    requires d != [] && AllDigits(d) && d[0] != ZERO
    ensures Power(exp10) <= Denotes(Printed(d, exp10)) < Power(exp10 + 1)
  {
    hide Times;
    hide Power;
    var c := d[0] - ZERO;
    ListOfLength(d[1..]);
    DigitsBetween(c, ListOf(d[1..]), exp10 - |d| + 1);
    PowerPositive(exp10);
    PowerUp(exp10);
    OneAndTen(Power(exp10));
    if 1 < c { TimesLess(1, c, Power(exp10)); }
    if c + 1 < 10 { TimesLess(c + 1, 10, Power(exp10)); }
  }

  lemma OneAndTen(q: real)
    ensures Times(1, q) == q && Times(10, q) == 10.0 * q
  {
  }

  predicate EndsInZero(ds: List<Byte>) {
    ds.Cons? && if ds.tail.Nil? then ds.head == ZERO else EndsInZero(ds.tail)
  }

  lemma {:induction false} EndOf(s: Bytes)
    ensures EndsInZero(ListOf(s)) <==> s != [] && s[|s| - 1] == ZERO
    decreases |s|
  {
    if |s| > 1 { EndOf(s[1..]); }
  }

  /**
   * Python's layout: an exponent exactly when the number is less than a ten-thousandth or at least
   * 10^16, after one digit that is not a zero, with its sign and two digits at least; and no zero at
   * the end of a fraction but the one after a whole number.
   */
  predicate PythonLays(n: Number)
    requires WfNumber(n)
  {
    && (n.exp.Exp? <==> Magnitude(n) >= 10000000000000000.0 || 0.0 < Magnitude(n) < 0.0001)
    && if n.exp.Exp? then OneDigitFirst(n) && ExponentWide(n.exp)
       else n.frac == ListOf([ZERO]) || (n.frac.Cons? && !EndsInZero(n.frac))
  }

  predicate OneDigitFirst(n: Number) { Length(n.whole) == 1 && n.whole.head != ZERO && !EndsInZero(n.frac) }

  predicate ExponentWide(e: Exponent) {
    && e.Exp? && e.e == LOWER_E && e.sign.Some? && Length(e.digits) >= 2
    && (Length(e.digits) > 2 ==> e.digits.head != ZERO)
  }

  lemma LaidAsPython(neg: bool, d: Bytes, exp10: int)
    requires d != [] && AllDigits(d) && d[0] != ZERO && (|d| > 1 ==> d[|d| - 1] != ZERO)
    ensures WfNumber(Laid(neg, d, exp10)) && PythonLays(Laid(neg, d, exp10))
  {
    LaidDenotes(neg, d, exp10);
    SizedByFirst(d, exp10);
    Powers();
    PowerPositive(exp10);
    if exp10 >= 16 { PowerUpTo(16, exp10); } else { PowerUpTo(exp10 + 1, 16); }
    if exp10 >= -4 { PowerUpTo(-4, exp10); } else { PowerUpTo(exp10 + 1, -4); }
    LaidForm(neg, d, exp10);
  }

  lemma LaidForm(neg: bool, d: Bytes, exp10: int)
    requires d != [] && d[0] != ZERO && (|d| > 1 ==> d[|d| - 1] != ZERO)
    ensures var n := Laid(neg, d, exp10);
            && (n.exp.Exp? <==> exp10 < -4 || exp10 >= 16)
            && if n.exp.Exp? then OneDigitFirst(n) && ExponentWide(n.exp)
               else n.frac == ListOf([ZERO]) || (n.frac.Cons? && !EndsInZero(n.frac))
  {
    hide EndsInZero;
    hide TwoDigits;
    var decpt := exp10 + 1;
    if decpt <= -4 || decpt > 16 {
      ListOfLength(d[..1]);
      EndOf(d[1..]);
      TwoDigitsWide(if exp10 < 0 then -exp10 else exp10);
    } else if decpt <= 0 {
      EndOf(Zeros(-decpt) + d);
    } else if decpt < |d| {
      EndOf(d[decpt..]);
    }
  }

  lemma TwoDigitsWide(n: nat)
    ensures var t := TwoDigits(n); Length(ListOf(t)) >= 2 && (Length(ListOf(t)) > 2 ==> ListOf(t).head != ZERO)
  {
    ListOfLength(TwoDigits(n));
    if n >= 10 { DecimalFirst(n); }
  }

  lemma {:induction false} DecimalFirst(n: nat)
    ensures |Decimal(n)| >= if n < 10 then 1 else 2
    ensures n > 0 ==> Decimal(n)[0] != ZERO
  {
    if n >= 10 { DecimalFirst(n / 10); }
  }

  // ---- repr ----

  function ReprNumber(f: Floats, neg: bool, size: real): Number
    requires Sound(f) && size >= 0.0
  {
    if size == 0.0 then Number(neg, ListOf([ZERO]), ListOf([ZERO]), NoExp)
    else
      var e := Shortest(f, size, 1);
      assert Trim(e.digits) != [] by { TrimDenotes(e.digits, e.exp10); }
      Laid(neg, Trim(e.digits), e.exp10)
  }

  const INFINITY: Bytes := [0x49, 0x6E, 0x66, 0x69, 0x6E, 0x69, 0x74, 0x79]

  function ReprText(f: Floats, x: Double): Bytes
    requires Sound(f) && (x.Finite? ==> x.size >= 0.0)
  {
    match x
    case Infinite(neg) => Sign(neg) + INFINITY
    case Finite(neg, size) => PutNumber(ReprNumber(f, neg, size), [])
  }

  /** A double's repr is a float's text, and reads back as that double. */
  lemma ReprReadsBack(f: Floats, neg: bool, size: real, x: real)
    requires Sound(f) && IsDouble(f, size, x)
    ensures size >= 0.0
    ensures var n := ReprNumber(f, neg, size);
            WfNumber(n) && IsFloat(n) && ReadDouble(f, n) == Finite(neg, size)
  {
    hide Power;
    if size == 0.0 {
      OneDigit(0, 0);
      assert ListOf<Byte>([ZERO]) == Cons(ZERO, ListOf<Byte>([ZERO][1..]));
      NoTimes(Power(-1));
    } else {
      hide Times;
      var e := Shortest(f, size, 1);
      assert f.nearest(Denotes(f.printed(size, 17))) == Some(size);
      assert f.nearest(Denotes(e)) == Some(size);
      TrimDenotes(e.digits, e.exp10);
      LaidDenotes(neg, Trim(e.digits), e.exp10);
    }
  }

  /** A double's repr is laid out as Python lays it. */
  lemma ReprLaid(f: Floats, neg: bool, size: real)
    requires Sound(f) && size >= 0.0
    ensures WfNumber(ReprNumber(f, neg, size)) && PythonLays(ReprNumber(f, neg, size))
  {
    hide Power;
    if size == 0.0 {
      OneDigit(0, 0);
      assert ListOf<Byte>([ZERO]) == Cons(ZERO, ListOf<Byte>([ZERO][1..]));
      NoTimes(Power(-1));
    } else {
      hide Times;
      hide PythonLays;
      var e := Shortest(f, size, 1);
      TrimDenotes(e.digits, e.exp10);
      TrimmedEnd(e.digits);
      LaidAsPython(neg, Trim(e.digits), e.exp10);
    }
  }

  lemma {:induction false} TrimmedEnd(digits: Bytes)
    ensures var t := Trim(digits); |t| > 1 ==> t[|t| - 1] != ZERO
    decreases |digits|
  {
    if |digits| > 1 && digits[|digits| - 1] == ZERO { TrimmedEnd(digits[..|digits| - 1]); }
  }

  lemma NoTimes(q: real)
    ensures Times(0, q) == 0.0
  {
  }

  /** Writing a number, reading it and writing it again gives the same text. */
  lemma ReprAgain(f: Floats, n: Number)
    requires Sound(f) && WfNumber(n) && ReadDouble(f, n).Finite?
    ensures ReadDouble(f, n).size >= 0.0
    ensures var m := ReprNumber(f, n.minus, ReadDouble(f, n).size);
            WfNumber(m) && IsFloat(m) && ReadDouble(f, m) == ReadDouble(f, n)
  {
    ReprReadsBack(f, n.minus, ReadDouble(f, n).size, Magnitude(n));
  }

  // ---- As it is written ----

  /** The fewest digits that read back, by asking for one more at a time. */
  method PrintShortest(f: Floats, size: real) returns (e: Printed)
    requires Sound(f) && size > 0.0
    ensures e == Shortest(f, size, 1)
  {
    var p := 1;
    e := f.printed(size, p);
    while p < 17 && f.nearest(Denotes(e)) != Some(size)
      invariant 1 <= p <= 17 && PrintedOk(f.printed(size, p), p) && e == f.printed(size, p)
      invariant Shortest(f, size, p) == Shortest(f, size, 1)
      decreases 17 - p
    {
      p := p + 1;
      e := f.printed(size, p);
      assert PrintedOk(e, p);
    }
  }

  method PyFloatRepr(f: Floats, x: Double) returns (text: Bytes)
    requires Sound(f) && (x.Finite? ==> x.size >= 0.0)
    ensures text == ReprText(f, x)
  {
    var sign := Sign(x.neg);
    if x.Infinite? { return sign + INFINITY; }
    if x.size == 0.0 {
      ZeroText(x.neg);
      return sign + [ZERO, DOT, ZERO];
    }
    var e := PrintShortest(f, x.size);
    var d := e.digits;
    assert PrintedOk(e, |d|);
    ghost var all := d;
    while |d| > 1 && d[|d| - 1] == ZERO
      invariant d != [] && Trim(d) == Trim(all)
    {
      d := d[..|d| - 1];
    }
    TrimDenotes(all, e.exp10);
    LaidText(x.neg, d, e.exp10);
    var body := LayOut(d, e.exp10);
    text := sign + body;
  }

  function Sign(neg: bool): Bytes { if neg then [MINUS] else [] }

  /** How a number's text is put together. */
  function Pieces(whole: Bytes, frac: Bytes, exp: Bytes): Bytes {
    whole + ((if frac == [] then [] else [DOT] + frac) + exp)
  }

  lemma PiecesText(neg: bool, whole: Bytes, frac: Bytes, e: Exponent)
    ensures PutNumber(Number(neg, ListOf(whole), ListOf(frac), e), []) == Sign(neg) + Pieces(whole, frac, PutExp(e, []))
  {
    var n := Number(neg, ListOf(whole), ListOf(frac), e);
    var x := PutExp(e, []);
    hide PutExp;
    hide PutFrac;
    hide Put;
    hide ListOf;
    hide Pieces;
    WholeText(whole, frac, x);
    assert PutUnsigned(n, []) == Pieces(whole, frac, x);
    if !neg { assert [] + Pieces(whole, frac, x) == Pieces(whole, frac, x); }
  }

  lemma WholeText(whole: Bytes, frac: Bytes, x: Bytes)
    ensures Put(ListOf(whole), PutFrac(ListOf(frac), x)) == Pieces(whole, frac, x)
  {
    hide PutFrac;
    hide Put;
    hide ListOf;
    FracText(frac, x);
    PutListOf(whole, PutFrac(ListOf(frac), x));
  }

  lemma FracText(frac: Bytes, rest: Bytes)
    ensures PutFrac(ListOf(frac), rest) == (if frac == [] then [] else [DOT] + frac) + rest
  {
    PutListOf(frac, rest);
    if frac == [] {
      assert [] + rest == rest;
    } else {
      assert [DOT] + (frac + rest) == [DOT] + frac + rest;
    }
  }

  lemma ZeroText(neg: bool)
    ensures PutNumber(Number(neg, ListOf([ZERO]), ListOf([ZERO]), NoExp), []) == Sign(neg) + [ZERO, DOT, ZERO]
  {
    PiecesText(neg, [ZERO], [ZERO], NoExp);
    assert Pieces([ZERO], [ZERO], []) == [ZERO, DOT, ZERO];
  }

  /** What %c%s%se%c%02d writes after the digits. */
  function ExponentText(exp10: int): Bytes {
    [LOWER_E] + ([if exp10 < 0 then MINUS else PLUS] + TwoDigits(if exp10 < 0 then -exp10 else exp10))
  }

  function LaidBody(d: Bytes, exp10: int): Bytes
    requires d != []
  {
    var decpt, nd := exp10 + 1, |d|;
    if decpt <= -4 || decpt > 16 then Pieces(d[..1], d[1..], ExponentText(exp10))
    else if decpt <= 0 then Pieces([ZERO], Zeros(-decpt) + d, [])
    else if decpt >= nd then Pieces(d + Zeros(decpt - nd), [ZERO], [])
    else Pieces(d[..decpt], d[decpt..], [])
  }

  lemma LaidText(neg: bool, d: Bytes, exp10: int)
    requires d != []
    ensures PutNumber(Laid(neg, d, exp10), []) == Sign(neg) + LaidBody(d, exp10)
  {
    hide PutNumber;
    hide Pieces;
    hide ListOf;
    hide TwoDigits;
    var decpt, nd := exp10 + 1, |d|;
    if decpt <= -4 || decpt > 16 {
      var two := TwoDigits(if exp10 < 0 then -exp10 else exp10);
      PutListOf(two, []);
      assert two + [] == two;
      PiecesText(neg, d[..1], d[1..], Laid(neg, d, exp10).exp);
    } else if decpt <= 0 {
      PiecesText(neg, [ZERO], Zeros(-decpt) + d, NoExp);
    } else if decpt >= nd {
      PiecesText(neg, d + Zeros(decpt - nd), [ZERO], NoExp);
    } else {
      PiecesText(neg, d[..decpt], d[decpt..], NoExp);
    }
  }

  /** The text after the sign. */
  method LayOut(d: Bytes, exp10: int) returns (body: Bytes)
    requires d != []
    ensures body == LaidBody(d, exp10)
  {
    hide ExponentText;
    hide Zeros;
    var decpt, nd := exp10 + 1, |d|;
    if decpt <= -4 || decpt > 16 {
      body := d[..1] + (if nd > 1 then [DOT] else []) + d[1..] + ExponentText(exp10);
      assert body == Pieces(d[..1], d[1..], ExponentText(exp10));
    } else if decpt <= 0 {
      body := [ZERO, DOT] + Zeros(-decpt) + d;
      assert body == Pieces([ZERO], Zeros(-decpt) + d, []);
    } else if decpt >= nd {
      body := d + Zeros(decpt - nd) + [DOT, ZERO];
      assert body == Pieces(d + Zeros(decpt - nd), [ZERO], []);
    } else {
      body := d[..decpt] + [DOT] + d[decpt..];
      assert body == Pieces(d[..decpt], d[decpt..], []);
    }
  }
}
