/**
 JavaScript's numbers as far as whole numbers go (ECMA-262, Number): what Number() makes of a digit
 string, and what String() makes of the result.
 */
module JavaScriptNumbers {
  import opened Text

  /** Two to the power of 53: below it every whole number is a double. */
  const PRECISION: nat := 9007199254740992

  /** From here on String() prints with an exponent. */
  const EXPONENT_FROM: nat := 1000000000000000000000

  /** Two to the power of 1024: what rounds to this or more is infinite. */
  const OVERFLOW: nat := 179769313486231590772930519078902473361797697894230657273430081157732675805500963132708477322407536021120113879871393357658789768814416622492847430639474124377767893424865485276302219601246094119453082952085005768838150682342462881473913110540827237163350510684586298239947245938479716304835356329624224137216

  function Pow2(k: nat): (p: nat)
    ensures p >= 1
  {
    if k == 0 then 1 else 2 * Pow2(k - 1)
  }

  // ---- rounding ----

  /** The multiple of u nearest to n, the even one of two. */
  function RoundTo(n: nat, u: nat): nat
    requires u > 0
  {
    var q, r := n / u, n % u;
    if 2 * r > u || (2 * r == u && q % 2 == 1) then (q + 1) * u else q * u
  }

  /** The distance between doubles at n: the least power of two with n below PRECISION times it. */
  function Unit(n: nat): (u: nat)
    ensures u >= 1
  {
    if n < PRECISION then 1 else 2 * Unit(n / 2)
  }

  /** The double nearest to n. */
  function ToDouble(n: nat): nat {
    RoundTo(n, Unit(n))
  }

  function Double(n: int): int {
    if n < 0 then 0 - ToDouble(-n) else ToDouble(n)
  }

  function Magnitude(n: int): nat {
    if n < 0 then -n else n
  }

  // ---- printing ----

  /** Of the two multiples of u around n, the one that is not the nearest. */
  function Farther(n: nat, u: nat): nat
    requires u > 0
  {
    var q := n / u;
    if RoundTo(n, u) == q * u then (q + 1) * u else q * u
  }

  /**
   The shortest decimal that reads as n: a multiple of the largest power of ten that has one, the
   nearest if that reads as n.
   */
  function Shortest(n: nat, zeros: nat): nat
    decreases zeros
  {
    var u := Power10(zeros);
    if zeros == 0 || ToDouble(RoundTo(n, u)) == n then RoundTo(n, u)
    else if ToDouble(Farther(n, u)) == n then Farther(n, u)
    else Shortest(n, zeros - 1)
  }

  function StripZeros(digits: string): (r: string)
    requires digits != "" && AllDigits(digits)
    ensures r != "" && AllDigits(r) && r[0] == digits[0]
    decreases |digits|
  {
    if |digits| > 1 && digits[|digits| - 1] == '0' then StripZeros(digits[..|digits| - 1]) else digits
  }

  function Fraction(digits: string): string {
    if |digits| > 1 then "." + digits[1..] else ""
  }

  /** One digit, the others after a point, and the exponent. */
  function ExponentText(plain: string): string
    requires plain != "" && AllDigits(plain)
  {
    [plain[0]] + Fraction(StripZeros(plain)) + "e+" + Decimal(|plain| - 1)
  }

  function MagnitudeText(n: nat): string {
    var plain := Decimal(Shortest(n, |Decimal(n)|));
    if n < EXPONENT_FROM then plain else ExponentText(plain)
  }

  /** String(n) for a whole double. */
  function NumberText(n: int): string {
    if n < 0 then "-" + MagnitudeText(-n) else MagnitudeText(n)
  }

  // ---- a double stays as it is ----

  lemma Halves(a: nat, b: nat)
    requires b > 0 && a % b == 0
    ensures (2 * a) % (2 * b) == 0
  {
    var q := a / b;
    assert a == q * b;
    assert 2 * a == q * (2 * b);
    MultipleDivides(q, 2 * b);
  }

  lemma {:induction false} MultipleDivides(q: nat, b: nat)
    requires b > 0
    ensures (q * b) % b == 0 && (q * b) / b == q
    decreases q
  {
    if q > 0 {
      MultipleDivides(q - 1, b);
      assert q * b == (q - 1) * b + b;
      OneMoreTime((q - 1) * b, b);
    }
  }

  lemma OneMoreTime(a: nat, b: nat)
    requires b > 0
    ensures (a + b) % b == a % b && (a + b) / b == a / b + 1
  {
    var q, r := a / b, a % b;
    assert a + b == (q + 1) * b + r by { assert (q + 1) * b == q * b + b; }
    DivisionIs(a + b, b, q + 1, r);
  }

  /** Only zero times b lies strictly between -b and b. */
  lemma FarMultiple(d: int, b: int)
    requires b > 0
    ensures d >= 1 ==> d * b >= b
    ensures d <= -1 ==> d * b <= -b
  {
    if d >= 1 {
      assert d * b == b + (d - 1) * b && (d - 1) * b >= 0;
    } else if d <= -1 {
      assert d * b == -b + (d + 1) * b && (d + 1) * b <= 0;
    }
  }

  lemma Difference(p: int, q: int, b: nat)
    ensures (p - q) * b == p * b - q * b
  {
  }

  lemma DivisionIs(a: nat, b: nat, q: nat, r: nat)
    requires b > 0 && r < b && a == q * b + r
    ensures a / b == q && a % b == r
  {
    var p, s := a / b, a % b;
    assert a == p * b + s;
    Difference(p, q, b);
    FarMultiple(p - q, b);
  }

  lemma TimesTwo(m: nat, p: nat)
    ensures m * (2 * p) == 2 * (m * p)
  {
  }

  /** The distance between doubles at m times a power of two divides it, when m is a double's mantissa. */
  lemma {:induction false} UnitDivides(m: nat, k: nat)
    requires m < PRECISION
    ensures (m * Pow2(k)) % Unit(m * Pow2(k)) == 0
    decreases k
  {
    var n := m * Pow2(k);
    if k > 0 && n >= PRECISION {
      var half := m * Pow2(k - 1);
      TimesTwo(m, Pow2(k - 1));
      assert n == 2 * half && n / 2 == half;
      UnitDivides(m, k - 1);
      Halves(half, Unit(half));
    } else if n < PRECISION {
      assert Unit(n) == 1;
    }
  }

  lemma MultipleStays(n: nat, u: nat)
    requires u > 0 && n % u == 0
    ensures RoundTo(n, u) == n
  {
    assert n == (n / u) * u;
  }

  lemma MantissaIsExact(m: nat, k: nat)
    requires m < PRECISION
    ensures ToDouble(m * Pow2(k)) == m * Pow2(k)
  {
    UnitDivides(m, k);
    MultipleStays(m * Pow2(k), Unit(m * Pow2(k)));
  }

  /** The distance is a power of two, and n has at most 53 bits above it. */
  lemma {:induction false} UnitIsPower(n: nat) returns (k: nat)
    ensures Unit(n) == Pow2(k) && n / Unit(n) < PRECISION
    ensures n >= PRECISION ==> n / Unit(n) >= PRECISION / 2 && Unit(n) >= 2
    decreases n
  {
    if n < PRECISION {
      k := 0;
    } else {
      var j := UnitIsPower(n / 2);
      k := j + 1;
      HalfQuotient(n, Unit(n / 2));
    }
  }

  lemma HalfQuotient(n: nat, u: nat)
    requires u > 0
    ensures n / (2 * u) == (n / 2) / u
  {
    var q, r := (n / 2) / u, (n / 2) % u;
    assert n / 2 == q * u + r;
    assert n == q * (2 * u) + (2 * r + n % 2) by { TimesTwo(q, u); }
    DivisionIs(n, 2 * u, q, 2 * r + n % 2);
  }

  /** A rounded number is a mantissa times the distance; one more than the largest is the next power of two. */
  lemma RoundedIsExact(q: nat, k: nat)
    requires q <= PRECISION
    ensures ToDouble(q * Pow2(k)) == q * Pow2(k)
  {
    if q < PRECISION {
      MantissaIsExact(q, k);
    } else {
      assert q * Pow2(k) == (PRECISION / 2) * Pow2(k + 1) by { TimesTwo(PRECISION / 2, Pow2(k)); }
      MantissaIsExact(PRECISION / 2, k + 1);
    }
  }

  /** Rounding to a double a second time changes nothing. */
  lemma DoubleStays(n: nat)
    ensures ToDouble(ToDouble(n)) == ToDouble(n)
  {
    var k := UnitIsPower(n);
    var q := n / Unit(n);
    RoundedIsExact(q, k);
    RoundedIsExact(q + 1, k);
  }

  /** Below PRECISION every whole number is itself; from there on its double is no smaller than PRECISION. */
  lemma SafeIsExact(n: nat)
    ensures n < PRECISION ==> ToDouble(n) == n
    ensures n >= PRECISION ==> ToDouble(n) >= PRECISION
  {
    var k := UnitIsPower(n);
    if n >= PRECISION {
      var q, u := n / Unit(n), Unit(n);
      AtLeast(q, u);
      AtLeast(q + 1, u);
    }
  }

  lemma AtLeast(q: nat, u: nat)
    requires q >= PRECISION / 2 && u >= 2
    ensures q * u >= PRECISION
  {
    assert q * u >= q * 2 by { assert q * u == q * 2 + q * (u - 2); }
  }

  // ---- the double is the nearest ----

  function Distance(a: nat, b: nat): nat {
    if a <= b then b - a else a - b
  }

  lemma NearestMultiple(n: nat, u: nat, low: nat, high: nat)
    requires u > 0
    requires low == (n / u) * u && high == low + u
    ensures var d := RoundTo(n, u);
            && Distance(d, n) <= Distance(low, n) && Distance(d, n) <= Distance(high, n)
            && (Distance(low, n) == Distance(high, n) ==> (d == low <==> (n / u) % 2 == 0))
  {
    NextMultiple(n / u, u);
  }

  /** Next to n, the doubles are the multiples of its unit. */
  lemma NoDoubleBetween(n: nat, x: nat)
    requires ToDouble(x) == x
    ensures var u := Unit(n); x <= (n / u) * u || (n / u + 1) * u <= x
  {
    var u, v := Unit(n), Unit(x);
    var q := n / u;
    var j := UnitIsPower(n);
    var k := UnitIsPower(x);
    UnitGrows(if n <= x then n else x, if n <= x then x else n);
    Around(n, u);
    Around(x, v);
    if u == v {
      RoundBounds(x, u);
      MultiplesApart(x, u, q);
    } else if 2 * u <= v {
      HalfOfTwice(u, v);
      TimesGrows(PRECISION / 2, x / v, v);
      TimesGrows(q + 1, PRECISION, u);
    } else {
      FinerIsBelow(x, v, q, u);
    }
  }

  lemma FinerIsBelow(x: nat, v: nat, q: nat, u: nat)
    requires v > 0 && 2 * v <= u && x / v < PRECISION && q >= PRECISION / 2
    ensures x <= q * u
  {
    Around(x, v);
    TimesGrows(x / v + 1, PRECISION, v);
    HalfOfTwice(v, u);
    TimesGrows(PRECISION / 2, q, u);
  }

  lemma MultiplesApart(x: nat, u: nat, q: nat)
    requires u > 0 && RoundTo(x, u) == x
    ensures x <= q * u || (q + 1) * u <= x
  {
    var p := if x == (x / u) * u then x / u else x / u + 1;
    assert x == p * u;
    if p <= q { TimesGrows(p, q, u); } else { TimesGrows(q + 1, p, u); }
  }

  lemma NearerOfTwo(n: nat, x: nat, low: nat, high: nat, d: nat)
    requires low <= n < high && (x <= low || high <= x) && (d == low || d == high)
    requires Distance(d, n) <= Distance(low, n) && Distance(d, n) <= Distance(high, n)
    ensures Distance(d, n) <= Distance(x, n)
    ensures x != d && Distance(x, n) == Distance(d, n) ==> Distance(low, n) == Distance(high, n)
  {
  }

  lemma TieIsEven(n: nat, u: nat)
    requires u > 0 && Distance((n / u) * u, n) == Distance((n / u + 1) * u, n)
    ensures exists q: nat :: q % 2 == 0 && RoundTo(n, u) == q * u
  {
    var q := n / u;
    NextMultiple(q, u);
    NearestMultiple(n, u, q * u, (q + 1) * u);
    BothNeighbours(n, u);
    var even := if q % 2 == 0 then q else q + 1;
    assert RoundTo(n, u) == even * u;
  }

  /** The two multiples of n's unit around it: one is n's double, the nearer, and no double lies between them. */
  lemma Neighbours(n: nat, x: nat) returns (low: nat, high: nat)
    ensures low <= n < high && (ToDouble(n) == low || ToDouble(n) == high)
    ensures Distance(ToDouble(n), n) <= Distance(low, n) && Distance(ToDouble(n), n) <= Distance(high, n)
    ensures ToDouble(x) == x ==> x <= low || high <= x
    ensures Distance(low, n) == Distance(high, n) ==> exists q: nat :: q % 2 == 0 && ToDouble(n) == q * Unit(n)
  {
    var u := Unit(n);
    low, high := (n / u) * u, (n / u + 1) * u;
    NextMultiple(n / u, u);
    Around(n, u);
    BothNeighbours(n, u);
    NearestMultiple(n, u, low, high);
    if ToDouble(x) == x { NoDoubleBetween(n, x); }
    if Distance(low, n) == Distance(high, n) { TieIsEven(n, u); }
  }

  /** No double is nearer to n than its own, and of two equally near ones it is the one with the even mantissa. */
  lemma DoubleIsNearest(n: nat, x: nat)
    requires ToDouble(x) == x
    ensures Distance(ToDouble(n), n) <= Distance(x, n)
    ensures x != ToDouble(n) && Distance(x, n) == Distance(ToDouble(n), n) ==>
              exists q: nat :: q % 2 == 0 && ToDouble(n) == q * Unit(n)
  {
    var low, high := Neighbours(n, x);
    NearerOfTwo(n, x, low, high, ToDouble(n));
  }

  // ---- printing and reading ----

  lemma NearestToUnitIsItself(n: nat)
    ensures RoundTo(n, Power10(0)) == n
  {
  }

  /** What is printed of a double reads as that double. */
  lemma {:induction false} ShortestReads(n: nat, zeros: nat)
    requires ToDouble(n) == n
    ensures ToDouble(Shortest(n, zeros)) == n
    decreases zeros
  {
    if zeros == 0 {
      NearestToUnitIsItself(n);
    } else if ToDouble(RoundTo(n, Power10(zeros))) != n && ToDouble(Farther(n, Power10(zeros))) != n {
      ShortestReads(n, zeros - 1);
    }
  }

  // ---- no decimal with more trailing zeros reads as the same double ----

  lemma TimesGrows(x: nat, y: nat, u: nat)
    requires x <= y
    ensures x * u <= y * u
  {
    assert y * u == x * u + (y - x) * u;
  }

  lemma NextMultiple(q: nat, u: nat)
    ensures (q + 1) * u == q * u + u
  {
  }

  lemma RoundBounds(n: nat, u: nat)
    requires u > 0
    ensures (n / u) * u <= RoundTo(n, u) <= (n / u + 1) * u
  {
    TimesGrows(n / u, n / u + 1, u);
  }

  lemma QuotientGrows(a: nat, b: nat, u: nat)
    requires u > 0 && a <= b
    ensures a / u < b / u || (a / u == b / u && a % u <= b % u)
  {
    var p, q := a / u, b / u;
    if q < p {
      NextMultiple(q, u);
      TimesGrows(q + 1, p, u);
    }
  }

  /** Rounding to the same multiples keeps the order. */
  lemma RoundGrows(a: nat, b: nat, u: nat)
    requires u > 0 && a <= b
    ensures RoundTo(a, u) <= RoundTo(b, u)
  {
    QuotientGrows(a, b, u);
    if a / u < b / u {
      RoundBounds(a, u);
      RoundBounds(b, u);
      TimesGrows(a / u + 1, b / u, u);
    } else {
      RoundBounds(b, u);
    }
  }

  lemma {:induction false} UnitGrows(a: nat, b: nat)
    requires a <= b
    ensures Unit(a) == Unit(b) || (2 * Unit(a) <= Unit(b) && b >= PRECISION)
    decreases b
  {
    if a >= PRECISION { UnitGrows(a / 2, b / 2); }
  }

  /** A larger number has no smaller double. */
  lemma ToDoubleGrows(a: nat, b: nat)
    requires a <= b
    ensures ToDouble(a) <= ToDouble(b)
  {
    UnitGrows(a, b);
    if Unit(a) == Unit(b) {
      RoundGrows(a, b, Unit(a));
    } else {
      var u, v := Unit(a), Unit(b);
      var j := UnitIsPower(a);
      var k := UnitIsPower(b);
      RoundBounds(a, u);
      RoundBounds(b, v);
      TimesGrows(a / u + 1, PRECISION, u);
      TimesGrows(PRECISION / 2, b / v, v);
      HalfOfTwice(u, v);
    }
  }

  lemma HalfOfTwice(u: nat, v: nat)
    requires 2 * u <= v
    ensures PRECISION * u <= (PRECISION / 2) * v
  {
    assert (PRECISION / 2) * v >= (PRECISION / 2) * (2 * u);
  }

  /** What lies between a double and a number that reads as it reads as it too. */
  lemma BetweenReads(n: nat, x: nat, y: nat)
    requires ToDouble(n) == n && ToDouble(x) == n
    requires x <= y <= n || n <= y <= x
    ensures ToDouble(y) == n
  {
    if x <= n {
      ToDoubleGrows(x, y);
      ToDoubleGrows(y, n);
    } else {
      ToDoubleGrows(n, y);
      ToDoubleGrows(y, x);
    }
  }

  lemma Around(n: nat, u: nat)
    requires u > 0
    ensures (n / u) * u <= n < (n / u + 1) * u
  {
    NextMultiple(n / u, u);
  }

  lemma BothNeighbours(n: nat, u: nat)
    requires u > 0
    ensures (RoundTo(n, u) == (n / u) * u && Farther(n, u) == (n / u + 1) * u)
            || (RoundTo(n, u) == (n / u + 1) * u && Farther(n, u) == (n / u) * u)
  {
    NextMultiple(n / u, u);
  }

  lemma OneOfTwoReads(n: nat, below: nat, above: nat, x: nat)
    requires ToDouble(n) == n && ToDouble(x) == n && below <= n <= above && (x <= below || above <= x)
    ensures ToDouble(below) == n || ToDouble(above) == n
  {
    if x <= below { BetweenReads(n, x, below); } else { BetweenReads(n, x, above); }
  }

  /** If any multiple of u reads as n, one of the two around n does. */
  lemma NeighbourReads(n: nat, m: nat, u: nat)
    requires u > 0 && ToDouble(n) == n && ToDouble(m * u) == n
    ensures ToDouble(RoundTo(n, u)) == n || ToDouble(Farther(n, u)) == n
  {
    var q := n / u;
    Around(n, u);
    BothNeighbours(n, u);
    if m <= q { TimesGrows(m, q, u); } else { TimesGrows(q + 1, m, u); }
    OneOfTwoReads(n, q * u, (q + 1) * u, m * u);
  }

  lemma NeighboursAreMultiples(n: nat, u: nat)
    requires u > 0
    ensures RoundTo(n, u) % u == 0 && Farther(n, u) % u == 0
  {
    MultipleDivides(n / u, u);
    MultipleDivides(n / u + 1, u);
  }

  /** The decimal printed has as many trailing zeros as any that reads as n: none is shorter. */
  lemma {:induction false} ShortestIsShortest(n: nat, zeros: nat, m: nat, j: nat) returns (k: nat)
    requires ToDouble(n) == n && j <= zeros && ToDouble(m * Power10(j)) == n
    ensures j <= k <= zeros && Shortest(n, zeros) % Power10(k) == 0
    decreases zeros
  {
    var u := Power10(zeros);
    NeighboursAreMultiples(n, u);
    if zeros == 0 || ToDouble(RoundTo(n, u)) == n || ToDouble(Farther(n, u)) == n {
      k := zeros;
    } else {
      if j == zeros { NeighbourReads(n, m, u); }
      k := ShortestIsShortest(n, zeros - 1, m, j);
    }
  }

  /** A number in the safe range is printed digit by digit. */
  lemma SafeIsPrintedPlainly(n: nat)
    requires n < PRECISION
    ensures MagnitudeText(n) == Decimal(n)
  {
    var s := Shortest(n, |Decimal(n)|);
    SafeIsExact(n);
    SafeIsExact(s);
    ShortestReads(n, |Decimal(n)|);
  }

  lemma {:induction false} ZerosStripped(digits: string, zeros: string)
    requires digits != "" && AllDigits(digits) && (|digits| > 1 ==> digits[|digits| - 1] != '0')
    requires forall k :: 0 <= k < |zeros| ==> zeros[k] == '0'
    ensures AllDigits(digits + zeros) && StripZeros(digits + zeros) == digits
    decreases |zeros|
  {
    if zeros == "" {
      assert digits + zeros == digits;
    } else {
      var n := |zeros| - 1;
      assert (digits + zeros)[..|digits + zeros| - 1] == digits + zeros[..n];
      assert (digits + zeros)[|digits + zeros| - 1] == zeros[n];
      ZerosStripped(digits, zeros[..n]);
    }
  }

  /** The first digit, the others down to the last that is not zero after a point, and how many digits follow the first. */
  lemma ExponentReads(first: char, rest: string, zeros: string, plain: string)
    requires plain == [first] + rest + zeros
    requires IsDigit(first) && AllDigits(rest) && (rest != "" ==> rest[|rest| - 1] != '0')
    requires forall k :: 0 <= k < |zeros| ==> zeros[k] == '0'
    ensures AllDigits(plain)
    ensures ExponentText(plain) == [first] + (if rest == "" then "" else "." + rest) + "e+" + Decimal(|rest| + |zeros|)
  {
    var digits := [first] + rest;
    ZerosStripped(digits, zeros);
    FractionIs(first, rest);
    assert plain[0] == first && |plain| - 1 == |rest| + |zeros|;
  }

  lemma FractionIs(first: char, rest: string)
    ensures Fraction([first] + rest) == if rest == "" then "" else "." + rest
  {
    assert ([first] + rest)[1..] == rest;
  }

  lemma ExponentShows(plain: string)
    requires plain != "" && AllDigits(plain)
    ensures var t := ExponentText(plain);
            && IsDigit(t[0]) && IsDigit(t[|t| - 1])
            && exists i :: 0 < i < |t| && t[i] == 'e'
  {
    var t := ExponentText(plain);
    var head := [plain[0]] + Fraction(StripZeros(plain));
    assert t == head + ("e+" + Decimal(|plain| - 1));
    assert t[|head|] == 'e';
    var tail := Decimal(|plain| - 1);
    assert t[|t| - 1] == tail[|tail| - 1];
  }

  // ---- with a sign ----

  lemma SignedDoubleStays(n: int)
    ensures Double(Double(n)) == Double(n)
  {
    DoubleStays(Magnitude(n));
    SafeIsExact(0);
  }

  lemma PrintedMagnitudeReads(n: nat)
    requires ToDouble(n) == n && n < EXPONENT_FROM
    ensures AllDigits(MagnitudeText(n)) && MagnitudeText(n) != "" && ToDouble(Value(MagnitudeText(n))) == n
  {
    ShortestReads(n, |Decimal(n)|);
    ValueOfDecimal(Shortest(n, |Decimal(n)|));
  }
}
