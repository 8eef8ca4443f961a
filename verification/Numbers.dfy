/** Exact-real versions of the numeric built-ins the platform relies on. */
module Numbers {

  function Abs(x: real): real {
    if x < 0.0 then -x else x
  }

  function Min(x: real, y: real): real {
    if y < x then y else x
  }

  function Max(x: real, y: real): real {
    if x < y then y else x
  }

  /** Multiplication behind a name, so that proofs about long products can hide it. */
  function Times(x: real, y: real): real {
    x * y
  }

  lemma TimesCommutes(a: real, b: real)
    ensures Times(a, b) == Times(b, a)
  {
  }

  lemma TimesZero(a: real)
    ensures Times(a, 0.0) == 0.0 && Times(0.0, a) == 0.0
  {
  }

  lemma TimesAssociates(a: real, b: real, c: real)
    ensures Times(Times(a, b), c) == Times(a, Times(b, c))
  {
  }

  lemma TimesSwaps(a: real, x: real, b: real)
    ensures Times(a, Times(x, b)) == Times(x, Times(a, b))
  {
  }

  lemma TimesOne(x: real)
    ensures Times(x, 1.0) == x && Times(1.0, x) == x
  {
  }

  lemma CancelFactor(a: real, b: real, c: real)
    requires c > 0.0 && a * c == b * c
    ensures a == b
  {
  }

  lemma ScaleOrder(a: real, b: real, c: real)
    requires c > 0.0
    ensures a <= b <==> a * c <= b * c
    ensures a < b <==> a * c < b * c
  {
  }

  lemma DivideTimes(x: real, y: real)
    requires y > 0.0
    ensures x / y * y == x
  {
  }

  /** Comparing a quotient is comparing a product. */
  lemma QuotientOrder(x: real, y: real, bound: real)
    requires y > 0.0
    ensures x / y <= bound <==> x <= bound * y
    ensures x / y < bound <==> x < bound * y
  {
    DivideTimes(x, y);
    ScaleOrder(x / y, bound, y);
  }

  /** Rounds to the nearest integer, ties to the even one, as the built-in does. */
  function RoundHalfEven(x: real): (r: int)
    ensures -0.5 <= r as real - x <= 0.5
  {
    var low := x.Floor;
    var rest := x - low as real;
    if rest < 0.5 || (rest == 0.5 && low % 2 == 0) then low else low + 1
  }

  /** Rounds to four decimals: the nearest multiple of 1/10000. */
  function Round4(x: real): (r: real)
    ensures -0.00005 <= r - x <= 0.00005
  {
    RoundHalfEven(x * 10000.0) as real / 10000.0
  }

  /** Rounds to six decimals. */
  function Round6(x: real): (r: real)
    ensures -0.0000005 <= r - x <= 0.0000005
  {
    RoundHalfEven(x * 1000000.0) as real / 1000000.0
  }

  lemma RoundHalfEvenInt(n: int)
    ensures RoundHalfEven(n as real) == n
  {
  }

  lemma RoundHalfEvenMonotone(x: real, y: real)
    requires x <= y
    ensures RoundHalfEven(x) <= RoundHalfEven(y)
  {
    if x.Floor == y.Floor {
    } else {
      assert x.Floor + 1 <= y.Floor;
    }
  }

  /** Of two equally near integers the even one is taken. */
  lemma RoundsTiesToEven(x: real)
    ensures Abs(RoundHalfEven(x) as real - x) == 0.5 ==> RoundHalfEven(x) % 2 == 0
  {
  }

  /** Rounding stays at or below a whole even number exactly up to half above it. */
  lemma RoundHalfEvenAtMost(x: real, n: int)
    requires n % 2 == 0
    ensures RoundHalfEven(x) <= n <==> x <= n as real + 0.5
  {
    if x <= n as real + 0.5 {
      assert x.Floor <= n;
    }
  }

  /** The nearest value with four decimals. */
  ghost predicate RoundedTo4(r: real, x: real) {
    FourDecimals(r) && Abs(r - x) <= 0.00005
  }

  lemma Round4Rounds(x: real)
    ensures RoundedTo4(Round4(x), x)
  {
    Round4IsFourDecimals(x);
  }

  /** A value with at most four decimals. */
  predicate FourDecimals(x: real) {
    (x * 10000.0).Floor as real == x * 10000.0
  }

  lemma Round4IsFourDecimals(x: real)
    ensures FourDecimals(Round4(x))
  {
    var n := RoundHalfEven(x * 10000.0);
    var y := n as real / 10000.0;
    assert y * 10000.0 == n as real;
    FourDecimalsOf(y, n);
  }

  lemma FourDecimalsOf(y: real, n: int)
    requires y * 10000.0 == n as real
    ensures FourDecimals(y)
  {
    assert (n as real).Floor == n;
  }

  lemma FourDecimalsAdd(x: real, y: real)
    requires FourDecimals(x) && FourDecimals(y)
    ensures FourDecimals(x + y)
  {
    var m, n := (x * 10000.0).Floor, (y * 10000.0).Floor;
    assert (x + y) * 10000.0 == (m + n) as real;
  }

  /** Rounding cannot carry a value past a bound that itself has four decimals. */
  lemma Round4Below(x: real, bound: real)
    requires x <= bound && FourDecimals(bound)
    ensures Round4(x) <= bound
  {
    var n := (bound * 10000.0).Floor;
    RoundHalfEvenInt(n);
    RoundHalfEvenMonotone(x * 10000.0, bound * 10000.0);
  }

  /** A value with at most six decimals. */
  predicate SixDecimals(x: real) {
    (x * 1000000.0).Floor as real == x * 1000000.0
  }

  lemma Round6IsSixDecimals(x: real)
    ensures SixDecimals(Round6(x))
  {
    var n := RoundHalfEven(x * 1000000.0);
    assert Round6(x) * 1000000.0 == n as real;
    assert (n as real).Floor == n;
  }
}
