/** Exact real-number stand-ins for the rounding primitives of Python and JavaScript. */
module Numbers {

  function Pow10(n: nat): (r: nat)
    ensures r >= 1
  {
    if n == 0 then 1 else 10 * Pow10(n - 1)
  }

  /** `x` is a multiple of 10^-places. */
  predicate HasPlaces(x: real, places: nat) {
    (x * Pow10(places) as real).Floor as real == x * Pow10(places) as real
  }

  /** The nearest integer to `y`, a tie going to the even neighbour (Python's rule). */
  function NearestEven(y: real): (n: int)
    ensures -0.5 <= n as real - y <= 0.5
    ensures (n as real - y == 0.5 || y - n as real == 0.5) ==> n % 2 == 0
  {
    var f := y.Floor;
    var frac := y - f as real;
    if frac < 0.5 then f
    else if frac > 0.5 then f + 1
    else if f % 2 == 0 then f else f + 1
  }

  /** `x` scaled up by 10^places. */
  function Scaled(x: real, places: nat): real {
    x * Pow10(places) as real
  }

  /** Python's `round(x, places)` on an exact real: the nearest multiple of 10^-places, ties to even. */
  function Round(x: real, places: nat): (r: real)
    ensures HasPlaces(r, places)
    ensures -1.0 / (2 * Pow10(places)) as real <= r - x <= 1.0 / (2 * Pow10(places)) as real
    ensures (r - x == 1.0 / (2 * Pow10(places)) as real || x - r == 1.0 / (2 * Pow10(places)) as real) ==>
      (r * Pow10(places) as real).Floor % 2 == 0
  {
    var n := NearestEven(Scaled(x, places));
    ScaledBack(n, places, x);
    var rounded := n as real / Pow10(places) as real;
    TieStaysEven(n, places, x, rounded);
    assert (rounded * Pow10(places) as real).Floor == n;
    rounded
  }

  /** A tie at the scaled level is a tie after dividing back, so the even choice carries over. */
  lemma TieStaysEven(n: int, places: nat, x: real, r: real)
    requires -0.5 <= n as real - Scaled(x, places) <= 0.5
    requires (n as real - Scaled(x, places) == 0.5 || Scaled(x, places) - n as real == 0.5) ==> n % 2 == 0
    requires r == n as real / Pow10(places) as real
    ensures (r - x == 1.0 / (2 * Pow10(places)) as real || x - r == 1.0 / (2 * Pow10(places)) as real) ==>
      (r * Pow10(places) as real).Floor % 2 == 0
  {
    ScaledBack(n, places, x);
    assert (r * Pow10(places) as real).Floor == n;
  }

  /** Dividing the rounded scaled value back keeps the error within half a unit of the last place. */
  lemma ScaledBack(n: int, places: nat, x: real)
    requires -0.5 <= n as real - Scaled(x, places) <= 0.5
    ensures HasPlaces(n as real / Pow10(places) as real, places)
    ensures -1.0 / (2 * Pow10(places)) as real <= n as real / Pow10(places) as real - x
            <= 1.0 / (2 * Pow10(places)) as real
    ensures (n as real / Pow10(places) as real * Pow10(places) as real).Floor == n
    ensures n as real / Pow10(places) as real - x == 1.0 / (2 * Pow10(places)) as real ==>
      n as real - Scaled(x, places) == 0.5
    ensures x - n as real / Pow10(places) as real == 1.0 / (2 * Pow10(places)) as real ==>
      Scaled(x, places) - n as real == 0.5
  {
    var p := Pow10(places) as real;
    var r := n as real / p;
    assert r * p == n as real;
    assert (n as real).Floor == n;
    var e := n as real - x * p;
    assert r - x == e / p;
    DivideBounds(e, -0.5, 0.5, p);
    assert 0.5 / p == 1.0 / (2 * Pow10(places)) as real;
    if r - x == 0.5 / p {
      assert e == (r - x) * p;
    }
    if x - r == 0.5 / p {
      assert -e == (x - r) * p;
    }
  }

  /** Dividing by a positive number keeps the order of bounds. */
  lemma DivideBounds(e: real, lo: real, hi: real, p: real)
    requires p > 0.0 && lo <= e <= hi
    ensures lo / p <= e / p <= hi / p
  {
    assert (e - lo) / p >= 0.0;
    assert (hi - e) / p >= 0.0;
  }

  /** Rounding the scaled value stays between the scaled integer bounds. */
  lemma NearestEvenWithin(y: real, a: int, b: int)
    requires a as real <= y <= b as real
    ensures a <= NearestEven(y) <= b
  {
  }

  /** Rounding to any number of places keeps a value inside whole-number bounds. */
  lemma RoundWithin(x: real, lo: int, hi: int, places: nat)
    requires lo as real <= x <= hi as real
    ensures lo as real <= Round(x, places) <= hi as real
  {
    var p := Pow10(places);
    var y := Scaled(x, places);
    RoundUnfold(x, places);
    ScaledBounds(x, lo, hi, places);
    ScaledWithin(y, lo, hi, p, NearestEven(y));
  }

  lemma RoundUnfold(x: real, places: nat)
    ensures Round(x, places) == NearestEven(Scaled(x, places)) as real / Pow10(places) as real
  {
  }

  lemma ScaledBounds(x: real, lo: int, hi: int, places: nat)
    requires lo as real <= x <= hi as real
    ensures (lo * Pow10(places)) as real <= Scaled(x, places) <= (hi * Pow10(places)) as real
  {
    MultiplyBounds(x, lo, hi, Pow10(places));
  }

  lemma ScaledWithin(y: real, lo: int, hi: int, p: nat, n: int)
    requires p >= 1 && (lo * p) as real <= y <= (hi * p) as real
    requires n == NearestEven(y)
    ensures lo as real <= n as real / p as real <= hi as real
  {
    NearestEvenWithin(y, lo * p, hi * p);
    DivideBounds(n as real, (lo * p) as real, (hi * p) as real, p as real);
    CancelFactor(lo, p);
    CancelFactor(hi, p);
  }

  lemma CancelFactor(k: int, p: nat)
    requires p >= 1
    ensures (k * p) as real / p as real == k as real
  {
    assert (k * p) as real == k as real * p as real;
  }

  /** Multiplying by a positive whole number keeps the order of bounds. */
  lemma MultiplyBounds(x: real, lo: int, hi: int, p: nat)
    requires p >= 1 && lo as real <= x <= hi as real
    ensures (lo * p) as real <= x * p as real <= (hi * p) as real
  {
    assert (lo * p) as real == lo as real * p as real;
    assert (hi * p) as real == hi as real * p as real;
    assert (x - lo as real) * p as real >= 0.0;
    assert (hi as real - x) * p as real >= 0.0;
  }

  /** A whole number is left unchanged by rounding. */
  lemma RoundInteger(k: int, places: nat)
    ensures Round(k as real, places) == k as real
  {
    var n := NearestEven(Scaled(k as real, places));
    assert Round(k as real, places) == n as real / Pow10(places) as real;
    assert Scaled(k as real, places) == (k * Pow10(places)) as real;
    assert n == k * Pow10(places);
    CancelFactor(k, Pow10(places));
  }

  /** JavaScript `Math.ceil`. */
  function Ceil(x: real): (n: int)
    ensures x <= n as real < x + 1.0
  {
    -((-x).Floor)
  }

  /** JavaScript `Math.round`: the nearest integer, a tie going up. */
  function MathRound(x: real): (n: int)
    ensures -0.5 < n as real - x <= 0.5
  {
    (x + 0.5).Floor
  }
}
