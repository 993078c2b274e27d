/** Dollar amounts are reals; rounding to a cent is explicit. */
module Money {

  /** Shares controlled by one option contract. */
  const MULTIPLIER := 100.0

  /** Decimal.quantize(0.01, ROUND_HALF_UP): nearest cent, ties away from zero. */
  function RoundCent(x: real): real {
    if x >= 0.0 then (x * 100.0 + 0.5).Floor as real / 100.0
    else -((-x * 100.0 + 0.5).Floor as real / 100.0)
  }

  /** Decimal.quantize(0.01) in its default mode: nearest cent, ties to the even one. */
  function RoundCentEven(x: real): real {
    var cents := (x * 100.0).Floor;
    var rest := x * 100.0 - cents as real;
    (if rest < 0.5 || (rest == 0.5 && cents % 2 == 0) then cents else cents + 1) as real / 100.0
  }

  predicate WholeCents(x: real) {
    (x * 100.0).Floor as real == x * 100.0
  }

  lemma RoundUpIsNearest(x: real)
    requires x >= 0.0
    ensures x - 0.005 <= RoundCent(x) <= x + 0.005
    ensures RoundCent(x) * 100.0 == (x * 100.0 + 0.5).Floor as real
  {
  }

  lemma RoundCentIsNearest(x: real)
    ensures x - 0.005 <= RoundCent(x) <= x + 0.005
    ensures WholeCents(RoundCent(x))
  {
    if x >= 0.0 {
      RoundUpIsNearest(x);
      CentsOf(RoundCent(x), (x * 100.0 + 0.5).Floor);
    } else {
      RoundUpIsNearest(-x);
      assert RoundCent(x) == -RoundCent(-x);
      CentsOf(RoundCent(x), -(-x * 100.0 + 0.5).Floor);
    }
  }

  lemma RoundCentMonotone(x: real, y: real)
    requires x <= y
    ensures RoundCent(x) <= RoundCent(y)
  {
    if x >= 0.0 {
      FloorMonotone(x * 100.0 + 0.5, y * 100.0 + 0.5);
    } else if y < 0.0 {
      FloorMonotone(-y * 100.0 + 0.5, -x * 100.0 + 0.5);
    } else {
      FloorMonotone(0.0, -x * 100.0 + 0.5);
      FloorMonotone(0.0, y * 100.0 + 0.5);
    }
  }

  lemma FloorMonotone(x: real, y: real)
    requires x <= y
    ensures x.Floor <= y.Floor
  {
  }

  lemma RoundCentKeepsWholeCents(x: real)
    requires WholeCents(x)
    ensures RoundCent(x) == x
  {
    var n := (x * 100.0).Floor;
    if x < 0.0 {
      assert -x * 100.0 == (-n) as real;
      assert ((-n) as real + 0.5).Floor == -n;
    } else {
      assert (n as real + 0.5).Floor == n;
    }
  }

  lemma CentsOf(x: real, n: int)
    requires x * 100.0 == n as real
    ensures WholeCents(x)
  {
  }

  /** Whole cents are closed under addition, subtraction and the contract multiplier. */
  lemma WholeCentsClosed(x: real, y: real)
    requires WholeCents(x) && WholeCents(y)
    ensures WholeCents(x + y) && WholeCents(x - y) && WholeCents(x * MULTIPLIER)
  {
    var m, n := (x * 100.0).Floor, (y * 100.0).Floor;
    CentsOf(x + y, m + n);
    CentsOf(x - y, m - n);
    CentsOf(x * MULTIPLIER, 100 * m);
  }
}
