/**
 Go's float64 on non-negative values: 53 significant bits, round to nearest, ties to even.  Exponents
 are unbounded; no product or quotient of two 64-bit integers reaches the limits of the format.
 */
module Binary64 {

  const TWO_51: int := 0x8_0000_0000_0000
  const TWO_52: int := 0x10_0000_0000_0000
  const TWO_53: int := 0x20_0000_0000_0000

  function RoundHalfEven(x: real): (m: int)
    requires x >= 0.0
    ensures m as real - 0.5 <= x <= m as real + 0.5
    ensures x == x.Floor as real ==> m == x.Floor
    ensures x == x.Floor as real + 0.5 ==> m % 2 == 0
  {
    var m, rest := x.Floor, x - x.Floor as real;
    if rest < 0.5 || (rest == 0.5 && m % 2 == 0) then m else m + 1
  }

  /** Doublings or halvings until x has its 53 bits in front of the point. */
  function Distance(x: real): nat
    requires x >= 0.0
  {
    if x >= TWO_53 as real then x.Floor
    else if 0.0 < x < TWO_52 as real then (TWO_52 as real / x).Floor
    else 0
  }

  lemma Nearer(x: real)
    requires x > 0.0
    ensures x >= TWO_53 as real ==> Distance(x / 2.0) < Distance(x)
    ensures x < TWO_52 as real ==> Distance(2.0 * x) < Distance(x)
  {
    if x < TWO_52 as real {
      var v := TWO_52 as real / x;
      assert v > 1.0 && TWO_52 as real / (2.0 * x) == v / 2.0;
    }
  }

  /** Half a unit in the last place of x, at most. */
  function Slack(x: real): real { x / 9007199254740992.0 }

  /** The float64 nearest to x, with 53 significant bits. */
  function Rounded(x: real): (r: real)
    requires x >= 0.0
    ensures x - Slack(x) <= r <= x + Slack(x)
    ensures r >= 0.0 && (x > 0.0 ==> r > 0.0)
    decreases Distance(x)
  {
    if x == 0.0 then 0.0
    else if x >= TWO_53 as real then Nearer(x); 2.0 * Rounded(x / 2.0)
    else if x < TWO_52 as real then Nearer(x); Rounded(2.0 * x) / 2.0
    else RoundHalfEven(x) as real
  }

  /** Scaling by two commutes with rounding. */
  lemma RoundedDouble(x: real)
    requires x >= 0.0
    ensures Rounded(2.0 * x) == 2.0 * Rounded(x)
  {
    assert x >= TWO_52 as real ==> 2.0 * x / 2.0 == x;
  }

  lemma {:induction false} RoundedWhole(n: nat)
    requires n <= TWO_53
    ensures Rounded(n as real) == n as real
    decreases TWO_53 - n
  {
    if n == TWO_53 {
      RoundedDouble(TWO_52 as real);
    } else if 0 < n < TWO_52 {
      RoundedWhole(2 * n);
      RoundedDouble(n as real);
    }
  }

  lemma {:induction false} RoundedTwice(x: real)
    requires x >= 0.0
    ensures Rounded(Rounded(x)) == Rounded(x)
    decreases Distance(x)
  {
    if x >= TWO_53 as real {
      Nearer(x);
      RoundedTwice(x / 2.0);
      RoundedDouble(Rounded(x / 2.0));
    } else if 0.0 < x < TWO_52 as real {
      Nearer(x);
      RoundedTwice(2.0 * x);
      RoundedDouble(x);
      RoundedDouble(Rounded(x));
      hide Rounded;
    } else if x > 0.0 {
      RoundedWhole(RoundHalfEven(x));
    }
  }

  lemma {:induction false} LargeIsWhole(x: real) returns (m: int)
    requires x >= TWO_52 as real
    ensures Rounded(x) == m as real
    decreases Distance(x)
  {
    if x >= TWO_53 as real {
      Nearer(x);
      var half := LargeIsWhole(x / 2.0);
      m := 2 * half;
    } else {
      m := RoundHalfEven(x);
    }
  }

  predicate IsFloat(q: real) {
    q >= 0.0 && Rounded(q) == q
  }

  /** The floor of a float64 is a float64. */
  lemma FloorIsFloat(q: real)
    requires IsFloat(q)
    ensures q.Floor >= 0 && IsFloat(q.Floor as real)
  {
    if q >= TWO_52 as real {
      var m := LargeIsWhole(q);
    } else {
      RoundedWhole(q.Floor);
    }
  }

  // ----- Arithmetic -----

  function Times(x: real, y: real): (r: real)
    requires x >= 0.0 && y >= 0.0
    ensures r >= 0.0
  {
    NonNegativeProduct(x, y);
    Rounded(x * y)
  }

  function Over(x: real, y: real): (r: real)
    requires x >= 0.0 && y > 0.0
    ensures IsFloat(r)
  {
    NonNegativeQuotient(x, y);
    RoundedTwice(x / y);
    Rounded(x / y)
  }

  lemma NonNegativeProduct(x: real, y: real)
    requires x >= 0.0 && y >= 0.0
    ensures x * y >= 0.0
  {
  }

  lemma NonNegativeQuotient(x: real, y: real)
    requires x >= 0.0 && y > 0.0
    ensures x / y >= 0.0 && y * (x / y) == x
  {
  }

  /** A quotient is the rounding of the number that times y is x. */
  lemma OverRounds(x: real, y: real) returns (q: real)
    requires x >= 0.0 && y > 0.0
    ensures q >= 0.0 && y * q == x && Over(x, y) == Rounded(q)
  {
    NonNegativeQuotient(x, y);
    q := x / y;
  }

  /** math.Round: the nearest integer, halves away from zero. */
  function RoundHalfAway(x: real): (n: nat)
    requires x >= 0.0
    ensures n as real - 0.5 <= x < n as real + 0.5
  {
    (x + 0.5).Floor
  }

  lemma RoundedHalf(n: nat)
    requires n <= TWO_53
    ensures Rounded(n as real / 2.0) == n as real / 2.0
  {
    RoundedWhole(n);
    RoundedDouble(n as real / 2.0);
  }
}
