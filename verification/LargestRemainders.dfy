/**
 The operator's largestRemainder as it computes: quotients, floors and remainders in float64.  The
 result is specified in the same arithmetic for all totals and weights; while the total times the sum
 of the weights stays below 2^51 it is Hamilton's apportionment.
 */
module LargestRemainders {
  import opened Sequences
  import opened Apportionment
  import opened Binary64

  datatype Remainder = Remainder(idx: nat, frac: real)

  /** float64(total) * float64(weight) / float64(sum). */
  function Quotient(total: nat, weight: nat, sum: nat): (q: real)
    requires sum > 0
    ensures IsFloat(q)
  {
    Over(Times(Rounded(total as real), Rounded(weight as real)), Rounded(sum as real))
  }

  function QuotientFloor(total: nat, weight: nat, sum: nat): nat
    requires sum > 0
  {
    Quotient(total, weight, sum).Floor
  }

  /** What the quotient exceeds its floor by. */
  function Rest(total: nat, weight: nat, sum: nat): real
    requires sum > 0
  {
    var q, fl := Quotient(total, weight, sum), QuotientFloor(total, weight, sum) as real;
    FloorIsFloat(q);
    Rounded(q - Rounded(fl))
  }

  function Floors(total: int, weights: seq<nat>): (floors: seq<int>)
    requires Proper(total, weights)
    ensures |floors| == |weights|
  {
    seq(|weights|, i requires 0 <= i < |weights| => QuotientFloor(total, weights[i], Sum(weights)))
  }

  function Rests(total: int, weights: seq<nat>): (rests: seq<real>)
    requires Proper(total, weights)
    ensures |rests| == |weights|
  {
    seq(|weights|, i requires 0 <= i < |weights| => Rest(total, weights[i], Sum(weights)))
  }

  /** The units left after the floors: negative when rounding has handed out too much already. */
  function Left(total: int, weights: seq<nat>): int
    requires Proper(total, weights)
  {
    total - Sum(Floors(total, weights))
  }

  predicate ServedBefore(rests: seq<real>, i: nat, j: nat)
    requires i < |rests| && j < |rests|
  {
    rests[i] > rests[j] || (rests[i] == rests[j] && i < j)
  }

  /** Largest rests first, ties by position, one unit each, as long as there are units and indices. */
  ghost predicate HandsOut(floors: seq<int>, rests: seq<real>, left: int, out: seq<int>)
    requires |floors| == |rests|
  {
    && |out| == |floors|
    && (forall i :: 0 <= i < |out| ==> floors[i] <= out[i] <= floors[i] + 1)
    && Sum(out) == Sum(floors) + (if left < 0 then 0 else if left > |floors| then |floors| else left)
    && (forall i, j :: 0 <= i < |out| && 0 <= j < |out| && out[i] > floors[i] && out[j] == floors[j] ==>
          ServedBefore(rests, i, j))
  }

  ghost predicate IsApportionment(total: int, weights: seq<nat>, out: seq<int>) {
    if Proper(total, weights) then
      HandsOut(Floors(total, weights), Rests(total, weights), Left(total, weights), out)
    else
      |out| == |weights| && forall i :: 0 <= i < |out| ==> out[i] == 0
  }

  // ----- The computation -----

  predicate RemainderLe(a: Remainder, b: Remainder) {
    a.frac > b.frac || (a.frac == b.frac && a.idx <= b.idx)
  }

  method Quotients(total: nat, weights: seq<nat>, sum: nat)
    returns (out: seq<int>, handedOut: int, rems: seq<Remainder>)
    requires Proper(total, weights) && sum == Sum(weights)
    ensures out == Floors(total, weights) && handedOut == Sum(out)
    ensures |rems| == |weights|
    ensures forall j :: 0 <= j < |rems| ==> rems[j] == Remainder(j, Rests(total, weights)[j])
  {
    hide Quotient, QuotientFloor, Rest, IsFloat, Rounded;
    out, handedOut, rems := [], 0, [];
    for i := 0 to |weights|
      invariant |out| == |rems| == i
      invariant forall j :: 0 <= j < i ==> out[j] == QuotientFloor(total, weights[j], sum)
      invariant forall j :: 0 <= j < i ==> rems[j] == Remainder(j, Rest(total, weights[j], sum))
      invariant handedOut == Sum(out)
    {
      var fl := QuotientFloor(total, weights[i], sum);
      SumPush(out, fl);
      out := out + [fl];
      handedOut := handedOut + fl;
      rems := rems + [Remainder(i, Rest(total, weights[i], sum))];
    }
  }

  method LargestRemainder(total: int, weights: seq<nat>) returns (out: seq<int>)
    ensures IsApportionment(total, weights, out)
  {
    out := seq(|weights|, _ => 0);
    var sum := 0;
    for i := 0 to |weights|
      invariant sum == Sum(weights[..i])
    {
      SumTake(weights, i);
      sum := sum + weights[i];
    }
    assert weights[..|weights|] == weights;
    SumNonNegative(weights);
    if sum == 0 || total <= 0 {
      return;
    }
    var handedOut, rems;
    out, handedOut, rems := Quotients(total, weights, sum);
    ghost var rests := Rests(total, weights);
    ghost var unsorted := rems;
    // The stable sort by descending fraction of a list in index order.
    rems := InsertionSort(rems, RemainderLe);
    SortedRemainders(rests, unsorted, rems);
    out := ServeInOrder(out, rems, rests, total - handedOut);
  }

  /** One unit to each index in the order of rems while units are left. */
  method ServeInOrder(floors: seq<int>, rems: seq<Remainder>, ghost rests: seq<real>, left: int)
    returns (out: seq<int>)
    requires |floors| == |rests| && InServingOrder(rests, rems)
    ensures HandsOut(floors, rests, left, out)
  {
    out := floors;
    var k := 0;
    while k < left && k < |rems|
      invariant 0 <= k <= |rems| && (k == 0 || k <= left)
      invariant |out| == |floors|
      invariant Sum(out) == Sum(floors) + k
      invariant forall m :: 0 <= m < |rems| ==> out[rems[m].idx] == floors[rems[m].idx] + if m < k then 1 else 0
    {
      SumUpdate(out, rems[k].idx, out[rems[k].idx] + 1);
      out := out[rems[k].idx := out[rems[k].idx] + 1];
      k := k + 1;
    }
    forall j | 0 <= j < |out| ensures floors[j] <= out[j] <= floors[j] + 1 {
      assert Listed(rems, j);
    }
    forall i, j | 0 <= i < |out| && 0 <= j < |out| && out[i] > floors[i] && out[j] == floors[j]
      ensures ServedBefore(rests, i, j)
    {
      assert Listed(rems, i) && Listed(rems, j);
    }
  }

  ghost predicate Listed(rems: seq<Remainder>, j: nat) {
    exists m :: 0 <= m < |rems| && rems[m].idx == j
  }

  /** Every index is listed once, each before the ones it precedes. */
  ghost predicate InServingOrder(rests: seq<real>, rems: seq<Remainder>) {
    && |rems| == |rests|
    && (forall m :: 0 <= m < |rems| ==> rems[m].idx < |rests|)
    && (forall m, n :: 0 <= m < n < |rems| ==> ServedBefore(rests, rems[m].idx, rems[n].idx))
    && (forall j :: 0 <= j < |rests| ==> Listed(rems, j))
  }

  lemma SortedRemainders(rests: seq<real>, unsorted: seq<Remainder>, rems: seq<Remainder>)
    requires |unsorted| == |rests| && forall j :: 0 <= j < |rests| ==> unsorted[j] == Remainder(j, rests[j])
    requires multiset(rems) == multiset(unsorted) && SortedBy(RemainderLe, rems)
    ensures InServingOrder(rests, rems)
  {
    SameElements(rems, unsorted);
    forall m | 0 <= m < |rems| ensures rems[m].idx < |rests| && rems[m].frac == rests[rems[m].idx] {
      assert rems[m] in unsorted;
    }
    forall j | 0 <= j < |rests| ensures Listed(rems, j) {
      assert unsorted[j] in rems;
    }
    forall m, n | 0 <= m < n < |rems| ensures rems[m].idx != rems[n].idx {
      if rems[m].idx == rems[n].idx {
        assert unsorted[rems[m].idx] == rems[m] == rems[n];
        OnceInMultiset(unsorted, rems[m].idx);
        TwiceInMultiset(rems, m, n);
      }
    }
  }

  // ----- What the result is -----

  /** The result is determined by the total and the weights. */
  lemma ApportionmentUnique(total: int, weights: seq<nat>, a: seq<int>, b: seq<int>)
    requires IsApportionment(total, weights, a) && IsApportionment(total, weights, b)
    ensures a == b
  {
    if Proper(total, weights) {
      hide Floors, Rests;
      var floors, rests := Floors(total, weights), Rests(total, weights);
      if exists i :: 0 <= i < |a| && a[i] > b[i] {
        var i :| 0 <= i < |a| && a[i] > b[i];
        forall j | 0 <= j < |a| ensures b[j] <= a[j] {
          assert b[j] > a[j] ==> ServedBefore(rests, i, j) && ServedBefore(rests, j, i);
        }
        SumMonotone(b, a);
      } else {
        SumMonotone(a, b);
      }
    }
  }

  /** The loop can hand out exactly what the floors leave over. */
  predicate Conserves(total: int, weights: seq<nat>) {
    Proper(total, weights) ==> 0 <= Left(total, weights) <= |weights|
  }

  /** The shares add up to the total iff the units left over are no fewer than none and no more than the indices. */
  lemma SumsToTotalIff(total: nat, weights: seq<nat>, out: seq<int>)
    requires IsApportionment(total, weights, out) && Sum(weights) > 0
    ensures Sum(out) == total <==> Conserves(total, weights)
  {
    if total == 0 {
      SumBetween(out, 0);
    }
  }

  // ----- While the products stay small, the result is Hamilton's -----

  /** A bound that callers can check: two pebibytes for one GPU, 32 tebibytes for 64. */
  predicate Precise(total: int, weights: seq<nat>) {
    total * Sum(weights) < TWO_51
  }

  lemma RealProduct(x: nat, y: nat)
    ensures x as real * y as real == (x * y) as real
  {
    if y > 0 {
      RealProduct(x, y - 1);
      assert x * y == x * (y - 1) + x;
      assert x as real * y as real == x as real * (y - 1) as real + x as real;
    }
  }

  /** Small integers and their products are exact, so only the division rounds. */
  lemma {:induction false} QuotientRoundsOnce(total: nat, weight: nat, sum: nat)
    requires sum > 0 && total <= TWO_53 && weight <= TWO_53 && sum <= TWO_53 && total * weight <= TWO_53
    ensures Quotient(total, weight, sum) == Over((total * weight) as real, sum as real)
  {
    RoundedWhole(total);
    RoundedWhole(weight);
    RoundedWhole(sum);
    RealProduct(total, weight);
    RoundedWhole(total * weight);
  }

  lemma ScaledBounds(s: real, x: real, u: real, r: real)
    requires s > 0.0 && x - u <= r <= x + u
    ensures s * x - s * u <= s * r <= s * x + s * u
  {
    NonNegativeProduct(s, x + u - r);
    NonNegativeProduct(s, r + u - x);
    Distributes(s, x, u, r);
    Distributes(s, r, u, x);
  }

  /** Rounding x moves s * x by at most its own slack. */
  lemma ScaledRounding(s: real, x: real)
    requires s > 0.0 && x >= 0.0
    ensures s * x - Slack(s * x) <= s * Rounded(x) <= s * x + Slack(s * x)
  {
    hide Rounded;
    SlackScales(s, x);
    hide Slack;
    ScaledBounds(s, x, Slack(x), Rounded(x));
  }

  lemma SlackScales(s: real, x: real)
    ensures s * Slack(x) == Slack(s * x)
  {
  }

  lemma Distributes(s: real, a: real, b: real, c: real)
    ensures s * (a + b - c) == s * a + s * b - s * c
  {
  }

  /** sum times a rounded quotient of p by sum. */
  lemma ScaledQuotient(p: nat, s: nat)
    requires s > 0
    ensures p as real - Slack(p as real) <= s as real * Over(p as real, s as real) <= p as real + Slack(p as real)
  {
    hide Over, Rounded;
    var x := OverRounds(p as real, s as real);
    ScaledRounding(s as real, x);
  }

  lemma SmallFactors(total: nat, weights: seq<nat>, i: nat)
    requires Proper(total, weights) && Precise(total, weights) && i < |weights|
    ensures weights[i] <= Sum(weights) && total * weights[i] <= total * Sum(weights) < TWO_51
    ensures total < TWO_51 && Sum(weights) < TWO_51
  {
    var s, zeros := Sum(weights), seq(|weights|, _ => 0);
    SumBetween(zeros, 0);
    SumUpdate(zeros, i, weights[i]);
    SumMonotone(zeros[i := weights[i]], weights);
    MulLt(total, s, weights[i]);
    MulLt(total, 1, s);
    MulLt(s, 1, total);
  }

  /** A number this close to r/s, and zero when r is, lies between 0 and 1. */
  lemma BelowOneWhenClose(s: real, r: nat, d: real)
    requires 0.0 < s && r as real <= s - 1.0 && -0.25 < s * d - r as real < 0.25
    requires r == 0 ==> d == 0.0
    ensures 0.0 <= d < 1.0
  {
    if r > 0 {
      SameSign(s, d);
      SameSign(s, 1.0 - d);
      Distributes(s, 1.0, 0.0, d);
    }
  }

  lemma SameSign(s: real, x: real)
    requires s > 0.0
    ensures x > 0.0 <==> s * x > 0.0
    ensures x == 0.0 <==> s * x == 0.0
  {
  }

  lemma {:induction false} Off(s: nat, f: nat, r: nat, p: nat, q: real)
    requires p == s * f + r && p < TWO_51
    requires p as real - Slack(p as real) <= s as real * q <= p as real + Slack(p as real)
    ensures -0.25 < s as real * (q - f as real) - r as real < 0.25
  {
    RealProduct(s, f);
    Distributes(s as real, q, 0.0, f as real);
  }

  lemma {:induction false} WholeQuotient(s: nat, f: nat)
    requires 0 < s && f <= TWO_53
    ensures Over((s * f) as real, s as real) == f as real
  {
    hide Rounded, Over;
    var q := OverRounds((s * f) as real, s as real);
    RealProduct(s, f);
    RoundedWhole(f);
    SameSign(s as real, q - f as real);
    Distributes(s as real, q, 0.0, f as real);
  }

  /** s * d is r up to a quarter, and d is zero when r is. */
  predicate Near(s: nat, r: nat, d: real) {
    && 0 < s < TWO_51 && r < s
    && -0.25 < s as real * d - r as real < 0.25
    && (r == 0 ==> d == 0.0)
  }

  /** x is r/s up to half a unit of s. */
  predicate Within(s: nat, r: nat, x: real) {
    -0.5 < s as real * x - r as real < 0.5
  }

  /** The float64 quotient of total * w = s * f + r by s, times s. */
  lemma {:induction false} QuotientClose(total: nat, w: nat, s: nat, f: nat, r: nat)
    requires 0 < s < TWO_51 && total < TWO_51 && w < TWO_51 && total * w < TWO_51
    requires total * w == s * f + r && r < s && f < TWO_51
    ensures Near(s, r, Quotient(total, w, s) - f as real)
  {
    hide Rounded, Over, Quotient, IsFloat;
    QuotientRoundsOnce(total, w, s);
    ScaledQuotient(total * w, s);
    Off(s, f, r, total * w, Over((total * w) as real, s as real));
    if r == 0 {
      WholeQuotient(s, f);
    }
  }

  /** Rounding a number below one moves it by less than a quarter of a sum-th. */
  lemma RestWhenClose(s: nat, r: nat, d: real)
    requires Near(s, r, d) && 0.0 <= d < 1.0
    ensures Within(s, r, Rounded(d))
  {
    hide Rounded;
    ScaledRounding(s as real, d);
    SameSign(s as real, 1.0 - d);
    Distributes(s as real, 1.0, 0.0, d);
  }

  lemma RestIs(total: nat, w: nat, s: nat)
    requires s > 0 && QuotientFloor(total, w, s) <= TWO_53
    ensures Rest(total, w, s) == Rounded(Quotient(total, w, s) - QuotientFloor(total, w, s) as real)
  {
    hide Quotient, Rounded, IsFloat;
    RoundedWhole(QuotientFloor(total, w, s));
  }

  lemma FloorNear(total: nat, w: nat, s: nat, f: nat, r: nat, d: real)
    requires Near(s, r, d) && d == Quotient(total, w, s) - f as real
    ensures QuotientFloor(total, w, s) == f && 0.0 <= d < 1.0
  {
    hide Quotient, Rounded, IsFloat;
    BelowOneWhenClose(s as real, r, d);
  }

  lemma RestNear(total: nat, w: nat, s: nat, f: nat, r: nat, d: real)
    requires Near(s, r, d) && d == Quotient(total, w, s) - f as real && f < TWO_51
    ensures Within(s, r, Rest(total, w, s))
  {
    FloorNear(total, w, s, f, r, d);
    RestIs(total, w, s);
    hide *;
    RestWhenClose(s, r, d);
  }

  lemma FloorBelow(s: nat, f: nat, bound: nat)
    requires s > 0 && s * f < bound
    ensures f < bound
  {
    MulLt(f + 1, 1, s);
  }

  /** The float64 quotient has the exact floor, and its rest the exact fraction within half a sum-th. */
  lemma QuotientAgrees(total: nat, weights: seq<nat>, i: nat)
    requires Proper(total, weights) && Precise(total, weights) && i < |weights|
    ensures QuotientFloor(total, weights[i], Sum(weights)) == Floor(total, weights, i)
    ensures 0 <= Frac(total, weights, i) < Sum(weights)
    ensures Within(Sum(weights), Frac(total, weights, i), Rest(total, weights[i], Sum(weights)))
  {
    var s, f, r := Sum(weights), Floor(total, weights, i), Frac(total, weights, i);
    SmallFactors(total, weights, i);
    Division(total, weights, i);
    FloorBelow(s, f, TWO_51);
    hide Floor, Frac, Quotient, QuotientFloor, Rest, Near, Within;
    QuotientClose(total, weights[i], s, f, r);
    var d := Quotient(total, weights[i], s) - f as real;
    FloorNear(total, weights[i], s, f, r, d);
    RestNear(total, weights[i], s, f, r, d);
  }

  lemma WithinOrders(s: nat, r: nat, x: real, r': nat, x': real)
    requires s > 0 && Within(s, r, x) && Within(s, r', x') && x >= x'
    ensures r >= r'
  {
    NonNegativeProduct(s as real, x - x');
    Distributes(s as real, x, 0.0, x');
  }

  /** The order of service by float64 rests is an order of service by exact fractions. */
  lemma BeforePrecedes(total: nat, weights: seq<nat>, i: nat, j: nat)
    requires Proper(total, weights) && Precise(total, weights) && i < |weights| && j < |weights|
    requires ServedBefore(Rests(total, weights), i, j)
    ensures Precedes(total, weights, i, j)
  {
    QuotientAgrees(total, weights, i);
    QuotientAgrees(total, weights, j);
    hide Frac, Rest, Within;
    var s := Sum(weights);
    WithinOrders(s, Frac(total, weights, i), Rest(total, weights[i], s),
                 Frac(total, weights, j), Rest(total, weights[j], s));
  }

  /** Below the bound the float64 computation yields Hamilton's apportionment. */
  lemma ApportionmentIsHamilton(total: int, weights: seq<nat>, out: seq<int>)
    requires IsApportionment(total, weights, out) && Precise(total, weights)
    ensures IsHamilton(total, weights, out) && Conserves(total, weights)
  {
    if Proper(total, weights) {
      var floors := Floors(total, weights);
      forall i | 0 <= i < |floors| ensures floors[i] == Floor(total, weights, i) {
        QuotientAgrees(total, weights, i);
      }
      Leftover(total, weights, floors);
      hide Floor, Frac, Floors, Rests;
      forall i, j | && 0 <= i < |out| && 0 <= j < |out| && i != j
                    && Bonus(total, weights, out, i) && !Bonus(total, weights, out, j)
        ensures Precedes(total, weights, i, j)
      {
        BeforePrecedes(total, weights, i, j);
      }
    }
  }

  // ----- Where float64 shows -----

  lemma Shift16(x: real)
    requires x >= 0.0
    ensures Rounded(65536.0 * x) == 65536.0 * Rounded(x)
  {
    hide Rounded;
    Shift4(x);
    Shift4(16.0 * x);
    Shift4(256.0 * x);
    Shift4(4096.0 * x);
  }

  lemma Shift4(x: real)
    requires x >= 0.0
    ensures Rounded(16.0 * x) == 16.0 * Rounded(x)
  {
    hide Rounded;
    RoundedDouble(x);
    RoundedDouble(2.0 * x);
    RoundedDouble(4.0 * x);
    RoundedDouble(8.0 * x);
  }

  /** Scaling by 2^50. */
  lemma Shift50(x: real)
    requires x >= 0.0
    ensures Rounded(1125899906842624.0 * x) == 1125899906842624.0 * Rounded(x)
  {
    hide Rounded;
    Shift16(x);
    Shift16(65536.0 * x);
    Shift16(4294967296.0 * x);
    RoundedDouble(281474976710656.0 * x);
    RoundedDouble(562949953421312.0 * x);
  }

  /** Scaling by 2^52. */
  lemma Shift52(x: real)
    requires x >= 0.0
    ensures Rounded(4503599627370496.0 * x) == 4503599627370496.0 * Rounded(x)
  {
    hide Rounded;
    Shift50(x);
    RoundedDouble(1125899906842624.0 * x);
    RoundedDouble(2251799813685248.0 * x);
  }

  lemma TenSixths()
    ensures Quotient(10, 1, 6) == 7505999378950827.0 / 4503599627370496.0
  {
    QuotientRoundsOnce(10, 1, 6);
    Shift52(10.0 / 6.0);
    assert RoundHalfEven(4503599627370496.0 * (10.0 / 6.0)) == 7505999378950827;
  }

  lemma FortySixths()
    ensures Quotient(10, 4, 6) == 7505999378950827.0 / 1125899906842624.0
  {
    QuotientRoundsOnce(10, 4, 6);
    Shift50(40.0 / 6.0);
    assert RoundHalfEven(1125899906842624.0 * (40.0 / 6.0)) == 7505999378950827;
  }

  /** Weights 1 and 4 of 6 share the fraction 4/6 of 10, but the larger weight has the larger rest. */
  lemma TiedRests()
    ensures QuotientFloor(10, 1, 6) == 1 && QuotientFloor(10, 4, 6) == 6 && Rest(10, 1, 6) < Rest(10, 4, 6)
  {
    TenSixths();
    FortySixths();
    hide Quotient, Rounded;
    RestIs(10, 1, 6);
    RestIs(10, 4, 6);
    hide Rest;
    Shift52(3002399751580331.0 / 4503599627370496.0);
    RoundedWhole(3002399751580331);
    Shift50(750599937895083.0 / 1125899906842624.0);
    RoundedWhole(750599937895083);
  }

  /**
   Ten cores over zones with 1, 1 and 4 GPUs: the three exact fractions are equal, float64 ranks the
   last zone first, and the result differs from serving ties by position.
   */
  lemma TieNotByPosition()
    ensures IsApportionment(10, [1, 1, 4], [2, 1, 7])
    ensures IsHamilton(10, [1, 1, 4], [2, 1, 7]) && IsHamilton(10, [1, 1, 4], [2, 2, 6])
  {
    SumOfThree(1, 1, 4);
    TiedVectors();
    ServesTheThird(Rests(10, [1, 1, 4]));
    TieOpen([2, 1, 7]);
    TieOpen([2, 2, 6]);
    hide Floors, Rests, HandsOut, IsHamilton, Sum;
  }

  lemma TiedVectors()
    ensures Proper(10, [1, 1, 4]) && Floors(10, [1, 1, 4]) == [1, 1, 6] && Left(10, [1, 1, 4]) == 2
    ensures var rests := Rests(10, [1, 1, 4]); rests[0] == rests[1] < rests[2]
  {
    SumOfThree(1, 1, 4);
    SumOfThree(1, 1, 6);
    TiedRests();
    hide QuotientFloor, Rest, Sum;
  }

  lemma ServesTheThird(rests: seq<real>)
    requires |rests| == 3 && rests[0] == rests[1] < rests[2]
    ensures HandsOut([1, 1, 6], rests, 2, [2, 1, 7])
  {
    SumOfThree(1, 1, 6);
    SumOfThree(2, 1, 7);
    hide Sum;
  }

  lemma TieOpen(out: seq<int>)
    requires out == [2, 1, 7] || out == [2, 2, 6]
    ensures IsHamilton(10, [1, 1, 4], out)
  {
    var w: seq<nat> := [1, 1, 4];
    SumOfThree(1, 1, 4);
    SumOfThree(2, 1, 7);
    SumOfThree(2, 2, 6);
    hide Sum;
    forall i | 0 <= i < 3 ensures Frac(10, w, i) == 4 && Floor(10, w, i) == if i == 2 then 6 else 1 {
      assert w[i] == 1 || w[i] == 4;
    }
    hide Frac, Floor;
  }

  lemma SumOfThree(a: int, b: int, c: int)
    ensures Sum([a, b, c]) == a + b + c
  {
    assert [a, b, c][..2] == [a, b] && [a, b][..1] == [a] && [a][..0] == [];
    assert Sum([a]) == a;
    assert Sum([a, b]) == a + b;
  }

  /** 2^54 bytes over five equal zones: every quotient is rounded up to a whole number, and the sum is one too large. */
  lemma LargeTotalMiscounts()
    ensures var total, w := 0x40_0000_0000_0000, [1, 1, 1, 1, 1];
            var out := seq(5, _ => 3602879701896397);
            IsApportionment(total, w, out) && Sum(out) == total + 1 && !Conserves(total, w)
  {
    var total: nat, w: seq<nat> := 0x40_0000_0000_0000, [1, 1, 1, 1, 1];
    var out := seq(5, _ => 3602879701896397);
    SumOfFive(1);
    SumOfFive(3602879701896397);
    FifthOfLargeTotal();
    hide Quotient, Sum;
    var share := 3602879701896397;
    assert Floors(total, w) == out == [share, share, share, share, share];
    assert w == [1, 1, 1, 1, 1];
  }

  lemma SumOfFive(a: int)
    ensures Sum([a, a, a, a, a]) == 5 * a
  {
    assert [a, a, a, a, a][..4] == [a, a, a, a] && [a, a, a, a][..3] == [a, a, a];
    SumOfThree(a, a, a);
  }

  lemma FifthOfLargeTotal()
    ensures Quotient(0x40_0000_0000_0000, 1, 5) == 3602879701896397.0
  {
    RoundedWhole(TWO_53);
    RoundedDouble(TWO_53 as real);
    RoundedWhole(1);
    RoundedWhole(5);
    RoundedDouble(3602879701896396.8);
    assert RoundHalfEven(7205759403792793.6) == 7205759403792794;
  }
}
