/**
 Hamilton's largest-remainder apportionment in exact arithmetic.  The exact quota of index i is
 total*w[i]/sum; it is kept here as the integer total*w[i], so that "quota" always means sum times the
 exact share.  LargestRemainders ties the operator's float64 computation to it.
 */
module Apportionment {
  import opened Sequences

  function Floor(total: int, weights: seq<nat>, i: nat): int
    requires i < |weights| && Sum(weights) > 0
  {
    total * weights[i] / Sum(weights)
  }

  function Frac(total: int, weights: seq<nat>, i: nat): int
    requires i < |weights| && Sum(weights) > 0
  {
    total * weights[i] % Sum(weights)
  }

  /**
   Index i may be served before index j: larger fraction first, equal weights by position.  Which of two
   different weights with the same fraction comes first is left open; rounding decides it in the code.
   */
  predicate Precedes(total: int, weights: seq<nat>, i: nat, j: nat)
    requires i < |weights| && j < |weights| && Sum(weights) > 0
  {
    var (fi, fj) := (Frac(total, weights, i), Frac(total, weights, j));
    fi > fj || (fi == fj && (weights[i] == weights[j] ==> i < j))
  }

  /** Index i received one of the leftover units. */
  predicate Bonus(total: int, weights: seq<nat>, out: seq<int>, i: nat)
    requires i < |weights| == |out| && Sum(weights) > 0
  {
    out[i] == Floor(total, weights, i) + 1
  }

  /** There is something to hand out and somebody to hand it to. */
  predicate Proper(total: int, weights: seq<nat>) {
    Sum(weights) > 0 && total > 0
  }

  /** The method of largest remainders, stated without saying how the winners are found. */
  ghost predicate IsHamilton(total: int, weights: seq<nat>, out: seq<int>) {
    && |out| == |weights|
    && (!Proper(total, weights) ==> forall i :: 0 <= i < |out| ==> out[i] == 0)
    && (Proper(total, weights) ==>
          && Sum(out) == total
          && (forall i :: 0 <= i < |out| ==>
                out[i] == Floor(total, weights, i) || Bonus(total, weights, out, i))
          && (forall i, j ::
                (&& 0 <= i < |out| && 0 <= j < |out| && i != j
                 && Bonus(total, weights, out, i) && !Bonus(total, weights, out, j)) ==>
                  Precedes(total, weights, i, j)))
  }

  lemma MulLt(s: int, x: int, y: int)
    requires s > 0
    ensures x < y <==> s * x < s * y
    ensures s * (x + 1) == s * x + s
    ensures s * (x - 1) == s * x - s
  {
    if x < y {
      assert s * (y - x) > 0;
    } else {
      assert s * (x - y) >= 0;
    }
  }

  lemma Distribute(s: int, x: int, y: int)
    ensures s * (x - y) == x * s + -s * y
  {
  }

  lemma DivMod(q: int, s: int)
    requires q >= 0 && s > 0
    ensures q == s * (q / s) + q % s && 0 <= q % s < s && q / s >= 0
    ensures q == 0 ==> q / s == 0 == q % s
  {
  }

  lemma {:induction false} Division(total: int, weights: seq<nat>, i: nat)
    requires i < |weights| && Proper(total, weights)
    ensures total * weights[i] == Sum(weights) * Floor(total, weights, i) + Frac(total, weights, i)
    ensures 0 <= Frac(total, weights, i) < Sum(weights)
    ensures 0 <= Floor(total, weights, i)
    ensures weights[i] == 0 ==> Frac(total, weights, i) == 0 == Floor(total, weights, i)
  {
    assert total * weights[i] >= 0;
    DivMod(total * weights[i], Sum(weights));
  }

  /** The floors leave exactly sum-of-fractions / sum units over: fewer than the non-zero fractions. */
  lemma Leftover(total: int, weights: seq<nat>, floors: seq<int>)
    requires Proper(total, weights) && |floors| == |weights|
    requires forall i :: 0 <= i < |floors| ==> floors[i] == Floor(total, weights, i)
    ensures var fracs := seq(|weights|, i requires 0 <= i < |weights| => Frac(total, weights, i));
            Sum(weights) * (total - Sum(floors)) == Sum(fracs)
    ensures 0 <= total - Sum(floors) < |weights|
  {
    hide Floor, Frac;
    var s := Sum(weights);
    var fracs := seq(|weights|, i requires 0 <= i < |weights| => Frac(total, weights, i));
    forall i | 0 <= i < |weights| ensures fracs[i] == total * weights[i] + (-s) * floors[i] && 0 <= fracs[i] < s {
      Division(total, weights, i);
    }
    SumLinear(weights, floors, fracs, total, -s);
    SumBetween(fracs, s);
    assert Sum(fracs) == s * (total - Sum(floors)) by {
      Distribute(s, total, Sum(floors));
    }
    assert fracs[0] < s;
    MulLt(s, total - Sum(floors), |weights|);
    MulLt(s, total - Sum(floors), 0);
  }

  /** 1 for each index with a non-zero fraction, 0 for the others. */
  function HasFrac(total: int, weights: seq<nat>): seq<int>
    requires Sum(weights) > 0
  {
    seq(|weights|, i requires 0 <= i < |weights| => if Frac(total, weights, i) > 0 then 1 else 0)
  }

  /** The leftover is smaller than the number of non-zero fractions, unless there are none and it is zero. */
  lemma LeftoverBelowNonZeroFracs(total: int, weights: seq<nat>, floors: seq<int>)
    requires Proper(total, weights) && |floors| == |weights|
    requires forall i :: 0 <= i < |floors| ==> floors[i] == Floor(total, weights, i)
    ensures var leftover, count := total - Sum(floors), Sum(HasFrac(total, weights));
            0 <= leftover < count || leftover == 0 == count
  {
    hide Floor, Frac;
    var s, has := Sum(weights), HasFrac(total, weights);
    var fracs := seq(|weights|, i requires 0 <= i < |weights| => Frac(total, weights, i));
    forall i | 0 <= i < |weights| ensures 0 <= fracs[i] < s && has[i] == if fracs[i] > 0 then 1 else 0 {
      Division(total, weights, i);
    }
    Leftover(total, weights, floors);
    FracsBelow(fracs, has, s);
    MulLt(s, total - Sum(floors), Sum(has));
    MulLt(s, 0, total - Sum(floors));
  }

  lemma {:induction false} FracsBelow(fracs: seq<int>, has: seq<int>, s: int)
    requires s > 0 && |fracs| == |has|
    requires forall i :: 0 <= i < |fracs| ==> 0 <= fracs[i] < s && has[i] == if fracs[i] > 0 then 1 else 0
    ensures 0 <= Sum(has) && Sum(fracs) <= s * Sum(has) - Sum(has)
  {
    if |fracs| > 0 {
      var n := |fracs| - 1;
      FracsBelow(fracs[..n], has[..n], s);
      MulLt(s, Sum(has[..n]), 0);
    }
  }

  // ----- What an apportionment guarantees -----

  /** Two different weights have the same fraction, and only one of them got a bonus. */
  ghost predicate TieAtTheCut(total: int, weights: seq<nat>, out: seq<int>)
    requires |out| == |weights| && Sum(weights) > 0
  {
    exists i, j :: 0 <= i < |out| && 0 <= j < |out| && Tied(total, weights, out, i, j)
  }

  predicate Tied(total: int, weights: seq<nat>, out: seq<int>, i: nat, j: nat)
    requires i < |weights| == |out| && j < |out| && Sum(weights) > 0
  {
    && Bonus(total, weights, out, i) && !Bonus(total, weights, out, j)
    && Frac(total, weights, i) == Frac(total, weights, j) && weights[i] != weights[j]
  }

  function ExactFloors(total: int, weights: seq<nat>): (floors: seq<int>)
    requires Sum(weights) > 0
    ensures |floors| == |weights|
  {
    seq(|weights|, i requires 0 <= i < |weights| => Floor(total, weights, i))
  }

  /** 1 for each index with a fraction above f, or with strict false for each with at least f. */
  function FracsFrom(total: int, weights: seq<nat>, f: int, strict: bool): (s: seq<int>)
    requires Sum(weights) > 0
    ensures |s| == |weights|
  {
    seq(|weights|, i requires 0 <= i < |weights| =>
      if Frac(total, weights, i) > f || (!strict && Frac(total, weights, i) == f) then 1 else 0)
  }

  /** The leftover units end among the indices with fraction f. */
  predicate CutWithin(total: int, weights: seq<nat>, f: int)
    requires Sum(weights) > 0
  {
    Sum(FracsFrom(total, weights, f, true))
      < total - Sum(ExactFloors(total, weights))
      < Sum(FracsFrom(total, weights, f, false))
  }

  /** Two different weights share a fraction, and the leftover units end among the indices that have it. */
  ghost predicate TieCut(total: int, weights: seq<nat>)
    requires Sum(weights) > 0
  {
    exists i, j :: 0 <= i < |weights| && 0 <= j < |weights| && SameFrac(total, weights, i, j)
  }

  predicate SameFrac(total: int, weights: seq<nat>, i: nat, j: nat)
    requires i < |weights| && j < |weights| && Sum(weights) > 0
  {
    && weights[i] != weights[j] && Frac(total, weights, i) == Frac(total, weights, j)
    && CutWithin(total, weights, Frac(total, weights, i))
  }

  /** Exact arithmetic leaves a single apportionment iff no tie between different weights lies at the cut. */
  lemma HamiltonUniqueIff(total: int, weights: seq<nat>, a: seq<int>)
    requires Proper(total, weights) && IsHamilton(total, weights, a)
    ensures (forall b: seq<int> :: IsHamilton(total, weights, b) ==> b == a) <==> !TieCut(total, weights)
  {
    assert |a| == |weights|;
    TieAtTheCutIff(total, weights, a);
    hide IsHamilton, TieAtTheCut, TieCut;
    if TieAtTheCut(total, weights, a) {
      var b := OtherHamilton(total, weights, a);
    } else {
      forall b: seq<int> | IsHamilton(total, weights, b) ensures b == a {
        TieFreeUnique(total, weights, a, b);
      }
    }
  }

  /** The tie shows in any apportionment. */
  lemma TieAtTheCutIff(total: int, weights: seq<nat>, a: seq<int>)
    requires Proper(total, weights) && IsHamilton(total, weights, a)
    ensures TieAtTheCut(total, weights, a) <==> TieCut(total, weights)
  {
    hide Floor, Frac, CutWithin;
    if TieAtTheCut(total, weights, a) {
      var i, j :| 0 <= i < |a| && 0 <= j < |a| && Tied(total, weights, a, i, j);
      BothSides(total, weights, a, i, j);
      assert SameFrac(total, weights, i, j);
    }
    if TieCut(total, weights) {
      var i, j :| 0 <= i < |a| && 0 <= j < |a| && SameFrac(total, weights, i, j);
      var k, l := SplitClass(total, weights, a, Frac(total, weights, i));
      // Of i and j, one has another weight than k, and it is served or not.
      var m := if weights[i] != weights[k] then i else j;
      if weights[k] != weights[l] {
        assert Tied(total, weights, a, k, l);
      } else if Bonus(total, weights, a, m) {
        assert Tied(total, weights, a, m, l);
      } else {
        assert Tied(total, weights, a, k, m);
      }
    }
  }

  /** 1 for each index with a bonus; as many as there are units left over. */
  lemma BonusCount(total: int, weights: seq<nat>, a: seq<int>) returns (bonus: seq<int>)
    requires Proper(total, weights) && IsHamilton(total, weights, a)
    ensures |bonus| == |a| && forall k :: 0 <= k < |a| ==> bonus[k] == if Bonus(total, weights, a, k) then 1 else 0
    ensures Sum(bonus) == total - Sum(ExactFloors(total, weights))
  {
    var floors := ExactFloors(total, weights);
    bonus := seq(|a|, k requires 0 <= k < |a| => a[k] - floors[k]);
    SumLinear(a, floors, bonus, 1, -1);
  }

  /** A served and an unserved index with the same fraction have the cut between them. */
  lemma BothSides(total: int, weights: seq<nat>, a: seq<int>, i: nat, j: nat)
    requires Proper(total, weights) && IsHamilton(total, weights, a) && i < |a| && j < |a|
    requires Bonus(total, weights, a, i) && !Bonus(total, weights, a, j)
    requires Frac(total, weights, i) == Frac(total, weights, j)
    ensures CutWithin(total, weights, Frac(total, weights, i))
  {
    var bonus := BonusCount(total, weights, a);
    hide Floor, Frac;
    var f := Frac(total, weights, i);
    var above, from := FracsFrom(total, weights, f, true), FracsFrom(total, weights, f, false);
    forall k | 0 <= k < |a| ensures above[k] <= bonus[k] <= from[k] {
      assert k != i && !Bonus(total, weights, a, k) ==> Precedes(total, weights, i, k);
      assert k != j && Bonus(total, weights, a, k) ==> Precedes(total, weights, k, j);
    }
    assert above[i] < bonus[i] && bonus[j] < from[j];
    SumMonotone(above, bonus);
    SumMonotone(bonus, from);
  }

  /** When the cut lies within a fraction, some index with it is served and some is not. */
  lemma SplitClass(total: int, weights: seq<nat>, a: seq<int>, f: int) returns (k: nat, l: nat)
    requires Proper(total, weights) && IsHamilton(total, weights, a) && CutWithin(total, weights, f)
    ensures k < |a| && l < |a| && Frac(total, weights, k) == f == Frac(total, weights, l)
    ensures Bonus(total, weights, a, k) && !Bonus(total, weights, a, l)
  {
    var bonus := BonusCount(total, weights, a);
    hide Floor, Frac;
    var above, from := FracsFrom(total, weights, f, true), FracsFrom(total, weights, f, false);
    if forall n :: 0 <= n < |a| ==> bonus[n] <= above[n] { SumMonotone(bonus, above); }
    if forall n :: 0 <= n < |a| ==> from[n] <= bonus[n] { SumMonotone(from, bonus); }
    k :| 0 <= k < |a| && bonus[k] > above[k];
    l :| 0 <= l < |a| && bonus[l] < from[l];
    // k is served with fraction at most f, l unserved with at least f; nothing unserved is above the served.
    assert Precedes(total, weights, k, l);
  }

  lemma TieFreeUnique(total: int, weights: seq<nat>, a: seq<int>, b: seq<int>)
    requires Proper(total, weights) && IsHamilton(total, weights, a) && IsHamilton(total, weights, b)
    requires !TieAtTheCut(total, weights, a)
    ensures a == b
  {
    hide Floor, Frac;
    if exists i :: 0 <= i < |a| && a[i] > b[i] {
      var i :| 0 <= i < |a| && a[i] > b[i];
      forall j | 0 <= j < |a| ensures a[j] >= b[j] {
        assert Bonus(total, weights, a, i) && !Bonus(total, weights, b, i);
        assert !Tied(total, weights, a, i, j);
        assert Bonus(total, weights, b, j) && !Bonus(total, weights, a, j) ==> i != j;
      }
      SumMonotone(b, a);
    } else {
      SumMonotone(a, b);
    }
  }

  /** The last of the equal weights with a bonus, the first without. */
  predicate LastWith(total: int, weights: seq<nat>, a: seq<int>, i: nat)
    requires i < |weights| == |a| && Sum(weights) > 0
  {
    && Bonus(total, weights, a, i)
    && forall k :: i < k < |a| && weights[k] == weights[i] ==> !Bonus(total, weights, a, k)
  }

  predicate FirstWithout(total: int, weights: seq<nat>, a: seq<int>, j: nat)
    requires j < |weights| == |a| && Sum(weights) > 0
  {
    && !Bonus(total, weights, a, j)
    && forall k :: 0 <= k < j && weights[k] == weights[j] ==> Bonus(total, weights, a, k)
  }

  lemma {:induction false} FindLastWith(total: int, weights: seq<nat>, a: seq<int>, from: nat) returns (i: nat)
    requires from < |weights| == |a| && Sum(weights) > 0 && Bonus(total, weights, a, from)
    ensures from <= i < |a| && weights[i] == weights[from] && LastWith(total, weights, a, i)
    decreases |a| - from
  {
    i := from;
    if k :| from < k < |a| && weights[k] == weights[from] && Bonus(total, weights, a, k) {
      i := FindLastWith(total, weights, a, k);
    }
  }

  lemma {:induction false} FindFirstWithout(total: int, weights: seq<nat>, a: seq<int>, from: nat) returns (j: nat)
    requires from < |weights| == |a| && Sum(weights) > 0 && !Bonus(total, weights, a, from)
    ensures j <= from && weights[j] == weights[from] && FirstWithout(total, weights, a, j)
  {
    j := from;
    if k :| 0 <= k < from && weights[k] == weights[from] && !Bonus(total, weights, a, k) {
      j := FindFirstWithout(total, weights, a, k);
    }
  }

  /** Moving one bonus across a tie gives another apportionment. */
  lemma OtherHamilton(total: int, weights: seq<nat>, a: seq<int>) returns (b: seq<int>)
    requires Proper(total, weights) && IsHamilton(total, weights, a) && TieAtTheCut(total, weights, a)
    ensures IsHamilton(total, weights, b) && b != a
  {
    var i0, j0 :| 0 <= i0 < |a| && 0 <= j0 < |a| && Tied(total, weights, a, i0, j0);
    var i := FindLastWith(total, weights, a, i0);
    var j := FindFirstWithout(total, weights, a, j0);
    assert Tied(total, weights, a, i, j);
    hide Floor, Frac;
    b := a[i := a[i] - 1][j := a[j] + 1];
    SumUpdate(a, i, a[i] - 1);
    SumUpdate(a[i := a[i] - 1], j, a[j] + 1);
    forall k, l | && 0 <= k < |b| && 0 <= l < |b| && k != l
                  && Bonus(total, weights, b, k) && !Bonus(total, weights, b, l)
      ensures Precedes(total, weights, k, l)
    {
      MovedBonus(total, weights, a, i, j, k, l);
    }
  }

  lemma MovedBonus(total: int, weights: seq<nat>, a: seq<int>, i: nat, j: nat, k: nat, l: nat)
    requires Proper(total, weights) && IsHamilton(total, weights, a) && i < |a| && j < |a|
    requires Tied(total, weights, a, i, j) && LastWith(total, weights, a, i) && FirstWithout(total, weights, a, j)
    requires k < |a| && l < |a| && k != i && l != j && k != l
    requires k == j || Bonus(total, weights, a, k)
    requires l == i || !Bonus(total, weights, a, l)
    ensures Precedes(total, weights, k, l)
  {
    hide Floor, Frac;
    assert k != j ==> Precedes(total, weights, k, j);
    assert l != i ==> Precedes(total, weights, i, l);
    assert k != j && l != i ==> Precedes(total, weights, k, l);
  }

  /** An index whose quota is a whole number gets exactly its quota. */
  lemma WholeQuotaGetsNoBonus(total: int, weights: seq<nat>, out: seq<int>, i: nat)
    requires Proper(total, weights) && IsHamilton(total, weights, out) && i < |out|
    requires Frac(total, weights, i) == 0
    ensures out[i] == Floor(total, weights, i)
  {
    if Bonus(total, weights, out, i) {
      var s := Sum(weights);
      var surplus := seq(|out|, j requires 0 <= j < |out| => s * out[j] - total * weights[j]);
      SumLinear(out, weights, surplus, s, -total);
      assert Sum(surplus) == s * total - total * s == 0;
      forall j | 0 <= j < |out| ensures surplus[j] >= 0 {
        SurplusOf(total, weights, out, j);
        if !Bonus(total, weights, out, j) {
          assert Precedes(total, weights, i, j);
        }
      }
      SurplusOf(total, weights, out, i);
      var zeros := seq(|out|, _ => 0);
      SumBetween(zeros, 0);
      assert zeros[i] < surplus[i];
      SumMonotone(zeros, surplus);
    }
  }

  lemma SurplusOf(total: int, weights: seq<nat>, out: seq<int>, j: nat)
    requires Proper(total, weights) && IsHamilton(total, weights, out) && j < |out|
    ensures 0 <= Frac(total, weights, j) < Sum(weights)
    ensures Sum(weights) * out[j] - total * weights[j]
            == -Frac(total, weights, j) + if Bonus(total, weights, out, j) then Sum(weights) else 0
  {
    hide Floor, Frac;
    Division(total, weights, j);
    MulLt(Sum(weights), Floor(total, weights, j), 0);
  }

  /** Quota rule: every share is the floor or the ceiling of its exact quota, and never negative. */
  lemma QuotaRule(total: int, weights: seq<nat>, out: seq<int>, i: nat)
    requires IsHamilton(total, weights, out) && i < |out|
    ensures out[i] >= 0
    ensures weights[i] == 0 ==> out[i] == 0
    ensures Proper(total, weights) ==>
              Sum(weights) * (out[i] - 1) < total * weights[i] < Sum(weights) * (out[i] + 1)
  {
    if Proper(total, weights) {
      hide Floor, Frac;
      Division(total, weights, i);
      SurplusOf(total, weights, out, i);
      if Frac(total, weights, i) == 0 {
        WholeQuotaGetsNoBonus(total, weights, out, i);
      }
      MulLt(Sum(weights), out[i], 0);
    }
  }

  /** A larger weight never gets a smaller share; equal weights are served in index order. */
  lemma {:induction false} LargerWeightLargerShare(total: int, weights: seq<nat>, out: seq<int>, i: nat, j: nat)
    requires IsHamilton(total, weights, out) && i < |out| && j < |out|
    requires weights[i] > weights[j] || (weights[i] == weights[j] && i <= j)
    ensures out[i] >= out[j]
  {
    if Proper(total, weights) {
      hide Floor, Frac;
      var s, fi, fj := Sum(weights), Floor(total, weights, i), Floor(total, weights, j);
      Division(total, weights, i);
      Division(total, weights, j);
      MulLt(total, weights[j], weights[i]);
      MulLt(s, fi + 1, fj);
      MulLt(s, fi, fj);
      assert fj <= fi;
      assert fi == fj ==> Frac(total, weights, j) <= Frac(total, weights, i);
      assert fi == fj && i != j ==> !Precedes(total, weights, j, i);
      assert fi == fj && i != j && Bonus(total, weights, out, j) ==> Bonus(total, weights, out, i);
    }
  }

  function Abs(x: int): nat { if x < 0 then -x else x }

  /** Absolute deviation of each entry of v from its exact quota, scaled by the sum of the weights. */
  function Deviations(total: int, weights: seq<nat>, v: seq<int>): seq<int>
    requires |v| == |weights|
  {
    seq(|v|, i requires 0 <= i < |v| => Abs(Sum(weights) * v[i] - total * weights[i]))
  }

  function Deviation(total: int, weights: seq<nat>, v: seq<int>): int
    requires |v| == |weights|
  {
    Sum(Deviations(total, weights, v))
  }

  /** No integer vector with the same sum, negative entries included, lies closer to the quotas. */
  lemma HamiltonMinimisesDeviation(total: int, weights: seq<nat>, out: seq<int>, v: seq<int>)
    requires Proper(total, weights) && IsHamilton(total, weights, out)
    requires |v| == |out| && Sum(v) == total
    ensures Deviation(total, weights, out) <= Deviation(total, weights, v)
  {
    hide Floor, Frac;
    var s := Sum(weights);
    var t := Threshold(total, weights, out);
    var mu := s - 2 * t;  // the multiplier of the constraint on the sum
    var dOut, dV := Deviations(total, weights, out), Deviations(total, weights, v);
    forall i | 0 <= i < |out| ensures dOut[i] - mu * out[i] <= dV[i] - mu * v[i] {
      Division(total, weights, i);
      PointwiseOptimal(s, Floor(total, weights, i), Frac(total, weights, i), t, out[i], v[i]);
    }
    SumCharged(dOut, out, dV, v, mu);
  }

  /** Comparing two sums after charging mu per unit of x and of y. */
  lemma {:induction false} SumCharged(a: seq<int>, x: seq<int>, b: seq<int>, y: seq<int>, mu: int)
    requires |a| == |x| == |b| == |y|
    requires forall i :: 0 <= i < |a| ==> a[i] - mu * x[i] <= b[i] - mu * y[i]
    ensures Sum(a) - mu * Sum(x) <= Sum(b) - mu * Sum(y)
  {
    if |a| != 0 {
      var n := |a| - 1;
      SumCharged(a[..n], x[..n], b[..n], y[..n], mu);
      Steps(mu, Sum(x[..n]), x[n]);
      Steps(mu, Sum(y[..n]), y[n]);
    }
  }

  /** A fraction separating the indices with a bonus from those without. */
  lemma {:induction false} Threshold(total: int, weights: seq<nat>, out: seq<int>) returns (t: int)
    requires Proper(total, weights) && IsHamilton(total, weights, out)
    ensures 0 <= t < Sum(weights)
    ensures forall i :: 0 <= i < |out| ==>
      if Bonus(total, weights, out, i) then Frac(total, weights, i) >= t else Frac(total, weights, i) <= t
  {
    t := 0;
    for n := 0 to |out|
      invariant 0 <= t < Sum(weights)
      invariant forall i :: 0 <= i < n && !Bonus(total, weights, out, i) ==> Frac(total, weights, i) <= t
      invariant t == 0 || exists j :: 0 <= j < n && !Bonus(total, weights, out, j) && t == Frac(total, weights, j)
    {
      Division(total, weights, n);
      if !Bonus(total, weights, out, n) && Frac(total, weights, n) > t {
        t := Frac(total, weights, n);
      }
    }
    forall i | 0 <= i < |out| && Bonus(total, weights, out, i) ensures Frac(total, weights, i) >= t {
      Division(total, weights, i);
    }
  }

  lemma Steps(s: int, f: int, d: int)
    ensures s * (f + d) == s * f + s * d
  {
  }

  lemma TwoProducts(s: int, t: int, d: int)
    requires 0 <= t < s && d >= 0
    ensures s * d >= 0 && -s * d <= (s - 2 * t) * d <= s * d
    ensures s * -d == -(s * d) && (s - 2 * t) * -d == -((s - 2 * t) * d)
    ensures s * (d + 1) == s * d + s && (s - 2 * t) * (d + 1) == (s - 2 * t) * d + s - 2 * t
  {
  }

  /** out minimises the deviation of one index once each unit is charged mu = s - 2t. */
  lemma {:induction false} PointwiseOptimal(s: int, f: int, r: int, t: int, o: int, v: int)
    requires 0 <= r < s && 0 <= t < s
    requires (o == f && r <= t) || (o == f + 1 && r >= t)
    ensures Abs(s * o - (s * f + r)) - (s - 2 * t) * o <= Abs(s * v - (s * f + r)) - (s - 2 * t) * v
  {
    var m := s - 2 * t;
    // Everything relative to the floor: v is d steps below it or d steps above f + 1.
    if v <= f {
      Steps(s, f, v - f);
      Steps(m, f, v - f);
      Steps(s, f, o - f);
      Steps(m, f, o - f);
      TwoProducts(s, t, f - v);
    } else {
      Steps(s, f, v - f);
      Steps(m, f, v - f);
      Steps(s, f, o - f);
      Steps(m, f, o - f);
      TwoProducts(s, t, v - f - 1);
    }
  }
}
