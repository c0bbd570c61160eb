/** Sums over integer sequences and a comparison sort, shared by the other modules. */
module Sequences {

  datatype Option<+T> = None | Some(value: T)

  function Sum(s: seq<int>): int {
    if |s| == 0 then 0 else Sum(s[..|s| - 1]) + s[|s| - 1]
  }

  lemma SumNonNegative(s: seq<nat>)
    ensures Sum(s) >= 0
  {
  }

  lemma SumPush(s: seq<int>, x: int)
    ensures Sum(s + [x]) == Sum(s) + x
  {
    assert (s + [x])[..|s|] == s;
  }

  lemma SumTake(s: seq<int>, i: nat)
    requires i < |s|
    ensures Sum(s[..i + 1]) == Sum(s[..i]) + s[i]
  {
    assert s[..i + 1][..i] == s[..i];
  }

  lemma {:induction false} SumAppend(a: seq<int>, b: seq<int>)
    ensures Sum(a + b) == Sum(a) + Sum(b)
    decreases |b|
  {
    if |b| == 0 {
      assert a + b == a;
    } else {
      var n := |b| - 1;
      assert (a + b)[..|a + b| - 1] == a + b[..n];
      SumAppend(a, b[..n]);
    }
  }

  lemma {:induction false} SumUpdate(s: seq<int>, i: nat, x: int)
    requires i < |s|
    ensures Sum(s[i := x]) == Sum(s) - s[i] + x
  {
    var n := |s| - 1;
    if i == n {
      assert s[i := x][..n] == s[..n];
    } else {
      assert s[i := x][..n] == s[..n][i := x];
      SumUpdate(s[..n], i, x);
    }
  }

  lemma {:induction false} SumLinear(a: seq<int>, b: seq<int>, c: seq<int>, p: int, q: int)
    requires |a| == |b| == |c|
    requires forall i :: 0 <= i < |a| ==> c[i] == p * a[i] + q * b[i]
    ensures Sum(c) == p * Sum(a) + q * Sum(b)
  {
    if |a| != 0 {
      var n := |a| - 1;
      SumLinear(a[..n], b[..n], c[..n], p, q);
      var x, y := Sum(a[..n]), Sum(b[..n]);
      assert p * (x + a[n]) == p * x + p * a[n];
      assert q * (y + b[n]) == q * y + q * b[n];
    }
  }

  lemma {:induction false} SumMonotone(a: seq<int>, b: seq<int>)
    requires |a| == |b|
    requires forall i :: 0 <= i < |a| ==> a[i] <= b[i]
    ensures Sum(a) <= Sum(b)
    ensures (exists i :: 0 <= i < |a| && a[i] < b[i]) ==> Sum(a) < Sum(b)
  {
    if |a| != 0 {
      var n := |a| - 1;
      SumMonotone(a[..n], b[..n]);
      if i :| 0 <= i < |a| && a[i] < b[i] {
        assert i < n ==> a[..n][i] < b[..n][i];
      }
    }
  }

  lemma {:induction false} SumBetween(s: seq<int>, c: int)
    requires forall i :: 0 <= i < |s| ==> 0 <= s[i] <= c
    ensures 0 <= Sum(s) <= c * |s|
    ensures (exists i :: 0 <= i < |s| && s[i] < c) ==> Sum(s) < c * |s|
    ensures forall i :: 0 <= i < |s| ==> s[i] <= Sum(s)
  {
    if |s| != 0 {
      var n := |s| - 1;
      SumBetween(s[..n], c);
      assert c * |s| == c * n + c;
      if i :| 0 <= i < |s| && s[i] < c {
        assert i < n ==> s[..n][i] < c;
      }
      forall i | 0 <= i < |s| ensures s[i] <= Sum(s) {
        assert i < n ==> s[..n][i] == s[i];
      }
    }
  }

  ghost predicate TotalOrder<T(!new)>(le: (T, T) -> bool) {
    && (forall a, b :: le(a, b) || le(b, a))
    && (forall a, b, c :: le(a, b) && le(b, c) ==> le(a, c))
  }

  ghost predicate SortedBy<T>(le: (T, T) -> bool, s: seq<T>) {
    forall i, j :: 0 <= i < j < |s| ==> le(s[i], s[j])
  }

  lemma Inserted<T(!new)>(le: (T, T) -> bool, r: seq<T>, x: T, p: nat)
    requires TotalOrder(le) && SortedBy(le, r) && p <= |r|
    requires forall k :: 0 <= k < p ==> le(r[k], x)
    requires p < |r| ==> !le(r[p], x)
    ensures SortedBy(le, r[..p] + [x] + r[p..])
    ensures multiset(r[..p] + [x] + r[p..]) == multiset(r) + multiset{x}
  {
    forall k | p <= k < |r| ensures le(x, r[k]) {
      assert le(x, r[p]);
      assert p < k ==> le(r[p], r[k]);
    }
    var t := r[..p] + [x] + r[p..];
    assert forall k :: 0 <= k < |t| ==> t[k] == if k < p then r[k] else if k == p then x else r[k - 1];
    InsertedElements(r, x, p);
  }

  lemma InsertedElements<T>(r: seq<T>, x: T, p: nat)
    requires p <= |r|
    ensures multiset(r[..p] + [x] + r[p..]) == multiset(r) + multiset{x}
  {
    assert r == r[..p] + r[p..];
  }

  lemma RemovedElements<T>(r: seq<T>, p: nat)
    requires p < |r|
    ensures multiset(r[..p] + r[p + 1..]) == multiset(r) - multiset{r[p]}
  {
    var rest := r[..p] + r[p + 1..];
    assert rest[..p] == r[..p] && rest[p..] == r[p + 1..];
    assert r == rest[..p] + [r[p]] + rest[p..];
    InsertedElements(rest, r[p], p);
  }

  /** A stable insertion sort: an element goes behind every earlier element not greater than it. */
  method InsertionSort<T(!new)>(s: seq<T>, le: (T, T) -> bool) returns (r: seq<T>)
    requires TotalOrder(le)
    ensures SortedBy(le, r)
    ensures multiset(r) == multiset(s)
  {
    r := [];
    for i := 0 to |s|
      invariant SortedBy(le, r)
      invariant multiset(r) == multiset(s[..i])
    {
      var x, p := s[i], 0;
      while p < |r| && le(r[p], x)
        invariant 0 <= p <= |r|
        invariant forall k :: 0 <= k < p ==> le(r[k], x)
      {
        p := p + 1;
      }
      Inserted(le, r, x, p);
      r := r[..p] + [x] + r[p..];
      assert s[..i + 1] == s[..i] + [x];
    }
    assert s[..|s|] == s;
  }

  /** Elements of a permutation, read through its multiset. */
  lemma SameElements<T>(a: seq<T>, b: seq<T>)
    requires multiset(a) == multiset(b)
    ensures |a| == |b|
    ensures forall x :: x in a <==> x in b
  {
    assert |a| == |multiset(a)| == |multiset(b)| == |b|;
    forall x ensures x in a <==> x in b {
      assert x in a <==> x in multiset(a);
      assert x in b <==> x in multiset(b);
    }
  }

  lemma TwiceInMultiset<T>(s: seq<T>, m: nat, n: nat)
    requires m < n < |s| && s[m] == s[n]
    ensures multiset(s)[s[m]] >= 2
  {
    assert s == s[..n] + s[n..];
    assert s[..n][m] == s[m] && s[n..][0] == s[n];
    assert multiset(s) == multiset(s[..n]) + multiset(s[n..]);
  }

  lemma OnceInMultiset<T>(s: seq<T>, m: nat)
    requires m < |s| && forall j :: 0 <= j < |s| && j != m ==> s[j] != s[m]
    ensures multiset(s)[s[m]] == 1
  {
    assert s == s[..m] + [s[m]] + s[m + 1..];
    assert s[m] !in s[..m] && s[m] !in s[m + 1..];
    assert multiset(s) == multiset(s[..m]) + multiset{s[m]} + multiset(s[m + 1..]);
  }

  // ----- Orders -----

  /** sort.Strings order: bytewise lexicographic. */
  predicate StringLe(a: string, b: string) {
    |a| == 0 || (|b| > 0 && (a[0] < b[0] || (a[0] == b[0] && StringLe(a[1..], b[1..]))))
  }

  lemma {:induction false} StringLeOrder(a: string, b: string, c: string)
    ensures StringLe(a, b) || StringLe(b, a)
    ensures StringLe(a, b) && StringLe(b, c) ==> StringLe(a, c)
    ensures StringLe(a, b) && StringLe(b, a) ==> a == b
  {
    if |a| > 0 && |b| > 0 && |c| > 0 {
      StringLeOrder(a[1..], b[1..], c[1..]);
    } else if |a| > 0 && |b| > 0 {
      StringLeOrder(a[1..], b[1..], "");
    }
    if |a| > 0 && |b| > 0 && a[0] == b[0] && a[1..] == b[1..] {
      assert a == [a[0]] + a[1..] && b == [b[0]] + b[1..];
    }
  }

  /** a is a prefix of b, or smaller at the first position where they differ. */
  lemma {:induction false} StringLeIs(a: string, b: string)
    ensures StringLe(a, b) <==>
      || (|a| <= |b| && a == b[..|a|])
      || (exists p :: 0 <= p < |a| && p < |b| && a[..p] == b[..p] && a[p] < b[p])
  {
    if |a| > 0 && |b| > 0 && a[0] == b[0] {
      StringLeIs(a[1..], b[1..]);
      if |a| <= |b| && a[1..] == b[1..][..|a| - 1] {
        assert a == [a[0]] + a[1..] && b[..|a|] == [b[0]] + b[1..][..|a| - 1];
      }
      if |a| <= |b| && a == b[..|a|] {
        assert a[1..] == b[..|a|][1..] == b[1..][..|a| - 1];
      }
      if p :| 0 <= p < |a[1..]| && p < |b[1..]| && a[1..][..p] == b[1..][..p] && a[1..][p] < b[1..][p] {
        assert a[..p + 1] == [a[0]] + a[1..][..p] && b[..p + 1] == [b[0]] + b[1..][..p];
        assert a[p + 1] < b[p + 1];
      }
      if p :| 0 <= p < |a| && p < |b| && a[..p] == b[..p] && a[p] < b[p] {
        assert a[1..][..p - 1] == a[..p][1..] && b[1..][..p - 1] == b[..p][1..];
        assert a[1..][p - 1] < b[1..][p - 1];
      }
    } else if |a| > 0 && |b| > 0 {
      assert a[..0] == b[..0];
      assert forall p :: 0 < p < |a| && p < |b| && a[..p] == b[..p] ==> a[..p][0] == b[..p][0];
    }
  }

  lemma StringLeTotal()
    ensures TotalOrder(StringLe)
  {
    forall a, b ensures StringLe(a, b) || StringLe(b, a) { StringLeOrder(a, b, a); }
    forall a, b, c | StringLe(a, b) && StringLe(b, c) ensures StringLe(a, c) { StringLeOrder(a, b, c); }
  }

  function Min(a: int, b: int): int { if a <= b then a else b }

  predicate Ascending(s: seq<nat>) {
    forall i, j :: 0 <= i < j < |s| ==> s[i] < s[j]
  }

  predicate NatLe(a: nat, b: nat) { a <= b }

  predicate StringLess(a: string, b: string) { StringLe(a, b) && a != b }

  ghost predicate NoDuplicates<T>(s: seq<T>) {
    forall i, j :: 0 <= i < j < |s| ==> s[i] != s[j]
  }

  lemma PermutationKeepsDistinct<T>(a: seq<T>, b: seq<T>)
    requires multiset(a) == multiset(b) && NoDuplicates(a)
    ensures NoDuplicates(b)
  {
    forall i, j | 0 <= i < j < |b| ensures b[i] != b[j] {
      if b[i] == b[j] {
        SameElements(a, b);
        assert b[i] in a;
        var k :| 0 <= k < |a| && a[k] == b[i];
        OnceInMultiset(a, k);
        TwiceInMultiset(b, i, j);
      }
    }
  }

  /** An order puts a set of elements into one sequence only. */
  lemma {:induction false} SortedUnique<T(!new)>(le: (T, T) -> bool, a: seq<T>, b: seq<T>)
    requires forall x, y :: le(x, y) && le(y, x) ==> x == y
    requires SortedBy(le, a) && NoDuplicates(a) && SortedBy(le, b) && NoDuplicates(b)
    requires forall x :: x in a <==> x in b
    ensures a == b
    decreases |a|
  {
    assert |a| > 0 ==> a[0] in b;
    assert |b| > 0 ==> b[0] in a;
    if |a| > 0 {
      var m, n := |a| - 1, |b| - 1;
      assert a[m] in b && b[n] in a;
      assert a[m] == b[n];
      forall x ensures x in a[..m] <==> x in b[..n] {
        assert a == a[..m] + [a[m]] && b == b[..n] + [b[n]];
        assert x in a[..m] <==> x in a && x != a[m];
        assert x in b[..n] <==> x in b && x != b[n];
      }
      SortedUnique(le, a[..m], b[..n]);
      assert a == a[..m] + [a[m]] && b == b[..n] + [b[n]];
    }
  }
}
