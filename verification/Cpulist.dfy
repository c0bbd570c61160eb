/**
 The Linux cpulist text form of a list of cpu ids ("0-3,8"): its printer, an independent parser for
 the List format of the FORMATS section of cpuset(7), and what the printer guarantees.
 */
module Cpulist {
  import opened Sequences
  import opened Decimals

  // ----- Ranges -----

  datatype Range = Range(first: nat, last: nat) {
    predicate Valid() { first <= last }

    /** The ids first, first + 1, ..., last. */
    function Ids(): (r: seq<nat>)
      requires Valid()
      ensures |r| == last - first + 1
      ensures forall k :: 0 <= k < |r| ==> r[k] == first + k
    {
      seq(last - first + 1, k requires 0 <= k => first + k)
    }
  }

  predicate AllValid(rs: seq<Range>) {
    forall i :: 0 <= i < |rs| ==> rs[i].Valid()
  }

  function Expand(rs: seq<Range>): seq<nat>
    requires AllValid(rs)
  {
    if |rs| == 0 then [] else Expand(rs[..|rs| - 1]) + rs[|rs| - 1].Ids()
  }

  /** No range can be joined with its right neighbour. */
  predicate Maximal(rs: seq<Range>) {
    forall i :: 0 < i < |rs| ==> rs[i].first != rs[i - 1].last + 1
  }

  /** A list of runs after one more id: the last run grows, or a new one starts. */
  function Extend(rs: seq<Range>, id: nat): seq<Range> {
    if |rs| > 0 && id == rs[|rs| - 1].last + 1
    then rs[..|rs| - 1] + [Range(rs[|rs| - 1].first, id)]
    else rs + [Range(id, id)]
  }

  /** The runs of consecutive ids, left to right. */
  function Runs(ids: seq<nat>): (rs: seq<Range>)
    ensures |ids| > 0 ==> |rs| > 0 && rs[|rs| - 1].last == ids[|ids| - 1]
    ensures AllValid(rs)
  {
    if |ids| == 0 then [] else Extend(Runs(ids[..|ids| - 1]), ids[|ids| - 1])
  }

  // ----- The printer -----

  function Render(r: Range): string {
    if r.first == r.last then Decimal(r.first) else Decimal(r.first) + "-" + Decimal(r.last)
  }

  function RenderAll(rs: seq<Range>): seq<string> {
    seq(|rs|, i requires 0 <= i < |rs| => Render(rs[i]))
  }

  /** strings.Join(parts, ",") */
  function Join(parts: seq<string>): string {
    if |parts| == 0 then "" else if |parts| == 1 then parts[0] else parts[0] + "," + Join(parts[1..])
  }

  method Cpulist(ids: seq<nat>) returns (s: string)
    ensures s == Join(RenderAll(Runs(ids)))
    ensures ParseList(s) == Some(ids)
  {
    if |ids| == 0 {
      return "";
    }
    var parts: seq<string> := [];
    var start, prev := ids[0], ids[0];
    ghost var done: seq<Range> := [];  // the ranges already printed
    assert ids[..1] == [ids[0]] && ids[..1][..0] == [];
    for i := 1 to |ids|
      invariant Runs(ids[..i]) == done + [Range(start, prev)]
      invariant parts == RenderAll(done)
    {
      var id := ids[i];
      assert ids[..i + 1][..i] == ids[..i];
      if id == prev + 1 {
        prev := id;
      } else {
        parts := parts + [Render(Range(start, prev))];
        done := done + [Range(start, prev)];
        start, prev := id, id;
      }
    }
    assert ids[..|ids|] == ids;
    parts := parts + [Render(Range(start, prev))];
    assert parts == RenderAll(Runs(ids));
    s := Join(parts);
    ExpandRuns(ids);
    ParseJoin(Runs(ids));
  }

  // ----- The parser -----

  /** Position of the first c in s, or the length of s. */
  function IndexOf(s: string, c: char): (k: nat)
    ensures k <= |s| && c !in s[..k] && (k < |s| ==> s[k] == c)
  {
    if |s| == 0 || s[0] == c then 0
    else
      var k := IndexOf(s[1..], c);
      assert s[..k + 1] == [s[0]] + s[1..][..k];
      k + 1
  }

  function ParseItem(t: string): Option<seq<nat>> {
    var k := IndexOf(t, '-');
    if k == |t| then
      match ParseNat(t) case None => None case Some(n) => Some([n])
    else
      match (ParseNat(t[..k]), ParseNat(t[k + 1..]))
      case (Some(a), Some(b)) => if a <= b then Some(Range(a, b).Ids()) else None
      case _ => None
  }

  function ParseItems(s: string): Option<seq<nat>>
    decreases |s|
  {
    var k := IndexOf(s, ',');
    match ParseItem(s[..k])
    case None => None
    case Some(ids) =>
      if k == |s| then Some(ids)
      else match ParseItems(s[k + 1..])
        case None => None
        case Some(rest) => Some(ids + rest)
  }

  /** The List format: comma-separated decimal numbers and ranges; the empty text is the empty list. */
  function ParseList(s: string): Option<seq<nat>> {
    if s == "" then Some([]) else ParseItems(s)
  }

  // ----- Round trip -----

  lemma IndexOfAt(a: string, c: char, b: string)
    requires c !in a
    ensures IndexOf(a + [c] + b, c) == |a|
    ensures IndexOf(a, c) == |a|
  {
    var s := a + [c] + b;
    assert s[..|a|] == a && a[..|a|] == a;
    IndexOfUnique(s, c, |a|);
    IndexOfUnique(a, c, |a|);
  }

  lemma {:induction false} IndexOfUnique(s: string, c: char, k: nat)
    requires k <= |s| && c !in s[..k] && (k < |s| ==> s[k] == c)
    ensures IndexOf(s, c) == k
  {
    if k > 0 {
      assert s[0] == s[..k][0];
      assert s[..k][1..] == s[1..][..k - 1];
      IndexOfUnique(s[1..], c, k - 1);
    }
  }

  lemma ParseRendered(r: Range)
    requires r.Valid()
    ensures ParseItem(Render(r)) == Some(r.Ids())
    ensures ',' !in Render(r) && Render(r) != ""
  {
    ParseDecimal(r.first);
    ParseDecimal(r.last);
    var (a, b) := (Decimal(r.first), Decimal(r.last));
    IndexOfAt(a, '-', b);
    if r.first == r.last {
      assert r.Ids() == [r.first];
    } else {
      assert Render(r) == a + ['-'] + b;
      assert Render(r)[..|a|] == a && Render(r)[|a| + 1..] == b;
    }
  }

  lemma {:induction false} ParseJoin(rs: seq<Range>)
    requires AllValid(rs)
    ensures ParseList(Join(RenderAll(rs))) == Some(Expand(rs))
    ensures |rs| > 0 ==> Join(RenderAll(rs)) != ""
  {
    if |rs| > 0 {
      ParseRendered(rs[0]);
      var head := Render(rs[0]);
      ExpandFirst(rs);
      if |rs| == 1 {
        IndexOfAt(head, ',', "");
        assert head[..|head|] == head && rs[0].Ids() + [] == rs[0].Ids();
        assert RenderAll(rs) == [head];
      } else {
        assert RenderAll(rs)[1..] == RenderAll(rs[1..]);
        ParseJoin(rs[1..]);
        var tail := Join(RenderAll(rs[1..]));
        var s := head + [','] + tail;
        assert Join(RenderAll(rs)) == s;
        IndexOfAt(head, ',', tail);
        assert s[..|head|] == head && s[|head| + 1..] == tail;
      }
    }
  }

  lemma {:induction false} ExpandFirst(rs: seq<Range>)
    requires AllValid(rs) && |rs| > 0
    ensures Expand(rs) == rs[0].Ids() + Expand(rs[1..])
  {
    if |rs| > 1 {
      var n := |rs| - 1;
      ExpandFirst(rs[..n]);
      assert rs[..n][1..] == rs[1..][..n - 1];
    }
  }

  // ----- The runs are the canonical range list -----

  lemma {:induction false} ExpandRuns(ids: seq<nat>)
    ensures Expand(Runs(ids)) == ids
    ensures Maximal(Runs(ids))
  {
    if |ids| > 0 {
      var n := |ids| - 1;
      ExpandRuns(ids[..n]);
      ExpandExtend(Runs(ids[..n]), ids[n]);
      assert ids == ids[..n] + [ids[n]];
    }
  }

  lemma LongerIds(r: Range, id: nat)
    requires r.Valid() && id == r.last + 1
    ensures Range(r.first, id).Ids() == r.Ids() + [id]
  {
  }

  lemma Associative<T>(a: seq<T>, b: seq<T>, c: seq<T>)
    ensures (a + b) + c == a + (b + c)
  {
  }

  lemma {:induction false} ExpandExtend(rs: seq<Range>, id: nat)
    requires AllValid(rs) && Maximal(rs)
    ensures AllValid(Extend(rs, id)) && Maximal(Extend(rs, id))
    ensures Expand(Extend(rs, id)) == Expand(rs) + [id]
  {
    if |rs| > 0 && id == rs[|rs| - 1].last + 1 {
      var m := |rs| - 1;
      var longer := Range(rs[m].first, id);
      ExpandLast(rs[..m], longer);
      assert Expand(rs) == Expand(rs[..m]) + rs[m].Ids();
      hide Expand;
      LongerIds(rs[m], id);
      Associative(Expand(rs[..m]), rs[m].Ids(), [id]);
    } else {
      ExpandLast(rs, Range(id, id));
      assert Range(id, id).Ids() == [id];
    }
  }

  lemma ExpandLast(rs: seq<Range>, r: Range)
    requires AllValid(rs) && r.Valid()
    ensures AllValid(rs + [r]) && Expand(rs + [r]) == Expand(rs) + r.Ids()
  {
    assert (rs + [r])[..|rs|] == rs;
  }

  /** On an ascending list the printed ranges are separated by real gaps. */
  lemma RunsOfAscending(ids: seq<nat>, i: nat, j: nat)
    requires Ascending(ids) && i < j < |Runs(ids)|
    ensures Runs(ids)[i].last + 1 < Runs(ids)[j].first
    decreases j - i
  {
    hide Runs, Expand;
    ExpandRuns(ids);
    var rs := Runs(ids);
    if i + 1 == j {
      var p := ExpandAt(rs, i, rs[i].last - rs[i].first);
      var q := ExpandAt(rs, j, 0);
      ExpandOrder(rs, i, rs[i].last - rs[i].first, j, 0);
      assert ids[p] == rs[i].last && ids[q] == rs[j].first;
    } else {
      RunsOfAscending(ids, i, j - 1);
      RunsOfAscending(ids, j - 1, j);
    }
  }

  /** Where the k-th id of range i stands in the expansion. */
  ghost function Offset(rs: seq<Range>, i: nat): nat
    requires AllValid(rs) && i <= |rs|
  {
    |Expand(rs[..i])|
  }

  lemma {:induction false} ExpandAt(rs: seq<Range>, i: nat, k: nat) returns (p: nat)
    requires AllValid(rs) && i < |rs| && k <= rs[i].last - rs[i].first
    ensures p == Offset(rs, i) + k < |Expand(rs)|
    ensures Expand(rs)[p] == rs[i].first + k
    decreases |rs|
  {
    var n := |rs| - 1;
    if i == n {
      p := Offset(rs, i) + k;
    } else {
      p := ExpandAt(rs[..n], i, k);
      assert rs[..n][..i] == rs[..i];
    }
  }

  lemma ExpandOrder(rs: seq<Range>, i: nat, k: nat, j: nat, l: nat)
    requires AllValid(rs) && i + 1 == j < |rs|
    requires k <= rs[i].last - rs[i].first && l <= rs[j].last - rs[j].first
    ensures Offset(rs, i) + k < Offset(rs, j) + l
  {
    assert rs[..j][..i] == rs[..i];
  }

  /** Breaks in an id list: positions where it does not simply count up. */
  function Breaks(ids: seq<nat>): nat {
    if |ids| < 2 then 0
    else Breaks(ids[..|ids| - 1]) + if ids[|ids| - 1] == ids[|ids| - 2] + 1 then 0 else 1
  }

  lemma {:induction false} RunsCount(ids: seq<nat>)
    requires |ids| > 0
    ensures |Runs(ids)| == Breaks(ids) + 1
  {
    if |ids| > 1 {
      RunsCount(ids[..|ids| - 1]);
    }
  }

  lemma {:induction false} BreaksOfRange(ids: seq<nat>, r: Range, k: nat)
    requires r.Valid() && k <= |r.Ids()|
    ensures Breaks(ids + r.Ids()[..k]) <= Breaks(ids) + if |ids| > 0 && k > 0 then 1 else 0
  {
    if k > 0 {
      BreaksOfRange(ids, r, k - 1);
      var s := ids + r.Ids()[..k];
      assert s[..|s| - 1] == ids + r.Ids()[..k - 1];
    } else {
      assert ids + r.Ids()[..k] == ids;
    }
  }

  lemma {:induction false} BreaksOfExpand(rs: seq<Range>)
    requires AllValid(rs) && |rs| > 0
    ensures Breaks(Expand(rs)) < |rs|
  {
    var n := |rs| - 1;
    var r := rs[n];
    if n > 0 { BreaksOfExpand(rs[..n]); }
    BreaksOfRange(Expand(rs[..n]), r, |r.Ids()|);
    assert r.Ids()[..|r.Ids()|] == r.Ids();
  }

  /** No list of ranges for the same ids is shorter than the printed one. */
  lemma {:induction false} RunsAreShortest(ids: seq<nat>, rs: seq<Range>)
    requires AllValid(rs) && Expand(rs) == ids
    ensures |Runs(ids)| <= |rs|
  {
    if |ids| > 0 {
      RunsCount(ids);
      BreaksOfExpand(rs);
    }
  }

  /** The printed list is the only maximal list of ranges for its ids. */
  lemma {:induction false} MaximalIsUnique(rs: seq<Range>)
    requires AllValid(rs) && Maximal(rs)
    ensures rs == Runs(Expand(rs))
  {
    if |rs| > 0 {
      var n := |rs| - 1;
      var front, r := rs[..n], rs[n];
      assert rs == front + [r];
      hide Runs, Expand;
      MaximalIsUnique(front);
      MaximalStep(front, r);
    }
  }

  lemma {:induction false} MaximalStep(front: seq<Range>, r: Range)
    requires AllValid(front) && r.Valid()
    requires front == Runs(Expand(front))
    requires |front| > 0 ==> r.first != front[|front| - 1].last + 1
    ensures front + [r] == Runs(Expand(front + [r]))
  {
    ExpandLast(front, r);
    ExpandEmpty(front);
    hide Runs, Expand;
    RunsOfExtended(Expand(front), r);
  }

  lemma ExpandEmpty(rs: seq<Range>)
    requires AllValid(rs)
    ensures |rs| > 0 ==> |Expand(rs)| > 0
    ensures |rs| > 0 ==> Expand(rs)[|Expand(rs)| - 1] == rs[|rs| - 1].last
  {
  }

  lemma RunsLast(ids: seq<nat>, id: nat)
    ensures Runs(ids + [id]) == Extend(Runs(ids), id)
  {
    assert (ids + [id])[..|ids|] == ids;
  }

  lemma RunsEnd(ids: seq<nat>)
    ensures |Runs(ids)| > 0 <==> |ids| > 0
    ensures |ids| > 0 ==> Runs(ids)[|Runs(ids)| - 1].last == ids[|ids| - 1]
  {
  }

  lemma {:induction false} RunsOfExtended(ids: seq<nat>, r: Range)
    requires r.Valid() && (|ids| > 0 ==> r.first != ids[|ids| - 1] + 1)
    ensures Runs(ids + r.Ids()) == Runs(ids) + [r]
    decreases r.last
  {
    hide Runs;
    if r.first == r.last {
      assert r.Ids() == [r.last];
      RunsLast(ids, r.last);
      RunsEnd(ids);
    } else {
      var shorter := Range(r.first, r.last - 1);
      LongerIds(shorter, r.last);
      Associative(ids, shorter.Ids(), [r.last]);
      RunsOfExtended(ids, shorter);
      RunsLast(ids + shorter.Ids(), r.last);
      assert (Runs(ids) + [shorter])[..|Runs(ids)|] == Runs(ids);
    }
  }

  /** The form the kernel documents: 0, 1, 2, 3 and 8 read "0-3,8". */
  lemma PrintedForm()
    ensures Join(RenderAll(Runs([0, 1, 2, 3, 8]))) == "0-3,8"
  {
    FormRuns();
    hide Runs;
    FormParts();
    hide Render, Decimal;
    assert ["0-3", "8"][1..] == ["8"];
    assert Join(["8"]) == "8";
    assert "0-3" + "," + "8" == "0-3,8";
  }

  lemma FormRuns()
    ensures Runs([0, 1, 2, 3, 8]) == [Range(0, 3), Range(8, 8)]
  {
    var rs := [Range(0, 3), Range(8, 8)];
    ExpandLast([], Range(0, 3));
    ExpandLast([Range(0, 3)], Range(8, 8));
    assert Expand([]) == [];
    hide Expand;
    assert [] + [Range(0, 3)] == [Range(0, 3)] && [Range(0, 3)] + [Range(8, 8)] == rs;
    assert Range(0, 3).Ids() == [0, 1, 2, 3] && Range(8, 8).Ids() == [8];
    assert Expand(rs) == [0, 1, 2, 3, 8];
    MaximalIsUnique(rs);
  }

  lemma FormParts()
    ensures RenderAll([Range(0, 3), Range(8, 8)]) == ["0-3", "8"]
  {
    assert Digit(0) == '0' && Digit(3) == '3' && Digit(8) == '8';
    assert Decimal(0) == "0" && Decimal(3) == "3" && Decimal(8) == "8";
    hide Decimal;
    assert Render(Range(0, 3)) == "0" + "-" + "3" == "0-3";
    assert Render(Range(8, 8)) == "8";
  }
}
