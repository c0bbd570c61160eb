/** Decimal text of integers: printing and parsing. */
module Decimals {
  import opened Sequences

  function Digit(d: nat): char
    requires d < 10
  {
    '0' + d as char
  }

  predicate IsDigit(c: char) { '0' <= c <= '9' }

  /** strconv.FormatInt(n, 10) for a non-negative n. */
  function Decimal(n: nat): string {
    if n < 10 then [Digit(n)] else Decimal(n / 10) + [Digit(n % 10)]
  }

  function ParseNat(s: string): Option<nat> {
    if |s| == 0 || !IsDigit(s[|s| - 1]) then None
    else
      var d := (s[|s| - 1] - '0') as nat;
      if |s| == 1 then Some(d)
      else match ParseNat(s[..|s| - 1])
        case None => None
        case Some(n) => Some(10 * n + d)
  }

  lemma {:induction false} ParseDecimal(n: nat)
    ensures ParseNat(Decimal(n)) == Some(n)
    ensures forall c :: c in Decimal(n) ==> IsDigit(c)
  {
    if n >= 10 {
      ParseDecimal(n / 10);
      var s := Decimal(n);
      assert s[..|s| - 1] == Decimal(n / 10);
      assert (s[|s| - 1] - '0') as nat == n % 10;
    }
  }

  const MAX_INT64 := 0x7fff_ffff_ffff_ffff

  /** strconv.Atoi: an optional sign and decimal digits, within 64 bits. */
  function Atoi(s: string): Option<int> {
    var negative := |s| > 0 && s[0] == '-';
    match ParseNat(if |s| > 0 && (s[0] == '-' || s[0] == '+') then s[1..] else s)
    case None => None
    case Some(n) =>
      var signed: int := if negative then 0 - n else n;
      if -MAX_INT64 - 1 <= signed <= MAX_INT64 then Some(signed) else None
  }

  // ----- Place values -----

  function Power10(n: nat): nat { if n == 0 then 1 else 10 * Power10(n - 1) }

  predicate AllDigits(s: string) { forall i :: 0 <= i < |s| ==> '0' <= s[i] <= '9' }

  /** The number written by the digits, by the place value of each. */
  function Worth(s: string): nat
    requires AllDigits(s)
  {
    if |s| == 0 then 0 else (s[0] - '0') as nat * Power10(|s| - 1) + Worth(s[1..])
  }

  lemma {:induction false} WorthLast(s: string)
    requires AllDigits(s) && |s| > 0
    ensures Worth(s) == 10 * Worth(s[..|s| - 1]) + (s[|s| - 1] - '0') as nat
  {
    var n := |s| - 1;
    if n > 0 {
      WorthLast(s[1..]);
      assert s[1..][..n - 1] == s[..n][1..];
      Shifted((s[0] - '0') as nat, Power10(n - 1), Worth(s[..n][1..]));
    } else {
      assert s[1..] == [] && s[..0] == [];
    }
  }

  lemma Shifted(d: nat, p: nat, w: nat)
    ensures 10 * (d * p + w) == d * (10 * p) + 10 * w
  {
  }

  lemma {:induction false} ParseNatIs(s: string)
    ensures ParseNat(s).Some? <==> |s| > 0 && AllDigits(s)
    ensures ParseNat(s).Some? ==> ParseNat(s).value == Worth(s)
  {
    if |s| > 1 {
      ParseNatIs(s[..|s| - 1]);
      assert s == s[..|s| - 1] + [s[|s| - 1]];
      if AllDigits(s) { WorthLast(s); }
    } else if |s| == 1 && AllDigits(s) {
      WorthLast(s);
    }
  }

  /** Text that denotes a 64-bit integer: digits, with a sign or without. */
  predicate IsInt64(s: string) {
    || (s != "" && AllDigits(s) && Worth(s) <= MAX_INT64)
    || (|s| > 1 && s[0] == '+' && AllDigits(s[1..]) && Worth(s[1..]) <= MAX_INT64)
    || (|s| > 1 && s[0] == '-' && AllDigits(s[1..]) && Worth(s[1..]) <= MAX_INT64 + 1)
  }

  lemma AtoiAccepts(s: string)
    ensures Atoi(s).Some? <==> IsInt64(s)
  {
    ParseNatIs(s);
    if |s| > 0 {
      ParseNatIs(s[1..]);
      assert s[0] == '-' || s[0] == '+' ==> !AllDigits(s);
    }
    hide ParseNat, Worth;
  }
}
