/** Decimal printing of indices (`strconv.Itoa`) and dash-separated names built from it. */
module Decimal {

  predicate IsDigit(c: char) {
    '0' <= c <= '9'
  }

  predicate AllDigits(s: string) {
    forall k :: 0 <= k < |s| ==> IsDigit(s[k])
  }

  predicate DashFree(s: string) {
    forall k :: 0 <= k < |s| ==> s[k] != '-'
  }

  function DigitChar(d: nat): (c: char)
    requires d < 10
    ensures IsDigit(c)
  {
    ('0' as int + d) as char
  }

  function Itoa(n: nat): (s: string)
    ensures s != "" && AllDigits(s)
  {
    if n < 10 then [DigitChar(n)] else Itoa(n / 10) + [DigitChar(n % 10)]
  }

  /** Reads a digit string back; the partner of `Itoa`. */
  function Atoi(s: string): nat
    requires AllDigits(s)
  {
    if s == "" then 0
    else Atoi(s[..|s| - 1]) * 10 + (s[|s| - 1] as int - '0' as int)
  }

  lemma {:induction false} AtoiItoa(n: nat)
    ensures Atoi(Itoa(n)) == n
  {
    if n >= 10 {
      AtoiItoa(n / 10);
      var s := Itoa(n);
      assert s[..|s| - 1] == Itoa(n / 10);
    } else {
      assert Itoa(n)[..0] == "";
    }
  }

  lemma ItoaInjective(a: nat, b: nat)
    requires Itoa(a) == Itoa(b)
    ensures a == b
  {
    AtoiItoa(a);
    AtoiItoa(b);
  }

  lemma NoDashAfter(a: string, x: string)
    requires DashFree(x)
    ensures forall k :: |a| < k < |a + "-" + x| ==> (a + "-" + x)[k] != '-'
  {
    forall k | |a| < k < |a + "-" + x| ensures (a + "-" + x)[k] != '-' {
      assert (a + "-" + x)[k] == x[k - |a| - 1];
    }
  }

  /** The last dash separates a name from a dash-free suffix in one way only. */
  lemma LastDash(a: string, x: string, b: string, y: string)
    requires a + "-" + x == b + "-" + y
    requires DashFree(x) && DashFree(y)
    ensures a == b && x == y
  {
    NoDashAfter(a, x);
    NoDashAfter(b, y);
    var s := a + "-" + x;
    assert s[|a|] == '-' && s[|b|] == (b + "-" + y)[|b|] == '-';
    assert a == s[..|a|] && b == (b + "-" + y)[..|b|];
    assert x == s[|a| + 1..] && y == (b + "-" + y)[|b| + 1..];
  }

  /** `name-i` determines both the name, which may itself contain dashes, and the index. */
  lemma IndexedNameInjective(a: string, i: nat, b: string, j: nat)
    requires a + "-" + Itoa(i) == b + "-" + Itoa(j)
    ensures a == b && i == j
  {
    LastDash(a, Itoa(i), b, Itoa(j));
    ItoaInjective(i, j);
  }
}
