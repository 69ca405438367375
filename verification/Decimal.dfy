/** `strconv`-style decimal rendering, and the default pod names built from it. */
module Decimal {

  function Digit(d: nat): char
    requires d < 10
  {
    ['0', '1', '2', '3', '4', '5', '6', '7', '8', '9'][d]
  }

  function Decimal(n: nat): string {
    if n < 10 then [Digit(n)] else Decimal(n / 10) + [Digit(n % 10)]
  }

  lemma {:induction false} DecimalInjective(m: nat, n: nat)
    requires Decimal(m) == Decimal(n)
    ensures m == n
    decreases m
  {
    var s, t := Decimal(m), Decimal(n);
    assert s[|s| - 1] == Digit(m % 10) && t[|t| - 1] == Digit(n % 10);
    NonEmpty(m);
    NonEmpty(n);
    if m >= 10 && n >= 10 {
      assert Decimal(m / 10) == s[..|s| - 1] == t[..|t| - 1] == Decimal(n / 10);
      DecimalInjective(m / 10, n / 10);
    }
  }

  lemma NonEmpty(n: nat)
    ensures |Decimal(n)| >= 1
    ensures n >= 10 ==> |Decimal(n)| >= 2
  {
  }

  /** The number a string of digits shows. */
  function ReadBack(s: string): int {
    if s == [] then 0 else 10 * ReadBack(s[..|s| - 1]) + (s[|s| - 1] as int - '0' as int)
  }

  lemma {:induction false} DecimalReadsBack(n: nat)
    ensures ReadBack(Decimal(n)) == n
    ensures forall i :: 0 <= i < |Decimal(n)| ==> '0' <= Decimal(n)[i] <= '9'
  {
    if n < 10 {
      assert Decimal(n)[..0] == [];
    } else {
      DecimalReadsBack(n / 10);
      assert Decimal(n)[..|Decimal(n)| - 1] == Decimal(n / 10);
    }
  }

  /** The name an unnamed pod gets: `pod-<n>`. */
  function DefaultPodName(n: nat): string {
    "pod-" + Decimal(n)
  }

  lemma DefaultPodNameInjective(m: nat, n: nat)
    requires DefaultPodName(m) == DefaultPodName(n)
    ensures m == n
  {
    assert Decimal(m) == DefaultPodName(m)[4..] == DefaultPodName(n)[4..] == Decimal(n);
    DecimalInjective(m, n);
  }

  /** A pod's name in the built topology; slots count from one. */
  function PodId(name: string, slot: nat): string {
    if name == "" then DefaultPodName(slot) else name
  }
}
