/** Decimal notation, as Go's strconv prints and reads it, in character codes. */
module Decimal {

  const MINUS := 45
  const DIGIT_ZERO := 48

  predicate IsDigit(c: int) { DIGIT_ZERO <= c < DIGIT_ZERO + 10 }

  function FormatNat(n: nat): (s: seq<int>)
    ensures s != [] && forall i :: 0 <= i < |s| ==> IsDigit(s[i])
    ensures s[0] == DIGIT_ZERO ==> n == 0 && |s| == 1
  {
    if n < 10 then [DIGIT_ZERO + n] else FormatNat(n / 10) + [DIGIT_ZERO + n % 10]
  }

  function FormatInt(i: int): seq<int> {
    if i < 0 then [MINUS] + FormatNat(-i) else FormatNat(i)
  }

  /** The number that a string of digits denotes. */
  function NatOf(s: seq<int>): nat
    requires forall i :: 0 <= i < |s| ==> IsDigit(s[i])
  {
    if s == [] then 0 else
    assert IsDigit(s[|s| - 1]);
    NatOf(s[..|s| - 1]) * 10 + (s[|s| - 1] - DIGIT_ZERO)
  }

  lemma {:induction false} NatOfFormat(n: nat)
    ensures NatOf(FormatNat(n)) == n
  {
    if n >= 10 {
      NatOfFormat(n / 10);
      assert FormatNat(n)[..|FormatNat(n)| - 1] == FormatNat(n / 10);
    } else {
      assert [DIGIT_ZERO + n][..0] == [];
    }
  }

  /** Digits without a leading zero are the ones printed. */
  lemma {:induction false} FormatNatOf(s: seq<int>)
    requires s != [] && (forall i :: 0 <= i < |s| ==> IsDigit(s[i])) && (s[0] == DIGIT_ZERO ==> |s| == 1)
    ensures FormatNat(NatOf(s)) == s && (|s| > 1 ==> NatOf(s) >= 10)
  {
    var n := |s| - 1;
    if n > 0 {
      FormatNatOf(s[..n]);
      assert s == s[..n] + [s[n]];
    } else {
      assert s[..0] == [];
    }
  }

  function Pow10(k: nat): nat {
    if k == 0 then 1 else 10 * Pow10(k - 1)
  }

  /** A number below 10^k has at most `k` digits. */
  lemma {:induction false} FormatLength(n: nat, k: nat)
    requires 0 < k && n < Pow10(k)
    ensures |FormatNat(n)| <= k
  {
    if n >= 10 {
      FormatLength(n / 10, k - 1);
    }
  }
}
