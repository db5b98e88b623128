/**
 * Bracket shape for a single-elimination cup over `n` groups, `n` a power of two:
 * `log2 n` rounds, and `n / 2^r` matches in round `r`.
 */
module RoundCalculator {

  function Pow2(k: nat): (r: nat)
    ensures r >= 1
  {
    if k == 0 then 1 else 2 * Pow2(k - 1)
  }

  predicate IsPowerOfTwo(n: int)
    decreases n
  {
    n == 1 || (n > 1 && n % 2 == 0 && IsPowerOfTwo(n / 2))
  }

  /** `total_rounds`: the number of rounds, log2 of the group count. */
  function TotalRounds(n: int): (k: nat)
    requires IsPowerOfTwo(n)
    ensures Pow2(k) == n
    decreases n
  {
    if n == 1 then 0 else 1 + TotalRounds(n / 2)
  }

  /** `total_matches_per_round(r)`: the number of series played in round `r`. */
  function TotalMatchesPerRound(n: int, r: nat): (m: nat)
    requires IsPowerOfTwo(n) && r <= TotalRounds(n)
    ensures m == Pow2(TotalRounds(n) - r) && m >= 1
  {
    Pow2Split(TotalRounds(n) - r, r);
    n / Pow2(r)
  }

  lemma {:induction false} Pow2Split(a: nat, b: nat)
    ensures Pow2(a + b) == Pow2(a) * Pow2(b)
    ensures Pow2(a + b) / Pow2(b) == Pow2(a)
  {
    if b > 0 {
      Pow2Split(a, b - 1);
      calc {
        Pow2(a + b);
        2 * Pow2(a + (b - 1));
        2 * (Pow2(a) * Pow2(b - 1));
        Pow2(a) * (2 * Pow2(b - 1));
        Pow2(a) * Pow2(b);
      }
    }
    MulDiv(Pow2(a), Pow2(b));
  }

  lemma MulDiv(x: nat, y: nat)
    requires y > 0
    ensures (x * y) / y == x
  {
    var z := x * y;
    var d, m := z / y, z % y;
    assert z == d * y + m && 0 <= m < y;
    assert (x - d) * y == m;
    if d < x {
      MulAtLeast(x - d, y);
      assert false;
    }
  }

  lemma {:induction false} MulAtLeast(a: nat, y: nat)
    requires a >= 1
    ensures a * y >= y
  {
    if a > 1 {
      MulAtLeast(a - 1, y);
      assert a * y == (a - 1) * y + y;
    }
  }

  /** Number of series in rounds 1..r together. */
  function SeriesUpTo(n: int, r: nat): nat
    requires IsPowerOfTwo(n) && r <= TotalRounds(n)
  {
    if r == 0 then 0 else SeriesUpTo(n, r - 1) + TotalMatchesPerRound(n, r)
  }

  lemma {:induction false} SeriesUpToClosed(n: int, r: nat)
    requires IsPowerOfTwo(n) && r <= TotalRounds(n)
    ensures SeriesUpTo(n, r) == n - Pow2(TotalRounds(n) - r)
  {
    if r > 0 {
      SeriesUpToClosed(n, r - 1);
      var k := TotalRounds(n);
      assert Pow2(k - (r - 1)) == 2 * Pow2(k - r);
    }
  }

  /** A bracket over `n` groups holds `n - 1` series in all, each round halving the field. */
  lemma SeriesInSeason(n: int)
    requires IsPowerOfTwo(n)
    ensures SeriesUpTo(n, TotalRounds(n)) == n - 1
    ensures TotalRounds(n) >= 1 ==> TotalMatchesPerRound(n, 1) * 2 == n
    ensures TotalRounds(n) >= 1 ==> TotalMatchesPerRound(n, TotalRounds(n)) == 1
  {
    SeriesUpToClosed(n, TotalRounds(n));
    if TotalRounds(n) >= 1 {
      assert Pow2(TotalRounds(n)) == 2 * Pow2(TotalRounds(n) - 1);
    }
  }
}
