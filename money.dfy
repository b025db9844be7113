/** Money is held in integer cents (paise): 1 rupee == 100. */
module Money {

  /** `(num / den).toFixed(2)` read back in cents: the quotient rounded to the
      nearest integer, a tie going away from zero (toFixed rounds the magnitude
      half up). The two ensures pin the result down uniquely. */
  function RoundDiv(num: int, den: int): (q: int)
    requires den > 0
    ensures num >= 0 ==> -den <= 2 * (num - q * den) < den
    ensures num < 0 ==> -den < 2 * (num - q * den) <= den
  {
    if num >= 0 then RoundDivNat(num, den) else -RoundDivNat(-num, den)
  }

  function RoundDivNat(num: nat, den: int): (q: int)
    requires den > 0
    ensures -den <= 2 * (num - q * den) < den
  {
    var q := (2 * num + den) / (2 * den);
    DivBounds(2 * num + den, 2 * den);
    q
  }

  lemma DivBounds(a: int, b: int)
    requires b > 0
    ensures (a / b) * b <= a < (a / b) * b + b
  {
  }

  /** Left-to-right sum, the order in which `reduce` adds. */
  function SumInts(xs: seq<int>): int
  {
    if xs == [] then 0 else SumInts(xs[..|xs| - 1]) + xs[|xs| - 1]
  }

  function Max0(x: int): (r: int)
    ensures r >= 0 && r >= x && (r == 0 || r == x)
  {
    if x > 0 then x else 0
  }
}
