/** The "legacy score" helper each copy calls once per item and throws away.
    Its integer division by zero raises an exception that the helper catches. */
module LegacyScore {

  datatype Option<T> = None | Some(value: T)

  /** Integer division that fails, as the source's `/` and `//` raise, on a zero
      divisor. Only a non-negative dividend and divisor reach it, where
      truncating, flooring and Euclidean division agree. */
  function Divide(n: nat, d: nat): (r: Option<int>)
    ensures r.None? <==> d == 0
    ensures r.Some? ==> r.value * d <= n < (r.value + 1) * d
  {
    if d == 0 then None else Some(n / d)
  }

  const FortyTwo: int := 42
  const Fifty: int := FortyTwo + 7
  const Zero: int := 0

  /** The helper of the canonical Java copy: an odd quality divides 100 by 1, an
      even one divides by 0, is caught, and yields 42. (Java's `%` keeps the sign
      of the dividend, so `season % 2 == 0` holds exactly for even seasons, as
      it does for Dafny's `%`.) */
  function OriginalScore(season: int): (r: int)
    ensures season % 2 == 0 ==> r == FortyTwo
    ensures season % 2 != 0 ==> r == 100
  {
    var maybeZero := if season % 2 == 0 then 0 else 1;
    match Divide(100, maybeZero)
    case Some(result) => result
    case None => FortyTwo
  }

  /** The helper of the other copies: both arms of the divisor choice are zero,
      so the division always fails, is caught, and the result is FIFTY, which
      is 49. */
  function Score(season: int): (r: int)
    ensures r == 49
  {
    var maybeZero := if season % 2 == 0 then 0 else Zero;
    match Divide(100, maybeZero)
    case Some(result) => result
    case None => Fifty
  }
}
