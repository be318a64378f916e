/** The weighted coin `Dice(size, border)`. The source draws an integer
    uniformly from [1, size] with a Mersenne twister; here the drawn integer
    is a parameter, so the coin is a function of it. */
module Coin {

  /** Fires exactly when the drawn integer is strictly below `border`: a
      border of 1 or less never fires, a border above `size` always does. */
  function Dice(size: int, border: int, draw: int): (fires: bool)
    requires 1 <= draw <= size
    ensures border <= 1 ==> !fires
    ensures size < border ==> fires
  {
    draw < border
  }

  /** How many of the draws 1, 2, ..., n make the coin fire. */
  function FiringDraws(size: int, border: int, n: nat): nat
    requires n <= size
  {
    if n == 0 then 0
    else FiringDraws(size, border, n - 1) + (if Dice(size, border, n) then 1 else 0)
  }

  function Clamp(v: int, lo: int, hi: int): int
    requires lo <= hi
  {
    if v < lo then lo else if hi < v then hi else v
  }

  /** Of the `size` equally likely draws, exactly `border - 1` (clamped to
      [0, size]) fire: the coin fires with probability (border - 1) / size,
      one draw short of border / size because of the strict comparison. */
  lemma {:induction false} FiringDrawsCount(size: int, border: int, n: nat)
    requires n <= size
    ensures FiringDraws(size, border, n) == Clamp(border - 1, 0, n)
  {
    if n > 0 {
      FiringDrawsCount(size, border, n - 1);
    }
  }
}
