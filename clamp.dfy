/**
 * Order clamping from the `Comparable` extension (`clamp(_:_:)` and
 * `clamped(to:)`), over the integers.
 */
module Clamping {

  /** Swift's `max(x, y)`: `y` when `y >= x`, otherwise `x`. */
  function Max(x: int, y: int): int {
    if y >= x then y else x
  }

  /** Swift's `min(x, y)`: `y` when `y < x`, otherwise `x`. */
  function Min(x: int, y: int): int {
    if y < x then y else x
  }

  /**
   * `x.clamp(lowerBound, upperBound)`, computed as
   * `max(lowerBound, min(upperBound, x))`. Because `max` is applied last,
   * an inverted pair of bounds always yields the lower bound.
   */
  function Clamp(x: int, lowerBound: int, upperBound: int): (r: int)
    ensures lowerBound <= upperBound ==> lowerBound <= r <= upperBound
    ensures lowerBound <= x <= upperBound ==> r == x
    ensures lowerBound <= upperBound && x < lowerBound ==> r == lowerBound
    ensures lowerBound <= upperBound && upperBound < x ==> r == upperBound
    ensures upperBound < lowerBound ==> r == lowerBound
  {
    Max(lowerBound, Min(upperBound, x))
  }

  /** Swift's `ClosedRange`: forming `a...b` traps unless `a <= b`. */
  datatype ClosedRange = ClosedRange(lowerBound: int, upperBound: int)

  type ValidRange = r: ClosedRange | r.lowerBound <= r.upperBound
    witness ClosedRange(0, 0)

  /** `x.clamped(to: range)`: the same expression as `clamp`, bounds taken from the range. */
  function Clamped(x: int, range: ValidRange): (r: int)
    ensures r == Clamp(x, range.lowerBound, range.upperBound)
    ensures range.lowerBound <= r <= range.upperBound
    ensures range.lowerBound <= x <= range.upperBound ==> r == x
  {
    Max(range.lowerBound, Min(range.upperBound, x))
  }

  /** Clamping a clamped value changes nothing. */
  lemma ClampIdempotent(x: int, lowerBound: int, upperBound: int)
    ensures Clamp(Clamp(x, lowerBound, upperBound), lowerBound, upperBound)
         == Clamp(x, lowerBound, upperBound)
  {
  }

  /** Clamping preserves the order of its inputs. */
  lemma ClampMonotone(x: int, y: int, lowerBound: int, upperBound: int)
    requires x <= y
    ensures Clamp(x, lowerBound, upperBound) <= Clamp(y, lowerBound, upperBound)
  {
  }
}
