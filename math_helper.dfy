// MathHelper.Clamp.

module MathHelper {

  /** Clamp: min below the range, max above it, the value itself otherwise. */
  function Clamp(value: real, min: real, max: real): (r: real)
    ensures value < min ==> r == min
    ensures min <= value && value > max ==> r == max
    ensures min <= value <= max ==> r == value
    ensures min <= max ==> min <= r <= max
  {
    if value < min then min
    else if value > max then max
    else value
  }

  /** Clamping twice is clamping once, when the range is not empty. */
  lemma ClampIdempotent(value: real, min: real, max: real)
    requires min <= max
    ensures Clamp(Clamp(value, min, max), min, max) == Clamp(value, min, max)
  {
  }

  /** With an empty range (min > max) a value below min gives min, any other gives max. */
  lemma ClampEmptyRange(value: real, min: real, max: real)
    requires min > max
    ensures Clamp(value, min, max) == (if value < min then min else max)
  {
  }
}
