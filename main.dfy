/** Model of the edu:bit board namespace `edubit`: its one piece of logic,
    the `limit` helper. The board bring-up it runs at start-up is not part
    of this model. */
module Edubit {

  /** `limit`: a value below `min` becomes `min`; otherwise a value above
      `max` becomes `max`; any other value is returned unchanged. When the
      range is not empty the result lies in it. */
  function Limit(value: int, min: int, max: int): (r: int)
    ensures min <= value <= max ==> r == value
    ensures value < min ==> r == min
    ensures min <= value && max < value ==> r == max
    ensures min <= max ==> min <= r <= max
  {
    if value < min then min
    else if value > max then max
    else value
  }

  /** Limiting twice is limiting once. */
  lemma LimitIdempotent(value: int, min: int, max: int)
    requires min <= max
    ensures Limit(Limit(value, min, max), min, max) == Limit(value, min, max)
  {
  }

  /** Limiting keeps the order of values. */
  lemma LimitMonotone(v1: int, v2: int, min: int, max: int)
    requires min <= max
    requires v1 <= v2
    ensures Limit(v1, min, max) <= Limit(v2, min, max)
  {
  }
}
