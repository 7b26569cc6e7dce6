/** Failure-compatible wrappers and small helpers shared by every module of the farm model. */
module Common {

  /** `T | null` in the source. */
  datatype Option<+T> = None | Some(value: T) {
    function GetOr(default: T): T {
      match this
      case Some(v) => v
      case None => default
    }
  }

  /** A value or the reason it could not be produced (an error return or a thrown error). */
  datatype Result<+T, +E> = Ok(value: T) | Err(error: E)

  /** A value of `Math.random()`: a real number in [0, 1). */
  type Unit = r: real | 0.0 <= r < 1.0

  function Max(a: int, b: int): int {
    if a >= b then a else b
  }

  function Min(a: int, b: int): int {
    if a <= b then a else b
  }

  /** `bag[key] || 0`: a key that is absent reads as zero. */
  function Count<K>(bag: map<K, int>, key: K): int {
    if key in bag then bag[key] else 0
  }

  /** `if (!bag[key]) bag[key] = 0; bag[key] += delta`: the entry for `key` moves by `delta`. */
  function Bump<K>(bag: map<K, int>, key: K, delta: int): (r: map<K, int>)
    ensures r.Keys == bag.Keys + {key}
    ensures Count(r, key) == Count(bag, key) + delta
    ensures forall k :: k in r && k != key ==> r[k] == bag[k]
  {
    bag[key := Count(bag, key) + delta]
  }

  /** True when the two bags agree on every key other than `key`. */
  ghost predicate SameExcept<K(!new)>(a: map<K, int>, b: map<K, int>, key: K) {
    forall k :: k != key ==> Count(a, k) == Count(b, k)
  }
}
