module Common {
  /** The optional value used wherever the source says `T | null` or `T | undefined`. */
  datatype Option<+T> = None | Some(value: T) {
    function GetOr(default: T): T {
      match this
      case Some(v) => v
      case None => default
    }
  }

  /** `a ?? b`. */
  function OrElse<T>(a: Option<T>, b: Option<T>): Option<T> {
    if a.Some? then a else b
  }

  function Min(a: int, b: int): int { if a < b then a else b }

  function Max(a: int, b: int): int { if a > b then a else b }

  /** A counter that is not in the map stands at zero. */
  function Tally<K>(counts: map<K, nat>, key: K): nat {
    if key in counts then counts[key] else 0
  }
}
