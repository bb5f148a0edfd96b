/** What several of the models share. */
module Common {

  datatype Option<+T> = None | Some(value: T)

  function Max(a: int, b: int): int { if a >= b then a else b }

  function Min(a: int, b: int): int { if a <= b then a else b }

  /** The last `limit` of a sequence, in order. */
  function Tail<T>(s: seq<T>, limit: nat): seq<T> { if |s| <= limit then s else s[|s| - limit..] }
}
