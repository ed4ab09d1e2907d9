/** Optional values: the model of JavaScript's `null` / `undefined` results. */
module Options {

  /** `None` stands for an absent value (`null` or `undefined` in the source). */
  datatype Option<+T> = None | Some(value: T)

  /** Head-or-absent: the reading taken here of the library calls `maybe.fromList`
      and `array.first`, whose definitions are not part of this model. */
  function Head<T>(s: seq<T>): Option<T>
  {
    if s == [] then None else Some(s[0])
  }

  /** An optional value as a list of zero or one elements. */
  function ToList<T>(o: Option<T>): seq<T>
  {
    match o
    case None => []
    case Some(x) => [x]
  }
}
