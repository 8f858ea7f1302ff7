/** Optional values and the bounds-checked subscript `array[safe: i]` of
    hsappsoccer/DraftBoardView.swift. */
module Safe {

  /** Swift's `T?` for value types. */
  datatype Option<+T> = None | Some(value: T)

  /** `subscript(safe:)`: the element at `index`, or `None` when `index` is not
      one of the array's indices (negative or past the end). */
  function SafeAt<T>(s: seq<T>, index: int): (r: Option<T>)
    ensures r.Some? <==> 0 <= index < |s|
    ensures r.Some? ==> r.value == s[index]
  {
    if 0 <= index < |s| then Some(s[index]) else None
  }
}
