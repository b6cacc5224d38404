/** Python list subscripting, as the wiring tables are read with `grid[y][x]`. */
module PyList {

  /** The outcome of `s[k]` on a Python list: the element, or an IndexError. */
  datatype Lookup<T> = Found(value: T) | IndexError

  /**
   * `s[k]` with Python's rules: a subscript in `[0, len)` reads from the front,
   * one in `[-len, 0)` counts from the end, anything else raises IndexError.
   */
  function Subscript<T>(s: seq<T>, k: int): (r: Lookup<T>)
    ensures r.Found? <==> -|s| <= k < |s|
    ensures r.Found? ==> r.value == s[if k < 0 then |s| + k else k]
  {
    if 0 <= k < |s| then Found(s[k])
    else if -|s| <= k < 0 then Found(s[|s| + k])
    else IndexError
  }
}
