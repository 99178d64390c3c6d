/** Small value types and sequence operations shared by the page and the hub. */
module Basics {

  datatype Option<+T> = None | Some(value: T)

  /** The last n elements of s, or all of them when there are fewer: `arr.slice(-n)` in the
      page, and what a `deque(maxlen=n)` holds of everything appended to it in the hub. For
      n = 0 this is empty, whereas `slice(-0)` is the whole array; the page only ever asks for
      the last 10 and the hub for the last 50, so the difference never arises. */
  function LastN<T>(s: seq<T>, n: nat): (r: seq<T>)
    ensures |r| == if |s| <= n then |s| else n
    ensures r == s[|s| - |r|..]
  {
    if |s| <= n then s else s[|s| - n..]
  }
}
