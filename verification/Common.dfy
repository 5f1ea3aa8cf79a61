/** Small definitions shared by every part of the model. */
module Common {

  datatype Option<+T> = None | Some(value: T)

  /** The last `k` elements of `s`, or all of `s` when it is shorter. */
  function LastN<T>(k: nat, s: seq<T>): (r: seq<T>)
    ensures |r| == if |s| <= k then |s| else k
  {
    if |s| <= k then s else s[|s| - k..]
  }
}
