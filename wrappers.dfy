/** Python's `None`-or-value, as returned by `get_attribute` and taken by `setup_chrome_driver`. */
module Wrappers {

  datatype Option<+T> = None | Some(value: T)

  /** Wraps every element, so that a list of strings can be compared with a list of optional strings. */
  function Somes<T>(xs: seq<T>): (r: seq<Option<T>>)
    ensures |r| == |xs|
    ensures forall i :: 0 <= i < |xs| ==> r[i] == Some(xs[i])
  {
    seq(|xs|, i requires 0 <= i < |xs| => Some(xs[i]))
  }
}
