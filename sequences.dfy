/**
 * The list operations the detector relies on: built-in `max` and `list.index` on the arc lengths,
 * `np.min` and `np.max` on the vertex coordinates, and the sum behind `np.average`.
 */
module Sequences {
  import opened Wrappers

  /** `max(s)` over a non-empty list of (library-computed) lengths. */
  function MaxReal(s: seq<real>): (m: real)
    requires |s| > 0
    ensures m in s
    ensures forall i :: 0 <= i < |s| ==> s[i] <= m
  {
    if |s| == 1 then s[0]
    else
      var rest := MaxReal(s[1..]);
      if s[0] >= rest then s[0] else rest
  }

  /** `np.min` over a non-empty integer vector. */
  function MinInt(s: seq<int>): (m: int)
    requires |s| > 0
    ensures m in s
    ensures forall i :: 0 <= i < |s| ==> m <= s[i]
  {
    if |s| == 1 then s[0]
    else
      var rest := MinInt(s[1..]);
      if s[0] <= rest then s[0] else rest
  }

  /**
   * `np.max` over a non-empty integer vector (the bounding box's coordinates); `MaxReal` is the
   * built-in `max` over the real-valued arc lengths, so the two differ only in element type.
   */
  function MaxInt(s: seq<int>): (m: int)
    requires |s| > 0
    ensures m in s
    ensures forall i :: 0 <= i < |s| ==> s[i] <= m
  {
    if |s| == 1 then s[0]
    else
      var rest := MaxInt(s[1..]);
      if s[0] >= rest then s[0] else rest
  }

  function Sum(s: seq<int>): int
  {
    if |s| == 0 then 0 else s[0] + Sum(s[1..])
  }

  /** `s.index(x)`: the first position holding `x`; None stands for the ValueError raised when there is none. */
  function IndexOf<T(==)>(s: seq<T>, x: T): (r: Option<nat>)
    ensures r.None? <==> x !in s
    ensures r.Some? ==> r.value < |s| && s[r.value] == x
    ensures r.Some? ==> forall j :: 0 <= j < r.value ==> s[j] != x
  {
    if |s| == 0 then None
    else if s[0] == x then Some(0)
    else
      match IndexOf(s[1..], x)
      case None => None
      case Some(i) => Some(i + 1)
  }
}
