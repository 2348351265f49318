/** JavaScript's `Array.prototype.find` over a sequence. */
module Seqs {
  import opened Wrappers

  /** The position of the first element satisfying `pred`, if any. */
  function FindIndex<T>(s: seq<T>, pred: T -> bool): (r: Option<nat>)
    ensures r.None? <==> forall i :: 0 <= i < |s| ==> !pred(s[i])
    ensures r.Some? ==> r.value < |s| && pred(s[r.value])
    ensures r.Some? ==> forall j :: 0 <= j < r.value ==> !pred(s[j])
    decreases |s|
  {
    if s == [] then None
    else if pred(s[0]) then Some(0)
    else match FindIndex(s[1..], pred)
      case None => None
      case Some(k) => Some(k + 1)
  }

  /** `s.find(pred)`: the first element satisfying `pred`, or nothing. */
  function Find<T>(s: seq<T>, pred: T -> bool): (r: Option<T>)
    ensures r.None? <==> forall i :: 0 <= i < |s| ==> !pred(s[i])
    ensures r.Some? ==> r.value in s && pred(r.value)
    ensures r.Some? ==> r.value == s[FindIndex(s, pred).value]
  {
    match FindIndex(s, pred)
    case None => None
    case Some(k) => Some(s[k])
  }
}
