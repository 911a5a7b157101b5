/** Small value types shared by the modules of the model. */
module Common {

  /** A JavaScript value that may be absent (`undefined`, `null` or a missing key). */
  datatype Option<+T> = None | Some(value: T) {

    /** The value, or `default` when absent: the `x ?? default` / `x || default` idiom. */
    function GetOr(default: T): (r: T)
      ensures Some? ==> r == value
      ensures None? ==> r == default
    {
      match this
      case Some(v) => v
      case None => default
    }
  }

  /** `s.findIndex(p)` as an option: the index of the first element satisfying `p`, or
      None when no element does. */
  function FirstIndex<T>(s: seq<T>, p: T -> bool): (r: Option<nat>)
    ensures r.Some? ==> r.value < |s| && p(s[r.value]) && forall j :: 0 <= j < r.value ==> !p(s[j])
    ensures r.None? ==> forall j :: 0 <= j < |s| ==> !p(s[j])
  {
    if s == [] then None
    else if p(s[0]) then Some(0)
    else
      var r := FirstIndex(s[1..], p);
      if r.Some? then
        assert forall j :: 1 <= j < r.value + 1 ==> s[j] == s[1..][j - 1];
        Some(r.value + 1)
      else
        assert forall j :: 1 <= j < |s| ==> s[j] == s[1..][j - 1];
        None
  }
}
