/** First-match search, the shape of every `if … else if …` chain and `for … return` scan
    in the adapters. */
module FirstMatch {
  import opened Wrappers

  /** The position of the first element of `s` that satisfies `p`, if any. */
  function IndexOfFirst<T>(s: seq<T>, p: T -> bool): (r: Option<nat>)
    ensures r.Some? ==> r.value < |s| && p(s[r.value])
    ensures r.Some? ==> forall j :: 0 <= j < r.value ==> !p(s[j])
    ensures r.None? <==> forall j :: 0 <= j < |s| ==> !p(s[j])
    decreases |s|
  {
    if s == [] then None
    else if p(s[0]) then Some(0)
    else
      match IndexOfFirst(s[1..], p)
      case None => None
      case Some(k) => Some(k + 1)
  }
}
