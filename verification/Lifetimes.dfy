/**
 How long something lives that is opened by some events of a run and closed by others.
 */
module Lifetimes {

  /** It lives after an event if that event opens it, or if it lived before and the event does not close it. */
  ghost predicate Follows(live: seq<bool>, opens: seq<bool>, closes: seq<bool>) {
    && |live| == |opens| + 1 == |closes| + 1 && !live[0]
    && forall i :: 0 <= i < |opens| ==> (live[i + 1] <==> opens[i] || (live[i] && !closes[i]))
  }

  /** Then it lives after n events if and only if one of them opened it and none closed it since. */
  lemma {:induction false} LivesExactly(live: seq<bool>, opens: seq<bool>, closes: seq<bool>, n: nat)
    requires Follows(live, opens, closes) && n <= |opens|
    ensures live[n] <==> exists i :: 0 <= i < n && opens[i] && forall j :: i < j < n ==> !closes[j]
  {
    if n > 0 {
      LivesExactly(live, opens, closes, n - 1);
      assert live[n - 1 + 1] <==> opens[n - 1] || (live[n - 1] && !closes[n - 1]);
      if live[n - 1] && !closes[n - 1] {
        var i :| 0 <= i < n - 1 && opens[i] && forall j :: i < j < n - 1 ==> !closes[j];
        assert forall j :: i < j < n ==> !closes[j];
      }
    }
  }
}
