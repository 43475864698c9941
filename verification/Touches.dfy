/** The times at which a flow was touched, oldest first: what `lastActive` has been set to. */
module Touches {
  /** Among the touches of a flow, one at `now` after the first `before`. */
  predicate TouchedSince(touches: seq<int>, before: nat, now: int) {
    exists j :: before <= j < |touches| && touches[j] == now
  }

  lemma LastTouch(touches: seq<int>, before: nat, now: int)
    requires before <= |touches|
    ensures TouchedSince(touches + [now], before, now)
  {
    assert (touches + [now])[|touches|] == now;
  }

  lemma TouchedLater(touches: seq<int>, before: nat, earlier: nat, now: int)
    requires earlier <= before && TouchedSince(touches, before, now)
    ensures TouchedSince(touches, earlier, now)
  {
  }

  lemma TouchesGrow(touches: seq<int>, more: seq<int>, before: nat, now: int)
    requires touches <= more && TouchedSince(touches, before, now)
    ensures TouchedSince(more, before, now)
  {
    var j :| before <= j < |touches| && touches[j] == now;
    assert more[j] == now;
  }
}
