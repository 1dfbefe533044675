/**
 Numbers that are not in use yet, for the tokens and transactions of a run's next move.
 */
module Fresh {

  /** Some number lies beyond all that are in use. */
  lemma {:induction false} BeyondAll(used: set<nat>) returns (n: nat)
    ensures forall k :: k in used ==> k < n
  {
    if used == {} {
      n := 0;
    } else {
      var k :| k in used;
      var m := BeyondAll(used - {k});
      n := if m <= k then k + 1 else m;
      assert forall x :: x in used ==> x == k || x in used - {k};
    }
  }
}
