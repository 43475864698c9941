/**
 The search for an unused flow id (udptun/client.go, flowFor): step a 32-bit
 counter, wrapping, until it meets an id that is neither 0 nor live.
 */
module FlowIds {
  import opened Words

  ghost predicate Free(live: set<uint32>, id: uint32) {
    id != 0 && id !in live
  }

  /** The counter after `k` increments. */
  function Probe(next: uint32, k: nat): uint32 {
    Add32(next, k)
  }

  /** `id` is the first free id the search meets, after `k` increments. */
  ghost predicate FirstFree(live: set<uint32>, next: uint32, k: nat, id: uint32) {
    && 1 <= k
    && id == Probe(next, k)
    && Free(live, id)
    && forall j :: 1 <= j < k ==> !Free(live, Probe(next, j))
  }

  lemma FirstFreeUnique(live: set<uint32>, next: uint32, k: nat, id: uint32, k': nat, id': uint32)
    requires FirstFree(live, next, k, id) && FirstFree(live, next, k', id')
    ensures k == k' && id == id'
  {
  }

  /** Short of the wrap, a free successor is taken at once. */
  lemma TakesSuccessor(live: set<uint32>, next: uint32, k: nat, id: uint32)
    requires FirstFree(live, next, k, id)
    requires next + 1 < WORD_SPACE && next + 1 !in live
    ensures id == next + 1
  {
    assert Probe(next, 1) == next + 1;
  }

  ghost function Probed(next: uint32, n: nat): set<uint32> {
    set k | 1 <= k <= n :: Probe(next, k)
  }

  /** Up to a full turn of the counter, all probes differ. */
  lemma {:induction false} ProbedSize(next: uint32, n: nat)
    requires n <= WORD_SPACE
    ensures |Probed(next, n)| == n
  {
    if n > 0 {
      ProbedSize(next, n - 1);
      var id := Probe(next, n);
      assert forall k :: 1 <= k < n ==> Probe(next, k) != id;
      assert Probed(next, n) == Probed(next, n - 1) + {id};
    }
  }

  lemma {:induction false} SubsetSize<T>(a: set<T>, b: set<T>)
    requires a <= b
    ensures |a| <= |b|
  {
    if a != {} {
      var x :| x in a;
      SubsetSize(a - {x}, b - {x});
    }
  }

  lemma {:induction false} LeastFree(live: set<uint32>, next: uint32, k: nat) returns (least: nat)
    requires 1 <= k && Free(live, Probe(next, k))
    ensures least <= k && FirstFree(live, next, least, Probe(next, least))
  {
    least := k;
    if j :| 1 <= j < k && Free(live, Probe(next, j)) {
      least := LeastFree(live, next, j);
    }
  }

  /** With an id to spare, the search ends within |live| + 2 increments, from any counter value. */
  lemma SearchEnds(live: set<uint32>, next: uint32)
    requires 0 !in live && |live| < WORD_SPACE - 1
    ensures exists k: nat :: k <= |live| + 2 && FirstFree(live, next, k, Probe(next, k))
  {
    var n := |live| + 2;
    ProbedSize(next, n);
    if forall k :: 1 <= k <= n ==> !Free(live, Probe(next, k)) {
      SubsetSize(Probed(next, n), live + {0});
    }
    var k: nat :| 1 <= k <= n && Free(live, Probe(next, k));
    var least := LeastFree(live, next, k);
  }

  /** The search can end exactly when fewer than 2^32 - 1 flows are live. */
  lemma SearchEndsIff(live: set<uint32>, next: uint32)
    requires 0 !in live
    ensures (exists k: nat :: FirstFree(live, next, k, Probe(next, k))) <==> |live| < WORD_SPACE - 1
  {
    if |live| < WORD_SPACE - 1 {
      SearchEnds(live, next);
    }
    if k: nat :| FirstFree(live, next, k, Probe(next, k)) {
      var id := Probe(next, k);
      var all := Probed(0, WORD_SPACE);
      ProbedSize(0, WORD_SPACE);
      forall w: uint32 | w in live + {0} + {id} ensures w in all {
        assert w == Probe(0, if w == 0 then WORD_SPACE else w);
      }
      SubsetSize(live + {0} + {id}, all);
    }
  }
}
