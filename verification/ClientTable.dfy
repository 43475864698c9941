/**
 The client's flow table on values: two maps kept inverse to each other and the
 counter that names flows (udptun/client.go). An address is its String() form.
 */
module ClientTable {
  import opened Words
  import opened FlowIds

  datatype Table = Table(byAddr: map<Addr, uint32>, byID: map<uint32, Addr>, nextID: uint32)

  const EMPTY := Table(map[], map[], 0)

  /** The two maps hold the same flows, each under its own address and its own nonzero id. */
  ghost predicate Twin(t: Table) {
    && (forall a :: a in t.byAddr ==> t.byAddr[a] in t.byID && t.byID[t.byAddr[a]] == a)
    && (forall i :: i in t.byID ==> i != 0 && t.byID[i] in t.byAddr && t.byAddr[t.byID[i]] == i)
  }

  /** A new address gets the first free id after the counter. */
  ghost predicate Opens(t: Table, a: Addr, t': Table, id: uint32) {
    && a !in t.byAddr
    && (exists k: nat :: k <= |t.byID| + 2 && FirstFree(t.byID.Keys, t.nextID, k, id))
    && t' == Table(t.byAddr[a := id], t.byID[id := a], id)
  }

  /** One flow is dropped from both maps. */
  ghost predicate Reaps(t: Table, a: Addr, t': Table) {
    && a in t.byAddr
    && t' == Table(t.byAddr - {a}, t.byID - {t.byAddr[a]}, t.nextID)
  }

  ghost predicate Step(t: Table, t': Table) {
    || (exists a, id :: Opens(t, a, t', id))
    || (exists a :: Reaps(t, a, t'))
  }

  ghost predicate IsRun(run: seq<Table>) {
    && |run| > 0 && run[0] == EMPTY
    && forall i, j :: 0 <= i && j == i + 1 && j < |run| ==> Step(run[i], run[j])
  }

  lemma StepKeepsTwin(t: Table, t': Table)
    requires Twin(t) && Step(t, t')
    ensures Twin(t')
  {
    if a, id :| Opens(t, a, t', id) {
      assert id !in t.byID;
    }
  }

  /** Twin maps in every reachable table, whatever the order of openings and reapings. */
  lemma {:induction false} TwinInEveryRun(run: seq<Table>)
    requires IsRun(run)
    ensures forall i :: 0 <= i < |run| ==> Twin(run[i])
  {
    if |run| > 1 {
      var n := |run| - 1;
      TwinInEveryRun(run[..n]);
      assert run[..n][n - 1] == run[n - 1];
      StepKeepsTwin(run[n - 1], run[n]);
      forall i | 0 <= i < |run| ensures Twin(run[i]) {
        if i < n { assert run[..n][i] == run[i]; }
      }
    }
  }

  /** An opening leaves nothing to chance: the id and the new table follow from the old one. */
  lemma OpensOneWay(t: Table, a: Addr, t1: Table, id1: uint32, t2: Table, id2: uint32)
    requires Opens(t, a, t1, id1) && Opens(t, a, t2, id2)
    ensures id1 == id2 && t1 == t2
  {
    var k1: nat :| FirstFree(t.byID.Keys, t.nextID, k1, id1);
    var k2: nat :| FirstFree(t.byID.Keys, t.nextID, k2, id2);
    FirstFreeUnique(t.byID.Keys, t.nextID, k1, id1, k2, id2);
  }

  /** A new flow can be opened exactly while fewer than 2^32 - 1 are live. */
  lemma CanOpenIff(t: Table, a: Addr)
    requires Twin(t) && a !in t.byAddr
    ensures (exists id, t' :: Opens(t, a, t', id)) <==> |t.byID| < WORD_SPACE - 1
  {
    SearchEndsIff(t.byID.Keys, t.nextID);
    if |t.byID| < WORD_SPACE - 1 {
      SearchEnds(t.byID.Keys, t.nextID);
      var k: nat :| k <= |t.byID| + 2 && FirstFree(t.byID.Keys, t.nextID, k, Probe(t.nextID, k));
      var id := Probe(t.nextID, k);
      assert Opens(t, a, Table(t.byAddr[a := id], t.byID[id := a], id), id);
    }
  }
}
