/**
 Which mux slot each accepted connection gets (client/main.go): slot `rr % numconn` with a
 16-bit counter that wraps.
 */
module RoundRobin {
  const WRAP := 0x1_0000

  /** The slot of accept number `i`, counted from 0. */
  function Slot(numconn: nat, i: nat): nat
    requires 0 < numconn < WRAP
  {
    i % WRAP % numconn
  }

  /** How many of the first `accepts` connections slot `j` got. */
  function Served(numconn: nat, accepts: nat, j: nat): nat
    requires 0 < numconn < WRAP
  {
    if accepts == 0 then 0
    else Served(numconn, accepts - 1, j) + (if Slot(numconn, accepts - 1) == j then 1 else 0)
  }

  /** The lead of slot `j` over slot `k` within one turn of the counter, after `m` accepts of it. */
  function Lead(numconn: nat, m: nat, j: nat, k: nat): nat
    requires numconn > 0
  {
    if j < m % numconn <= k then 1 else 0
  }

  lemma MultipleAtLeast(n: nat, d: nat)
    requires d >= 1
    ensures n * d >= n
  {
  }

  lemma LargerQuotient(n: nat, q: nat, r: nat, q': nat, r': nat)
    requires q < q' && n * q + r == n * q' + r'
    ensures r >= n
  {
    MultipleAtLeast(n, q' - q);
    assert n * (q' - q) == n * q' - n * q;
  }

  lemma QuotientUnique(n: nat, q: nat, r: nat, q': nat, r': nat)
    requires r < n && r' < n && n * q + r == n * q' + r'
    ensures q == q' && r == r'
  {
    if q < q' {
      LargerQuotient(n, q, r, q', r');
    } else if q' < q {
      LargerQuotient(n, q', r', q, r);
    }
  }

  lemma NextRemainder(m: nat, n: nat)
    requires n > 0
    ensures (m + 1) % n == if m % n + 1 == n then 0 else m % n + 1
  {
    var q, r := m / n, m % n;
    var q', r' := (m + 1) / n, (m + 1) % n;
    assert m == n * q + r && m + 1 == n * q' + r';
    if r + 1 == n {
      assert n * (q + 1) == n * q + n;
      QuotientUnique(n, q + 1, 0, q', r');
    } else {
      QuotientUnique(n, q, r + 1, q', r');
    }
  }

  lemma LeadStep(numconn: nat, m: nat, j: nat, k: nat)
    requires j < k < numconn
    ensures Lead(numconn, m + 1, j, k) ==
            Lead(numconn, m, j, k) + (if m % numconn == j then 1 else 0) - (if m % numconn == k then 1 else 0)
  {
    NextRemainder(m, numconn);
  }

  lemma Distribute(q: nat, d: nat)
    ensures (q + 1) * d == q * d + d
  {
  }

  /** The exact difference between two slots: one lead per whole turn, and the lead of the turn under way. */
  lemma {:induction false} ServedDifference(numconn: nat, accepts: nat, j: nat, k: nat)
    requires 0 < numconn < WRAP && j < k < numconn
    ensures Served(numconn, accepts, j) - Served(numconn, accepts, k)
            == accepts / WRAP * Lead(numconn, WRAP, j, k) + Lead(numconn, accepts % WRAP, j, k)
  {
    if accepts > 0 {
      var n := accepts - 1;
      ServedDifference(numconn, n, j, k);
      LeadStep(numconn, n % WRAP, j, k);
      if n % WRAP + 1 == WRAP {
        assert accepts / WRAP == n / WRAP + 1 && accepts % WRAP == 0;
        Distribute(n / WRAP, Lead(numconn, WRAP, j, k));
      } else {
        assert accepts / WRAP == n / WRAP && accepts % WRAP == n % WRAP + 1;
      }
    }
  }

  /** After N accepts two slots differ by at most N/65536 + 1, the lower-numbered one leading. */
  lemma SlotsDifferLittle(numconn: nat, accepts: nat, j: nat, k: nat)
    requires 0 < numconn < WRAP && j < k < numconn
    ensures 0 <= Served(numconn, accepts, j) - Served(numconn, accepts, k) <= accepts / 65536 + 1
    ensures 65536 % numconn == 0 ==> Served(numconn, accepts, j) - Served(numconn, accepts, k) <= 1
  {
    ServedDifference(numconn, accepts, j, k);
    var d := Lead(numconn, WRAP, j, k);
    assert d == 0 || d == 1;
    assert accepts / WRAP * d == if d == 0 then 0 else accepts / WRAP;
  }

  ghost predicate EvenForEver(numconn: nat)
    requires 0 < numconn < WRAP
  {
    forall accepts: nat, j: nat, k: nat :: j < k < numconn ==>
      Served(numconn, accepts, j) - Served(numconn, accepts, k) <= 1
  }

  /** The slots stay within one of each other for ever exactly when numconn divides 65536. */
  lemma EvenForEverIff(numconn: nat)
    requires 0 < numconn < WRAP
    ensures EvenForEver(numconn) <==> 65536 % numconn == 0
  {
    if WRAP % numconn == 0 {
      forall accepts: nat, j: nat, k: nat | j < k < numconn
        ensures Served(numconn, accepts, j) - Served(numconn, accepts, k) <= 1
      {
        SlotsDifferLittle(numconn, accepts, j, k);
      }
    } else {
      var k := numconn - 1;
      ServedDifference(numconn, WRAP + 1, 0, k);
      assert Lead(numconn, WRAP, 0, k) == 1 && Lead(numconn, 1, 0, k) == 1;
      assert (WRAP + 1) / WRAP == 1 && (WRAP + 1) % WRAP == 1;
      assert Served(numconn, WRAP + 1, 0) - Served(numconn, WRAP + 1, k) == 2;
    }
  }
}
