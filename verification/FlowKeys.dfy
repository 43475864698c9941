/**
 The server's map key, `client.String() + "|" + decimal(id)` (flowKey in
 udptun/server.go), and the reader that takes it apart again.
 */
module FlowKeys {
  import opened Words

  const DIGITS := "0123456789"

  /** strconv.FormatUint in base 10. */
  function Decimal(n: nat): string {
    if n < 10 then [DIGITS[n]] else Decimal(n / 10) + [DIGITS[n % 10]]
  }

  function FlowKey(client: string, id: uint32): string {
    client + "|" + Decimal(id)
  }

  function DigitValue(c: char): nat {
    if '0' <= c <= '9' then (c as int) - ('0' as int) else 0
  }

  function Value(s: string): nat {
    if s == "" then 0 else 10 * Value(s[..|s| - 1]) + DigitValue(s[|s| - 1])
  }

  /** The position of the last `|`, or |s| when there is none. */
  function LastBar(s: string): (i: nat)
    ensures i <= |s|
    ensures i < |s| ==> s[i] == '|' && '|' !in s[i + 1..]
  {
    if s == "" then 0
    else if s[|s| - 1] == '|' then |s| - 1
    else
      var j := LastBar(s[..|s| - 1]);
      if j == |s| - 1 then |s|
      else
        assert s[j + 1..] == s[..|s| - 1][j + 1..] + [s[|s| - 1]];
        j
  }

  /** Reads a key back: everything before the last `|`, and the number after it. */
  function ReadKey(key: string): (string, nat) {
    var i := LastBar(key);
    if i < |key| then (key[..i], Value(key[i + 1..])) else (key, 0)
  }

  lemma DigitReadsBack(d: nat)
    requires d < 10
    ensures DigitValue(DIGITS[d]) == d && DIGITS[d] != '|'
  {
  }

  lemma {:induction false} DecimalReadsBack(n: nat)
    ensures Value(Decimal(n)) == n
    ensures '|' !in Decimal(n)
  {
    if n < 10 {
      assert Decimal(n)[..0] == "";
      DigitReadsBack(n);
    } else {
      var d := Decimal(n / 10);
      DecimalReadsBack(n / 10);
      DigitReadsBack(n % 10);
      assert Decimal(n)[..|d|] == d;
    }
  }

  /** Digits only, and no zero in front of a number but zero itself. */
  lemma {:induction false} DecimalIsPlain(n: nat)
    ensures Decimal(n) != "" && forall i :: 0 <= i < |Decimal(n)| ==> '0' <= Decimal(n)[i] <= '9'
    ensures Decimal(n)[0] == '0' <==> n == 0
  {
    if n >= 10 {
      DecimalIsPlain(n / 10);
      DecimalIsPlain(n % 10);
    }
  }

  lemma KeyLooksLike()
    ensures FlowKey("10.0.0.1:4000", 65537) == "10.0.0.1:4000|65537"
  {
    assert Decimal(65) == "65" && Decimal(655) == "655" && Decimal(6553) == "6553";
  }

  lemma {:induction false} LastBarAfterTail(s: string, tail: string)
    requires '|' !in tail
    ensures LastBar(s + "|" + tail) == |s|
  {
    var k := s + "|" + tail;
    if tail == "" {
      assert k[|k| - 1] == '|';
    } else {
      var t := tail[..|tail| - 1];
      assert k[..|k| - 1] == s + "|" + t;
      assert k[|k| - 1] == tail[|tail| - 1];
      LastBarAfterTail(s, t);
    }
  }

  /** Reading a key gives back the client and the id it was made of, whatever the client string holds. */
  lemma ReadAfterMake(client: string, id: uint32)
    ensures ReadKey(FlowKey(client, id)) == (client, id)
  {
    DecimalReadsBack(id);
    LastBarAfterTail(client, Decimal(id));
    var key := FlowKey(client, id);
    assert key[..|client|] == client;
    assert key[|client| + 1..] == Decimal(id);
  }

  /** Two (client, id) pairs share a key only when they are the same pair. */
  lemma FlowKeyInjective(c1: string, i1: uint32, c2: string, i2: uint32)
    ensures FlowKey(c1, i1) == FlowKey(c2, i2) <==> c1 == c2 && i1 == i2
  {
    ReadAfterMake(c1, i1);
    ReadAfterMake(c2, i2);
  }
}
