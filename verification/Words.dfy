/** Machine words and small carriers shared by the other modules. */
module Words {
  const WORD_SPACE := 0x1_0000_0000

  /** An unsigned 32-bit word; every addition on it below is written modulo 2^32. */
  type uint32 = x: int | 0 <= x < WORD_SPACE

  /** Clocks count nanoseconds. */
  const SECOND := 1_000_000_000

  /** A network address, in its String() form. */
  type Addr = string

  predicate Rising(at: seq<nat>) {
    forall i, j :: 0 <= i < j < |at| ==> at[i] < at[j]
  }

  datatype Option<+T> = None | Some(value: T)

  function Add32(a: uint32, n: nat): (r: uint32)
  {
    (a + n) % WORD_SPACE
  }

  lemma Add32Assoc(a: uint32, m: nat, n: nat)
    ensures Add32(Add32(a, m), n) == Add32(a, m + n)
  {
  }

  lemma DoubleWord(h: bv32)
    requires h as int < 0x8000_0000
    ensures (h << 1) as int == 2 * (h as int)
    ensures ((h << 1) | 1) as int == 2 * (h as int) + 1
  {
  }

  /** The word of a number, built from its binary digits. */
  function Word(x: uint32): (w: bv32)
    ensures w as int == x
  {
    if x == 0 then 0
    else
      var h := Word(x / 2);
      DoubleWord(h);
      if x % 2 == 0 then h << 1 else (h << 1) | 1
  }

  lemma ValueRoundTrip(a: bv32)
    ensures (a as int) as bv32 == a
  {
  }

  lemma SameValue(a: bv32, b: bv32)
    requires a as int == b as int
    ensures a == b
  {
    ValueRoundTrip(a);
    ValueRoundTrip(b);
  }

  /** The number of a word. */
  function Number(w: bv32): uint32 {
    w as int
  }

  /** Words and numbers correspond one to one. */
  lemma WordsAreNumbers(w: bv32, x: uint32)
    ensures Word(Number(w)) == w
    ensures Number(Word(x)) == x
  {
    SameValue(Word(w as int), w);
  }
}
