/**
 CRC-32 as in section 8 of RFC 1952, and why it notices every change that is
 confined to four neighbouring bytes, or to 32 consecutive bits.

 The word operations are named so that the algebra below can be done on the
 names; each law of an operation is a lemma of its own.
 */
module Crc32 {
  type Bytes = seq<bv8>

  const ONES: bv32 := 0xFFFF_FFFF

  function Xor(x: bv32, y: bv32): bv32 { x ^ y }
  function Low(x: bv32): bv32 { x & 0xFF }
  function High(x: bv32): bv32 { x >> 8 }
  function Up(x: bv32): bv32 { x << 8 }
  function Double(x: bv32): bv32 { x << 1 }
  function Wide(b: bv8): bv32 { b as bv32 }
  predicate TopBitClear(x: bv32) { x & 0x8000_0000 == 0 }
  predicate TopByteClear(x: bv32) { x & 0xFF00_0000 == 0 }

  function Half(r: bv32): bv32 { r >> 1 }

  /** The polynomial, when the bit divided away is set. */
  function Taps(r: bv32): bv32 { if r & 1 == 1 then 0xEDB88320 else 0 }

  /** One bit of polynomial division, low bit first. */
  function BitStep(r: bv32): bv32 {
    Xor(Half(r), Taps(r))
  }

  function Steps(r: bv32, n: nat): bv32 {
    if n == 0 then r else BitStep(Steps(r, n - 1))
  }

  /** The entry of the 256-word table for one byte value. */
  function TableEntry(b: bv32): bv32 {
    Steps(b, 8)
  }

  /** The register after one more byte. */
  function Update(r: bv32, b: bv8): bv32 {
    Xor(TableEntry(Low(Xor(r, Wide(b)))), High(r))
  }

  /** The register after the bytes of `s`, starting from `r`. */
  function Register(r: bv32, s: Bytes): bv32 {
    if s == [] then r else Update(Register(r, s[..|s| - 1]), s[|s| - 1])
  }

  function Checksum(s: Bytes): bv32 {
    Xor(Register(ONES, s), ONES)
  }

  // ---- little-endian words ----

  function PutUint32(w: bv32): (s: Bytes)
    ensures |s| == 4
  {
    [(w & 0xFF) as bv8, ((w >> 8) & 0xFF) as bv8, ((w >> 16) & 0xFF) as bv8, (w >> 24) as bv8]
  }

  function GetUint32(s: Bytes): bv32
    requires |s| >= 4
  {
    (s[0] as bv32) | ((s[1] as bv32) << 8) | ((s[2] as bv32) << 16) | ((s[3] as bv32) << 24)
  }

  lemma GetAfterPut(w: bv32)
    ensures GetUint32(PutUint32(w)) == w
  {
  }

  lemma PutAfterGet(s: Bytes)
    requires |s| == 4
    ensures PutUint32(GetUint32(s)) == s
  {
  }

  lemma GetIsInjective(s: Bytes, t: Bytes)
    requires |s| == |t| == 4
    requires GetUint32(s) == GetUint32(t)
    ensures s == t
  {
    hide GetUint32, PutUint32;
    PutAfterGet(s);
    PutAfterGet(t);
  }

  // ---- laws of the word operations ----

  lemma XorAssoc(x: bv32, y: bv32, z: bv32)
    ensures Xor(Xor(x, y), z) == Xor(x, Xor(y, z))
  {
  }

  lemma XorCommutes(x: bv32, y: bv32)
    ensures Xor(x, y) == Xor(y, x)
  {
  }

  lemma XorCancels(x: bv32, y: bv32, c: bv32)
    requires Xor(x, c) == Xor(y, c)
    ensures x == y
  {
  }

  lemma XorRegroup(x: bv32, p: bv32, y: bv32, q: bv32)
    ensures Xor(Xor(x, p), Xor(y, q)) == Xor(Xor(x, y), Xor(p, q))
  {
    hide Xor;
    XorAssoc(x, p, Xor(y, q));
    XorAssoc(p, y, q);
    XorCommutes(p, y);
    XorAssoc(y, p, q);
    XorAssoc(x, y, Xor(p, q));
  }

  lemma HalfLinear(a: bv32, b: bv32)
    ensures Half(Xor(a, b)) == Xor(Half(a), Half(b))
  {
  }

  lemma TapsLinear(a: bv32, b: bv32)
    ensures Taps(Xor(a, b)) == Xor(Taps(a), Taps(b))
  {
    assert ((a ^ b) & 1 == 1) <==> ((a & 1 == 1) != (b & 1 == 1));
  }

  lemma BitStepLinear(a: bv32, b: bv32)
    ensures BitStep(Xor(a, b)) == Xor(BitStep(a), BitStep(b))
  {
    hide Xor, Half, Taps;
    HalfLinear(a, b);
    TapsLinear(a, b);
    XorRegroup(Half(a), Taps(a), Half(b), Taps(b));
  }

  lemma BitStepInjective(a: bv32, b: bv32)
    requires BitStep(a) == BitStep(b)
    ensures a == b
  {
  }

  lemma BitStepOfEven(h: bv32)
    requires TopBitClear(h)
    ensures BitStep(Double(h)) == h
  {
  }

  lemma {:induction false} StepsInjective(a: bv32, b: bv32, n: nat)
    requires Steps(a, n) == Steps(b, n)
    ensures a == b
  {
    hide BitStep;
    if n > 0 {
      BitStepInjective(Steps(a, n - 1), Steps(b, n - 1));
      StepsInjective(a, b, n - 1);
    }
  }

  /** `y` moved up by `n` bits, one at a time. */
  function Raise(y: bv32, n: nat): bv32
    decreases n
  {
    if n == 0 then y else Raise(Double(y), n - 1)
  }

  /** The top `n` bits of `y` are clear. */
  predicate TopClear(y: bv32, n: nat)
    decreases n
  {
    n == 0 || (TopBitClear(y) && TopClear(Double(y), n - 1))
  }

  /** Bits above the ones being divided away only move down. */
  lemma {:induction false} StepsOverHighBits(x: bv32, y: bv32, n: nat)
    requires TopClear(y, n)
    ensures Steps(Xor(x, Raise(y, n)), n) == Xor(Steps(x, n), y)
    decreases n
  {
    hide BitStep, Xor, Double, TopBitClear;
    if n > 0 {
      StepsOverHighBits(x, Double(y), n - 1);
      BitStepLinear(Steps(x, n - 1), Double(y));
      BitStepOfEven(y);
    }
  }

  lemma {:induction false} ClearInParts(y: bv32, m: nat, n: nat)
    requires TopClear(y, m) && TopClear(Raise(y, m), n)
    ensures TopClear(y, m + n) && Raise(y, m + n) == Raise(Raise(y, m), n)
    decreases m
  {
    hide Double, TopBitClear;
    if m > 0 {
      ClearInParts(Double(y), m - 1, n);
    }
  }

  lemma TwoClear(y: bv32)
    requires y & 0xC000_0000 == 0
    ensures TopClear(y, 2) && Raise(y, 2) == y << 2
  {
    assert Raise(y, 2) == Raise(Double(y), 1) == Raise(Double(Double(y)), 0);
  }

  lemma FourClear(y: bv32)
    requires y & 0xF000_0000 == 0
    ensures TopClear(y, 4) && Raise(y, 4) == y << 4
  {
    hide TopClear, Raise;
    TwoClear(y);
    TwoClear(y << 2);
    ClearInParts(y, 2, 2);
  }

  lemma EightClear(y: bv32)
    requires TopByteClear(y)
    ensures TopClear(y, 8) && Raise(y, 8) == Up(y)
  {
    hide TopClear, Raise;
    FourClear(y);
    FourClear(y << 4);
    ClearInParts(y, 4, 4);
  }

  lemma ByteOverHighBits(x: bv32, y: bv32)
    requires TopByteClear(y)
    ensures TableEntry(Xor(x, Up(y))) == Xor(TableEntry(x), y)
  {
    hide Xor, Up, Steps, Raise, TopClear, TopByteClear;
    EightClear(y);
    StepsOverHighBits(x, y, 8);
  }

  lemma LowAndHigh(x: bv32)
    ensures x == Xor(Low(x), Up(High(x))) && TopByteClear(High(x))
  {
  }

  lemma HighUnmixed(r: bv32, b: bv8)
    ensures High(Xor(r, Wide(b))) == High(r)
  {
  }

  /** Looking the mixed low byte up in the table divides the whole mixed register. */
  lemma UpdateIsTable(r: bv32, b: bv8)
    ensures Update(r, b) == TableEntry(Xor(r, Wide(b)))
  {
    hide Xor, Up, Low, High, Wide, TableEntry, TopByteClear;
    LowAndHigh(Xor(r, Wide(b)));
    HighUnmixed(r, b);
    ByteOverHighBits(Low(Xor(r, Wide(b))), High(r));
  }

  lemma UpdateInjective(r: bv32, s: bv32, b: bv8)
    requires Update(r, b) == Update(s, b)
    ensures r == s
  {
    hide Xor, Wide, Update, Steps;
    UpdateIsTable(r, b);
    UpdateIsTable(s, b);
    StepsInjective(Xor(r, Wide(b)), Xor(s, Wide(b)), 8);
    XorCancels(r, s, Wide(b));
  }

  // ---- whole inputs ----

  lemma {:induction false} RegisterConcat(r: bv32, s: Bytes, t: Bytes)
    ensures Register(r, s + t) == Register(Register(r, s), t)
  {
    hide Update;
    if t == [] {
      assert s + t == s;
    } else {
      var u := t[..|t| - 1];
      assert (s + t)[..|s + t| - 1] == s + u;
      RegisterConcat(r, s, u);
    }
  }

  lemma {:induction false} RegisterInjective(r: bv32, q: bv32, s: Bytes)
    requires Register(r, s) == Register(q, s)
    ensures r == q
  {
    hide Update;
    if s != [] {
      UpdateInjective(Register(r, s[..|s| - 1]), Register(q, s[..|s| - 1]), s[|s| - 1]);
      RegisterInjective(r, q, s[..|s| - 1]);
    }
  }

  lemma RegisterAppend(r: bv32, s: Bytes, b: bv8)
    ensures Register(r, s + [b]) == Update(Register(r, s), b)
  {
    assert (s + [b])[..|s|] == s;
  }

  lemma RegisterOfFour(r: bv32, w: Bytes)
    requires |w| == 4
    ensures Register(r, w) == Update(Update(Update(Update(r, w[0]), w[1]), w[2]), w[3])
  {
    hide Update;
    assert w == [] + [w[0]] + [w[1]] + [w[2]] + [w[3]];
    RegisterAppend(r, [], w[0]);
    RegisterAppend(r, [] + [w[0]], w[1]);
    RegisterAppend(r, [] + [w[0]] + [w[1]], w[2]);
    RegisterAppend(r, [] + [w[0]] + [w[1]] + [w[2]], w[3]);
  }

  /** The low byte of a mixed-in value acts now, the rest after one table step. */
  lemma PeelByte(r: bv32, b: bv8, y: bv32)
    requires TopByteClear(y)
    ensures TableEntry(Xor(r, Xor(Wide(b), Up(y)))) == Xor(Update(r, b), y)
  {
    hide Xor, Up, Wide, TableEntry, Update, TopByteClear;
    UpdateIsTable(r, b);
    ByteOverHighBits(Xor(r, Wide(b)), y);
    XorAssoc(r, Wide(b), Up(y));
  }

  lemma WordInFour(a: bv8, b: bv8, c: bv8, d: bv8)
    ensures var h3 := d as bv32;
            var h2 := (c as bv32) ^ (h3 << 8);
            var h1 := (b as bv32) ^ (h2 << 8);
            && h1 & 0xFF00_0000 == 0 && h2 & 0xFF00_0000 == 0 && h3 & 0xFF00_0000 == 0
            && (a as bv32) | ((b as bv32) << 8) | ((c as bv32) << 16) | ((d as bv32) << 24) == (a as bv32) ^ (h1 << 8)
  {
  }

  lemma WordInBytes(w: Bytes)
    requires |w| == 4
    ensures var h3 := Wide(w[3]);
            var h2 := Xor(Wide(w[2]), Up(h3));
            var h1 := Xor(Wide(w[1]), Up(h2));
            && TopByteClear(h1) && TopByteClear(h2) && TopByteClear(h3)
            && GetUint32(w) == Xor(Wide(w[0]), Up(h1))
  {
    WordInFour(w[0], w[1], w[2], w[3]);
  }

  /** Four bytes enter the register as one little-endian word. */
  lemma FourBytesAreOneWord(r: bv32, w: Bytes)
    requires |w| == 4
    ensures Register(r, w) == TableEntry(TableEntry(TableEntry(TableEntry(Xor(r, GetUint32(w))))))
  {
    hide Xor, Up, Wide, TableEntry, Update, TopByteClear, Register, GetUint32;
    var h3 := Wide(w[3]);
    var h2 := Xor(Wide(w[2]), Up(h3));
    var h1 := Xor(Wide(w[1]), Up(h2));
    WordInBytes(w);
    PeelByte(r, w[0], h1);
    var r1 := Update(r, w[0]);
    PeelByte(r1, w[1], h2);
    var r2 := Update(r1, w[1]);
    PeelByte(r2, w[2], h3);
    UpdateIsTable(Update(r2, w[2]), w[3]);
    RegisterOfFour(r, w);
  }

  lemma FourTablesInjective(p: bv32, q: bv32)
    requires TableEntry(TableEntry(TableEntry(TableEntry(p)))) == TableEntry(TableEntry(TableEntry(TableEntry(q))))
    ensures p == q
  {
    hide Steps;
    StepsInjective(TableEntry(TableEntry(TableEntry(p))), TableEntry(TableEntry(TableEntry(q))), 8);
    StepsInjective(TableEntry(TableEntry(p)), TableEntry(TableEntry(q)), 8);
    StepsInjective(TableEntry(p), TableEntry(q), 8);
    StepsInjective(p, q, 8);
  }

  lemma WordEntersInjectively(r: bv32, x: bv32, y: bv32)
    requires TableEntry(TableEntry(TableEntry(TableEntry(Xor(r, x)))))
             == TableEntry(TableEntry(TableEntry(TableEntry(Xor(r, y)))))
    ensures x == y
  {
    hide Xor, TableEntry;
    FourTablesInjective(Xor(r, x), Xor(r, y));
    XorCommutes(r, x);
    XorCommutes(r, y);
    XorCancels(x, y, r);
  }

  /** Equal checksums mean equal registers behind the parts that differ. */
  lemma RegistersMeet(pre: Bytes, v: Bytes, w: Bytes, post: Bytes)
    requires Checksum(pre + v + post) == Checksum(pre + w + post)
    ensures Register(Register(ONES, pre), v) == Register(Register(ONES, pre), w)
  {
    hide Xor, Register;
    var r := Register(ONES, pre);
    RegisterConcat(ONES, pre + v, post);
    RegisterConcat(ONES, pre, v);
    RegisterConcat(ONES, pre + w, post);
    RegisterConcat(ONES, pre, w);
    XorCancels(Register(ONES, pre + v + post), Register(ONES, pre + w + post), ONES);
    RegisterInjective(Register(r, v), Register(r, w), post);
  }

  /**
   Equal checksums around a four-byte window force equal windows: no change of
   at most four neighbouring bytes, wherever it sits and however long the input
   is, keeps the checksum.
   */
  lemma WindowDetermined(pre: Bytes, v: Bytes, w: Bytes, post: Bytes)
    requires |v| == |w| == 4
    requires Checksum(pre + v + post) == Checksum(pre + w + post)
    ensures v == w
  {
    hide Xor, Register, GetUint32, TableEntry;
    var r := Register(ONES, pre);
    RegistersMeet(pre, v, w, post);
    FourBytesAreOneWord(r, v);
    FourBytesAreOneWord(r, w);
    WordEntersInjectively(r, GetUint32(v), GetUint32(w));
    GetIsInjective(v, w);
  }

  // ---- thirty-two consecutive bits, wherever they start ----

  function Lower(x: bv32, n: nat): bv32 {
    if n == 0 then x else Half(Lower(x, n - 1))
  }

  /** The low `n` bits of `x` are clear. */
  predicate LowClear(x: bv32, n: nat) {
    n == 0 || (LowClear(x, n - 1) && Lower(x, n - 1) & 1 == 0)
  }

  lemma BitStepOfClear(x: bv32)
    requires x & 1 == 0
    ensures BitStep(x) == Half(x)
  {
  }

  /** Clear bits are divided away by shifting. */
  lemma {:induction false} StepsOverLowBits(x: bv32, n: nat)
    requires LowClear(x, n)
    ensures Steps(x, n) == Lower(x, n)
  {
    hide BitStep, Half;
    if n > 0 {
      StepsOverLowBits(x, n - 1);
      BitStepOfClear(Lower(x, n - 1));
    }
  }

  lemma {:induction false} StepsInParts(x: bv32, m: nat, n: nat)
    ensures Steps(x, m + n) == Steps(Steps(x, m), n)
    ensures Lower(x, m + n) == Lower(Lower(x, m), n)
  {
    hide BitStep, Half;
    if n > 0 {
      StepsInParts(x, m, n - 1);
    }
  }

  lemma HalfOfDouble(y: bv32)
    requires TopBitClear(y)
    ensures Half(Double(y)) == y
  {
  }

  lemma {:induction false} LowerAfterRaise(y: bv32, n: nat)
    requires TopClear(y, n)
    ensures Lower(Raise(y, n), n) == y
    decreases n
  {
    hide Half, Double, TopBitClear;
    if n > 0 {
      LowerAfterRaise(Double(y), n - 1);
      HalfOfDouble(y);
    }
  }

  lemma StepsOfZero(n: nat)
    ensures Steps(0, n) == 0
  {
    if n > 0 {
      StepsOfZero(n - 1);
    }
  }

  lemma LowerTwo(x: bv32)
    ensures Lower(x, 2) == x >> 2
  {
    assert Lower(x, 2) == Half(Lower(x, 1)) && Lower(x, 1) == Half(Lower(x, 0));
  }

  lemma LowerFour(x: bv32)
    ensures Lower(x, 4) == x >> 4
  {
    hide Lower, Steps;
    LowerTwo(x);
    LowerTwo(x >> 2);
    StepsInParts(x, 2, 2);
  }

  /** Dividing away the eight bits of a byte clears it for good. */
  lemma LowerByte(b: bv32)
    requires b & 0xFFFF_FF00 == 0
    ensures Lower(b, 8) == 0
  {
    hide Lower, Steps;
    LowerFour(b);
    LowerFour(b >> 4);
    StepsInParts(b, 4, 4);
  }

  lemma XorOfBytes(a: bv8, b: bv8)
    ensures Xor(Wide(a), Wide(b)) & 0xFFFF_FF00 == 0
    ensures Xor(Wide(a), Wide(b)) == 0 ==> a == b
  {
  }

  lemma XorWithZero(x: bv32, y: bv32)
    ensures Xor(0, x) == x && Xor(x, x) == 0
    ensures Xor(x, y) == 0 ==> x == y
  {
  }

  /**
   A byte whose difference has its low `k` bits clear, and a word whose difference has its top
   `8 - k` bits clear, cannot make up for each other unless both differences are nothing.
   */
  lemma NoCancelling(first: bv32, rest: bv32, k: nat)
    requires k <= 8 && first & 0xFFFF_FF00 == 0 && LowClear(first, k) && TopClear(rest, 8 - k)
    requires Steps(first, 8) == rest
    ensures first == 0 && rest == 0
  {
    hide Steps, Lower, LowClear, TopClear, Raise, Xor;
    var n := 8 - k;
    StepsInParts(first, k, n);
    StepsOverLowBits(first, k);
    StepsOverHighBits(0, rest, n);
    XorWithZero(Raise(rest, n), 0);
    XorWithZero(rest, 0);
    StepsOfZero(n);
    StepsInjective(Lower(first, k), Raise(rest, n), n);
    LowerAfterRaise(rest, n);
    LowerByte(first);
    StepsOfZero(8);
    StepsInjective(first, 0, 8);
  }

  lemma {:induction false} StepsLinear(a: bv32, b: bv32, n: nat)
    ensures Steps(Xor(a, b), n) == Xor(Steps(a, n), Steps(b, n))
  {
    hide BitStep, Xor;
    if n > 0 {
      StepsLinear(a, b, n - 1);
      BitStepLinear(Steps(a, n - 1), Steps(b, n - 1));
    }
  }

  lemma XorMoves(p: bv32, x: bv32, q: bv32, y: bv32)
    requires Xor(p, x) == Xor(q, y)
    ensures Xor(p, q) == Xor(x, y)
  {
    hide Xor;
    XorRegroup(p, x, q, y);
    XorWithZero(Xor(p, x), 0);
    XorWithZero(Xor(p, q), Xor(x, y));
  }

  lemma XorCommon(r: bv32, a: bv32, b: bv32)
    ensures Xor(Xor(r, a), Xor(r, b)) == Xor(a, b)
  {
    hide Xor;
    XorRegroup(r, a, r, b);
    XorWithZero(r, r);
    XorWithZero(Xor(a, b), 0);
  }

  /**
   The five bytes `[a] + v` and `[b] + w` differ only within 32 consecutive bits, from bit `k`
   of the first byte on.
   */
  predicate WithinBurst(a: bv8, v: Bytes, b: bv8, w: Bytes, k: nat)
    requires |v| == |w| == 4
  {
    && k <= 8
    && LowClear(Xor(Wide(a), Wide(b)), k)
    && TopClear(Xor(GetUint32(v), GetUint32(w)), 8 - k)
  }

  lemma RegisterOfFive(r: bv32, a: bv8, v: Bytes)
    requires |v| == 4
    ensures Register(r, [a] + v) ==
            TableEntry(TableEntry(TableEntry(TableEntry(Xor(Steps(Xor(r, Wide(a)), 8), GetUint32(v))))))
  {
    hide Xor, Update, Steps, GetUint32, Wide;
    RegisterConcat(r, [a], v);
    RegisterAppend(r, [], a);
    assert [] + [a] == [a];
    UpdateIsTable(r, a);
    FourBytesAreOneWord(Update(r, a), v);
  }

  /**
   No change confined to 32 consecutive bits keeps the checksum, at whatever bit it starts and
   however long the input is.
   */
  lemma BurstDetermined(pre: Bytes, a: bv8, v: Bytes, b: bv8, w: Bytes, post: Bytes, k: nat)
    requires |v| == |w| == 4 && WithinBurst(a, v, b, w, k)
    requires Checksum(pre + ([a] + v) + post) == Checksum(pre + ([b] + w) + post)
    ensures a == b && v == w
  {
    hide Xor, Register, GetUint32, TableEntry, Steps, LowClear, TopClear, Wide;
    var r := Register(ONES, pre);
    RegistersMeet(pre, [a] + v, [b] + w, post);
    RegisterOfFive(r, a, v);
    RegisterOfFive(r, b, w);
    var x, y := GetUint32(v), GetUint32(w);
    var p, q := Steps(Xor(r, Wide(a)), 8), Steps(Xor(r, Wide(b)), 8);
    FourTablesInjective(Xor(p, x), Xor(q, y));
    XorMoves(p, x, q, y);
    StepsLinear(Xor(r, Wide(a)), Xor(r, Wide(b)), 8);
    XorCommon(r, Wide(a), Wide(b));
    XorOfBytes(a, b);
    NoCancelling(Xor(Wide(a), Wide(b)), Xor(x, y), k);
    XorWithZero(x, y);
    GetIsInjective(v, w);
  }
}
