/**
 Which CRC it is: the value section 8 of RFC 1952 calls for, in literals, and the register as
 the remainder modulo the polynomial itself, given by its exponents.
 */
module CrcValues {
  import opened Words
  import opened Crc32

  // ---- the check value and the residue ----

  lemma FourSteps(x: bv32)
    ensures Steps(x, 4) == BitStep(BitStep(BitStep(BitStep(x))))
  {
    hide BitStep;
    assert Steps(x, 1) == BitStep(Steps(x, 0)) && Steps(x, 2) == BitStep(Steps(x, 1));
    assert Steps(x, 3) == BitStep(Steps(x, 2)) && Steps(x, 4) == BitStep(Steps(x, 3));
  }

  lemma EightSteps(x: bv32)
    ensures Steps(x, 8) == BitStep(BitStep(BitStep(BitStep(BitStep(BitStep(BitStep(BitStep(x))))))))
  {
    hide BitStep, Steps;
    StepsInParts(x, 4, 4);
    FourSteps(x);
    FourSteps(Steps(x, 4));
  }

  /** The register after the nine bytes "123456789", byte by byte. */
  lemma CheckRegisters()
    ensures Update(0xFFFF_FFFF, 0x31) == 0x7C23_1048 && Update(0x7C23_1048, 0x32) == 0xB0AC_BB32
    ensures Update(0xB0AC_BB32, 0x33) == 0x77B7_9C2D && Update(0x77B7_9C2D, 0x34) == 0x641C_1F5C
    ensures Update(0x641C_1F5C, 0x35) == 0x340A_C5E3 && Update(0x340A_C5E3, 0x36) == 0xF68D_2C9E
    ensures Update(0xF68D_2C9E, 0x37) == 0xAFFC_9660 && Update(0xAFFC_9660, 0x38) == 0x651F_2550
    ensures Update(0x651F_2550, 0x39) == 0x340B_C6D9
  {
    hide Steps;
    EightSteps(0xCE);
    EightSteps(0x7A);
    EightSteps(0x01);
    EightSteps(0x19);
    EightSteps(0x69);
    EightSteps(0xD5);
    EightSteps(0xA9);
    EightSteps(0x58);
    EightSteps(0x69);
  }

  lemma ChecksumOfCheckBytes()
    ensures Checksum([0x31, 0x32, 0x33, 0x34, 0x35, 0x36, 0x37, 0x38, 0x39]) == 0xCBF4_3926
    ensures Checksum([]) == 0
  {
    hide Update;
    CheckRegisters();
    var s4: Bytes, s8: Bytes := [0x31, 0x32, 0x33, 0x34], [0x35, 0x36, 0x37, 0x38];
    RegisterOfFour(0xFFFF_FFFF, s4);
    RegisterOfFour(0x641C_1F5C, s8);
    RegisterConcat(0xFFFF_FFFF, s4, s8);
    RegisterAppend(0xFFFF_FFFF, s4 + s8, 0x39);
    assert s4 + s8 + [0x39] == [0x31, 0x32, 0x33, 0x34, 0x35, 0x36, 0x37, 0x38, 0x39];
  }

  lemma ResidueSteps()
    ensures TableEntry(0xFFFF_FFFF) == 0x2DFD_1072 && TableEntry(0x2DFD_1072) == 0xBE26_ED00
    ensures TableEntry(0xBE26_ED00) == 0x00BE_26ED && TableEntry(0x00BE_26ED) == 0xDEBB_20E3
  {
    hide Steps;
    EightSteps(0xFFFF_FFFF);
    EightSteps(0x2DFD_1072);
    EightSteps(0xBE26_ED00);
    EightSteps(0x00BE_26ED);
  }

  /** Whatever the input, running on over its checksum leaves the register at one and the same value. */
  lemma Residue(s: Bytes)
    ensures Register(0xFFFF_FFFF, s + PutUint32(Checksum(s))) == 0xDEBB_20E3
  {
    hide TableEntry, Register, PutUint32, GetUint32;
    var r := Register(0xFFFF_FFFF, s);
    RegisterConcat(0xFFFF_FFFF, s, PutUint32(Checksum(s)));
    FourBytesAreOneWord(r, PutUint32(Checksum(s)));
    GetAfterPut(Checksum(s));
    assert Xor(r, Xor(r, ONES)) == 0xFFFF_FFFF;
    ResidueSteps();
  }

  // ---- the remainder modulo the polynomial ----

  /** A polynomial over the integers modulo 2, by the exponents that occur in it. */
  type Poly = set<nat>

  const GENERATOR: Poly := {32, 26, 23, 22, 16, 12, 11, 10, 8, 7, 5, 4, 2, 1, 0}

  const ALL_ONES: Poly := set e: nat | e < 32

  function Plus(p: Poly, q: Poly): Poly {
    (p - q) + (q - p)
  }

  /** `p` times x, modulo the generator. */
  function TimesX(p: Poly): Poly {
    var q: Poly := set e | e in p :: e + 1;
    if 32 in q then Plus(q, GENERATOR) else q
  }

  /** M x^32 + init x^n modulo the generator, for the message M of these n bits, by Horner's rule. */
  function Remainder(init: Poly, bits: seq<bool>): Poly {
    if bits == [] then init
    else
      var n := |bits| - 1;
      TimesX(Plus(Remainder(init, bits[..n]), if bits[n] then {31} else {}))
  }

  predicate Bit(x: bv32, i: nat) {
    Lower(x, i) & 1 == 1
  }

  /** The low `n` bits of `x`, the lowest first. */
  function WordBits(x: bv32, n: nat): seq<bool> {
    if n == 0 then [] else WordBits(x, n - 1) + [Bit(x, n - 1)]
  }

  /** All bits of a message in the order of section 3.1.1 of RFC 1952: low bits first. */
  function BitsOf(s: Bytes): seq<bool> {
    if s == [] then [] else BitsOf(s[..|s| - 1]) + WordBits(Wide(s[|s| - 1]), 8)
  }

  /** The lowest bit of a register is the coefficient of the highest power. */
  predicate Occurs(r: bv32, e: nat) {
    e < 32 && Bit(r, 31 - e)
  }

  /** A register as a polynomial. */
  function PolyOf(r: bv32): Poly {
    set e: nat | e < 32 && Occurs(r, e)
  }

  lemma BitOfHalf(r: bv32, i: nat)
    ensures Bit(Half(r), i) == Bit(r, i + 1)
  {
    hide Half, Steps;
    assert Lower(r, 1) == Half(Lower(r, 0));
    StepsInParts(r, 1, i);
  }

  lemma {:induction false} LowerLinear(a: bv32, b: bv32, i: nat)
    ensures Lower(Xor(a, b), i) == Xor(Lower(a, i), Lower(b, i))
  {
    hide Half, Xor;
    if i > 0 {
      LowerLinear(a, b, i - 1);
      HalfLinear(Lower(a, i - 1), Lower(b, i - 1));
    }
  }

  lemma LowBitOfXor(a: bv32, b: bv32)
    ensures (Xor(a, b) & 1 == 1) == ((a & 1 == 1) != (b & 1 == 1))
  {
  }

  lemma BitOfXor(a: bv32, b: bv32, i: nat)
    ensures Bit(Xor(a, b), i) == (Bit(a, i) != Bit(b, i))
  {
    hide Xor, Lower;
    LowerLinear(a, b, i);
    LowBitOfXor(Lower(a, i), Lower(b, i));
  }

  lemma XorIsPlus(a: bv32, b: bv32)
    ensures PolyOf(Xor(a, b)) == Plus(PolyOf(a), PolyOf(b))
  {
    hide Xor, Bit;
    forall e: nat | e < 32 ensures Occurs(Xor(a, b), e) == (Occurs(a, e) != Occurs(b, e)) {
      BitOfXor(a, b, 31 - e);
    }
  }

  lemma LowBits(x: bv32)
    ensures Bit(x, 0) == (x & 1 == 1) && Bit(x, 1) == (x & 2 == 2)
    ensures Bit(x, 2) == (x & 4 == 4) && Bit(x, 3) == (x & 8 == 8)
  {
    assert Lower(x, 1) == Half(Lower(x, 0)) && Lower(x, 2) == Half(Lower(x, 1)) && Lower(x, 3) == Half(Lower(x, 2));
  }

  /** Four bits of `r`, and what is left of it behind them. */
  lemma NextFour(r: bv32, i: nat, x: bv32)
    requires Lower(r, i) == x
    ensures Bit(r, i) == (x & 1 == 1) && Bit(r, i + 1) == (x & 2 == 2)
    ensures Bit(r, i + 2) == (x & 4 == 4) && Bit(r, i + 3) == (x & 8 == 8)
    ensures Lower(r, i + 4) == x >> 4
  {
    hide Lower, Steps;
    LowBits(x);
    LowerFour(x);
    StepsInParts(r, i, 0);
    StepsInParts(r, i, 1);
    StepsInParts(r, i, 2);
    StepsInParts(r, i, 3);
    StepsInParts(r, i, 4);
  }

  lemma NothingLowered(r: bv32)
    ensures Lower(r, 0) == r
  {
  }

  lemma TapsAreGenerator()
    ensures forall e: nat :: e < 32 ==> Occurs(0xEDB8_8320, e) == (e in GENERATOR)
  {
    hide Lower, Bit;
    var r := 0xEDB8_8320;
    NothingLowered(r);
    NextFour(r, 0, 0xEDB8_8320);
    NextFour(r, 4, 0x0EDB_8832);
    NextFour(r, 8, 0x00ED_B883);
    NextFour(r, 12, 0x000E_DB88);
    NextFour(r, 16, 0x0000_EDB8);
    NextFour(r, 20, 0x0000_0EDB);
    NextFour(r, 24, 0x0000_00ED);
    NextFour(r, 28, 0x0000_000E);
  }

  lemma OnesAreAll()
    ensures forall e: nat :: e < 32 ==> Occurs(0xFFFF_FFFF, e)
  {
    hide Lower, Bit;
    var r := 0xFFFF_FFFF;
    NothingLowered(r);
    NextFour(r, 0, 0xFFFF_FFFF);
    NextFour(r, 4, 0x0FFF_FFFF);
    NextFour(r, 8, 0x00FF_FFFF);
    NextFour(r, 12, 0x000F_FFFF);
    NextFour(r, 16, 0x0000_FFFF);
    NextFour(r, 20, 0x0000_0FFF);
    NextFour(r, 24, 0x0000_00FF);
    NextFour(r, 28, 0x0000_000F);
  }

  lemma LowerEight(r: bv32)
    ensures Lower(r, 8) == r >> 8
  {
    hide Lower, Steps;
    LowerFour(r);
    LowerFour(r >> 4);
    StepsInParts(r, 4, 4);
  }

  lemma LowerSixteen(r: bv32)
    ensures Lower(r, 16) == r >> 16
  {
    hide Lower, Steps;
    LowerEight(r);
    LowerEight(r >> 8);
    StepsInParts(r, 8, 8);
  }

  lemma BitThirtyTwo(r: bv32)
    ensures !Bit(r, 32)
  {
    hide Lower, Steps;
    LowerSixteen(r);
    LowerSixteen(r >> 16);
    StepsInParts(r, 16, 16);
  }

  lemma NoneOccurs()
    ensures forall e: nat :: !Occurs(0, e)
  {
    forall e: nat | e < 32 ensures !Occurs(0, e) {
      XorIsPlus(0, 0);
      assert Xor(0, 0) == 0;
      assert Occurs(0, e) <==> e in PolyOf(0);
    }
  }

  lemma TapsOccur(r: bv32, e: nat)
    requires e < 32
    ensures Occurs(Taps(r), e) == (Bit(r, 0) && e in GENERATOR)
  {
    hide Occurs, Bit, Lower;
    TapsAreGenerator();
    NoneOccurs();
    LowBits(r);
  }

  /** One bit of division is one multiplication by x. */
  lemma StepIsTimesX(r: bv32)
    ensures PolyOf(BitStep(r)) == TimesX(PolyOf(r))
  {
    hide Bit, Xor, Half, Taps;
    var q: Poly := set e | e in PolyOf(r) :: e + 1;
    BitThirtyTwo(r);
    forall e: nat | e <= 32 ensures e in q <==> e >= 1 && Bit(r, 32 - e) {
      if e >= 1 && Bit(r, 32 - e) { assert e - 1 in PolyOf(r); }
    }
    forall e: nat | e < 32 ensures Occurs(BitStep(r), e) <==> e in TimesX(PolyOf(r)) {
      BitOfXor(Half(r), Taps(r), 31 - e);
      BitOfHalf(r, 31 - e);
      TapsOccur(r, e);
    }
    assert forall e :: e in TimesX(PolyOf(r)) ==> e < 32;
  }

  lemma OneOccurs()
    ensures PolyOf(1) == {31}
  {
    hide Lower, Bit;
    var r: bv32 := 1;
    NothingLowered(r);
    NextFour(r, 0, 1);
    NextFour(r, 4, 0);
    NextFour(r, 8, 0);
    NextFour(r, 12, 0);
    NextFour(r, 16, 0);
    NextFour(r, 20, 0);
    NextFour(r, 24, 0);
    NextFour(r, 28, 0);
    assert forall e: nat :: e < 32 ==> (Occurs(r, e) <==> e == 31);
  }

  lemma LowBitOccurs(x: bv32)
    ensures PolyOf(x & 1) == if x & 1 == 1 then {31} else {}
  {
    NoneOccurs();
    if x & 1 == 1 {
      OneOccurs();
      assert x & 1 == 1;
    } else {
      assert x & 1 == 0;
    }
  }

  /** The register after `n` bits of `x` have been mixed in one by one. */
  function Fed(r: bv32, x: bv32, n: nat): bv32 {
    if n == 0 then r else BitStep(Xor(Fed(r, x, n - 1), Lower(x, n - 1) & 1))
  }

  lemma EvenAndLow(l: bv32)
    ensures l == Xor(l & 1, l & 0xFFFF_FFFE) && BitStep(l & 0xFFFF_FFFE) == Half(l)
  {
  }

  /** Mixing all bits in at once and dividing is mixing them in one by one. */
  lemma {:induction false} StepsAreFed(r: bv32, x: bv32, n: nat)
    ensures Steps(Xor(r, x), n) == Xor(Fed(r, x, n), Lower(x, n))
  {
    hide BitStep, Half, Xor;
    if n > 0 {
      StepsAreFed(r, x, n - 1);
      var f, l := Fed(r, x, n - 1), Lower(x, n - 1);
      EvenAndLow(l);
      XorAssoc(f, l & 1, l & 0xFFFF_FFFE);
      BitStepLinear(Xor(f, l & 1), l & 0xFFFF_FFFE);
    }
  }

  lemma {:induction false} WordBitsLength(x: bv32, n: nat)
    ensures |WordBits(x, n)| == n
  {
    if n > 0 {
      WordBitsLength(x, n - 1);
    }
  }

  lemma {:induction false} FedIsRemainder(r: bv32, x: bv32, n: nat)
    ensures PolyOf(Fed(r, x, n)) == Remainder(PolyOf(r), WordBits(x, n))
  {
    hide BitStep, Xor, PolyOf, Plus, TimesX, Lower;
    if n > 0 {
      FedIsRemainder(r, x, n - 1);
      var f, l := Fed(r, x, n - 1), Lower(x, n - 1);
      LowBitOccurs(l);
      XorIsPlus(f, l & 1);
      StepIsTimesX(Xor(f, l & 1));
      assert WordBits(x, n)[..n - 1] == WordBits(x, n - 1) by { WordBitsLength(x, n - 1); }
      WordBitsLength(x, n - 1);
    }
  }

  lemma {:induction false} RemainderConcat(init: Poly, s: seq<bool>, t: seq<bool>)
    ensures Remainder(init, s + t) == Remainder(Remainder(init, s), t)
  {
    hide TimesX, Plus;
    if t == [] {
      assert s + t == s;
    } else {
      var n := |t| - 1;
      RemainderConcat(init, s, t[..n]);
      assert (s + t)[..|s| + n] == s + t[..n];
    }
  }

  lemma ByteIsNarrow(b: bv8)
    ensures Wide(b) & 0xFFFF_FF00 == 0
  {
  }

  lemma UpdateIsRemainder(r: bv32, b: bv8)
    ensures PolyOf(Update(r, b)) == Remainder(PolyOf(r), WordBits(Wide(b), 8))
  {
    hide Xor, Steps, Update, PolyOf, Fed, Lower, WordBits, Remainder, Wide;
    UpdateIsTable(r, b);
    StepsAreFed(r, Wide(b), 8);
    ByteIsNarrow(b);
    LowerByte(Wide(b));
    XorWithZero(Fed(r, Wide(b), 8), 0);
    XorCommutes(Fed(r, Wide(b), 8), 0);
    FedIsRemainder(r, Wide(b), 8);
  }

  /** The register is a remainder modulo the generator. */
  lemma {:induction false} RegisterIsRemainder(r: bv32, s: Bytes)
    ensures PolyOf(Register(r, s)) == Remainder(PolyOf(r), BitsOf(s))
  {
    hide Update, PolyOf, WordBits, Wide;
    if s != [] {
      var n := |s| - 1;
      RegisterIsRemainder(r, s[..n]);
      UpdateIsRemainder(Register(r, s[..n]), s[n]);
      RemainderConcat(PolyOf(r), BitsOf(s[..n]), WordBits(Wide(s[n]), 8));
    }
  }

  /**
   The checksum of a message M of n bits is the complement of the remainder of
   M x^32 + (x^31 + ... + x + 1) x^n modulo
   x^32 + x^26 + x^23 + x^22 + x^16 + x^12 + x^11 + x^10 + x^8 + x^7 + x^5 + x^4 + x^2 + x + 1.
   */
  lemma ChecksumIsRemainder(s: Bytes)
    ensures forall e: nat :: e < 32 ==>
              (Occurs(Checksum(s), e) <==> e !in Remainder(ALL_ONES, BitsOf(s)))
  {
    hide Register, Bit, Xor, Remainder;
    OnesAreAll();
    assert PolyOf(0xFFFF_FFFF) == ALL_ONES;
    RegisterIsRemainder(0xFFFF_FFFF, s);
    XorIsPlus(Register(0xFFFF_FFFF, s), 0xFFFF_FFFF);
    forall e: nat | e < 32 ensures Occurs(Checksum(s), e) <==> e !in Remainder(ALL_ONES, BitsOf(s)) {
      assert Occurs(Checksum(s), e) <==> e in PolyOf(Checksum(s));
    }
  }
}
