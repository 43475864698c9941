/**
 The datagram codec of udptun/packet.go: `nonce[16] | crc32[4] | flowID[4] | payload`,
 encrypted as a whole. The block cipher is any invertible map that keeps lengths;
 the AES block behind the nonces is any permutation of 16-byte blocks.
 */
module Packet {
  import opened Crc32

  const NONCE_SIZE := 16
  const CRC_SIZE := 4
  const FLOW_ID_SIZE := 4
  const HEADER_SIZE := NONCE_SIZE + CRC_SIZE + FLOW_ID_SIZE
  const KEEP_ALIVE_FLOW: bv32 := 0

  datatype Cipher = Cipher(encrypt: Bytes -> Bytes, decrypt: Bytes -> Bytes)

  ghost predicate Invertible(c: Cipher) {
    forall b: Bytes ::
      && |c.encrypt(b)| == |c.decrypt(b)| == |b|
      && c.decrypt(c.encrypt(b)) == b
      && c.encrypt(c.decrypt(b)) == b
  }

  datatype SealResult = Sealed(length: nat) | ErrBufTooSmall
  datatype OpenResult = Opened(flowID: bv32, payload: Bytes) | ErrShortPacket | ErrChecksum

  // ---- the wire format on values ----

  /** The part the checksum covers. */
  function Body(flowID: bv32, payload: Bytes): Bytes {
    PutUint32(flowID) + payload
  }

  function Plain(nonce: Bytes, flowID: bv32, payload: Bytes): Bytes {
    nonce + PutUint32(Checksum(Body(flowID, payload))) + Body(flowID, payload)
  }

  function SealBytes(c: Cipher, nonce: Bytes, flowID: bv32, payload: Bytes): Bytes {
    c.encrypt(Plain(nonce, flowID, payload))
  }

  /** Open after decryption; the first 16 bytes play no part. */
  function OpenPlain(plain: Bytes): OpenResult
    requires |plain| >= HEADER_SIZE
  {
    var body := plain[NONCE_SIZE..];
    if Checksum(body[CRC_SIZE..]) != GetUint32(body) then ErrChecksum
    else Opened(GetUint32(body[CRC_SIZE..]), body[CRC_SIZE + FLOW_ID_SIZE..])
  }

  function OpenBytes(c: Cipher, buf: Bytes): OpenResult
    requires |c.decrypt(buf)| == |buf|
  {
    if |buf| < HEADER_SIZE then ErrShortPacket else OpenPlain(c.decrypt(buf))
  }

  // ---- laws of the format ----

  lemma PlainFields(nonce: Bytes, flowID: bv32, payload: Bytes)
    requires |nonce| == NONCE_SIZE
    ensures var p := Plain(nonce, flowID, payload);
            && |p| == HEADER_SIZE + |payload|
            && p[..16] == nonce
            && p[16..][..4] == PutUint32(Checksum(Body(flowID, payload)))
            && p[16..][4..] == Body(flowID, payload)
            && p[16..][4..][..4] == PutUint32(flowID)
            && p[16..][8..] == payload
  {
    var p := Plain(nonce, flowID, payload);
    hide PutUint32, Checksum;
    assert p[16..] == PutUint32(Checksum(Body(flowID, payload))) + Body(flowID, payload);
    assert p[16..][4..] == Body(flowID, payload);
    assert p[16..][8..] == p[16..][4..][4..];
  }

  lemma SplitPlain(nonce: Bytes, flowID: bv32, payload: Bytes)
    ensures Plain(nonce, flowID, payload) == nonce
            + (PutUint32(Checksum(Body(flowID, payload))) + Body(flowID, payload))
  {
  }

  lemma GetUint32OfPrefix(s: Bytes)
    requires |s| >= 4
    ensures GetUint32(s) == GetUint32(s[..4])
  {
  }

  /** Four bytes from position `i` on, the lowest first. */
  function LowFirst(s: Bytes, i: nat): bv32
    requires i + 4 <= |s|
  {
    (s[i] as bv32) | ((s[i + 1] as bv32) << 8) | ((s[i + 2] as bv32) << 16) | ((s[i + 3] as bv32) << 24)
  }

  lemma LowFirstReads(s: Bytes, i: nat)
    requires i + 4 <= |s|
    ensures GetUint32(s[i..]) == LowFirst(s, i)
  {
  }

  /**
   The datagram byte by byte: behind decryption stand 16 bytes of nonce, the checksum of all that
   follows it, low byte first, the flow id, low byte first, and the payload.
   */
  lemma WireLayout(c: Cipher, nonce: Bytes, flowID: bv32, payload: Bytes)
    requires Invertible(c) && |nonce| == 16
    ensures var p := c.decrypt(SealBytes(c, nonce, flowID, payload));
            && |p| == 24 + |payload| && p[..16] == nonce && p[24..] == payload
            && LowFirst(p, 16) == Checksum(p[20..]) && LowFirst(p, 20) == flowID
  {
    hide Checksum, PutUint32, GetUint32, LowFirst;
    var p := c.decrypt(SealBytes(c, nonce, flowID, payload));
    assert p == Plain(nonce, flowID, payload);
    PlainFields(nonce, flowID, payload);
    assert p[20..] == p[16..][4..] && p[24..] == p[16..][8..];
    LowFirstReads(p, 16);
    LowFirstReads(p, 20);
    GetUint32OfPrefix(p[16..]);
    GetUint32OfPrefix(p[20..]);
    GetAfterPut(Checksum(Body(flowID, payload)));
    GetAfterPut(flowID);
  }

  /** Which of the three verdicts: too short below 24 bytes, a wrong checksum, or opened. */
  lemma OpenVerdicts(c: Cipher, buf: Bytes)
    requires Invertible(c)
    ensures OpenBytes(c, buf) == ErrShortPacket <==> |buf| < 24
    ensures OpenBytes(c, buf) == ErrChecksum <==>
            |buf| >= 24 && LowFirst(c.decrypt(buf), 16) != Checksum(c.decrypt(buf)[20..])
  {
    hide Checksum, GetUint32, LowFirst;
    if |buf| >= 24 {
      var p := c.decrypt(buf);
      assert p[16..][4..] == p[20..];
      LowFirstReads(p, 16);
    }
  }

  /** Whatever was sealed opens to the same flow id and payload. */
  lemma OpenAfterSeal(c: Cipher, nonce: Bytes, flowID: bv32, payload: Bytes)
    requires Invertible(c) && |nonce| == NONCE_SIZE
    ensures |SealBytes(c, nonce, flowID, payload)| == HEADER_SIZE + |payload|
    ensures OpenBytes(c, SealBytes(c, nonce, flowID, payload)) == Opened(flowID, payload)
  {
    hide Plain, Checksum, GetUint32, PutUint32;
    var p := Plain(nonce, flowID, payload);
    PlainFields(nonce, flowID, payload);
    assert c.decrypt(c.encrypt(p)) == p;
    GetUint32OfPrefix(p[16..]);
    GetUint32OfPrefix(p[16..][4..]);
    GetAfterPut(flowID);
    GetAfterPut(Checksum(Body(flowID, payload)));
  }

  lemma PlainOfOpened(p: Bytes, flowID: bv32, payload: Bytes)
    requires |p| >= HEADER_SIZE && OpenPlain(p) == Opened(flowID, payload)
    ensures p == Plain(p[..16], flowID, payload)
  {
    hide Checksum, GetUint32, PutUint32;
    var body := p[16..];
    GetUint32OfPrefix(body);
    PutAfterGet(body[..4]);
    GetUint32OfPrefix(body[4..]);
    PutAfterGet(body[4..][..4]);
    assert body[4..] == body[4..][..4] + body[8..];
    assert p == p[..16] + body[..4] + body[4..];
  }

  lemma SealOfPlain(c: Cipher, buf: Bytes, nonce: Bytes, flowID: bv32, payload: Bytes)
    requires Invertible(c) && c.decrypt(buf) == Plain(nonce, flowID, payload)
    ensures buf == SealBytes(c, nonce, flowID, payload)
  {
    assert c.encrypt(c.decrypt(buf)) == buf;
  }

  /**
   Open accepts exactly the datagrams that Seal can produce, with any nonce:
   the other half of the round trip.
   */
  lemma OpenAcceptsExactlySealed(c: Cipher, buf: Bytes, flowID: bv32, payload: Bytes)
    requires Invertible(c)
    ensures OpenBytes(c, buf) == Opened(flowID, payload) <==>
            exists nonce: Bytes :: |nonce| == NONCE_SIZE && buf == SealBytes(c, nonce, flowID, payload)
  {
    hide Plain, SealBytes, OpenPlain;
    if OpenBytes(c, buf) == Opened(flowID, payload) {
      var p := c.decrypt(buf);
      PlainOfOpened(p, flowID, payload);
      SealOfPlain(c, buf, p[..16], flowID, payload);
    }
    if nonce: Bytes :| |nonce| == NONCE_SIZE && buf == SealBytes(c, nonce, flowID, payload) {
      OpenAfterSeal(c, nonce, flowID, payload);
    }
  }

  lemma ChecksumDecides(c: Cipher, buf: Bytes, nonce: Bytes, sum: bv32, body: Bytes)
    requires Invertible(c) && |nonce| == NONCE_SIZE && |body| >= FLOW_ID_SIZE
    requires c.decrypt(buf) == nonce + PutUint32(sum) + body
    ensures Checksum(body) != sum ==> OpenBytes(c, buf) == ErrChecksum
  {
    hide Checksum, GetUint32, PutUint32;
    var p := c.decrypt(buf);
    assert p[16..] == PutUint32(sum) + body;
    assert p[16..][4..] == body;
    GetUint32OfPrefix(p[16..]);
    GetAfterPut(sum);
  }

  /**
   A datagram whose decryption differs from a sealed plaintext only inside one
   four-byte window of `flowID | payload` is rejected; what became of the nonce
   does not matter.
   */
  lemma WindowChangeRejected(c: Cipher, flowID: bv32, payload: Bytes, buf: Bytes, nonce: Bytes, pre: Bytes, v: Bytes,
      w: Bytes, post: Bytes)
    requires Invertible(c) && |nonce| == NONCE_SIZE
    requires |v| == |w| == 4 && v != w
    requires Body(flowID, payload) == pre + v + post
    requires c.decrypt(buf) == nonce + PutUint32(Checksum(Body(flowID, payload))) + (pre + w + post)
    ensures OpenBytes(c, buf) == ErrChecksum
  {
    hide Checksum, GetUint32, PutUint32;
    ChecksumDecides(c, buf, nonce, Checksum(Body(flowID, payload)), pre + w + post);
    if Checksum(pre + w + post) == Checksum(Body(flowID, payload)) {
      WindowDetermined(pre, v, w, post);
    }
  }

  /**
   The same for a change inside 32 consecutive bits, which may touch five bytes: nothing that
   is confined to one such burst of `flowID | payload` passes, wherever it starts.
   */
  lemma BurstChangeRejected(c: Cipher, flowID: bv32, payload: Bytes, buf: Bytes, nonce: Bytes, pre: Bytes,
      a: bv8, v: Bytes, b: bv8, w: Bytes, post: Bytes, k: nat)
    requires Invertible(c) && |nonce| == NONCE_SIZE
    requires |v| == |w| == 4 && WithinBurst(a, v, b, w, k) && (a, v) != (b, w)
    requires Body(flowID, payload) == pre + ([a] + v) + post
    requires c.decrypt(buf) == nonce + PutUint32(Checksum(Body(flowID, payload))) + (pre + ([b] + w) + post)
    ensures OpenBytes(c, buf) == ErrChecksum
  {
    hide Checksum, GetUint32, PutUint32, WithinBurst;
    ChecksumDecides(c, buf, nonce, Checksum(Body(flowID, payload)), pre + ([b] + w) + post);
    if Checksum(pre + ([b] + w) + post) == Checksum(Body(flowID, payload)) {
      BurstDetermined(pre, a, v, b, w, post, k);
    }
  }

  /** Changing nothing but the flow id never moves a datagram to another flow. */
  lemma FlowIdChangeRejected(c: Cipher, flowID: bv32, other: bv32, payload: Bytes, buf: Bytes, nonce: Bytes)
    requires Invertible(c) && |nonce| == NONCE_SIZE && flowID != other
    requires c.decrypt(buf) == nonce + PutUint32(Checksum(Body(flowID, payload))) + Body(other, payload)
    ensures OpenBytes(c, buf) == ErrChecksum
  {
    hide Checksum, GetUint32, PutUint32;
    GetAfterPut(flowID);
    GetAfterPut(other);
    assert Body(flowID, payload) == [] + PutUint32(flowID) + payload;
    assert Body(other, payload) == [] + PutUint32(other) + payload;
    WindowChangeRejected(c, flowID, payload, buf, nonce, [], PutUint32(flowID), PutUint32(other), payload);
  }

  // ---- nonces ----

  ghost predicate BlockPermutation(aes: Bytes -> Bytes) {
    && (forall b: Bytes :: |b| == NONCE_SIZE ==> |aes(b)| == NONCE_SIZE)
    && (forall a: Bytes, b: Bytes :: |a| == |b| == NONCE_SIZE && aes(a) == aes(b) ==> a == b)
  }

  /** Each nonce of the log is the block cipher's image of the one before it. */
  ghost predicate NonceChain(aes: Bytes -> Bytes, log: seq<Bytes>) {
    && (forall i :: 0 <= i < |log| ==> |log[i]| == NONCE_SIZE)
    && (forall i, j :: 0 <= i && j == i + 1 && j < |log| ==> log[j] == aes(log[i]))
  }

  lemma ChainGrows(aes: Bytes -> Bytes, log: seq<Bytes>, next: Bytes)
    requires NonceChain(aes, log) && |next| == NONCE_SIZE && (log != [] ==> next == aes(log[|log| - 1]))
    ensures NonceChain(aes, log + [next])
  {
  }

  lemma {:induction false} RepeatRewinds(aes: Bytes -> Bytes, log: seq<Bytes>, i: nat, j: nat)
    requires BlockPermutation(aes) && NonceChain(aes, log)
    requires i < j < |log| && log[i] == log[j]
    ensures log[0] == log[j - i]
  {
    if i > 0 {
      assert log[i] == aes(log[i - 1]) && log[j] == aes(log[j - 1]);
      RepeatRewinds(aes, log, i - 1, j - 1);
    }
  }

  /** The first nonce to come up again is the first one that was issued. */
  lemma FirstRepeatIsFirstNonce(aes: Bytes -> Bytes, log: seq<Bytes>, i: nat, j: nat)
    requires BlockPermutation(aes) && NonceChain(aes, log)
    requires i < j < |log| && log[i] == log[j]
    requires forall a, b :: 0 <= a < b < j ==> log[a] != log[b]
    ensures i == 0
  {
    RepeatRewinds(aes, log, i, j);
  }

  /** From a repeat on, the whole log is periodic from its very start. */
  lemma {:induction false} NoncesArePeriodic(aes: Bytes -> Bytes, log: seq<Bytes>, i: nat, j: nat, k: nat)
    requires BlockPermutation(aes) && NonceChain(aes, log)
    requires i < j < |log| && log[i] == log[j]
    requires k + (j - i) < |log|
    ensures log[k + (j - i)] == log[k]
    decreases k
  {
    if k == 0 {
      RepeatRewinds(aes, log, i, j);
    } else {
      NoncesArePeriodic(aes, log, i, j, k - 1);
      var m := k - 1 + (j - i);
      assert log[k] == aes(log[k - 1]) && log[m + 1] == aes(log[m]);
    }
  }

  // ---- the codec itself ----

  /** `d` with `src` written over it from position `at` on. */
  function Spliced(d: Bytes, at: nat, src: Bytes): (r: Bytes)
    requires at + |src| <= |d|
    ensures |r| == |d|
  {
    d[..at] + src + d[at + |src|..]
  }

  lemma Framed(d: Bytes, id: Bytes, payload: Bytes, sum: Bytes)
    requires |id| == |sum| == 4 && HEADER_SIZE + |payload| <= |d|
    ensures var total := HEADER_SIZE + |payload|;
            var d2 := Spliced(Spliced(d, 20, id), HEADER_SIZE, payload);
            && d2[20..total] == id + payload
            && Spliced(d2, NONCE_SIZE, sum)[NONCE_SIZE..total] == sum + (id + payload)
            && Spliced(d2, NONCE_SIZE, sum)[total..] == d[total..]
  {
    var total := HEADER_SIZE + |payload|;
    var d2 := Spliced(Spliced(d, 20, id), HEADER_SIZE, payload);
    assert d2 == d[..20] + id + payload + d[total..];
    assert Spliced(d2, NONCE_SIZE, sum) == d[..NONCE_SIZE] + sum + id + payload + d[total..];
  }

  lemma SplicedWhole(d: Bytes, src: Bytes)
    requires |src| == |d|
    ensures Spliced(d, 0, src) == src
  {
  }

  lemma BehindHeader(plain: Bytes)
    requires |plain| >= HEADER_SIZE
    ensures plain[NONCE_SIZE..][CRC_SIZE..][FLOW_ID_SIZE..] == plain[HEADER_SIZE..]
    ensures plain[NONCE_SIZE..][CRC_SIZE + FLOW_ID_SIZE..] == plain[HEADER_SIZE..]
  {
  }

  lemma SplicedInFront(d: Bytes, src: Bytes, total: nat)
    requires |src| <= total <= |d|
    ensures Spliced(d, 0, src)[..total] == src + d[|src|..total]
    ensures Spliced(d, 0, src)[total..] == d[total..]
  {
    assert Spliced(d, 0, src) == src + d[|src|..];
  }

  method Blit(dst: array<bv8>, at: nat, src: Bytes)
    requires at + |src| <= dst.Length
    modifies dst
    ensures dst[..at] == old(dst[..at])
    ensures dst[at..at + |src|] == src
    ensures dst[at + |src|..] == old(dst[at + |src|..])
    ensures dst[..] == Spliced(old(dst[..]), at, src)
  {
    forall i | 0 <= i < |src| { dst[at + i] := src[i]; }
  }

  class NonceGen {
    const aes: Bytes -> Bytes
    const seed: array<bv8>
    /** Every nonce handed out so far, oldest first. */
    ghost var issued: seq<Bytes>

    ghost predicate Valid()
      reads this, seed
    {
      && BlockPermutation(aes)
      && seed.Length == NONCE_SIZE
      && NonceChain(aes, issued)
      && (issued != [] ==> issued[|issued| - 1] == seed[..])
    }

    constructor (aes: Bytes -> Bytes, random: Bytes)
      requires BlockPermutation(aes) && |random| == NONCE_SIZE
      ensures Valid() && fresh(seed) && issued == [] && seed[..] == random && this.aes == aes
    {
      this.aes := aes;
      var s := new bv8[NONCE_SIZE](i requires 0 <= i < NONCE_SIZE => random[i]);
      seed := s;
      issued := [];
      new;
      assert seed[..] == random;
    }

    method Fill(dst: array<bv8>)
      requires Valid() && dst != seed && dst.Length >= NONCE_SIZE
      modifies this, seed, dst
      ensures Valid()
      ensures seed[..] == aes(old(seed[..]))
      ensures issued == old(issued) + [seed[..]]
      ensures dst[..] == Spliced(old(dst[..]), 0, seed[..])
    {
      var next := aes(seed[..]);
      assert |next| == NONCE_SIZE;
      ChainGrows(aes, issued, next);
      SplicedWhole(seed[..], next);
      hide Spliced, BlockPermutation, NonceChain;
      Blit(seed, 0, next);
      Blit(dst, 0, seed[..]);
      issued := issued + [seed[..]];
    }
  }

  class Codec {
    const block: Cipher
    const nonce: NonceGen

    ghost predicate Valid()
      reads this, nonce, nonce.seed
    {
      Invertible(block) && nonce.Valid()
    }

    constructor (block: Cipher, nonce: NonceGen)
      requires Invertible(block) && nonce.Valid()
      ensures Valid() && this.block == block && this.nonce == nonce
    {
      this.block := block;
      this.nonce := nonce;
    }

    /** Writes everything but the nonce: `crc32 | flowID | payload`. */
    static method Frame(dst: array<bv8>, flowID: bv32, src: array<bv8>, n: nat)
      requires n <= src.Length && dst != src && HEADER_SIZE + n <= dst.Length
      modifies dst
      ensures dst[NONCE_SIZE..HEADER_SIZE + n] == PutUint32(Checksum(Body(flowID, src[..n]))) + Body(flowID, src[..n])
      ensures dst[HEADER_SIZE + n..] == old(dst[HEADER_SIZE + n..])
    {
      hide PutUint32, Checksum, Spliced;
      var total := HEADER_SIZE + n;
      ghost var d := dst[..];
      Blit(dst, NONCE_SIZE + CRC_SIZE, PutUint32(flowID));
      Blit(dst, HEADER_SIZE, src[..n]);
      var sum := PutUint32(Checksum(dst[NONCE_SIZE + CRC_SIZE..total]));
      Framed(d, PutUint32(flowID), src[..n], sum);
      Blit(dst, NONCE_SIZE, sum);
      assert dst[NONCE_SIZE..total] == dst[..][NONCE_SIZE..total] && dst[total..] == dst[..][total..];
    }

    method Encrypt(dst: array<bv8>, total: nat)
      requires Invertible(block) && total <= dst.Length
      modifies dst
      ensures dst[..total] == block.encrypt(old(dst[..total]))
      ensures dst[total..] == old(dst[total..])
    {
      var enc := block.encrypt(dst[..total]);
      assert |enc| == total;
      Blit(dst, 0, enc);
      assert dst[..total] == dst[0..0 + |enc|];
    }

    /** The next nonce goes in front of what has been framed. */
    method Stamp(dst: array<bv8>, total: nat)
      requires Valid() && dst != nonce.seed && NONCE_SIZE <= total <= dst.Length
      modifies dst, nonce, nonce.seed
      ensures Valid()
      ensures nonce.issued == old(nonce.issued) + [nonce.seed[..]]
      ensures dst[..total] == nonce.seed[..] + old(dst[NONCE_SIZE..total])
      ensures dst[total..] == old(dst[total..])
    {
      hide Spliced, NonceChain;
      ghost var d := dst[..];
      nonce.Fill(dst);
      SplicedInFront(d, nonce.seed[..], total);
      assert dst[..total] == dst[..][..total] && dst[total..] == dst[..][total..];
    }

    /** Frames the first `n` bytes of `src` for `flowID` into `dst`. */
    method Seal(dst: array<bv8>, flowID: bv32, src: array<bv8>, n: nat) returns (r: SealResult)
      requires Valid() && n <= src.Length
      requires dst != src && dst != nonce.seed && src != nonce.seed
      modifies dst, nonce, nonce.seed
      ensures Valid()
      ensures r.ErrBufTooSmall? <==> dst.Length < HEADER_SIZE + n
      ensures r.ErrBufTooSmall? ==> dst[..] == old(dst[..]) && nonce.issued == old(nonce.issued)
      ensures r.Sealed? ==>
                && r.length == HEADER_SIZE + n
                && nonce.issued == old(nonce.issued) + [nonce.seed[..]]
                && dst[..r.length] == SealBytes(block, nonce.seed[..], flowID, src[..n])
                && dst[r.length..] == old(dst[r.length..])
    {
      var total := HEADER_SIZE + n;
      if dst.Length < total { return ErrBufTooSmall; }
      hide Plain, Body, PutUint32, Checksum;
      Frame(dst, flowID, src, n);
      Stamp(dst, total);
      SplitPlain(nonce.seed[..], flowID, src[..n]);
      Encrypt(dst, total);
      return Sealed(total);
    }

    /** Decrypts and checks the first `n` bytes of `buf` in place. */
    method Open(buf: array<bv8>, n: nat) returns (r: OpenResult)
      requires Valid() && n <= buf.Length
      modifies buf
      ensures r == OpenBytes(block, old(buf[..n]))
      ensures r.ErrShortPacket? ==> buf[..] == old(buf[..])
      ensures !r.ErrShortPacket? ==> buf[..n] == block.decrypt(old(buf[..n])) && buf[n..] == old(buf[n..])
      ensures r.Opened? ==> n >= HEADER_SIZE && r.payload == buf[HEADER_SIZE..n]
    {
      if n < HEADER_SIZE { return ErrShortPacket; }
      hide Checksum, GetUint32, Spliced;
      var plain := block.decrypt(buf[..n]);
      Blit(buf, 0, plain);
      assert buf[..n] == buf[0..0 + |plain|] == plain;
      var body := buf[NONCE_SIZE..n];
      assert body == buf[..n][NONCE_SIZE..] && buf[HEADER_SIZE..n] == buf[..n][HEADER_SIZE..];
      BehindHeader(plain);
      if Checksum(body[CRC_SIZE..]) != GetUint32(body) { return ErrChecksum; }
      body := body[CRC_SIZE..];
      return Opened(GetUint32(body), body[FLOW_ID_SIZE..]);
    }
  }
}
