/**
 The raw TCP packet transport of rawtcp/conn_linux.go: per-peer sequencing state,
 capture, writing and eviction. A segment is a record of the header fields the code
 looks at; raw sockets are numbered.
 */
module RawTcp {
  import opened Words

  type octet = x: int | 0 <= x < 256

  const FLOW_EXPIRE := 60 * SECOND
  const ORPHAN_EXPIRE := 5 * SECOND
  const CLEAN_PERIOD := 5 * SECOND

  const NOP := 1
  const TIMESTAMPS := 8

  datatype TcpOption = TcpOption(kind: nat, data: seq<octet>)

  datatype Segment = Segment(
    srcPort: nat, dstPort: nat,
    hasSyn: bool, hasFin: bool, hasPsh: bool, hasAck: bool,
    seqNo: uint32, ackNo: uint32,
    options: seq<TcpOption>,
    payload: seq<octet>)

  datatype FlowState = FlowState(
    connected: bool,
    handle: Option<nat>,
    seqNo: uint32,
    ackNo: uint32,
    tsEcr: uint32,
    ts: int)

  datatype Message = Message(bts: seq<octet>, addr: Addr)

  // ---- what one segment and one write do to a flow ----

  function GetBE32(d: seq<octet>): uint32
    requires |d| >= 4
  {
    var hi: int, lo: int := d[0] as int * 0x100 + d[1] as int, d[2] as int * 0x100 + d[3] as int;
    hi * 0x1_0000 + lo
  }

  function PutBE32(x: uint32): (d: seq<octet>)
    ensures |d| == 4 && GetBE32(d) == x
  {
    var hi: int, lo: int := x / 0x1_0000, x % 0x1_0000;
    [hi / 0x100, hi % 0x100, lo / 0x100, lo % 0x100]
  }

  /** The sender's clock in the first well-formed timestamp option (section 3.2 of RFC 7323). */
  function TSval(options: seq<TcpOption>): Option<uint32> {
    if options == [] then None
    else if options[0].kind == TIMESTAMPS && |options[0].data| == 8 then Some(GetBE32(options[0].data[..4]))
    else TSval(options[1..])
  }

  function TSecr(options: seq<TcpOption>): Option<uint32> {
    if options == [] then None
    else if options[0].kind == TIMESTAMPS && |options[0].data| == 8 then Some(GetBE32(options[0].data[4..]))
    else TSecr(options[1..])
  }

  /** Sequence space a segment takes up: its data, and one each for SYN and FIN (section 3.4 of RFC 9293). */
  function SegLen(s: Segment): nat {
    |s.payload| + (if s.hasSyn then 1 else 0) + (if s.hasFin then 1 else 0)
  }

  function End(s: Segment): uint32 {
    Add32(s.seqNo, SegLen(s))
  }

  function NewFlow(now: int): FlowState {
    FlowState(false, None, 0, 0, 0, now)
  }

  function Captured(e: FlowState, s: Segment, handle: nat, now: int): FlowState {
    FlowState(
      e.connected,
      Some(handle),
      if s.hasAck then s.ackNo else e.seqNo,
      if End(s) != s.seqNo && (e.ackNo == 0 || e.ackNo == s.seqNo) then End(s) else e.ackNo,
      if TSval(s.options).Some? then TSval(s.options).value else e.tsEcr,
      now)
  }

  /** The segment WriteTo builds for `p`. */
  function Built(e: FlowState, lport: nat, rport: nat, p: seq<octet>, millis: uint32): Segment {
    Segment(lport, rport, false, false, true, true, e.seqNo, e.ackNo,
            [TcpOption(NOP, []), TcpOption(NOP, []), TcpOption(TIMESTAMPS, PutBE32(millis) + PutBE32(e.tsEcr))], p)
  }

  function Advanced(e: FlowState, n: nat): FlowState {
    e.(seqNo := Add32(e.seqNo, n))
  }

  /** A built segment carries the flow's numbers, and its timestamp option reads back. */
  lemma BuiltFields(e: FlowState, lport: nat, rport: nat, p: seq<octet>, millis: uint32)
    ensures var s := Built(e, lport, rport, p, millis);
            && TSval(s.options) == Some(millis) && TSecr(s.options) == Some(e.tsEcr)
            && End(s) == Advanced(e, |p|).seqNo
  {
    hide PutBE32, GetBE32;
    var d := PutBE32(millis) + PutBE32(e.tsEcr);
    assert d[..4] == PutBE32(millis) && d[4..] == PutBE32(e.tsEcr);
    var o0 := [TcpOption(NOP, []), TcpOption(NOP, []), TcpOption(TIMESTAMPS, d)];
    var o1 := [TcpOption(NOP, []), TcpOption(TIMESTAMPS, d)];
    assert o0[1..] == o1 && o1[1..] == [TcpOption(TIMESTAMPS, d)];
    assert Built(e, lport, rport, p, millis).options == o0;
    assert TSval(o0) == TSval(o1) && TSecr(o0) == TSecr(o1);
    assert TSval(o1) == TSval(o1[1..]) && TSecr(o1) == TSecr(o1[1..]);
    assert TSval([TcpOption(TIMESTAMPS, d)]) == Some(GetBE32(PutBE32(millis)));
    assert TSecr([TcpOption(TIMESTAMPS, d)]) == Some(GetBE32(PutBE32(e.tsEcr)));
  }

  lemma HighByteFirst(x: uint32)
    ensures var d := PutBE32(x);
            d[0] as int * 0x100_0000 + d[1] as int * 0x1_0000 + d[2] as int * 0x100 + d[3] as int == x
  {
  }

  /** What is written, field by field: the caller's bytes under the flow's numbers, and both clocks, high byte first. */
  lemma BuiltOnTheWire(e: FlowState, lport: nat, rport: nat, p: seq<octet>, millis: uint32)
    ensures var s := Built(e, lport, rport, p, millis);
            && s.srcPort == lport && s.dstPort == rport && s.payload == p
            && s.seqNo == e.seqNo && s.ackNo == e.ackNo
            && s.hasPsh && s.hasAck && !s.hasSyn && !s.hasFin
            && |s.options| == 3 && s.options[0].kind == 1 && s.options[1].kind == 1
            && s.options[2].kind == 8 && |s.options[2].data| == 8
            && (var d := s.options[2].data;
                && d[0] as int * 0x100_0000 + d[1] as int * 0x1_0000 + d[2] as int * 0x100 + d[3] as int == millis
                && d[4] as int * 0x100_0000 + d[5] as int * 0x1_0000 + d[6] as int * 0x100 + d[7] as int == e.tsEcr)
  {
    HighByteFirst(millis);
    HighByteFirst(e.tsEcr);
  }

  /** The clock of a segment is that of its first option of kind 8 with eight bytes, high byte first. */
  lemma {:induction false} FirstTimestamp(pre: seq<TcpOption>, d: seq<octet>, post: seq<TcpOption>)
    requires |d| == 8 && forall i :: 0 <= i < |pre| ==> !(pre[i].kind == 8 && |pre[i].data| == 8)
    ensures TSval(pre + [TcpOption(8, d)] + post)
            == Some(d[0] as int * 0x100_0000 + d[1] as int * 0x1_0000 + d[2] as int * 0x100 + d[3] as int)
    decreases |pre|
  {
    var all := pre + [TcpOption(8, d)] + post;
    if pre == [] {
      assert all[0] == TcpOption(8, d);
    } else {
      assert all[0] == pre[0] && all[1..] == pre[1..] + [TcpOption(8, d)] + post;
      FirstTimestamp(pre[1..], d, post);
    }
  }

  lemma {:induction false} NoTimestamp(options: seq<TcpOption>)
    requires forall i :: 0 <= i < |options| ==> !(options[i].kind == 8 && |options[i].data| == 8)
    ensures TSval(options) == None
  {
    if options != [] {
      NoTimestamp(options[1..]);
    }
  }

  lemma NoAdvance(x: uint32, n: nat)
    ensures Add32(x, n) == x <==> n % 0x1_0000_0000 == 0
  {
  }

  /**
   The answer to a captured segment: on a flow that expects it, or expects nothing yet, the next
   segment written acknowledges its data plus one each for SYN and FIN (section 3.4 of RFC 9293),
   and it starts where the captured one acknowledges.
   */
  lemma AnswerNumbers(e: FlowState, s: Segment, h: nat, now: int, lport: nat, rport: nat, p: seq<octet>, millis: uint32)
    requires e.ackNo == 0 || e.ackNo == s.seqNo
    ensures var r := Built(Captured(e, s, h, now), lport, rport, p, millis);
            var n := |s.payload| + (if s.hasSyn then 1 else 0) + (if s.hasFin then 1 else 0);
            && r.ackNo == (if n % 0x1_0000_0000 == 0 then e.ackNo else (s.seqNo + n) % 0x1_0000_0000)
            && (s.hasAck ==> r.seqNo == s.ackNo)
  {
    var n := SegLen(s);
    assert End(s) == s.seqNo <==> n % 0x1_0000_0000 == 0 by { NoAdvance(s.seqNo, n); }
  }

  // ---- the flow table on values ----

  type Table = map<Addr, FlowState>

  /** lockflow: the flow of `a`, made on the spot if there is none. */
  function At(t: Table, a: Addr, now: int): FlowState {
    if a in t then t[a] else NewFlow(now)
  }

  function Ttl(e: FlowState): int {
    if e.connected then FLOW_EXPIRE else ORPHAN_EXPIRE
  }

  function Cleaned(t: Table, now: int): Table {
    map a | a in t && now - t[a].ts <= Ttl(t[a]) :: t[a]
  }

  // ---- the connection ----

  method FindTimestamp(options: seq<TcpOption>) returns (r: Option<uint32>)
    ensures r == TSval(options)
  {
    for i := 0 to |options|
      invariant TSval(options) == TSval(options[i..])
    {
      var o := options[i];
      assert options[i..][0] == o && options[i..][1..] == options[i + 1..];
      if o.kind == TIMESTAMPS && |o.data| == 8 {
        return Some(GetBE32(o.data[..4]));
      }
    }
    return None;
  }

  class Flow {
    var connected: bool
    var handle: Option<nat>
    var seqNo: uint32
    var ackNo: uint32
    var tsEcr: uint32
    var ts: int

    constructor (now: int)
      ensures State() == NewFlow(now)
    {
      connected, handle, seqNo, ackNo, tsEcr, ts := false, None, 0, 0, 0, now;
    }

    function State(): FlowState
      reads this
    {
      FlowState(connected, handle, seqNo, ackNo, tsEcr, ts)
    }

    method Advance(n: nat)
      modifies this
      ensures State() == Advanced(old(State()), n)
    {
      seqNo := Add32(seqNo, n);
    }

    method Attach()
      modifies this
      ensures State() == old(State()).(connected := true)
    {
      connected := true;
    }

    /** What captureFlow does to the flow under the lock. */
    method Capture(s: Segment, h: nat, now: int) returns (orphan: bool)
      modifies this
      ensures State() == Captured(old(State()), s, h, now)
      ensures orphan == !old(connected)
    {
      hide Add32, TSval;
      orphan := !connected;
      ts := now;
      if s.hasAck { seqNo := s.ackNo; }
      var o := FindTimestamp(s.options);
      if o.Some? { tsEcr := o.value; }
      var next := Add32(s.seqNo, |s.payload|);
      if s.hasSyn { next := Add32(next, 1); }
      if s.hasFin { next := Add32(next, 1); }
      Add32Assoc(s.seqNo, |s.payload|, 1);
      Add32Assoc(s.seqNo, |s.payload| + 1, 1);
      assert next == End(s);
      if next != s.seqNo && (ackNo == 0 || ackNo == s.seqNo) { ackNo := next; }
      handle := Some(h);
    }
  }
}
