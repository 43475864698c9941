/**
 Two raw endpoints over a wire that may lose, repeat and reorder, with crossing traffic,
 the kernels' own segments and eviction: what the numbers in every written segment mean.
 */
module RawAcks {
  import opened Words
  import opened RawTcp
  import Life = RawLife

  /** What has happened to a flow since it was made, oldest first. */
  datatype Entry = Got(segment: Segment) | Wrote(n: nat)

  /** A segment WriteTo put on the wire, with the flow's history at that moment and the bytes it
      was called with. */
  datatype Written = Written(segment: Segment, log: seq<Entry>, passed: seq<octet>)

  /** The bytes handed over for a captured segment. */
  datatype Handed = Handed(segment: Segment, bts: seq<octet>)

  /** One endpoint's flow to its peer, that flow's history, all this host has put on the wire, and
      all it has handed over. */
  datatype Endpoint = Endpoint(
    flow: Option<FlowState>,
    log: seq<Entry>,
    wire: set<Segment>,
    written: set<Written>,
    handed: set<Handed>)

  datatype World = World(a: Endpoint, b: Endpoint)

  datatype Move =
    | Capture(atA: bool, segment: Segment, handle: nat, now: int)
    | Write(atA: bool, p: seq<octet>, lport: nat, rport: nat, millis: uint32, now: int, serialiseOk: bool,
        writeOk: bool)
    | Kernel(atA: bool, segment: Segment)
    | Attach(atA: bool, now: int)
    | Evict(atA: bool)

  function Me(w: World, atA: bool): Endpoint {
    if atA then w.a else w.b
  }

  function Put(w: World, atA: bool, e: Endpoint): World {
    if atA then w.(a := e) else w.(b := e)
  }

  function FlowOf(e: Endpoint, now: int): FlowState {
    if e.flow.Some? then e.flow.value else NewFlow(now)
  }

  /** Only segments the peer has put on the wire can be captured, any number of times and in any order. */
  predicate Enabled(w: World, m: Move) {
    m.Capture? ==> m.segment in Me(w, !m.atA).wire
  }

  /** What the capture loop hands over for a segment for its port that meets the flow `f`. */
  function HandedFor(f: FlowState, s: Segment, h: nat, now: int): set<Handed> {
    var ms := Life.HandedOver(map["" := f], Life.Event(now, Life.Capture("", s, h)), s.dstPort, h);
    set m | m in ms :: Handed(s, m.bts)
  }

  function Next(w: World, m: Move): World {
    var e := Me(w, m.atA);
    match m
    case Capture(atA, s, h, now) =>
      Put(w, atA, e.(flow := Some(Captured(FlowOf(e, now), s, h, now)), log := e.log + [Got(s)],
                     handed := e.handed + HandedFor(FlowOf(e, now), s, h, now)))
    case Write(atA, p, lport, rport, millis, now, serialiseOk, writeOk) =>
      var f := FlowOf(e, now);
      if f.handle == None || !serialiseOk then Put(w, atA, e.(flow := Some(f)))
      else
        var s := Built(f, lport, rport, p, millis);
        var e' := e.(flow := Some(Advanced(f, |p|)), log := e.log + [Wrote(|p|)]);
        Put(w, atA, if writeOk then e'.(wire := e.wire + {s}, written := e.written + {Written(s, e.log, p)}) else e')
    case Kernel(atA, s) => Put(w, atA, e.(wire := e.wire + {s}))
    case Attach(atA, now) => Put(w, atA, e.(flow := Some(FlowOf(e, now).(connected := true))))
    case Evict(atA) => Put(w, atA, e.(flow := None, log := []))
  }

  // ---- what a flow's history says its numbers should be ----

  /** The acknowledgement number captured last, 0 if none. */
  function LastAck(log: seq<Entry>): uint32 {
    if log == [] then 0
    else
      var x := log[|log| - 1];
      if x.Got? && x.segment.hasAck then x.segment.ackNo else LastAck(log[..|log| - 1])
  }

  /** The bytes written since that capture. */
  function BytesSince(log: seq<Entry>): nat {
    if log == [] then 0
    else
      var x := log[|log| - 1];
      if x.Got? && x.segment.hasAck then 0
      else BytesSince(log[..|log| - 1]) + (if x.Wrote? then x.n else 0)
  }

  /** The peer clock captured last, 0 if none. */
  function LastTSval(log: seq<Entry>): uint32 {
    if log == [] then 0
    else
      var x := log[|log| - 1];
      if x.Got? && TSval(x.segment.options).Some? then TSval(x.segment.options).value else LastTSval(log[..|log| - 1])
  }

  /** `ack` is 0 or the end of a segment captured on this flow. */
  predicate AckedCapture(log: seq<Entry>, ack: uint32) {
    ack == 0 || exists i :: 0 <= i < |log| && log[i].Got? && End(log[i].segment) == ack
  }

  ghost predicate FlowMatches(f: FlowState, log: seq<Entry>) {
    && AckedCapture(log, f.ackNo)
    && f.seqNo == Add32(LastAck(log), BytesSince(log))
    && f.tsEcr == LastTSval(log)
  }

  /** Everything captured had been sent by the peer. */
  predicate CapturedFrom(log: seq<Entry>, peer: set<Segment>) {
    forall i :: 0 <= i < |log| && log[i].Got? ==> log[i].segment in peer
  }

  ghost predicate WrittenOk(x: Written, peer: set<Segment>) {
    && CapturedFrom(x.log, peer)
    && AckedCapture(x.log, x.segment.ackNo)
    && x.segment.seqNo == Add32(LastAck(x.log), BytesSince(x.log))
    && TSecr(x.segment.options) == Some(LastTSval(x.log))
    && x.segment.payload == x.passed
  }

  /** What is handed over is the data of a segment the peer did send. */
  predicate HandedOk(e: Endpoint, peer: set<Segment>) {
    forall x :: x in e.handed ==> x.segment in peer && x.bts == x.segment.payload
  }

  ghost predicate EndpointOk(e: Endpoint, peer: set<Segment>) {
    && (e.flow == None ==> e.log == [])
    && (e.flow.Some? ==> FlowMatches(e.flow.value, e.log))
    && CapturedFrom(e.log, peer)
    && HandedOk(e, peer)
    && forall x :: x in e.written ==> WrittenOk(x, peer)
  }

  ghost predicate Inv(w: World) {
    EndpointOk(w.a, w.b.wire) && EndpointOk(w.b, w.a.wire)
  }

  lemma NewFlowMatches(now: int)
    ensures FlowMatches(NewFlow(now), [])
  {
  }

  lemma AckedMore(log: seq<Entry>, x: Entry, ack: uint32)
    requires AckedCapture(log, ack)
    ensures AckedCapture(log + [x], ack)
  {
    if i :| 0 <= i < |log| && log[i].Got? && End(log[i].segment) == ack {
      assert (log + [x])[i] == log[i];
    }
  }

  lemma CaptureMatches(f: FlowState, log: seq<Entry>, s: Segment, h: nat, now: int)
    requires FlowMatches(f, log)
    ensures FlowMatches(Captured(f, s, h, now), log + [Got(s)])
  {
    hide TSval, End;
    var log' := log + [Got(s)];
    assert log'[..|log'| - 1] == log && log'[|log|] == Got(s);
    AckedMore(log, Got(s), f.ackNo);
    assert AckedCapture(log', End(s));
  }

  lemma WriteMatches(f: FlowState, log: seq<Entry>, n: nat)
    requires FlowMatches(f, log)
    ensures FlowMatches(Advanced(f, n), log + [Wrote(n)])
  {
    var log' := log + [Wrote(n)];
    assert log'[..|log'| - 1] == log && log'[|log|] == Wrote(n);
    AckedMore(log, Wrote(n), f.ackNo);
    Add32Assoc(LastAck(log), BytesSince(log), n);
  }

  lemma FlowOfMatches(e: Endpoint, peer: set<Segment>, now: int)
    requires EndpointOk(e, peer)
    ensures FlowMatches(FlowOf(e, now), e.log)
  {
    NewFlowMatches(now);
  }

  /** A larger wire at the peer changes nothing. */
  lemma PeerGrows(e: Endpoint, peer: set<Segment>, peer': set<Segment>)
    requires EndpointOk(e, peer) && peer <= peer'
    ensures EndpointOk(e, peer')
  {
    hide FlowMatches, LastAck, BytesSince, LastTSval, AckedCapture;
  }

  lemma AttachMatches(f: FlowState, log: seq<Entry>)
    requires FlowMatches(f, log)
    ensures FlowMatches(f.(connected := true), log)
  {
  }

  lemma WrittenMatches(f: FlowState, log: seq<Entry>, peer: set<Segment>, lport: nat, rport: nat, p: seq<octet>,
      millis: uint32)
    requires FlowMatches(f, log) && CapturedFrom(log, peer)
    ensures WrittenOk(Written(Built(f, lport, rport, p, millis), log, p), peer)
  {
    BuiltFields(f, lport, rport, p, millis);
  }

  lemma HandedIsData(f: FlowState, s: Segment, h: nat, now: int)
    ensures HandedFor(f, s, h, now)
            == if f.connected && s.hasPsh && s.payload != [] then {Handed(s, s.payload)} else {}
  {
    if f.connected && s.hasPsh && s.payload != [] {
      var ms := Life.HandedOver(map["" := f], Life.Event(now, Life.Capture("", s, h)), s.dstPort, h);
      assert ms == [Message(s.payload, "")];
      assert Message(s.payload, "") in ms;
    }
  }

  /** What the step does to the endpoint it happens at. */
  lemma StepAtMe(w: World, m: Move)
    requires Inv(w) && Enabled(w, m)
    ensures EndpointOk(Me(Next(w, m), m.atA), Me(w, !m.atA).wire)
    ensures Me(w, m.atA).wire <= Me(Next(w, m), m.atA).wire
    ensures Me(Next(w, m), !m.atA) == Me(w, !m.atA)
  {
    hide FlowMatches, LastAck, BytesSince, LastTSval, AckedCapture, Captured, Advanced, TSval, TSecr, Built;
    var e := Me(w, m.atA);
    var peer := Me(w, !m.atA).wire;
    assert EndpointOk(e, peer);
    match m
    case Capture(_, s, h, now) =>
      FlowOfMatches(e, peer, now);
      HandedIsData(FlowOf(e, now), s, h, now);
      CaptureMatches(FlowOf(e, now), e.log, s, h, now);
    case Write(_, p, lport, rport, millis, now, serialiseOk, writeOk) =>
      FlowOfMatches(e, peer, now);
      WriteMatches(FlowOf(e, now), e.log, |p|);
      WrittenMatches(FlowOf(e, now), e.log, peer, lport, rport, p, millis);
    case Attach(_, now) =>
      FlowOfMatches(e, peer, now);
      AttachMatches(FlowOf(e, now), e.log);
    case _ =>
  }

  lemma NextKeepsInv(w: World, m: Move)
    requires Inv(w) && Enabled(w, m)
    ensures Inv(Next(w, m))
  {
    hide EndpointOk, Next;
    StepAtMe(w, m);
    PeerGrows(Me(w, !m.atA), Me(w, m.atA).wire, Me(Next(w, m), m.atA).wire);
  }

  ghost predicate Runs(w: World, ms: seq<Move>)
    decreases |ms|
  {
    ms == [] || (Enabled(w, ms[0]) && Runs(Next(w, ms[0]), ms[1..]))
  }

  ghost function After(w: World, ms: seq<Move>): World
    requires Runs(w, ms)
    decreases |ms|
  {
    if ms == [] then w else After(Next(w, ms[0]), ms[1..])
  }

  const START := World(Endpoint(None, [], {}, {}, {}), Endpoint(None, [], {}, {}, {}))

  lemma {:induction false} RunKeepsInv(w: World, ms: seq<Move>)
    requires Inv(w) && Runs(w, ms)
    ensures Inv(After(w, ms))
    decreases |ms|
  {
    hide Inv, Enabled, Next;
    if ms != [] {
      NextKeepsInv(w, ms[0]);
      RunKeepsInv(Next(w, ms[0]), ms[1..]);
    }
  }

  /**
   In every run, each segment an endpoint has written acknowledges nothing (0) or the end
   of a segment that its peer did put on the wire and that was captured on the flow; its
   sequence number is the last captured acknowledgement plus the bytes written since; and
   its timestamp echo is the clock captured last (section 3.2 of RFC 7323).
   */
  lemma NumbersAreEarned(ms: seq<Move>, atA: bool, x: Written)
    requires Runs(START, ms) && x in Me(After(START, ms), atA).written
    ensures var peer := Me(After(START, ms), !atA).wire;
            && (x.segment.ackNo == 0 || exists s ::
                  && s in peer && Got(s) in x.log
                  && (var n := |s.payload| + (if s.hasSyn then 1 else 0) + (if s.hasFin then 1 else 0);
                      x.segment.ackNo == (s.seqNo + n) % 0x1_0000_0000))
            && x.segment.seqNo == Add32(LastAck(x.log), BytesSince(x.log))
            && TSecr(x.segment.options) == Some(LastTSval(x.log))
  {
    hide LastAck, BytesSince, LastTSval, TSecr;
    RunKeepsInv(START, ms);
    var peer := Me(After(START, ms), !atA).wire;
    assert EndpointOk(Me(After(START, ms), atA), peer);
    assert WrittenOk(x, peer);
    if i :| 0 <= i < |x.log| && x.log[i].Got? && End(x.log[i].segment) == x.segment.ackNo {
      assert Got(x.log[i].segment) == x.log[i];
    }
  }

  /**
   In every run, whatever an endpoint hands over for a segment that its peer's WriteTo put on the
   wire is what that WriteTo was called with, byte for byte.
   */
  lemma PayloadsArriveIntact(ms: seq<Move>, atA: bool, x: Handed, w: Written)
    requires Runs(START, ms)
    requires x in Me(After(START, ms), atA).handed && w in Me(After(START, ms), !atA).written
    requires x.segment == w.segment
    ensures x.bts == w.passed && x.segment in Me(After(START, ms), !atA).wire
  {
    hide LastAck, BytesSince, LastTSval, TSecr, End, AckedCapture;
    RunKeepsInv(START, ms);
    var mine, peer := Me(After(START, ms), atA), Me(After(START, ms), !atA);
    assert EndpointOk(mine, peer.wire) && EndpointOk(peer, mine.wire);
    assert WrittenOk(w, mine.wire);
  }
}
