/**
 Two raw endpoints talking one direction at a time, every segment captured in order:
 whatever numbers they start from, one answer brings them into step, for good.
 */
module RawSync {
  import opened Words
  import opened RawTcp

  /** The end now sending, the end now capturing, and the segments between them. `got`
      counts the captures of the current burst and `answers` the changes of direction. */
  datatype Link = Link(sender: FlowState, receiver: FlowState, wire: seq<Segment>, got: nat, answers: nat)

  datatype Move =
    | Send(p: seq<octet>, lport: nat, rport: nat, millis: uint32)
    | Answer(p: seq<octet>, lport: nat, rport: nat, millis: uint32)
    | Capture(handle: nat, now: int)

  /** The sender may go on; the other end may start once everything sent to it has been captured. */
  predicate Enabled(l: Link, m: Move) {
    match m
    case Send(_, _, _, _) => l.sender.handle.Some?
    case Answer(_, _, _, _) => l.wire == [] && l.got > 0 && l.receiver.handle.Some?
    case Capture(_, _) => l.wire != []
  }

  function Next(l: Link, m: Move): Link
    requires Enabled(l, m)
  {
    match m
    case Send(p, lport, rport, millis) =>
      l.(wire := l.wire + [Built(l.sender, lport, rport, p, millis)], sender := Advanced(l.sender, |p|))
    case Answer(p, lport, rport, millis) =>
      Link(Advanced(l.receiver, |p|), l.sender, [Built(l.receiver, lport, rport, p, millis)], 0, l.answers + 1)
    case Capture(h, now) =>
      l.(receiver := Captured(l.receiver, l.wire[0], h, now), wire := l.wire[1..], got := l.got + 1)
  }

  /** Each end's next byte is the one the other expects. */
  predicate InStep(l: Link) {
    l.sender.seqNo == l.receiver.ackNo && l.receiver.seqNo == l.sender.ackNo
  }

  /** The segments follow each other from sequence number `from` to `to`. */
  predicate Contiguous(from: uint32, wire: seq<Segment>, to: uint32)
    decreases |wire|
  {
    if wire == [] then from == to
    else wire[0].seqNo == from && Contiguous(End(wire[0]), wire[1..], to)
  }

  /** All segments in flight carry the sender's acknowledgement number. */
  predicate SameAck(l: Link) {
    forall i :: 0 <= i < |l.wire| ==> l.wire[i].hasAck && l.wire[i].ackNo == l.sender.ackNo
  }

  predicate Inv(l: Link) {
    && SameAck(l)
    && (l.got > 0 ==> l.receiver.seqNo == l.sender.ackNo)
    && (l.answers > 0 ==> Contiguous(l.receiver.ackNo, l.wire, l.sender.seqNo))
    && (l.answers > 0 ==> l.got > 0 || l.wire != [])
  }

  lemma {:induction false} ContiguousAppend(from: uint32, wire: seq<Segment>, s: Segment)
    requires Contiguous(from, wire, s.seqNo)
    ensures Contiguous(from, wire + [s], End(s))
    decreases |wire|
  {
    if wire == [] {
      assert (wire + [s])[1..] == [];
    } else {
      ContiguousAppend(End(wire[0]), wire[1..], s);
      assert (wire + [s])[1..] == wire[1..] + [s];
    }
  }

  lemma NextKeepsInv(l: Link, m: Move)
    requires Inv(l) && Enabled(l, m)
    ensures Inv(Next(l, m))
    ensures Next(l, m).answers >= l.answers
  {
    match m
    case Send(p, lport, rport, millis) =>
      if l.answers > 0 {
        ContiguousAppend(l.receiver.ackNo, l.wire, Built(l.sender, lport, rport, p, millis));
      }
    case Answer(p, lport, rport, millis) =>
      assert Contiguous(l.receiver.seqNo, [], l.receiver.seqNo);
      ContiguousAppend(l.receiver.seqNo, [], Built(l.receiver, lport, rport, p, millis));
      assert [] + [Built(l.receiver, lport, rport, p, millis)] == [Built(l.receiver, lport, rport, p, millis)];
    case Capture(h, now) =>
  }

  ghost predicate Runs(l: Link, ms: seq<Move>)
    decreases |ms|
  {
    ms == [] || (Enabled(l, ms[0]) && Runs(Next(l, ms[0]), ms[1..]))
  }

  ghost function After(l: Link, ms: seq<Move>): Link
    requires Runs(l, ms)
    decreases |ms|
  {
    if ms == [] then l else After(Next(l, ms[0]), ms[1..])
  }

  lemma {:induction false} RunKeepsInv(l: Link, ms: seq<Move>)
    requires Inv(l) && Runs(l, ms)
    ensures Inv(After(l, ms))
    ensures After(l, ms).answers >= l.answers
    decreases |ms|
  {
    hide Inv, Enabled, Next;
    if ms != [] {
      NextKeepsInv(l, ms[0]);
      RunKeepsInv(Next(l, ms[0]), ms[1..]);
    }
  }

  /**
   Self-stabilisation: from any sequence and acknowledgement numbers at both ends, once an
   answer has been given, every moment with nothing in flight finds the ends in step -
   after bursts of any length and any size, across the wrap of the number space and
   when an acknowledgement number is 0.
   */
  lemma Stabilises(sender: FlowState, receiver: FlowState, ms: seq<Move>)
    requires Runs(Link(sender, receiver, [], 0, 0), ms)
    ensures var l := After(Link(sender, receiver, [], 0, 0), ms);
            l.answers > 0 && l.wire == [] ==> InStep(l)
  {
    RunKeepsInv(Link(sender, receiver, [], 0, 0), ms);
  }

  /** Ends that are in step stay so through every one-directional burst, from the first one on. */
  lemma InStepStays(sender: FlowState, receiver: FlowState, ms: seq<Move>)
    requires sender.seqNo == receiver.ackNo && receiver.seqNo == sender.ackNo
    requires Runs(Link(sender, receiver, [], 1, 1), ms)
    ensures var l := After(Link(sender, receiver, [], 1, 1), ms);
            l.wire == [] ==> InStep(l)
  {
    RunKeepsInv(Link(sender, receiver, [], 1, 1), ms);
  }

  // ---- one burst without an answer ----

  /** What a captured segment does to an acknowledgement number. */
  function Followed(ack: uint32, s: Segment): uint32 {
    if End(s) != s.seqNo && (ack == 0 || ack == s.seqNo) then End(s) else ack
  }

  function FollowedAll(ack: uint32, wire: seq<Segment>): uint32
    decreases |wire|
  {
    if wire == [] then ack else FollowedAll(Followed(ack, wire[0]), wire[1..])
  }

  /** The segments the sender puts on the wire in a run without answers. */
  function Burst(sender: FlowState, ms: seq<Move>): seq<Segment>
    decreases |ms|
  {
    if ms == [] then []
    else
      match ms[0]
      case Send(p, lport, rport, millis) =>
        [Built(sender, lport, rport, p, millis)] + Burst(Advanced(sender, |p|), ms[1..])
      case _ => Burst(sender, ms[1..])
  }

  /**
   The acknowledgement number is where some segment of the burst begins or ends; or it is
   unset and some segment takes up sequence space.
   */
  predicate Meets(ack: uint32, burst: seq<Segment>) {
    exists i :: 0 <= i < |burst| &&
      (ack == burst[i].seqNo || ack == End(burst[i]) || (ack == 0 && End(burst[i]) != burst[i].seqNo))
  }

  lemma {:induction false} FollowedAllAppend(ack: uint32, wire: seq<Segment>, more: seq<Segment>)
    ensures FollowedAll(ack, wire + more) == FollowedAll(FollowedAll(ack, wire), more)
    decreases |wire|
  {
    if wire == [] {
      assert wire + more == more;
    } else {
      assert (wire + more)[1..] == wire[1..] + more;
      FollowedAllAppend(Followed(ack, wire[0]), wire[1..], more);
    }
  }

  lemma CaptureFollows(r: FlowState, wire: seq<Segment>, h: nat, now: int)
    requires wire != []
    ensures FollowedAll(Captured(r, wire[0], h, now).ackNo, wire[1..]) == FollowedAll(r.ackNo, wire)
  {
  }

  lemma SentInPlace(e: FlowState, p: seq<octet>, lport: nat, rport: nat, millis: uint32, rest: seq<Segment>, to: uint32)
    requires Contiguous(Advanced(e, |p|).seqNo, rest, to)
    ensures Contiguous(e.seqNo, [Built(e, lport, rport, p, millis)] + rest, to)
  {
    var s := Built(e, lport, rport, p, millis);
    assert ([s] + rest)[1..] == rest;
  }

  /** A run without answers captures its burst in order, in whatever rhythm. */
  lemma {:induction false} BurstIsFollowed(l: Link, ms: seq<Move>)
    requires Runs(l, ms) && forall i :: 0 <= i < |ms| ==> !ms[i].Answer?
    ensures var l' := After(l, ms);
            && FollowedAll(l'.receiver.ackNo, l'.wire) == FollowedAll(l.receiver.ackNo, l.wire + Burst(l.sender, ms))
            && Contiguous(l.sender.seqNo, Burst(l.sender, ms), l'.sender.seqNo)
            && l'.answers == l.answers
            && l'.got + |l'.wire| == l.got + |l.wire| + |Burst(l.sender, ms)|
    decreases |ms|
  {
    hide Built, Advanced, Captured, FollowedAll;
    if ms == [] {
      assert l.wire + [] == l.wire;
    } else {
      var l1 := Next(l, ms[0]);
      BurstIsFollowed(l1, ms[1..]);
      match ms[0]
      case Send(p, lport, rport, millis) =>
        assert l1.wire + Burst(l1.sender, ms[1..]) == l.wire + Burst(l.sender, ms);
        SentInPlace(l.sender, p, lport, rport, millis, Burst(l1.sender, ms[1..]), After(l1, ms[1..]).sender.seqNo);
      case Capture(h, now) =>
        var rest := Burst(l.sender, ms);
        assert (l.wire + rest)[1..] == l1.wire + rest;
        CaptureFollows(l.receiver, l.wire + rest, h, now);
    }
  }

  /** Once in place, an acknowledgement number follows the burst to its end. */
  lemma {:induction false} FollowedFromStart(wire: seq<Segment>, from: uint32, to: uint32)
    requires Contiguous(from, wire, to)
    ensures FollowedAll(from, wire) == to
    decreases |wire|
  {
    if wire != [] {
      FollowedFromStart(wire[1..], End(wire[0]), to);
    }
  }

  /** Captured in order, a contiguous burst brings `ack` to its end exactly when it meets `ack`. */
  lemma {:induction false} FollowedIff(ack: uint32, from: uint32, wire: seq<Segment>, to: uint32)
    requires Contiguous(from, wire, to) && wire != []
    ensures FollowedAll(ack, wire) == to <==> Meets(ack, wire)
    decreases |wire|
  {
    var s, rest := wire[0], wire[1..];
    assert forall i :: 1 <= i < |wire| ==> wire[i] == rest[i - 1];
    if Followed(ack, s) == End(s) {
      FollowedFromStart(rest, End(s), to);
      assert ack == s.seqNo || ack == End(s) || (ack == 0 && End(s) != s.seqNo);
    } else if rest != [] {
      assert Followed(ack, s) == ack;
      FollowedIff(ack, End(s), rest, to);
    }
  }

  lemma NothingToFollow(ack: uint32)
    ensures FollowedAll(ack, []) == ack
  {
  }

  /**
   One burst, captured in order and without an answer, brings the ends into step if and only
   if the receiver's acknowledgement number is at the edge of one of its segments, or is 0
   and some segment is not empty.
   */
  lemma OneBurstSufficesIff(sender: FlowState, receiver: FlowState, ms: seq<Move>)
    requires Runs(Link(sender, receiver, [], 0, 0), ms) && forall i :: 0 <= i < |ms| ==> !ms[i].Answer?
    requires var l := After(Link(sender, receiver, [], 0, 0), ms); l.wire == [] && l.got > 0
    ensures InStep(After(Link(sender, receiver, [], 0, 0), ms)) <==> Meets(receiver.ackNo, Burst(sender, ms))
  {
    hide Burst, FollowedAll, Runs, Contiguous;
    var l0 := Link(sender, receiver, [], 0, 0);
    RunKeepsInv(l0, ms);
    BurstIsFollowed(l0, ms);
    var l := After(l0, ms);
    assert [] + Burst(sender, ms) == Burst(sender, ms);
    NothingToFollow(l.receiver.ackNo);
    FollowedIff(receiver.ackNo, sender.seqNo, Burst(sender, ms), l.sender.seqNo);
  }

  /** So a stale acknowledgement number that is not 0 survives any one segment it does not touch. */
  lemma OneWayIsNotEnough(p: seq<octet>, h: nat)
    requires p != [] && |p| < WORD_SPACE
    ensures exists a, b, ms :: Runs(Link(a, b, [], 0, 0), ms) && |ms| == 2
              && After(Link(a, b, [], 0, 0), ms).wire == [] && !InStep(After(Link(a, b, [], 0, 0), ms))
  {
    var a := FlowState(true, Some(h), 0, 0, 0, 0);
    var b := FlowState(true, Some(h), 0, if |p| == 5 then 6 else 5, 0, 0);
    var l := Link(a, b, [], 0, 0);
    var m0, m1 := Send(p, 1, 2, 0), Capture(h, 0);
    var ms := [m0, m1];
    assert ms[1..] == [m1] && [m1][1..] == [];
    var l1 := Next(l, m0);
    var l2 := Next(l1, m1);
    assert Runs(l2, []) && After(l2, []) == l2;
    assert Runs(l1, [m1]) && After(l1, [m1]) == After(l2, []);
    assert Runs(l, ms) && After(l, ms) == After(l1, [m1]);
    assert l2.wire == [] && !InStep(l2);
  }
}
