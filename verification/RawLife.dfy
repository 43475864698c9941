/**
 The flow table of one raw connection over time: what each use of it does, when the
 cleaner evicts a flow, and what the capture loops hand over. Between the cleaner's
 ticks anything may happen.
 */
module RawLife {
  import opened Words
  import opened RawTcp

  datatype Action =
    | Capture(src: Addr, segment: Segment, handle: nat)
    | Write(addr: Addr, n: nat, advances: bool)
    | Attach(addr: Addr)
    | Tick

  /** An action and the clock when it takes the lock. */
  datatype Event = Event(now: int, act: Action)

  /** The table after one event; a segment for another port never reaches it. */
  function Apply(t: Table, e: Event, port: nat): Table {
    match e.act
    case Capture(src, s, h) => if s.dstPort == port then t[src := Captured(At(t, src, e.now), s, h, e.now)] else t
    case Write(a, n, advances) => t[a := if advances then Advanced(At(t, a, e.now), n) else At(t, a, e.now)]
    case Attach(a) => t[a := At(t, a, e.now).(connected := true)]
    case Tick => Cleaned(t, e.now)
  }

  function After(t: Table, es: seq<Event>, port: nat): Table
    decreases |es|
  {
    if es == [] then t else After(Apply(t, es[0], port), es[1..], port)
  }

  lemma {:induction false} AfterAppend(t: Table, es: seq<Event>, e: Event, port: nat)
    ensures After(t, es + [e], port) == Apply(After(t, es, port), e, port)
    decreases |es|
  {
    hide Apply;
    if es == [] {
      assert (es + [e])[1..] == [];
    } else {
      assert (es + [e])[1..] == es[1..] + [e];
      AfterAppend(Apply(t, es[0], port), es[1..], e, port);
    }
  }

  // ---- what the capture loops hand over ----

  /** For the port, pushed, not empty, and from a flow that has its connection. */
  predicate Deliverable(s: Segment, port: nat, connected: bool) {
    s.dstPort == port && connected && s.hasPsh && s.payload != []
  }

  predicate IsCaptureOf(e: Event, h: nat) {
    e.act.Capture? && e.act.handle == h
  }

  /** The message loop `h` hands over for an event that finds the table `t`. */
  function HandedOver(t: Table, e: Event, port: nat, h: nat): seq<Message> {
    if IsCaptureOf(e, h) && Deliverable(e.act.segment, port, At(t, e.act.src, e.now).connected)
    then [Message(e.act.segment.payload, e.act.src)]
    else []
  }

  /** All messages capture loop `h` hands over. */
  function Delivered(t: Table, es: seq<Event>, port: nat, h: nat): seq<Message> {
    if es == [] then []
    else
      var n := |es| - 1;
      Delivered(t, es[..n], port, h) + HandedOver(After(t, es[..n], port), es[n], port, h)
  }

  function CapturesBy(es: seq<Event>, h: nat): seq<Event> {
    if es == [] then []
    else
      var n := |es| - 1;
      CapturesBy(es[..n], h) + (if IsCaptureOf(es[n], h) then [es[n]] else [])
  }

  lemma DeliveredAppend(t: Table, es: seq<Event>, e: Event, port: nat, h: nat)
    ensures Delivered(t, es + [e], port, h) == Delivered(t, es, port, h) + HandedOver(After(t, es, port), e, port, h)
    ensures CapturesBy(es + [e], h) == CapturesBy(es, h) + (if IsCaptureOf(e, h) then [e] else [])
  {
    assert (es + [e])[..|es|] == es;
  }

  lemma {:induction false} CapturesGrow(es: seq<Event>, fs: seq<Event>, h: nat)
    requires es <= fs
    ensures |CapturesBy(es, h)| <= |CapturesBy(fs, h)|
  {
    if |es| < |fs| {
      CapturesGrow(es, fs[..|fs| - 1], h);
    } else {
      assert es == fs;
    }
  }

  /** What happens without captures by `h` hands nothing over to it. */
  lemma {:induction false} OnlyCapturesDeliver(t: Table, es: seq<Event>, fs: seq<Event>, port: nat, h: nat)
    requires es <= fs && CapturesBy(fs, h) == CapturesBy(es, h)
    ensures Delivered(t, fs, port, h) == Delivered(t, es, port, h)
  {
    if |es| < |fs| {
      var n := |fs| - 1;
      CapturesGrow(es, fs[..n], h);
      assert !IsCaptureOf(fs[n], h);
      OnlyCapturesDeliver(t, es, fs[..n], port, h);
    } else {
      assert es == fs;
    }
  }

  // ---- what a history says of its flows ----

  predicate Connected(t: Table, a: Addr) {
    a in t && t[a].connected
  }

  /** The flow of `a` has been there ever since event `i`. */
  ghost predicate LivesSince(es: seq<Event>, a: Addr, port: nat, i: nat) {
    forall j :: i < j <= |es| ==> a in After(map[], es[..j], port)
  }

  lemma OneEvent(es: seq<Event>, port: nat)
    requires es != []
    ensures var n := |es| - 1; After(map[], es, port) == Apply(After(map[], es[..n], port), es[n], port)
  {
    var n := |es| - 1;
    assert es == es[..n] + [es[n]];
    AfterAppend(map[], es[..n], es[n], port);
  }

  lemma LivesLonger(es: seq<Event>, a: Addr, port: nat, i: nat)
    requires es != [] && i < |es| - 1
    ensures LivesSince(es, a, port, i) <==>
            LivesSince(es[..|es| - 1], a, port, i) && a in After(map[], es, port)
  {
    var n := |es| - 1;
    assert es[..|es|] == es;
    assert forall j :: 0 <= j <= n ==> es[..n][..j] == es[..j];
    if LivesSince(es, a, port, i) {
      forall j | i < j <= n ensures a in After(map[], es[..n][..j], port) {
        assert a in After(map[], es[..j], port);
      }
      assert a in After(map[], es[..|es|], port);
    }
    if LivesSince(es[..n], a, port, i) && a in After(map[], es, port) {
      forall j | i < j <= |es| ensures a in After(map[], es[..j], port) {
        if j <= n { assert a in After(map[], es[..n][..j], port); }
      }
    }
  }

  /**
   What is written at one end and captured at the other, on a flow that has its connection, is
   handed over unchanged.
   */
  lemma WrittenIsHandedOver(t: Table, e: FlowState, lport: nat, rport: nat, p: seq<octet>, millis: uint32, src: Addr,
      now: int, h: nat)
    requires Connected(t, src) && p != []
    ensures HandedOver(t, Event(now, Capture(src, Built(e, lport, rport, p, millis), h)), rport, h) == [Message(p, src)]
  {
    BuiltOnTheWire(e, lport, rport, p, millis);
  }

  lemma NothingYet(port: nat)
    ensures After(map[], [], port) == map[]
  {
  }

  lemma LivesNow(es: seq<Event>, a: Addr, port: nat)
    requires es != []
    ensures LivesSince(es, a, port, |es| - 1) <==> a in After(map[], es, port)
  {
    assert es[..|es|] == es;
    if LivesSince(es, a, port, |es| - 1) {
      assert a in After(map[], es[..|es|], port);
    }
  }

  /**
   A flow has its connection if and only if it was attached and has not been evicted since:
   no capture ever connects an orphan.
   */
  lemma {:induction false} ConnectedIff(es: seq<Event>, a: Addr, port: nat)
    ensures Connected(After(map[], es, port), a) <==>
            exists i: nat :: i < |es| && es[i].act == Attach(a) && LivesSince(es, a, port, i)
  {
    hide LivesSince, After;
    if es == [] {
      NothingYet(port);
    } else {
      var n := |es| - 1;
      OneEvent(es, port);
      ConnectedIff(es[..n], a, port);
      LivesNow(es, a, port);
      if Connected(After(map[], es, port), a) && es[n].act != Attach(a) {
        var i: nat :| i < n && es[..n][i].act == Attach(a) && LivesSince(es[..n], a, port, i);
        LivesLonger(es, a, port, i);
        assert es[i].act == Attach(a);
      }
      if i: nat :| i < n && es[i].act == Attach(a) && LivesSince(es, a, port, i) {
        LivesLonger(es, a, port, i);
        assert es[..n][i].act == Attach(a);
      }
    }
  }

  predicate Captures(e: Event, a: Addr, port: nat) {
    e.act.Capture? && e.act.src == a && e.act.segment.dstPort == port
  }

  /** Event `i` is the last capture of the flow of `a`, which has not been evicted since. */
  ghost predicate LastCapture(es: seq<Event>, a: Addr, port: nat, i: nat) {
    && i < |es| && Captures(es[i], a, port) && LivesSince(es, a, port, i)
    && forall k :: i < k < |es| ==> !Captures(es[k], a, port)
  }

  /** A flow has the raw socket of its last capture to write on, and none before the first. */
  lemma {:induction false} HandleIff(es: seq<Event>, a: Addr, port: nat, h: nat)
    ensures a in After(map[], es, port) && After(map[], es, port)[a].handle == Some(h) <==>
            exists i: nat :: LastCapture(es, a, port, i) && es[i].act.handle == h
  {
    hide LivesSince, After;
    if es == [] {
      NothingYet(port);
    } else {
      var n := |es| - 1;
      var t := After(map[], es, port);
      OneEvent(es, port);
      HandleIff(es[..n], a, port, h);
      LivesNow(es, a, port);
      if a in t && t[a].handle == Some(h) {
        if Captures(es[n], a, port) {
          assert LastCapture(es, a, port, n);
        } else {
          var i: nat :| LastCapture(es[..n], a, port, i) && es[..n][i].act.handle == h;
          LivesLonger(es, a, port, i);
          assert LastCapture(es, a, port, i) && es[i].act.handle == h;
        }
      }
      if i: nat :| LastCapture(es, a, port, i) && es[i].act.handle == h {
        if i < n {
          LivesLonger(es, a, port, i);
          assert LastCapture(es[..n], a, port, i) && es[..n][i].act.handle == h;
        }
      }
    }
  }

  // ---- a connected flow lives exactly while it is fed ----

  /** One event as seen by the flow of `a`. */
  lemma ApplyAt(t: Table, e: Event, a: Addr, port: nat)
    requires a in t && t[a].connected
    ensures var t' := Apply(t, e, port);
            && (a in t' <==> !(e.act.Tick? && e.now - t[a].ts > FLOW_EXPIRE))
            && (a in t' && t[a].handle.Some? ==> t'[a].handle.Some?)
            && (a in t' ==> t'[a].connected && t'[a].ts == if Captures(e, a, port) then e.now else t[a].ts)
  {
  }

  /** Every tick comes within a minute of the last capture of `a`, the first of which was at `last`. */
  predicate Fed(es: seq<Event>, a: Addr, port: nat, last: int)
    decreases |es|
  {
    es == [] ||
    (var e := es[0];
     && (e.act.Tick? ==> e.now - last <= FLOW_EXPIRE)
     && Fed(es[1..], a, port, if Captures(e, a, port) then e.now else last))
  }

  /** `a` has its flow, with its connection, after every prefix of the events. */
  ghost predicate Survives(t: Table, es: seq<Event>, a: Addr, port: nat)
    decreases |es|
  {
    a in t && t[a].connected && (es == [] || Survives(Apply(t, es[0], port), es[1..], a, port))
  }

  /**
   A flow whose connection is set is never evicted exactly when every cleaner tick comes
   at most a minute after the last capture: neither writing nor anything that happens to
   other flows matters.
   */
  lemma {:induction false} SurvivesIffFed(t: Table, es: seq<Event>, a: Addr, port: nat)
    requires a in t && t[a].connected
    ensures Survives(t, es, a, port) <==> Fed(es, a, port, t[a].ts)
    decreases |es|
  {
    hide Captured;
    if es != [] {
      var e := es[0];
      var t' := Apply(t, e, port);
      ApplyAt(t, e, a, port);
      if a in t' {
        SurvivesIffFed(t', es[1..], a, port);
      }
    }
  }

  // ---- a flow that only writes is evicted on time ----

  /** Times do not decrease and ticks come every five seconds from `next`, none left out. */
  predicate Ideal(es: seq<Event>, clock: int, next: int)
    decreases |es|
  {
    clock <= next &&
    (es == [] ||
     (var e := es[0];
      && clock <= e.now <= next
      && (e.act.Tick? ==> e.now == next)
      && Ideal(es[1..], e.now, if e.act.Tick? then next + CLEAN_PERIOD else next)))
  }

  /**
   Without captures a flow is there at every tick up to its time to live and gone at the
   first tick after it, at most five seconds late. `limit` is the minute of a connected
   flow, or the five seconds of an orphan that is never attached.
   */
  lemma {:induction false} SilentFlowEvicted(t: Table, es: seq<Event>, a: Addr, port: nat, clock: int, next: int)
    returns (i: nat)
    requires a in t && Ideal(es, clock, next) && next <= t[a].ts + Ttl(t[a]) + CLEAN_PERIOD
    requires forall k :: 0 <= k < |es| ==> !Captures(es[k], a, port) && (es[k].act == Attach(a) ==> t[a].connected)
    requires es != [] && es[|es| - 1].now > t[a].ts + Ttl(t[a]) + CLEAN_PERIOD
    ensures i < |es| && es[i].act.Tick?
    ensures t[a].ts + Ttl(t[a]) < es[i].now <= t[a].ts + Ttl(t[a]) + CLEAN_PERIOD
    ensures forall k :: 0 <= k <= i ==> a in After(t, es[..k], port)
    ensures a !in After(t, es[..i + 1], port)
    decreases |es|
  {
    hide Captured, Add32;
    var e := es[0];
    var t' := Apply(t, e, port);
    assert es[..0] == [] && es[..1] == [] + [e];
    AfterAppend(t, [], e, port);
    if e.act.Tick? && e.now > t[a].ts + Ttl(t[a]) {
      i := 0;
    } else {
      assert a in t' && t'[a].ts == t[a].ts && t'[a].connected == t[a].connected;
      var rest := es[1..];
      assert |es| > 1;
      var j := SilentFlowEvicted(t', rest, a, port, e.now, if e.act.Tick? then next + CLEAN_PERIOD else next);
      i := j + 1;
      forall k | 1 <= k <= |es| ensures After(t, es[..k], port) == After(t', rest[..k - 1], port) {
        assert es[..k][0] == e && es[..k][1..] == rest[..k - 1];
      }
      assert es[i] == rest[j];
    }
  }

  /**
   A flow with its connection that only writes is evicted between 60 and 65 seconds after its
   last capture, or its creation.
   */
  lemma WriterEvictedInTime(t: Table, es: seq<Event>, a: Addr, port: nat, clock: int, next: int) returns (i: nat)
    requires a in t && t[a].connected && Ideal(es, clock, next) && next <= t[a].ts + CLEAN_PERIOD
    requires forall k :: 0 <= k < |es| ==> !Captures(es[k], a, port)
    requires es != [] && es[|es| - 1].now > t[a].ts + 65 * SECOND
    ensures i < |es| && es[i].act.Tick? && t[a].ts + 60 * SECOND < es[i].now <= t[a].ts + 65 * SECOND
    ensures a in After(t, es[..i], port) && a !in After(t, es[..i + 1], port)
  {
    i := SilentFlowEvicted(t, es, a, port, clock, next);
  }

  /**
   An orphan that is neither attached nor captured again is evicted between 5 and 10 seconds
   after its last capture, or its creation.
   */
  lemma OrphanEvictedInTime(t: Table, es: seq<Event>, a: Addr, port: nat, clock: int, next: int) returns (i: nat)
    requires a in t && !t[a].connected && Ideal(es, clock, next) && next <= t[a].ts + 10 * SECOND
    requires forall k :: 0 <= k < |es| ==> !Captures(es[k], a, port) && es[k].act != Attach(a)
    requires es != [] && es[|es| - 1].now > t[a].ts + 10 * SECOND
    ensures i < |es| && es[i].act.Tick? && t[a].ts + 5 * SECOND < es[i].now <= t[a].ts + 10 * SECOND
    ensures a in After(t, es[..i], port) && a !in After(t, es[..i + 1], port)
  {
    i := SilentFlowEvicted(t, es, a, port, clock, next);
  }

  // ---- delivery does not depend on sequencing ----

  /** The two tables have the same flows, connections and times; the numbers may all differ. */
  predicate AlikeTables(t: Table, u: Table) {
    t.Keys == u.Keys && forall a :: a in t ==> t[a].connected == u[a].connected && t[a].ts == u[a].ts
  }

  predicate AlikeSegments(s: Segment, r: Segment) {
    s.dstPort == r.dstPort && s.hasPsh == r.hasPsh && s.payload == r.payload
  }

  predicate AlikeEvents(e: Event, f: Event) {
    e.now == f.now &&
    match (e.act, f.act)
    case (Capture(a, s, h), Capture(b, r, g)) => a == b && h == g && AlikeSegments(s, r)
    case (Write(a, _, _), Write(b, _, _)) => a == b
    case (Attach(a), Attach(b)) => a == b
    case (Tick, Tick) => true
    case _ => false
  }

  lemma ApplyAlike(t: Table, u: Table, e: Event, f: Event, port: nat)
    requires AlikeTables(t, u) && AlikeEvents(e, f)
    ensures AlikeTables(Apply(t, e, port), Apply(u, f, port))
  {
  }

  lemma {:induction false} AfterAlike(t: Table, u: Table, es: seq<Event>, fs: seq<Event>, port: nat)
    requires AlikeTables(t, u) && |es| == |fs|
    requires forall i :: 0 <= i < |es| ==> AlikeEvents(es[i], fs[i])
    ensures AlikeTables(After(t, es, port), After(u, fs, port))
    decreases |es|
  {
    hide Apply;
    if es != [] {
      ApplyAlike(t, u, es[0], fs[0], port);
      AfterAlike(Apply(t, es[0], port), Apply(u, fs[0], port), es[1..], fs[1..], port);
    }
  }

  lemma HandedOverAlike(t: Table, u: Table, e: Event, f: Event, port: nat, h: nat)
    requires AlikeTables(t, u) && AlikeEvents(e, f)
    ensures HandedOver(t, e, port, h) == HandedOver(u, f, port, h)
  {
  }

  /**
   Two histories that differ in any sequence and acknowledgement numbers, flags other than
   PSH, options, source ports' numbers and amounts written - in the starting table and in
   every event - deliver the same messages in the same order.
   */
  lemma {:induction false} DeliveryIgnoresSequencing(t: Table, u: Table, es: seq<Event>, fs: seq<Event>, port: nat,
      h: nat)
    requires AlikeTables(t, u) && |es| == |fs|
    requires forall i :: 0 <= i < |es| ==> AlikeEvents(es[i], fs[i])
    ensures Delivered(t, es, port, h) == Delivered(u, fs, port, h)
  {
    hide After, AlikeTables;
    if es != [] {
      var n := |es| - 1;
      DeliveryIgnoresSequencing(t, u, es[..n], fs[..n], port, h);
      AfterAlike(t, u, es[..n], fs[..n], port);
      HandedOverAlike(After(t, es[..n], port), After(u, fs[..n], port), es[n], fs[n], port, h);
    }
  }
}
