/** The raw connection itself: the flow table under its lock, and the loops that use it. */
module RawConn {
  import opened Words
  import opened RawTcp
  import opened RawLife

  /** What came of a WriteTo: nowhere to send to, not serialised, or put to the raw socket. */
  datatype Outcome = NoHandle | NotSerialised | Put(segment: Segment, handle: nat, ok: bool)

  /** What captureFlow reads: something else, or a TCP segment and its source. */
  datatype Packet = NotTcp | Tcp(src: Addr, segment: Segment)

  /** What loop `h` does under the lock with the packets it reads, packet `i` at `clock(i)`. */
  function Arrivals(ps: seq<Packet>, h: nat, port: nat, clock: nat -> int): seq<Event> {
    if ps == [] then []
    else
      var n := |ps| - 1;
      Arrivals(ps[..n], h, port, clock)
      + (if ps[n].Tcp? && ps[n].segment.dstPort == port
         then [Event(clock(n), Capture(ps[n].src, ps[n].segment, h))]
         else [])
  }

  // ---- what a capture loop hands over, packet by packet ----

  /** Packet `p`, met by the table that the first `pos` events left, is to be handed over. */
  predicate IsDue(p: Packet, trace: seq<Event>, pos: nat, port: nat) {
    && p.Tcp? && p.segment.dstPort == port && p.segment.hasPsh && p.segment.payload != []
    && pos <= |trace| && Connected(After(map[], trace[..pos], port), p.src)
  }

  function MessageOf(p: Packet): Message
    requires p.Tcp?
  {
    Message(p.segment.payload, p.src)
  }

  /** Each packet for the port has its capture in the trace, at its time, in their order. */
  ghost predicate AllMet(ps: seq<Packet>, trace: seq<Event>, from: nat, met: seq<nat>, h: nat, port: nat,
      clock: nat -> int)
  {
    && |met| == |ps|
    && (forall i :: 0 <= i < |ps| ==> from <= met[i] <= |trace|)
    && (forall i, j :: 0 <= i < j < |ps| ==> met[i] <= met[j])
    && (forall i :: 0 <= i < |ps| && ps[i].Tcp? && ps[i].segment.dstPort == port ==>
          met[i] < |trace| && trace[met[i]] == Event(clock(i), Capture(ps[i].src, ps[i].segment, h)))
  }

  ghost predicate SentSoFar(ps: seq<Packet>, trace: seq<Event>, met: seq<nat>, at: seq<nat>, sent: seq<Message>,
      port: nat)
    requires |met| == |ps|
  {
    && Rising(at) && |at| == |sent|
    && (forall k :: 0 <= k < |at| ==> at[k] < |ps| && ps[at[k]].Tcp? && sent[k] == MessageOf(ps[at[k]]))
    && (forall i :: 0 <= i < |ps| ==> (IsDue(ps[i], trace, met[i], port) <==> i in at))
  }

  lemma NoneMet(trace: seq<Event>, h: nat, port: nat, clock: nat -> int)
    ensures AllMet([], trace, |trace|, [], h, port, clock)
  {
  }

  lemma OneMoreMet(ps: seq<Packet>, p: Packet, was: seq<Event>, trace: seq<Event>, from: nat, met: seq<nat>, pos: nat,
      h: nat, port: nat, clock: nat -> int)
    requires AllMet(ps, was, from, met, h, port, clock) && from <= |was| && was <= trace && |was| <= pos <= |trace|
    requires p.Tcp? && p.segment.dstPort == port ==>
               pos < |trace| && trace[pos] == Event(clock(|ps|), Capture(p.src, p.segment, h))
    ensures AllMet(ps + [p], trace, from, met + [pos], h, port, clock)
  {
  }

  /** A longer trace does not change what the table met was. */
  lemma StaysDue(p: Packet, was: seq<Event>, trace: seq<Event>, pos: nat, port: nat)
    requires was <= trace && pos <= |was|
    ensures IsDue(p, trace, pos, port) == IsDue(p, was, pos, port)
  {
    assert trace[..pos] == was[..pos];
  }

  lemma OneMoreSent(ps: seq<Packet>, p: Packet, was: seq<Event>, trace: seq<Event>, met: seq<nat>, pos: nat,
      at: seq<nat>, sent: seq<Message>, port: nat)
    requires |met| == |ps| && SentSoFar(ps, was, met, at, sent, port)
    requires was <= trace && forall i :: 0 <= i < |met| ==> met[i] <= |was|
    ensures SentSoFar(ps, trace, met, at, sent, port)
    ensures IsDue(p, trace, pos, port) ==>
              p.Tcp? && SentSoFar(ps + [p], trace, met + [pos], at + [|ps|], sent + [MessageOf(p)], port)
    ensures !IsDue(p, trace, pos, port) ==> SentSoFar(ps + [p], trace, met + [pos], at, sent, port)
  {
    assert IsDue(p, trace, pos, port) ==> p.Tcp?;
    hide IsDue;
    forall i | 0 <= i < |ps| ensures IsDue(ps[i], trace, met[i], port) <==> i in at {
      StaysDue(ps[i], was, trace, met[i], port);
    }
  }

  /** What a capture loop has done with the packets `ps`. */
  ghost predicate Handled(ps: seq<Packet>, trace: seq<Event>, from: nat, met: seq<nat>, at: seq<nat>,
      sent: seq<Message>, h: nat, port: nat, clock: nat -> int)
  {
    AllMet(ps, trace, from, met, h, port, clock) && SentSoFar(ps, trace, met, at, sent, port)
  }

  lemma HandledNone(trace: seq<Event>, h: nat, port: nat, clock: nat -> int)
    ensures Handled([], trace, |trace|, [], [], [], h, port, clock)
  {
  }

  lemma OneMoreMetStays(ps: seq<Packet>, was: seq<Event>, trace: seq<Event>, from: nat, met: seq<nat>, h: nat,
      port: nat, clock: nat -> int)
    requires AllMet(ps, was, from, met, h, port, clock) && was <= trace
    ensures AllMet(ps, trace, from, met, h, port, clock)
  {
  }

  lemma HandledMore(ps: seq<Packet>, p: Packet, was: seq<Event>, trace: seq<Event>, from: nat, met: seq<nat>, pos: nat,
      at: seq<nat>, sent: seq<Message>, h: nat, port: nat, clock: nat -> int)
    requires Handled(ps, was, from, met, at, sent, h, port, clock)
    requires from <= |was| && was <= trace && |was| <= pos <= |trace|
    requires p.Tcp? && p.segment.dstPort == port ==>
               pos < |trace| && trace[pos] == Event(clock(|ps|), Capture(p.src, p.segment, h))
    ensures AllMet(ps + [p], trace, from, met + [pos], h, port, clock)
    ensures Handled(ps, trace, from, met, at, sent, h, port, clock)
    ensures IsDue(p, trace, pos, port) ==>
              p.Tcp? && Handled(ps + [p], trace, from, met + [pos], at + [|ps|], sent + [MessageOf(p)], h, port, clock)
    ensures !IsDue(p, trace, pos, port) ==> Handled(ps + [p], trace, from, met + [pos], at, sent, h, port, clock)
  {
    OneMoreMet(ps, p, was, trace, from, met, pos, h, port, clock);
    OneMoreMetStays(ps, was, trace, from, met, h, port, clock);
    OneMoreSent(ps, p, was, trace, met, pos, at, sent, port);
    hide IsDue, SentSoFar;
  }

  lemma PrefixPlus(ps: seq<Packet>, i: nat)
    requires i < |ps|
    ensures ps[..i + 1] == ps[..i] + [ps[i]] && ps[..i + 1][..i] == ps[..i] && ps[..i + 1][i] == ps[i]
  {
  }

  /** Spelled out: which packets were handed over, and as what. */
  lemma Ended(ps: seq<Packet>, trace: seq<Event>, from: nat, met: seq<nat>, at: seq<nat>, sent: seq<Message>, h: nat,
      port: nat, clock: nat -> int)
    requires Handled(ps, trace, from, met, at, sent, h, port, clock)
    ensures AllMet(ps, trace, from, met, h, port, clock) && |met| == |ps| && Rising(at) && |at| == |sent|
    ensures forall k :: 0 <= k < |at| ==> at[k] < |ps| && ps[at[k]].Tcp? && sent[k] == MessageOf(ps[at[k]])
    ensures forall i :: 0 <= i < |ps| ==> (IsDue(ps[i], trace, met[i], port) <==> i in at)
  {
    hide IsDue;
  }

  /** The same when the loop is stopped over packet `i`, which is due. */
  lemma Stopped(ps: seq<Packet>, i: nat, trace: seq<Event>, from: nat, met: seq<nat>, pos: nat, at: seq<nat>,
      sent: seq<Message>, h: nat, port: nat, clock: nat -> int)
    requires i < |ps| && Handled(ps[..i], trace, from, met, at, sent, h, port, clock)
    requires IsDue(ps[i], trace, pos, port)
    ensures |met| == i && Rising(at) && |at| == |sent| && i !in at
    ensures forall k :: 0 <= k < |at| ==> at[k] < i && ps[at[k]].Tcp? && sent[k] == MessageOf(ps[at[k]])
    ensures forall j :: 0 <= j <= i ==> (IsDue(ps[j], trace, (met + [pos])[j], port) <==> j in at || j == i)
  {
    hide IsDue;
    Ended(ps[..i], trace, from, met, at, sent, h, port, clock);
    assert forall j :: 0 <= j < i ==> ps[..i][j] == ps[j];
  }

  lemma NoArrivals(h: nat, port: nat, clock: nat -> int)
    ensures Arrivals([], h, port, clock) == []
  {
  }

  lemma OneArrival(ps: seq<Packet>, i: nat, h: nat, port: nat, clock: nat -> int)
    requires i < |ps|
    ensures Arrivals(ps[..i + 1], h, port, clock)
            == Arrivals(ps[..i], h, port, clock)
               + (if ps[i].Tcp? && ps[i].segment.dstPort == port
                  then [Event(clock(i), Capture(ps[i].src, ps[i].segment, h))]
                  else [])
  {
    assert ps[..i + 1][..i] == ps[..i];
  }

  class Conn {
    /** The local port of the cover connection, and the one the capture loops filter on. */
    const lport: nat
    const port: nat
    var flows: map<Addr, Flow>
    ghost var pool: set<Flow>
    /** History: everything done under the lock. */
    ghost var trace: seq<Event>

    ghost predicate FlowsOk()
      reads this`flows, this`pool
    {
      && (forall a :: a in flows ==> flows[a] in pool)
      && (forall a, b :: a in flows && b in flows && flows[a] == flows[b] ==> a == b)
    }

    ghost function View(): Table
      requires FlowsOk()
      reads this`flows, this`pool, pool
    {
      map a | a in flows :: flows[a].State()
    }

    /** The table is what its history leaves of an empty one. */
    ghost predicate Valid()
      reads this, pool
    {
      FlowsOk() && View() == After(map[], trace, port)
    }

    /** The messages loop `h` has handed over so far, had it not been stopped. */
    ghost function Inbox(h: nat): seq<Message>
      reads this`trace
    {
      Delivered(map[], trace, port, h)
    }

    constructor (lport: nat, port: nat)
      ensures Valid() && trace == [] && pool == {} && this.lport == lport && this.port == port
    {
      this.lport, this.port := lport, port;
      flows, pool, trace := map[], {}, [];
    }

    /** Writes down what has just been done to the table. */
    ghost method Record(e: Event, before: Table)
      requires FlowsOk() && before == After(map[], trace, port) && View() == Apply(before, e, port)
      modifies this`trace
      ensures Valid() && trace == old(trace) + [e]
    {
      hide Apply;
      AfterAppend(map[], trace, e, port);
      trace := trace + [e];
    }

    /** Finds or makes the flow of `a`; the caller then works on it before unlocking. */
    method LockFlow(a: Addr, now: int) returns (e: Flow)
      requires FlowsOk()
      modifies this`flows, this`pool
      ensures FlowsOk() && fresh(pool - old(pool)) && old(pool) <= pool
      ensures a in flows && flows[a] == e
      ensures e.State() == At(old(View()), a, now)
      ensures a !in old(View()) ==> e.State() == FlowState(false, None, 0, 0, 0, now)
      ensures View() == old(View())[a := At(old(View()), a, now)]
    {
      if a in flows {
        e := flows[a];
        assert View() == old(View())[a := e.State()];
        return;
      }
      e := new Flow(now);
      pool := pool + {e};
      flows := flows[a := e];
    }

    method CaptureOne(src: Addr, s: Segment, h: nat, now: int) returns (orphan: bool)
      requires Valid() && s.dstPort == port
      modifies this, pool
      ensures Valid() && fresh(pool - old(pool)) && old(pool) <= pool
      ensures View() == old(View())[src := Captured(At(old(View()), src, now), s, h, now)]
      ensures trace == old(trace) + [Event(now, Capture(src, s, h))]
      ensures orphan == !At(old(View()), src, now).connected
    {
      hide Captured, After;
      ghost var before := View();
      var e := LockFlow(src, now);
      orphan := e.Capture(s, h, now);
      Record(Event(now, Capture(src, s, h)), before);
    }

    /** Accept and Dial: the flow gets its TCP connection, and nothing else changes. */
    method Attach(a: Addr, now: int)
      requires Valid()
      modifies this, pool
      ensures Valid() && fresh(pool - old(pool)) && old(pool) <= pool
      ensures View() == old(View())[a := At(old(View()), a, now).(connected := true)]
      ensures trace == old(trace) + [Event(now, Action.Attach(a))]
    {
      hide After;
      ghost var before := View();
      var e := LockFlow(a, now);
      e.Attach();
      Record(Event(now, Action.Attach(a)), before);
    }

    method PutOn(e: Flow, p: seq<octet>, rport: nat, millis: uint32, serialiseOk: bool, writeOk: bool)
      returns (n: nat, o: Outcome)
      modifies e
      ensures o.NoHandle? <==> old(e.handle) == None
      ensures o.NotSerialised? <==> old(e.handle).Some? && !serialiseOk
      ensures o.Put? ==> o == Put(Built(old(e.State()), lport, rport, p, millis), old(e.handle).value, writeOk)
      ensures e.State() == if o.Put? then Advanced(old(e.State()), |p|) else old(e.State())
      ensures n == if o.NotSerialised? then 0 else |p|
    {
      hide Built, Advanced;
      if e.handle == None { return |p|, NoHandle; }
      if !serialiseOk { return 0, NotSerialised; }
      o := Put(Built(e.State(), lport, rport, p, millis), e.handle.value, writeOk);
      e.Advance(|p|);
      n := |p|;
    }

    method PutInPlace(e: Flow, a: Addr, p: seq<octet>, rport: nat, millis: uint32, serialiseOk: bool, writeOk: bool)
      returns (n: nat, o: Outcome)
      requires FlowsOk() && a in flows && flows[a] == e
      modifies e
      ensures FlowsOk()
      ensures o.NoHandle? <==> old(e.handle) == None
      ensures o.NotSerialised? <==> old(e.handle).Some? && !serialiseOk
      ensures o.Put? ==> o == Put(Built(old(e.State()), lport, rport, p, millis), old(e.handle).value, writeOk)
      ensures View() == old(View())[a := if o.Put? then Advanced(old(e.State()), |p|) else old(e.State())]
      ensures n == if o.NotSerialised? then 0 else |p|
    {
      hide Built, Advanced;
      n, o := PutOn(e, p, rport, millis, serialiseOk, writeOk);
    }

    /** The part of WriteTo under the lock. */
    method WriteLocked(p: seq<octet>, a: Addr, rport: nat, millis: uint32, now: int, serialiseOk: bool, writeOk: bool)
      returns (n: nat, o: Outcome)
      requires FlowsOk()
      modifies this`flows, this`pool, pool
      ensures FlowsOk() && fresh(pool - old(pool)) && old(pool) <= pool
      ensures var e := At(old(View()), a, now);
              && (o.NoHandle? <==> e.handle == None)
              && (o.NotSerialised? <==> e.handle.Some? && !serialiseOk)
              && (o.Put? ==> o == Put(Built(e, lport, rport, p, millis), e.handle.value, writeOk))
              && View() == old(View())[a := if o.Put? then Advanced(e, |p|) else e]
              && n == (if o.NotSerialised? then 0 else |p|)
    {
      hide Built, Advanced, FlowsOk, View;
      var e := LockFlow(a, now);
      n, o := PutInPlace(e, a, p, rport, millis, serialiseOk, writeOk);
    }

    method WriteTo(p: seq<octet>, a: Addr, rport: nat, millis: uint32, now: int, serialiseOk: bool, writeOk: bool)
      returns (n: nat, o: Outcome)
      requires Valid()
      modifies this, pool
      ensures Valid() && fresh(pool - old(pool)) && old(pool) <= pool
      ensures var e := At(old(View()), a, now);
              && (o.NoHandle? <==> e.handle == None)
              && (o.NotSerialised? <==> e.handle.Some? && !serialiseOk)
              && (o.Put? ==> o == Put(Built(e, lport, rport, p, millis), e.handle.value, writeOk))
              && View() == old(View())[a := if o.Put? then Advanced(e, |p|) else e]
              && n == (if o.NotSerialised? then 0 else |p|)
      ensures trace == old(trace) + [Event(now, Write(a, |p|, o.Put?))]
      ensures o.Put? ==> o.segment.payload == p && o.segment.srcPort == lport && o.segment.dstPort == rport
      ensures o.Put? ==> a in old(View()) && o.segment.seqNo == old(View())[a].seqNo
      ensures o.Put? ==> o.segment.ackNo == old(View())[a].ackNo && Some(o.handle) == old(View())[a].handle
    {
      hide Built, Advanced, After, FlowsOk;
      ghost var before := View();
      n, o := WriteLocked(p, a, rport, millis, now, serialiseOk, writeOk);
      BuiltOnTheWire(At(before, a, now), lport, rport, p, millis);
      Record(Event(now, Write(a, |p|, o.Put?)), before);
    }

    predicate Expired(v: Flow, now: int)
      reads v
    {
      now - v.ts > (if v.connected then FLOW_EXPIRE else ORPHAN_EXPIRE)
    }

    method CleanLoop(now: int) returns (closed: set<Addr>)
      requires FlowsOk()
      modifies this`flows
      ensures FlowsOk()
      ensures forall a :: a in flows ==> a in old(flows) && flows[a] == old(flows)[a]
      ensures forall a :: a in old(flows) ==> (a in flows <==> !Expired(old(flows)[a], now))
      ensures forall a :: a in closed <==> a in old(flows) && a !in flows && old(flows)[a].connected
    {
      closed := {};
      var keys := flows.Keys;
      while keys != {}
        invariant keys <= old(flows).Keys && FlowsOk()
        invariant forall a :: a in flows ==> a in old(flows) && flows[a] == old(flows)[a]
        invariant forall a :: a in old(flows) ==> (a in flows <==> a in keys || !Expired(old(flows)[a], now))
        invariant forall a :: a in closed <==> a in old(flows) && a !in flows && old(flows)[a].connected
        decreases |keys|
      {
        var k :| k in keys;
        keys := keys - {k};
        var v := flows[k];
        if Expired(v, now) {
          if v.connected { closed := closed + {k}; }
          flows := flows - {k};
        }
      }
    }

    /** One cleaner tick; the TCP connections of the evicted flows are closed. */
    method Clean(now: int) returns (closed: set<Addr>)
      requires Valid()
      modifies this`flows, this`trace
      ensures Valid()
      ensures View() == Cleaned(old(View()), now)
      ensures trace == old(trace) + [Event(now, Tick)]
      ensures forall a :: a in closed <==> a in old(View()) && a !in View() && old(View())[a].connected
    {
      hide After;
      ghost var before := View();
      closed := CleanLoop(now);
      assert forall a :: a in View() <==> a in Cleaned(before, now);
      Record(Event(now, Tick), before);
    }

    /** Other goroutines use the table between two captures; only loop `h` captures on `h`. */
    method Interfere(h: nat)
      requires Valid()
      modifies this, pool
      ensures Valid() && fresh(pool - old(pool)) && old(pool) <= pool
      ensures old(trace) <= trace && CapturesBy(trace, h) == CapturesBy(old(trace), h)
    {
    }

    /** One packet of a capture loop, up to the message it has to hand over, if any. */
    method Take(h: nat, p: Packet, now: int) returns (m: Option<Message>)
      requires Valid()
      modifies this, pool
      ensures Valid() && fresh(pool - old(pool)) && old(pool) <= pool
      ensures m.Some? <==>
                && p.Tcp? && p.segment.dstPort == port && p.segment.hasPsh && p.segment.payload != []
                && p.src in old(View()) && old(View())[p.src].connected
      ensures m.Some? ==> m.value == Message(p.segment.payload, p.src)
      ensures trace == if p.Tcp? && p.segment.dstPort == port
                       then old(trace) + [Event(now, Capture(p.src, p.segment, h))]
                       else old(trace)
      ensures Inbox(h) == old(Inbox(h)) + (if m.Some? then [m.value] else [])
    {
      hide Captured, After, Delivered, CapturesBy;
      if p.NotTcp? || p.segment.dstPort != port { return None; }
      var s := p.segment;
      DeliveredAppend(map[], trace, Event(now, Capture(p.src, s, h)), port, h);
      var orphan := CaptureOne(p.src, s, h, now);
      if !orphan && s.hasPsh && s.payload != [] {
        return Some(Message(s.payload, p.src));
      }
      return None;
    }

    /** The same, after other goroutines have had their turn; `pos` is how far the trace had come by then. */
    method TakeNext(h: nat, p: Packet, now: int) returns (m: Option<Message>, ghost pos: nat)
      requires Valid()
      modifies this, pool
      ensures Valid() && fresh(pool - old(pool)) && old(pool) <= pool && old(trace) <= trace
      ensures |old(trace)| <= pos <= |trace|
      ensures p.Tcp? && p.segment.dstPort == port ==>
                pos < |trace| && trace[pos] == Event(now, Capture(p.src, p.segment, h))
      ensures m == if IsDue(p, trace, pos, port) then Some(Message(p.segment.payload, p.src)) else None
      ensures CapturesBy(trace, h)
              == CapturesBy(old(trace), h)
                 + (if p.Tcp? && p.segment.dstPort == port then [Event(now, Capture(p.src, p.segment, h))] else [])
      ensures Inbox(h) == old(Inbox(h)) + (if m.Some? then [m.value] else [])
    {
      hide After, Delivered, CapturesBy;
      Interfere(h);
      OnlyCapturesDeliver(map[], old(trace), trace, port, h);
      pos := |trace|;
      ghost var met := trace;
      DeliveredAppend(map[], met, Event(now, if p.Tcp? then Capture(p.src, p.segment, h) else Tick), port, h);
      m := Take(h, p, now);
      assert trace[..pos] == met;
    }

    /** The loop; `pos` is where a message that `die` forestalled would have been due. */
    method CaptureLoop(h: nat, ps: seq<Packet>, clock: nat -> int, quota: nat)
      returns (sent: seq<Message>, died: bool, ghost taken: nat, ghost met: seq<nat>, ghost at: seq<nat>,
          ghost pos: nat)
      requires Valid()
      modifies this, pool
      ensures Valid() && old(trace) <= trace
      ensures taken <= |ps| && (died ==> taken < |ps|)
      ensures CapturesBy(trace, h)
              == CapturesBy(old(trace), h) + Arrivals(ps[..if died then taken + 1 else taken], h, port, clock)
      ensures Handled(ps[..taken], trace, |old(trace)|, met, at, sent, h, port, clock)
      ensures !died ==> taken == |ps| && Inbox(h) == old(Inbox(h)) + sent
      ensures died ==> |sent| == quota && exists last :: Inbox(h) == old(Inbox(h)) + sent + [last]
      ensures died ==> IsDue(ps[taken], trace, pos, port)
      ensures died ==> AllMet(ps[..taken + 1], trace, |old(trace)|, met + [pos], h, port, clock)
    {
      hide CapturesBy, Delivered, After, Valid, FlowsOk, IsDue, Handled, AllMet, Arrivals;
      sent, died, taken, met, at, pos := [], false, 0, [], [], 0;
      HandledNone(trace, h, port, clock);
      NoArrivals(h, port, clock);
      for i := 0 to |ps|
        invariant Valid() && fresh(pool - old(pool)) && old(trace) <= trace && !died && taken == i
        invariant CapturesBy(trace, h) == CapturesBy(old(trace), h) + Arrivals(ps[..i], h, port, clock)
        invariant |sent| <= quota && Inbox(h) == old(Inbox(h)) + sent
        invariant Handled(ps[..i], trace, |old(trace)|, met, at, sent, h, port, clock)
      {
        PrefixPlus(ps, i);
        OneArrival(ps, i, h, port, clock);
        ghost var was := trace;
        var m;
        m, pos := TakeNext(h, ps[i], clock(i));
        HandledMore(ps[..i], ps[i], was, trace, |old(trace)|, met, pos, at, sent, h, port, clock);
        if m.Some? && |sent| == quota {
          died := true;
          return;
        }
        met, taken := met + [pos], i + 1;
        if m.Some? {
          sent, at := sent + [m.value], at + [i];
        }
      }
    }

    /**
     One capture loop over what its handle brings, packet `i` at `clock(i)`: until the input
     ends, or until `die` wins the select when `quota` messages have been handed over and one
     more is due. `taken` packets have then been read; packet `i` met the table that the first
     `met[i]` events had left; the messages sent are those of the packets `at`, in order.
     */
    method CaptureFlow(h: nat, ps: seq<Packet>, clock: nat -> int, quota: nat)
      returns (sent: seq<Message>, died: bool, ghost taken: nat, ghost met: seq<nat>, ghost at: seq<nat>)
      requires Valid()
      modifies this, pool
      ensures Valid() && old(trace) <= trace && taken <= |ps|
      ensures CapturesBy(trace, h) == CapturesBy(old(trace), h) + Arrivals(ps[..taken], h, port, clock)
      ensures !died ==> taken == |ps| && Inbox(h) == old(Inbox(h)) + sent
      ensures died ==> |sent| == quota && exists last :: Inbox(h) == old(Inbox(h)) + sent + [last]
      ensures AllMet(ps[..taken], trace, |old(trace)|, met, h, port, clock) && |met| == taken
      ensures Rising(at) && |at| == |sent|
      ensures forall k :: 0 <= k < |at| ==>
                at[k] < taken && ps[at[k]].Tcp? && sent[k] == Message(ps[at[k]].segment.payload, ps[at[k]].src)
      ensures forall i :: 0 <= i < taken ==>
                (IsDue(ps[i], trace, met[i], port) <==> i in at || (died && i == taken - 1))
      ensures died ==> taken > 0 && taken - 1 !in at
    {
      hide CapturesBy, Delivered, After, Valid, FlowsOk, IsDue, Handled, AllMet, Arrivals;
      ghost var pos;
      sent, died, taken, met, at, pos := CaptureLoop(h, ps, clock, quota);
      if died {
        Stopped(ps, taken, trace, |old(trace)|, met, pos, at, sent, h, port, clock);
        met, taken := met + [pos], taken + 1;
      } else {
        assert ps[..|ps|] == ps;
        Ended(ps, trace, |old(trace)|, met, at, sent, h, port, clock);
      }
    }
  }
}
