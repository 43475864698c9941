/**
 The relay client of udptun/client.go: flow table, forwarding loops and reaper. `Interfere`
 stands where a goroutine has given up `c.mu` and goes on working with a flow.
 */
module UdpClient {
  import opened Words
  import opened Crc32
  import opened Packet
  import opened FlowIds
  import opened ClientTable
  import opened Touches
  import Watchdog

  class ClientFlow {
    const id: uint32
    const addr: Addr
    var lastActive: int
    /** History: the times of all touches, by whichever goroutine. */
    ghost var touches: seq<int>

    constructor (id: uint32, addr: Addr, now: int)
      ensures this.id == id && this.addr == addr && lastActive == now && touches == [now]
    {
      this.id, this.addr, lastActive, touches := id, addr, now, [now];
    }

    method Touch(now: int)
      modifies this
      ensures lastActive == now && touches == old(touches) + [now]
    {
      lastActive, touches := now, touches + [now];
    }
  }

  /** What one pass of localLoop does with a datagram. */
  datatype Outcome = Oversize | NoTransport | Wrote(conn: nat, packet: Bytes)

  /** The goroutines that work with flows outside the lock. */
  datatype Goroutine = LocalLoop | TransportLoop

  class Client {
    const codec: Codec
    const maxPacket: nat
    /** The current transport, by number. */
    var conn: Option<nat>
    var lastRecv: int
    var lastPing: Option<int>
    var oversize: nat

    var byAddr: map<Addr, ClientFlow>
    var byID: map<uint32, ClientFlow>
    var nextID: uint32
    /** History: all flows made so far, and those this goroutine has touched, in order. */
    ghost var issued: set<ClientFlow>
    ghost var touched: seq<ClientFlow>

    /** Both maps point at the same flow objects, each under its own names. */
    ghost predicate Linked()
      reads this`byAddr, this`byID
    {
      && (forall a :: a in byAddr ==> byAddr[a].addr == a && byAddr[a].id in byID && byID[byAddr[a].id] == byAddr[a])
      && (forall i :: i in byID ==>
            i != 0 && byID[i].id == i && byID[i].addr in byAddr && byAddr[byID[i].addr] == byID[i])
    }

    ghost predicate Valid()
      reads this`byAddr, this`byID, this`issued
    {
      Linked() && forall a :: a in byAddr ==> byAddr[a] in issued
    }

    ghost function View(): (t: Table)
      requires Linked()
      reads this`byAddr, this`byID, this`nextID
    {
      Table(map a | a in byAddr :: byAddr[a].id, map i | i in byID :: byID[i].addr, nextID)
    }

    lemma ViewIsTwin()
      requires Valid()
      ensures Twin(View())
    {
    }

    constructor (codec: Codec, maxPacket: nat)
      ensures Valid() && View() == EMPTY && conn == None && lastPing == None && oversize == 0
      ensures this.codec == codec && this.maxPacket == maxPacket
    {
      this.codec, this.maxPacket := codec, maxPacket;
      conn, lastPing, oversize := None, None, 0;
      byAddr, byID, nextID := map[], map[], 0;
      issued, touched := {}, [];
    }

    /** Steps the counter past KeepAliveFlow and every id still live after a wrap. */
    method NextID()
      requires Linked() && |byID| < WORD_SPACE - 1
      modifies this`nextID
      ensures Linked()
      ensures var t := old(View()); exists k: nat :: k <= |t.byID| + 2 && FirstFree(t.byID.Keys, t.nextID, k, nextID)
    {
      ghost var t := View();
      assert t.byID.Keys == byID.Keys;
      assert |t.byID| == |t.byID.Keys| && |byID| == |byID.Keys|;
      SearchEnds(byID.Keys, nextID);
      ghost var k: nat :| k <= |byID| + 2 && FirstFree(byID.Keys, nextID, k, Probe(nextID, k));
      ghost var tried := 0;
      while true
        invariant tried < k && nextID == Probe(old(nextID), tried)
        decreases k - tried
      {
        Add32Assoc(old(nextID), tried, 1);
        nextID := Add32(nextID, 1);
        tried := tried + 1;
        if nextID != 0 && nextID !in byID { break; }
      }
      assert FirstFree(byID.Keys, old(nextID), tried, nextID);
    }

    method Enter(f: ClientFlow)
      requires Linked() && f.addr !in byAddr && f.id != 0 && f.id !in byID
      modifies this`byAddr, this`byID
      ensures Linked()
      ensures byAddr == old(byAddr)[f.addr := f] && byID == old(byID)[f.id := f]
    {
      byAddr := byAddr[f.addr := f];
      byID := byID[f.id := f];
    }

    method Register(f: ClientFlow)
      requires Linked() && f.addr !in byAddr && f.id != 0 && f.id !in byID && f.id == nextID
      modifies this`byAddr, this`byID
      ensures Linked()
      ensures byAddr == old(byAddr)[f.addr := f]
      ensures View() == Table(old(View()).byAddr[f.addr := f.id], old(View()).byID[f.id := f.addr], nextID)
    {
      ghost var t := View();
      Enter(f);
      ghost var u := View();
      assert u.byAddr == t.byAddr[f.addr := f.id];
      assert u.byID == t.byID[f.id := f.addr];
    }

    /** Returns addr's flow, registering one if new. */
    method FlowFor(addr: Addr, now: int) returns (f: ClientFlow)
      requires Valid()
      requires addr in byAddr || |byID| < WORD_SPACE - 1
      modifies this`byAddr, this`byID, this`nextID, this`issued
      ensures Valid() && issued == old(issued) + {f}
      ensures addr in byAddr && byAddr[addr] == f && f.addr == addr
      ensures addr in old(byAddr) ==> f == old(byAddr[addr]) && View() == old(View()) && byAddr == old(byAddr)
      ensures addr !in old(byAddr) ==> fresh(f) && f.lastActive == now && f.touches == [now]
      ensures addr !in old(byAddr) ==> Opens(old(View()), addr, View(), f.id)
      ensures addr !in old(byAddr) ==> byAddr == old(byAddr)[addr := f]
    {
      if addr in byAddr { return byAddr[addr]; }
      NextID();
      f := new ClientFlow(nextID, addr, now);
      Register(f);
      issued := issued + {f};
    }

    method Forget(f: ClientFlow)
      requires Linked() && f.addr in byAddr && byAddr[f.addr] == f
      modifies this`byAddr, this`byID
      ensures Linked()
      ensures byAddr == old(byAddr) - {f.addr}
      ensures byID == old(byID) - {f.id}
    {
      byAddr := byAddr - {f.addr};
      byID := byID - {f.id};
    }

    method Lookup(id: uint32) returns (f: ClientFlow?)
      requires Valid()
      ensures f == null <==> id !in View().byID
      ensures f != null ==> f == byID[id] && f.id == id && f.addr == View().byID[id]
    {
      f := if id in byID then byID[id] else null;
    }

    method ReapLoop(now: Addr -> int, idleTTL: int)
      requires Linked()
      modifies this`byAddr, this`byID
      ensures Linked()
      ensures byAddr == map a | a in old(byAddr) && now(a) - old(byAddr)[a].lastActive <= idleTTL :: old(byAddr)[a]
      ensures byID == map i | i in old(byID) && now(old(byID)[i].addr) - old(byID)[i].lastActive <= idleTTL ::
                          old(byID)[i]
    {
      var keys := byAddr.Keys;
      while keys != {}
        invariant keys <= old(byAddr).Keys && Linked()
        invariant forall a :: a in byAddr ==> a in old(byAddr) && byAddr[a] == old(byAddr)[a]
        invariant forall a :: a in old(byAddr) ==>
                  (a in byAddr <==> a in keys || now(a) - old(byAddr)[a].lastActive <= idleTTL)
        invariant forall i :: i in byID ==> i in old(byID) && byID[i] == old(byID)[i]
        decreases |keys|
      {
        var key :| key in keys;
        var f := byAddr[key];
        keys := keys - {key};
        if now(key) - f.lastActive > idleTTL {
          Forget(f);
        }
      }
      forall i | i in old(byID)
        ensures i in byID <==> now(old(byID)[i].addr) - old(byID)[i].lastActive <= idleTTL
      {
        assert old(byAddr)[old(byID)[i].addr] == old(byID)[i];
      }
    }

    /** Drops every flow idle for longer than idleTTL; `now(a)` is the clock when the loop visits `a`. */
    method Reap(now: Addr -> int, idleTTL: int)
      requires Valid()
      modifies this`byAddr, this`byID
      ensures Valid()
      ensures byAddr == map a | a in old(byAddr) && now(a) - old(byAddr)[a].lastActive <= idleTTL :: old(byAddr)[a]
      ensures byID == map i | i in old(byID) && now(old(byID)[i].addr) - old(byID)[i].lastActive <= idleTTL ::
                          old(byID)[i]
    {
      hide Linked;
      ReapLoop(now, idleTTL);
    }

    ghost predicate Ready(out: array<bv8>, buf: array<bv8>)
      reads this, codec, codec.nonce, codec.nonce.seed
    {
      && Valid() && codec.Valid()
      && out != buf && out != codec.nonce.seed && buf != codec.nonce.seed
    }

    /** The packet is `payload` sealed for `flowID` under one of the nonces issued after the first `before`. */
    ghost predicate SealedSince(packet: Bytes, before: nat, flowID: bv32, payload: Bytes)
      reads codec.nonce
    {
      exists i :: before <= i < |codec.nonce.issued|
                  && packet == SealBytes(codec.block, codec.nonce.issued[i], flowID, payload)
    }

    /**
     The other goroutines run: flows are opened, touched and reaped, transports swapped,
     packets sealed. Only localLoop opens flows and counts oversized datagrams; only
     supervise, whose transportLoop is, hands transports out and sets lastRecv.
     */
    method Interfere(me: Goroutine)
      requires Valid() && codec.Valid()
      modifies this`byAddr, this`byID, this`nextID, this`conn, this`lastRecv, this`lastPing, this`oversize, this`issued
      modifies issued, codec.nonce, codec.nonce.seed
      ensures Valid() && codec.Valid()
      ensures old(issued) <= issued && fresh(issued - old(issued))
      ensures old(codec.nonce.issued) <= codec.nonce.issued
      ensures forall f :: f in old(issued) ==> old(f.touches) <= f.touches
      ensures me.LocalLoop? ==> nextID == old(nextID) && oversize == old(oversize) && issued == old(issued)
      ensures me.LocalLoop? ==> forall a :: a in byAddr ==> a in old(byAddr) && byAddr[a] == old(byAddr)[a]
      ensures me.TransportLoop? ==> conn == old(conn) && lastRecv == old(lastRecv)
    {
    }

    /** Others have their turn, then the flow is touched, reaped or not. */
    method TouchLater(f: ClientFlow, now: int, me: Goroutine)
      requires Valid() && codec.Valid() && f in issued
      modifies this`byAddr, this`byID, this`nextID, this`conn, this`lastRecv, this`lastPing, this`oversize, this`issued
      modifies this`touched, issued, codec.nonce, codec.nonce.seed
      ensures Valid() && codec.Valid() && f in issued
      ensures old(issued) <= issued && fresh(issued - old(issued))
      ensures old(codec.nonce.issued) <= codec.nonce.issued
      ensures touched == old(touched) + [f] && TouchedSince(f.touches, |old(f.touches)|, now)
      ensures me.LocalLoop? ==> oversize == old(oversize)
      ensures me.TransportLoop? ==> lastRecv == old(lastRecv)
    {
      Interfere(me);
      LastTouch(f.touches, |old(f.touches)|, now);
      f.Touch(now);
      touched := touched + [f];
    }

    /** The sending half of localLoop: seal, and write if there is a transport by then. */
    method SendOn(out: array<bv8>, buf: array<bv8>, n: nat, f: ClientFlow) returns (o: Outcome)
      requires Ready(out, buf) && out.Length == maxPacket && n <= buf.Length && HEADER_SIZE + n <= maxPacket
      modifies this`byAddr, this`byID, this`nextID, this`conn, this`lastRecv, this`lastPing, this`oversize, this`issued
      modifies issued, codec.nonce, codec.nonce.seed, out
      ensures Ready(out, buf) && !o.Oversize? && oversize == old(oversize)
      ensures forall g :: g in old(issued) ==> old(g.touches) <= g.touches
      ensures o.NoTransport? <==> conn == None
      ensures o.Wrote? ==> conn == Some(o.conn) && |o.packet| == HEADER_SIZE + n
      ensures o.Wrote? ==> SealedSince(o.packet, |old(codec.nonce.issued)|, Word(f.id), buf[..n])
    {
      hide SealBytes, Word;
      var r := codec.Seal(out, Word(f.id), buf, n);
      assert codec.nonce.issued[|old(codec.nonce.issued)|] == codec.nonce.seed[..];
      Interfere(LocalLoop);
      match conn
      case None => o := NoTransport;
      case Some(c) => o := Wrote(c, out[..r.length]);
    }

    /**
     One pass of localLoop over a datagram of `n` bytes from `addr`; `f` is the flow it
     works with, which may be reaped before it is touched.
     */
    method LocalDatagram(out: array<bv8>, buf: array<bv8>, n: nat, addr: Addr, now: int)
      returns (o: Outcome, ghost f: ClientFlow?)
      requires Ready(out, buf) && out.Length == maxPacket && n <= buf.Length
      requires HEADER_SIZE + n > maxPacket || addr in byAddr || |byID| < WORD_SPACE - 1
      modifies this, issued, codec.nonce, codec.nonce.seed, out
      ensures Ready(out, buf)
      ensures o.Oversize? <==> HEADER_SIZE + n > maxPacket
      ensures o.Oversize? ==> f == null && View() == old(View()) && oversize == old(oversize) + 1
      ensures o.Oversize? ==> touched == old(touched) && conn == old(conn)
      ensures o.Oversize? ==> codec.nonce.issued == old(codec.nonce.issued)
      ensures !o.Oversize? ==> f != null && f.addr == addr && oversize == old(oversize)
      ensures !o.Oversize? ==>
                if addr in old(byAddr) then f == old(byAddr)[addr]
                else fresh(f) && exists t :: Opens(old(View()), addr, t, f.id)
      ensures !o.Oversize? ==> touched == old(touched) + [f]
      ensures !o.Oversize? ==>
                TouchedSince(f.touches, if addr in old(byAddr) then |old(byAddr[addr].touches)| else 1, now)
      ensures !o.Oversize? ==> (o.NoTransport? <==> conn == None)
      ensures o.Wrote? ==> conn == Some(o.conn) && |o.packet| == HEADER_SIZE + n <= maxPacket
      ensures o.Wrote? ==> SealedSince(o.packet, |old(codec.nonce.issued)|, Word(f.id), buf[..n])
    {
      hide SealBytes, Word, TouchedSince, Opens, Linked, View;
      if HEADER_SIZE + n > maxPacket {
        oversize := oversize + 1;
        return Oversize, null;
      }
      var g := FlowFor(addr, now);
      TouchLater(g, now, LocalLoop);
      ghost var before := if addr in old(byAddr) then |old(byAddr[addr].touches)| else 1;
      ghost var was := g.touches;
      o := SendOn(out, buf, n, g);
      TouchesGrow(was, g.touches, before, now);
      f := g;
    }

    /**
     One pass of transportLoop over a packet of `n` bytes, from its lookup on: the reply to
     write, if any, and the flow it is for, which may be reaped before it is touched.
     */
    method TransportPacket(buf: array<bv8>, n: nat, now: int)
      returns (reply: Option<(Addr, Bytes)>, ghost f: ClientFlow?)
      requires Valid() && codec.Valid() && n <= buf.Length && buf != codec.nonce.seed
      modifies this, issued, codec.nonce, codec.nonce.seed, buf
      ensures Valid() && codec.Valid() && lastRecv == now
      ensures match OpenBytes(codec.block, old(buf[..n]))
              case Opened(w, payload) =>
                if w != KEEP_ALIVE_FLOW && Number(w) in old(byID)
                then
                  && f == old(byID)[Number(w)] && f.id == Number(w) && reply == Some((f.addr, payload))
                  && TouchedSince(f.touches, |old(byID[Number(w)].touches)|, now)
                else f == null && reply == None
              case _ => f == null && reply == None
      ensures touched == if f == null then old(touched) else old(touched) + [f]
      ensures f == null ==> View() == old(View())
    {
      hide OpenBytes, Number, TouchedSince;
      f := null;
      lastRecv := now;
      var r := codec.Open(buf, n);
      if !r.Opened? { return None, null; }
      if r.flowID == KEEP_ALIVE_FLOW { return None, null; }
      var g := Lookup(Number(r.flowID));
      if g == null { return None, null; }
      TouchLater(g, now, TransportLoop);
      return Some((g.addr, r.payload)), g;
    }

    /** The keepalive half of one maintain tick, with its own header-sized buffer. */
    method KeepAlive(out: array<bv8>, empty: array<bv8>, now: int, keepAlive: int) returns (ping: Option<(nat, Bytes)>)
      requires Ready(out, empty) && out.Length == HEADER_SIZE
      modifies this`lastPing, codec.nonce, codec.nonce.seed, out
      ensures Valid() && View() == old(View())
      ensures var due := keepAlive > 0 && (old(lastPing) == None || now - old(lastPing).value >= keepAlive);
              && lastPing == (if due then Some(now) else old(lastPing))
              && (ping.Some? <==> due && conn.Some?)
      ensures ping.Some? ==> conn == Some(ping.value.0) && |ping.value.1| == HEADER_SIZE
      ensures ping.Some? ==> (|ping.value.1| <= maxPacket <==> HEADER_SIZE <= maxPacket)
      ensures ping.Some? ==> OpenBytes(codec.block, ping.value.1) == Opened(KEEP_ALIVE_FLOW, [])
    {
      ping := None;
      if keepAlive > 0 && (lastPing == None || now - lastPing.value >= keepAlive) {
        lastPing := Some(now);
        var r := codec.Seal(out, KEEP_ALIVE_FLOW, empty, 0);
        OpenAfterSeal(codec.block, codec.nonce.seed[..], KEEP_ALIVE_FLOW, []);
        if conn.Some? {
          assert empty[..0] == [];
          ping := Some((conn.value, out[..r.length]));
        }
      }
    }

    /** supervise hands a new transport out, or takes a finished one back. */
    method SetTransport(c: Option<nat>)
      modifies this`conn
      ensures conn == c
    {
      conn := c;
    }

    /** One watchdog tick for transport `mine`: whether it goes on watching, and whether it closes `mine`. */
    method WatchdogTick(mine: nat, now: int, keepAlive: nat) returns (watching: bool, close: bool)
      ensures close <==> conn == Some(mine) && now - lastRecv > 3 * keepAlive * 1_000_000_000
      ensures watching <==> conn == Some(mine) && now - lastRecv <= 3 * keepAlive * 1_000_000_000
    {
      if conn != Some(mine) { return false, false; }
      close := now - lastRecv > 3 * keepAlive * SECOND;
      watching := !close;
    }
  }
}
