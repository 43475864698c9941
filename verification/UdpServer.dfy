/**
 The relay server of udptun/server.go. `Interfere` stands where a lock has been
 released: other threads may do there whatever ServerMachine lets them, which
 never touches a socket this thread alone holds.
 */
module UdpServer {
  import opened Words
  import opened Crc32
  import opened Packet
  import opened FlowKeys
  import opened ServerMachine
  import opened Touches

  class ServerFlow {
    const conn: nat
    const client: Addr
    const id: uint32
    const key: string
    var lastActive: int
    /** History: the times of all touches, by whichever thread. */
    ghost var touches: seq<int>

    constructor (conn: nat, client: Addr, id: uint32, key: string, now: int)
      ensures this.conn == conn && this.client == client && this.id == id && this.key == key
      ensures lastActive == now && touches == [now]
    {
      this.conn, this.client, this.id, this.key, lastActive := conn, client, id, key, now;
      touches := [now];
    }

    method Touch(now: int)
      modifies this
      ensures lastActive == now && touches == old(touches) + [now]
    {
      lastActive, touches := now, touches + [now];
    }

    ghost function View(): Flow {
      Flow(conn, client, id, key)
    }
  }

  /** What a pump's next read brings: a failure, or a reply and whether sending it on works. */
  datatype Reading = ReadError | Reply(payload: Bytes, writeOk: bool)

  /** A reply that is sent on; the others are dropped. */
  predicate Fits(r: Reading, maxPacket: nat) {
    r.Reply? && 24 + |r.payload| <= maxPacket
  }

  /** A reading that does not end the pump: a reply that is sent on successfully, or dropped. */
  predicate PassesOn(r: Reading, maxPacket: nat) {
    r.Reply? && (24 + |r.payload| <= maxPacket ==> r.writeOk)
  }

  /** A touch for each of the first `n` readings that is sent on. */
  predicate TouchedForEach(touches: seq<int>, before: nat, rs: seq<Reading>, n: nat, maxPacket: nat, clock: nat -> int)
    requires n <= |rs|
  {
    forall i :: 0 <= i < n && Fits(rs[i], maxPacket) ==> TouchedSince(touches, before, clock(i))
  }

  lemma TouchesForEachGrow(touches: seq<int>, more: seq<int>, before: nat, rs: seq<Reading>, n: nat, maxPacket: nat,
      clock: nat -> int)
    requires n <= |rs| && touches <= more && TouchedForEach(touches, before, rs, n, maxPacket, clock)
    ensures TouchedForEach(more, before, rs, n, maxPacket, clock)
  {
    hide TouchedSince;
    forall i | 0 <= i < n && Fits(rs[i], maxPacket) ensures TouchedSince(more, before, clock(i)) {
      TouchesGrow(touches, more, before, clock(i));
    }
  }

  lemma NoneTouched(touches: seq<int>, rs: seq<Reading>, maxPacket: nat, clock: nat -> int)
    ensures TouchedForEach(touches, |touches|, rs, 0, maxPacket, clock)
  {
  }

  lemma TouchedForOneMore(touches: seq<int>, before: nat, rs: seq<Reading>, n: nat, maxPacket: nat, clock: nat -> int)
    requires n < |rs| && before <= |touches| && TouchedForEach(touches, before, rs, n, maxPacket, clock)
    ensures var more := if Fits(rs[n], maxPacket) then touches + [clock(n)] else touches;
            TouchedForEach(more, before, rs, n + 1, maxPacket, clock)
  {
    hide TouchedSince;
    if Fits(rs[n], maxPacket) {
      LastTouch(touches, before, clock(n));
      TouchesForEachGrow(touches, touches + [clock(n)], before, rs, n, maxPacket, clock);
    }
  }

  /** What RunServer does with one packet. */
  datatype Outcome = Ignored | Pong(to: Addr, packet: Bytes) | Forward(conn: nat, payload: Bytes) | DialFailed

  class Server {
    const codec: Codec
    const maxPacket: nat
    var flows: map<string, ServerFlow>
    /** The next socket number the kernel hands out, and the sockets closed so far. */
    var sockets: nat
    var closed: set<nat>
    /** History: the flows dialled, those of them that entered the map, those that left it
        again, and the pumps started. */
    ghost var issued: set<ServerFlow>
    ghost var inserted: set<ServerFlow>
    ghost var retired: set<ServerFlow>
    ghost var pumps: multiset<ServerFlow>
    /** History: the flows this thread has dialled, and those it has taken out of the map. */
    ghost var mine: set<ServerFlow>
    ghost var taken: set<ServerFlow>

    ghost predicate IsMapped(f: ServerFlow)
      reads this`flows
    {
      f.key in flows && flows[f.key] == f
    }

    /** Every flow has a socket and a key of its own making. */
    ghost predicate FlowsOk()
      reads this`issued, this`sockets
    {
      && (forall f :: f in issued ==> f.conn < sockets && f.key == FlowKey(f.client, f.id))
      && (forall f, g :: f in issued && g in issued && f.conn == g.conn ==> f == g)
    }

    /** A flow that entered the map is in it until it is retired, and unclosed while it is in it. */
    ghost predicate MapOk()
      reads this`flows, this`inserted, this`retired, this`closed
    {
      && (forall k :: k in flows ==>
            flows[k].key == k && flows[k] in inserted && flows[k] !in retired && flows[k].conn !in closed)
      && (forall f :: f in inserted ==> f in retired || IsMapped(f))
    }

    ghost predicate HistoryOk()
      reads this`issued, this`inserted, this`retired, this`pumps, this`closed, this`sockets
    {
      && retired <= inserted <= issued
      && (forall f :: f in pumps ==> f in inserted)
      && (forall n :: n in closed ==> n < sockets)
    }

    ghost predicate Valid()
      reads this
    {
      FlowsOk() && MapOk() && HistoryOk()
    }

    ghost function View(): (m: map<string, Flow>)
      reads this`flows
    {
      map k | k in flows :: flows[k].View()
    }

    /** A flow this thread has dialled and not handed over. */
    ghost predicate Private(f: ServerFlow)
      reads this
    {
      f in issued && f !in inserted && f.conn !in closed
    }

    /** What other threads never undo. */
    twostate predicate Grows()
      reads this
    {
      old(issued) <= issued && old(inserted) <= inserted && old(retired) <= retired && old(closed) <= closed
    }

    /**
     The other threads run. A flow this thread has not handed over stays its own; a
     flow it has taken out stays unclosed until it closes it; a flow whose pump it is
     about to start gets none from anyone else (ServerMachine.OthersLeaveMineAlone).
     */
    method Interfere(ghost held: set<ServerFlow>, ghost closing: set<ServerFlow>, ghost starting: set<ServerFlow>)
      requires Valid() && (forall f :: f in held ==> Private(f))
      requires forall f :: f in closing ==> f in retired && f.conn !in closed
      requires forall f :: f in starting ==> f in inserted
      modifies this, issued
      ensures Valid() && Grows() && fresh(issued - old(issued)) && (forall f :: f in held ==> Private(f))
      ensures mine == old(mine) && taken == old(taken)
      ensures forall f :: f in closing ==> f.conn !in closed
      ensures forall f :: f in starting ==> pumps[f] == old(pumps)[f]
      ensures forall f :: f in old(issued) ==> old(f.touches) <= f.touches
    {
    }

    constructor (codec: Codec, maxPacket: nat)
      ensures Valid() && flows == map[] && this.codec == codec && this.maxPacket == maxPacket
    {
      this.codec, this.maxPacket := codec, maxPacket;
      flows, sockets, closed := map[], 0, {};
      issued, inserted, retired, pumps := {}, {}, {}, multiset{};
      mine, taken := {}, {};
    }

    // ---- the critical sections ----

    method Find(key: string) returns (f: ServerFlow?)
      requires Valid()
      ensures f == null <==> key !in flows
      ensures f != null ==> f == flows[key] && f in issued && f.key == key && f in inserted && f !in retired
    {
      f := if key in flows then flows[key] else null;
    }

    lemma NotYetRetired(f: ServerFlow)
      requires Valid() && Private(f)
      ensures f !in retired
    {
    }

    /** Inserts `f` unless its key has been taken; returns the one that has it then. */
    method InsertLocked(f: ServerFlow) returns (existing: ServerFlow?)
      requires Valid() && Private(f)
      modifies this`flows, this`inserted
      ensures Valid()
      ensures View() == InsertFlow(old(View()), f.View())
      ensures existing == null <==> f.key !in old(flows)
      ensures existing == null ==> flows == old(flows)[f.key := f] && inserted == old(inserted) + {f}
      ensures existing != null ==> flows == old(flows) && inserted == old(inserted) && existing == flows[f.key]
      ensures existing != null ==> existing in issued && existing.key == f.key
      ensures existing != null ==> existing in inserted && existing !in retired
    {
      hide FlowsOk;
      if f.key in flows { return flows[f.key]; }
      NotYetRetired(f);
      flows := flows[f.key := f];
      inserted := inserted + {f};
      return null;
    }

    method Delete(f: ServerFlow)
      requires Valid() && IsMapped(f)
      modifies this`flows, this`retired, this`taken
      ensures Valid()
      ensures flows == old(flows) - {f.key} && retired == old(retired) + {f} && taken == old(taken) + {f}
    {
      hide FlowsOk;
      flows := flows - {f.key};
      retired, taken := retired + {f}, taken + {f};
    }

    /** Comparing flow pointers is comparing sockets. */
    lemma SameFlow(f: ServerFlow)
      requires Valid() && f in issued
      ensures IsMapped(f) <==> Mapped(View(), f.View())
    {
    }

    /** Takes out `f` itself, and nothing else, if it is still the one under its key. */
    method RemoveLocked(f: ServerFlow) returns (removed: bool)
      requires Valid() && f in issued
      modifies this`flows, this`retired, this`taken
      ensures Valid()
      ensures View() == RemoveFlow(old(View()), f.View())
      ensures removed <==> old(IsMapped(f))
      ensures flows == if removed then old(flows) - {f.key} else old(flows)
      ensures retired == if removed then old(retired) + {f} else old(retired)
      ensures taken == if removed then old(taken) + {f} else old(taken)
    {
      SameFlow(f);
      hide FlowsOk;
      if f.key !in flows || flows[f.key] != f { return false; }
      Delete(f);
      return true;
    }

    /** All flows idle for longer than idleTTL while the lock is held; `now(k)` is the clock at each. */
    method Snapshot(now: string -> int, idleTTL: int) returns (stale: seq<ServerFlow>)
      requires Valid()
      ensures forall f :: f in stale <==> IsMapped(f) && now(f.key) - f.lastActive > idleTTL
      ensures forall i, j :: 0 <= i < j < |stale| ==> stale[i] != stale[j]
    {
      hide FlowKey;
      stale := [];
      var keys := flows.Keys;
      while keys != {}
        invariant keys <= flows.Keys
        invariant forall f :: f in stale <==> IsMapped(f) && f.key !in keys && now(f.key) - f.lastActive > idleTTL
        invariant forall i, j :: 0 <= i < j < |stale| ==> stale[i] != stale[j]
        decreases |keys|
      {
        var key :| key in keys;
        var f := flows[key];
        keys := keys - {key};
        if now(key) - f.lastActive > idleTTL {
          stale := stale + [f];
        }
      }
    }

    // ---- the operations built from them ----

    /** Dialling the target: on success a socket number nobody has, and the flow for it. */
    method DialFlow(client: Addr, id: uint32, ok: bool, now: int) returns (f: ServerFlow?)
      requires Valid()
      modifies this`sockets, this`issued, this`mine
      ensures Valid() && Grows() && fresh(issued - old(issued))
      ensures f != null <==> ok
      ensures f == null ==> mine == old(mine)
      ensures f != null ==> fresh(f) && Private(f) && f !in old(issued) && mine == old(mine) + {f}
      ensures f != null ==> f.client == client && f.id == id && f.key == FlowKey(client, id) && f.lastActive == now
    {
      hide FlowKey;
      if !ok { return null; }
      f := new ServerFlow(sockets, client, id, FlowKey(client, id), now);
      sockets := sockets + 1;
      issued, mine := issued + {f}, mine + {f};
    }

    /** Closing a socket twice would break this precondition, so no path does it. */
    method CloseConn(f: ServerFlow)
      requires Valid() && f in issued && (f in inserted ==> f in retired) && f.conn !in closed
      modifies this`closed
      ensures Valid() && closed == old(closed) + {f.conn}
    {
      closed := closed + {f.conn};
    }

    method StartPump(f: ServerFlow)
      requires Valid() && f in inserted
      modifies this`pumps
      ensures Valid() && pumps == old(pumps) + multiset{f}
    {
      hide FlowsOk, MapOk;
      pumps := pumps + multiset{f};
    }

    lemma OneClient(f: ServerFlow, client: Addr, id: uint32)
      requires FlowsOk() && f in issued && f.key == FlowKey(client, id)
      ensures f.client == client && f.id == id
    {
      FlowKeyInjective(f.client, f.id, client, id);
    }

    /** What became of a dialled socket: in the map with one pump, or closed without one. */
    ghost predicate Settled(f: ServerFlow, won: bool)
      reads this
    {
      if won then f in inserted && pumps[f] == 1
      else f !in inserted && f.conn in closed && pumps[f] == 0
    }

    lemma NoPumpYet(f: ServerFlow)
      requires Valid() && Private(f)
      ensures pumps[f] == 0 && !IsMapped(f)
    {
    }

    /** The loser of a race closes the socket it has dialled. */
    method Lose(f: ServerFlow)
      requires Valid() && Private(f)
      modifies this, issued
      ensures Valid() && Grows() && fresh(issued - old(issued))
      ensures mine == old(mine) && taken == old(taken)
      ensures Settled(f, false)
      ensures forall g :: g in old(issued) ==> old(g.touches) <= g.touches
    {
      hide FlowsOk, MapOk;
      Interfere({f}, {}, {});
      NoPumpYet(f);
      CloseConn(f);
    }

    /** The winner starts the pump of its flow. */
    method Win(f: ServerFlow)
      requires Valid() && f in inserted && pumps[f] == 0
      modifies this, issued
      ensures Valid() && Grows() && fresh(issued - old(issued))
      ensures mine == old(mine) && taken == old(taken)
      ensures Settled(f, true)
      ensures forall g :: g in old(issued) ==> old(g.touches) <= g.touches
    {
      hide FlowsOk, MapOk;
      Interfere({}, {}, {f});
      StartPump(f);
    }

    /** The part of flowFor after the dial: the second look, and the loser's close or the winner's pump. */
    method Install(f: ServerFlow) returns (r: ServerFlow)
      requires Valid() && Private(f)
      modifies this, issued
      ensures Valid() && Grows() && fresh(issued - old(issued)) && r in issued && r.key == f.key
      ensures mine == old(mine) && taken == old(taken)
      ensures Settled(f, r == f)
      ensures r == f <==> f.key !in old(flows)
      ensures r in inserted && r !in old(retired)
      ensures forall g :: g in old(issued) ==> old(g.touches) <= g.touches
    {
      hide Settled, FlowsOk, HistoryOk, MapOk;
      NoPumpYet(f);
      NotYetRetired(f);
      var existing := InsertLocked(f);
      if existing != null {
        Lose(f);
        return existing;
      }
      Win(f);
      return f;
    }

    /**
     The flow of (client, id): the one mapped on entry, or else, if the dial works, one of its
     own or the winner's, mapped at some moment of the call. It dials `own` and no other socket; that either
     becomes the flow, with its one pump started, or lost the race, gets no pump and is closed.
     */
    method FlowFor(client: Addr, id: uint32, dialOk: bool, now: int) returns (r: ServerFlow?, ghost own: ServerFlow?)
      requires Valid()
      modifies this, issued
      ensures Valid() && Grows() && fresh(issued - old(issued)) && taken == old(taken)
      ensures r != null ==> r in issued && r.client == client && r.id == id
      ensures r != null ==> r in inserted && r !in old(retired)
      ensures FlowKey(client, id) in old(flows) ==> r == old(flows[FlowKey(client, id)]) && own == null
      ensures FlowKey(client, id) !in old(flows) ==> (r == null <==> !dialOk) && (own == null <==> !dialOk)
      ensures own == null ==> mine == old(mine)
      ensures own != null ==> mine == old(mine) + {own} && own !in old(issued) && Settled(own, r == own)
      ensures forall f :: f in old(issued) ==> old(f.touches) <= f.touches
    {
      hide FlowKey, Settled, FlowsOk, MapOk, HistoryOk;
      r := Find(FlowKey(client, id));
      own := null;
      if r != null {
        OneClient(r, client, id);
        return;
      }
      Interfere({}, {}, {});
      var f := DialFlow(client, id, dialOk, now);
      if f == null { return; }
      own := f;
      Interfere({f}, {}, {});
      r := Install(f);
      OneClient(r, client, id);
    }

    method CloseFlow(f: ServerFlow) returns (removed: bool)
      requires Valid() && f in issued
      modifies this, issued
      ensures Valid() && Grows() && fresh(issued - old(issued)) && mine == old(mine)
      ensures removed <==> old(IsMapped(f))
      ensures !IsMapped(f)
      ensures removed ==> f in retired && f.conn in closed && f.conn !in old(closed)
      ensures taken == if removed then old(taken) + {f} else old(taken)
      ensures !removed ==> flows == old(flows) && closed == old(closed) && retired == old(retired)
      ensures forall g :: g in old(issued) ==> old(g.touches) <= g.touches
    {
      hide FlowsOk;
      removed := RemoveLocked(f);
      if removed {
        Interfere({}, {f}, {});
        CloseConn(f);
      }
    }

    /** What this thread has taken out of the map since, it has closed. */
    twostate predicate ClosedWhatItTook(new among: set<ServerFlow>)
      reads this
    {
      old(taken) <= taken && forall f :: f in taken && f !in old(taken) ==> f in among && f.conn in closed
    }

    /** A flow that was mapped once is out for good after closeFlow has been called for it. */
    method Evict(f: ServerFlow)
      requires Valid() && f in inserted
      modifies this, issued
      ensures Valid() && Grows() && fresh(issued - old(issued))
      ensures f in retired && ClosedWhatItTook({f})
    {
      hide FlowsOk;
      Interfere({}, {}, {});
      var removed := CloseFlow(f);
    }

    lemma RetiredAreUnmapped(stale: seq<ServerFlow>)
      requires Valid() && forall f :: f in stale ==> f in retired
      ensures forall f :: f in stale ==> !IsMapped(f)
    {
    }

    lemma SnapshotInserted(stale: seq<ServerFlow>)
      requires Valid() && forall f :: f in stale ==> IsMapped(f)
      ensures forall f :: f in stale ==> f in inserted
      ensures forall k :: k in flows ==> IsMapped(flows[k]) && flows[k].key == k
    {
    }

    /**
     One reaper tick: every flow idle at the snapshot has left the map for good at the end. The
     reaper itself takes out no other, and closes the socket of each that it takes out.
     */
    method Reap(now: string -> int, idleTTL: int) returns (ghost snapshot: seq<ServerFlow>)
      requires Valid()
      modifies this, issued
      ensures Valid() && Grows() && ClosedWhatItTook(set f | f in snapshot)
      ensures forall k :: k in old(flows) ==>
              (old(flows[k]) in snapshot <==> now(k) - old(flows[k].lastActive) > idleTTL)
      ensures forall f :: f in snapshot ==> exists k :: k in old(flows) && f == old(flows[k])
      ensures forall f :: f in snapshot ==> f in retired && !IsMapped(f)
    {
      hide FlowsOk, HistoryOk, MapOk;
      var stale := Snapshot(now, idleTTL);
      snapshot := stale;
      SnapshotInserted(stale);
      for i := 0 to |stale|
        invariant Valid() && Grows() && fresh(issued - old(issued))
        invariant ClosedWhatItTook(set f | f in stale)
        invariant forall j :: 0 <= j < i ==> stale[j] in retired
        invariant forall f :: f in stale ==> f in inserted
      {
        Evict(stale[i]);
      }
      RetiredAreUnmapped(stale);
    }

    ghost predicate Ready(out: array<bv8>, buf: array<bv8>)
      reads this, codec, codec.nonce, codec.nonce.seed
    {
      codec.Valid() && out != buf && out != codec.nonce.seed && buf != codec.nonce.seed
    }

    /** Sends a reply of at most maxPacket bytes, header included. */
    method SendReply(f: ServerFlow, payload: Bytes, out: array<bv8>, buf: array<bv8>) returns (pkt: Bytes)
      requires Ready(out, buf) && out.Length == maxPacket && |payload| <= buf.Length
               && HEADER_SIZE + |payload| <= maxPacket
      modifies codec.nonce, codec.nonce.seed, out, buf
      ensures Ready(out, buf)
      ensures |codec.block.decrypt(pkt)| == |pkt| == HEADER_SIZE + |payload|
      ensures OpenBytes(codec.block, pkt) == Opened(Word(f.id), payload)
    {
      Blit(buf, 0, payload);
      assert buf[..|payload|] == buf[0..0 + |payload|];
      var r := codec.Seal(out, Word(f.id), buf, |payload|);
      OpenAfterSeal(codec.block, codec.nonce.seed[..], Word(f.id), payload);
      return out[..r.length];
    }

    ghost predicate OpensAs(packet: Bytes, id: uint32, payload: Bytes) {
      && |codec.block.decrypt(packet)| == |packet| == 24 + |payload|
      && OpenBytes(codec.block, packet) == Opened(Word(id), payload)
    }

    /**
     Of the first `n` readings, exactly the replies that fit into maxPacket bytes with their
     24-byte header, in order and once each.
     */
    ghost predicate Sends(packets: seq<Bytes>, at: seq<nat>, rs: seq<Reading>, n: nat, id: uint32)
      requires n <= |rs|
    {
      && Rising(at) && |at| == |packets|
      && (forall k :: 0 <= k < |at| ==>
            at[k] < n && rs[at[k]].Reply? && OpensAs(packets[k], id, rs[at[k]].payload))
      && (forall i :: 0 <= i < n ==> (i in at <==> rs[i].Reply? && 24 + |rs[i].payload| <= maxPacket))
    }

    lemma SendsNone(rs: seq<Reading>, id: uint32)
      ensures Sends([], [], rs, 0, id)
    {
    }

    lemma SendsMore(packets: seq<Bytes>, at: seq<nat>, rs: seq<Reading>, n: nat, id: uint32, pkt: Option<Bytes>)
      requires n < |rs| && Sends(packets, at, rs, n, id)
      requires pkt.Some? <==> Fits(rs[n], maxPacket)
      requires pkt.Some? ==> OpensAs(pkt.value, id, rs[n].payload)
      ensures pkt.Some? ==> Sends(packets + [pkt.value], at + [n], rs, n + 1, id)
      ensures pkt == None ==> Sends(packets, at, rs, n + 1, id)
    {
      hide OpensAs;
      assert n !in at;
    }

    /** One reading of a pump: what it sends, if anything, and whether it goes on. */
    method RelayOne(f: ServerFlow, r: Reading, out: array<bv8>, buf: array<bv8>, now: int)
      returns (pkt: Option<Bytes>, goesOn: bool)
      requires Ready(out, buf) && out.Length == maxPacket && (r.Reply? ==> |r.payload| <= buf.Length)
      modifies f, codec.nonce, codec.nonce.seed, out, buf
      ensures Ready(out, buf)
      ensures goesOn <==> PassesOn(r, maxPacket)
      ensures pkt.Some? <==> Fits(r, maxPacket)
      ensures pkt.Some? ==> OpensAs(pkt.value, f.id, r.payload)
      ensures f.touches == if pkt.Some? then old(f.touches) + [now] else old(f.touches)
    {
      hide OpenBytes, Word;
      if r.ReadError? { return None, false; }
      if HEADER_SIZE + |r.payload| > maxPacket { return None, true; }
      f.Touch(now);
      var p := SendReply(f, r.payload, out, buf);
      return Some(p), r.writeOk;
    }

    /** The same, after other threads have had their turn, with the touches for the readings so far. */
    method RelayNext(f: ServerFlow, rs: seq<Reading>, i: nat, out: array<bv8>, buf: array<bv8>, clock: nat -> int,
        ghost before: nat)
      returns (pkt: Option<Bytes>, goesOn: bool)
      requires Valid() && f in issued && Ready(out, buf) && out.Length == maxPacket && i < |rs|
      requires rs[i].Reply? ==> |rs[i].payload| <= buf.Length
      requires before <= |f.touches| && TouchedForEach(f.touches, before, rs, i, maxPacket, clock)
      modifies this, issued, codec.nonce, codec.nonce.seed, out, buf
      ensures Valid() && Grows() && fresh(issued - old(issued)) && taken == old(taken) && Ready(out, buf)
      ensures goesOn <==> PassesOn(rs[i], maxPacket)
      ensures pkt.Some? <==> Fits(rs[i], maxPacket)
      ensures pkt.Some? ==> OpensAs(pkt.value, f.id, rs[i].payload)
      ensures old(f.touches) <= f.touches && TouchedForEach(f.touches, before, rs, i + 1, maxPacket, clock)
    {
      hide OpensAs, PassesOn, FlowsOk, MapOk, HistoryOk, TouchedForEach;
      Interfere({}, {}, {});
      TouchesForEachGrow(old(f.touches), f.touches, before, rs, i, maxPacket, clock);
      TouchedForOneMore(f.touches, before, rs, i, maxPacket, clock);
      pkt, goesOn := RelayOne(f, rs[i], out, buf, clock(i));
    }

    /** The reading and sending of a pump, up to the failure that ends it; reading `i` comes at `clock(i)`. */
    method ReadLoop(f: ServerFlow, rs: seq<Reading>, out: array<bv8>, buf: array<bv8>, clock: nat -> int)
      returns (sent: seq<Bytes>, failed: bool, ghost handled: nat, ghost at: seq<nat>)
      requires Valid() && f in issued && Ready(out, buf) && out.Length == maxPacket
      requires forall i :: 0 <= i < |rs| && rs[i].Reply? ==> |rs[i].payload| <= buf.Length
      modifies this, issued, codec.nonce, codec.nonce.seed, out, buf
      ensures Valid() && Grows() && fresh(issued - old(issued)) && taken == old(taken)
      ensures handled <= |rs| && Sends(sent, at, rs, handled, f.id)
      ensures forall i :: 0 <= i < handled - 1 ==> PassesOn(rs[i], maxPacket)
      ensures handled < |rs| ==> failed
      ensures failed <==> handled > 0 && !PassesOn(rs[handled - 1], maxPacket)
      ensures TouchedForEach(f.touches, |old(f.touches)|, rs, handled, maxPacket, clock)
    {
      hide Sends, OpensAs, PassesOn, FlowsOk, MapOk, HistoryOk, TouchedForEach;
      sent, failed, handled, at := [], false, 0, [];
      SendsNone(rs, f.id);
      NoneTouched(f.touches, rs, maxPacket, clock);
      for i := 0 to |rs|
        invariant Valid() && Grows() && fresh(issued - old(issued)) && taken == old(taken)
        invariant Ready(out, buf) && handled == i && !failed && old(f.touches) <= f.touches
        invariant Sends(sent, at, rs, i, f.id)
        invariant TouchedForEach(f.touches, |old(f.touches)|, rs, i, maxPacket, clock)
        invariant forall j :: 0 <= j < i ==> PassesOn(rs[j], maxPacket)
      {
        var pkt, goesOn := RelayNext(f, rs, i, out, buf, clock, |old(f.touches)|);
        SendsMore(sent, at, rs, i, f.id, pkt);
        handled := i + 1;
        if pkt.Some? { sent, at := sent + [pkt.value], at + [i]; }
        if !goesOn {
          failed := true;
          return;
        }
      }
    }

    /** A pump over the readings of its socket. */
    method Pump(f: ServerFlow, rs: seq<Reading>, out: array<bv8>, buf: array<bv8>, clock: nat -> int)
      returns (sent: seq<Bytes>, ghost handled: nat, ghost at: seq<nat>)
      requires Valid() && f in issued && Ready(out, buf) && out.Length == maxPacket
      requires forall i :: 0 <= i < |rs| && rs[i].Reply? ==> |rs[i].payload| <= buf.Length
      modifies this, issued, codec.nonce, codec.nonce.seed, out, buf
      ensures Valid() && Grows()
      ensures handled <= |rs| && Sends(sent, at, rs, handled, f.id)
      ensures forall i :: 0 <= i < handled - 1 ==> PassesOn(rs[i], maxPacket)
      ensures handled < |rs| ==> handled > 0 && !PassesOn(rs[handled - 1], maxPacket)
      ensures handled > 0 && !PassesOn(rs[handled - 1], maxPacket) ==> !IsMapped(f)
      ensures ClosedWhatItTook({f})
      ensures TouchedForEach(f.touches, |old(f.touches)|, rs, handled, maxPacket, clock)
    {
      hide FlowsOk, MapOk, HistoryOk, Sends, TouchedForEach;
      var failed;
      sent, failed, handled, at := ReadLoop(f, rs, out, buf, clock);
      ghost var was := f.touches;
      Interfere({}, {}, {});
      if failed {
        var removed := CloseFlow(f);
      }
      TouchesForEachGrow(was, f.touches, |old(f.touches)|, rs, handled, maxPacket, clock);
    }

    /** The answer to a keepalive, from its own header-sized buffer. */
    method SendPong(pong: array<bv8>, empty: array<bv8>) returns (pkt: Bytes)
      requires Ready(pong, empty) && pong.Length == HEADER_SIZE
      modifies codec.nonce, codec.nonce.seed, pong
      ensures Ready(pong, empty)
      ensures OpenBytes(codec.block, pkt) == Opened(KEEP_ALIVE_FLOW, []) && |pkt| == HEADER_SIZE
    {
      var s := codec.Seal(pong, KEEP_ALIVE_FLOW, empty, 0);
      OpenAfterSeal(codec.block, codec.nonce.seed[..], KEEP_ALIVE_FLOW, []);
      assert empty[..0] == [];
      return pong[..s.length];
    }

    /** Touches the flow a datagram is for; if writing to its socket fails, closes it. */
    method WriteOn(f: ServerFlow, writeOk: bool, now: int)
      requires Valid() && f in issued
      modifies this, issued
      ensures Valid() && Grows() && mine == old(mine) && f in issued && ClosedWhatItTook({f})
      ensures TouchedSince(f.touches, |old(f.touches)|, now)
      ensures if writeOk then taken == old(taken) else !IsMapped(f)
    {
      hide FlowsOk, MapOk, HistoryOk, TouchedSince;
      LastTouch(f.touches, |f.touches|, now);
      f.Touch(now);
      if !writeOk {
        ghost var was := f.touches;
        var removed := CloseFlow(f);
        TouchesGrow(was, f.touches, |old(f.touches)|, now);
      }
    }

    lemma Accounted(own: ServerFlow, won: bool)
      requires Settled(own, won)
      ensures own in inserted || own.conn in closed
    {
    }

    /** One pass of the RunServer loop over a packet of `n` bytes from `from`. */
    method Serve(buf: array<bv8>, n: nat, from: Addr, pong: array<bv8>, empty: array<bv8>, dialOk: bool,
        writeOk: bool, now: int)
      returns (o: Outcome, ghost f: ServerFlow?, ghost own: ServerFlow?)
      requires Valid() && n <= buf.Length && Ready(pong, empty) && pong.Length == HEADER_SIZE
      requires pong != buf && buf != codec.nonce.seed
      modifies this, issued, buf, codec.nonce, codec.nonce.seed, pong
      ensures Valid() && Grows()
      ensures match OpenBytes(codec.block, old(buf[..n]))
              case Opened(w, payload) =>
                if w == KEEP_ALIVE_FLOW then o.Pong? && o.to == from && own == null
                else
                  var key := FlowKey(from, Number(w));
                  && (o == DialFailed <==> key !in old(flows) && !dialOk)
                  && (!o.DialFailed? ==>
                        f != null && o == Forward(f.conn, payload) && f.client == from && f.id == Number(w))
                  && (key in old(flows) ==> f == old(flows)[key])
                  && (own != null <==> key !in old(flows) && dialOk)
              case _ => o == Ignored && own == null
      ensures o.Pong? ==> OpenBytes(codec.block, o.packet) == Opened(KEEP_ALIVE_FLOW, []) && |o.packet| == HEADER_SIZE
      ensures o.Pong? ==> (|o.packet| <= maxPacket <==> HEADER_SIZE <= maxPacket)
      ensures o.Forward? ==> f != null && f in issued && (!writeOk ==> !IsMapped(f))
      ensures o.Forward? ==> TouchedSince(f.touches, if f in old(issued) then |old(f.touches)| else 0, now)
      ensures mine == if own == null then old(mine) else old(mine) + {own}
      ensures own != null ==> own in inserted || own.conn in closed
      ensures if o.Forward? && !writeOk then ClosedWhatItTook({f}) else taken == old(taken)
      ensures !o.Forward? && !o.DialFailed? ==> flows == old(flows) && closed == old(closed)
    {
      hide FlowsOk, MapOk, HistoryOk, OpenBytes, Number, FlowKey, Settled, TouchedSince;
      f, own := null, null;
      var r := codec.Open(buf, n);
      if !r.Opened? { return Ignored, null, null; }
      if r.flowID == KEEP_ALIVE_FLOW {
        var pkt := SendPong(pong, empty);
        return Pong(from, pkt), null, null;
      }
      var g;
      g, own := FlowFor(from, Number(r.flowID), dialOk, now);
      f := g;
      if own != null { Accounted(own, g == own); }
      if g == null { return DialFailed, null, null; }
      ghost var was := g.touches;
      WriteOn(g, writeOk, now);
      TouchedLater(g.touches, |was|, if g in old(issued) then |old(g.touches)| else 0, now);
      return Forward(g.conn, r.payload), g, own;
    }
  }
}
