/**
 The relay server of udptun/server.go as a machine of atomic steps: any number
 of flowFor calls, pumps, write failures and reaper sweeps, interleaved at every
 point where the lock is released.

 A flow's socket is dialled for it alone, so the socket number stands for the
 identity of the flow object. `dialled`, `pumps` and `closes` are history: which
 flow each socket was dialled for, which sockets a pump was started on, and which
 were closed, with multiplicity.
 */
module ServerMachine {
  import opened Words
  import opened FlowKeys
  import opened Crc32

  datatype Flow = Flow(sock: nat, client: Addr, id: uint32, key: string)

  /** Whose datagram a payload is: a relay client and one of its local addresses. */
  datatype Origin = Origin(relay: nat, addr: Addr)

  /** A datagram RunServer is forwarding; the origin is history, no step looks at it. */
  datatype Job = Job(client: Addr, id: uint32, payload: Bytes, origin: Origin)

  /** Where a thread stands between two atomic steps. */
  datatype Pc =
    | Idle
    | Looking(job: Job)                          // before the first lock of flowFor
    | Dialling(job: Job)                         // missed, unlocked
    | Holding(job: Job, f: Flow)                 // dialled, before the second lock
    | Losing(job: Job, f: Flow, winner: Flow)    // raced, unlocked, own socket not closed yet
    | Starting(job: Job, f: Flow)                // inserted, pump not started yet
    | Writing(job: Job, f: Flow)                 // flowFor has returned f
    | Sweeping(stale: seq<Flow>)                 // closeFlow is due for each of these
    | Closing(f: Flow, rest: seq<Flow>)          // closeFlow removed f, socket not closed yet
    | Pumping(f: Flow)
    | Relaying(f: Flow, payload: Bytes)          // a pump that has read a reply

  datatype Server = Server(
    flows: map<string, Flow>,
    threads: map<nat, Pc>,
    dialled: map<nat, Flow>,
    pumps: multiset<nat>,
    closes: multiset<nat>)

  datatype Act =
    | Spawn(t: nat)
    | Accept(t: nat, job: Job)
    | Lookup(t: nat)
    | Dial(t: nat, sock: nat)
    | DialFails(t: nat)
    | Insert(t: nat)
    | CloseLoser(t: nat)
    | StartPump(t: nat, pump: nat)
    | Write(t: nat)
    | WriteFails(t: nat)
    | Snapshot(t: nat, stale: seq<Flow>)
    | Sweep(t: nat)
    | Close(t: nat)
    | PumpRead(t: nat, payload: Bytes)
    | PumpFails(t: nat)
    | Relay(t: nat)
    | RelayFails(t: nat)

  predicate Mapped(flows: map<string, Flow>, f: Flow) {
    f.key in flows && flows[f.key] == f
  }

  /** The second critical section of flowFor. */
  function InsertFlow(flows: map<string, Flow>, f: Flow): map<string, Flow> {
    if f.key in flows then flows else flows[f.key := f]
  }

  /** The critical section of closeFlow: only this very flow is taken out. */
  function RemoveFlow(flows: map<string, Flow>, f: Flow): map<string, Flow> {
    if Mapped(flows, f) then flows - {f.key} else flows
  }

  function JobKey(job: Job): string {
    FlowKey(job.client, job.id)
  }

  predicate Enabled(s: Server, a: Act) {
    match a
    case Spawn(t) => t !in s.threads
    case Accept(t, _) => t in s.threads && s.threads[t].Idle?
    case Lookup(t) => t in s.threads && s.threads[t].Looking?
    case Dial(t, sock) => t in s.threads && s.threads[t].Dialling? && sock !in s.dialled
    case DialFails(t) => t in s.threads && s.threads[t].Dialling?
    case Insert(t) => t in s.threads && s.threads[t].Holding?
    case CloseLoser(t) => t in s.threads && s.threads[t].Losing?
    case StartPump(t, u) => t in s.threads && s.threads[t].Starting? && u !in s.threads
    case Write(t) => t in s.threads && s.threads[t].Writing? && s.closes[s.threads[t].f.sock] == 0
    case WriteFails(t) => t in s.threads && s.threads[t].Writing?
    case Snapshot(t, stale) =>
      t in s.threads && s.threads[t].Idle? && forall i :: 0 <= i < |stale| ==> Mapped(s.flows, stale[i])
    case Sweep(t) => t in s.threads && s.threads[t].Sweeping?
    case Close(t) => t in s.threads && s.threads[t].Closing?
    case PumpRead(t, _) => t in s.threads && s.threads[t].Pumping? && s.closes[s.threads[t].f.sock] == 0
    case PumpFails(t) => t in s.threads && s.threads[t].Pumping?
    case Relay(t) => t in s.threads && s.threads[t].Relaying?
    case RelayFails(t) => t in s.threads && s.threads[t].Relaying?
  }

  function Goto(s: Server, t: nat, pc: Pc): Server {
    s.(threads := s.threads[t := pc])
  }

  function Next(s: Server, a: Act): Server
    requires Enabled(s, a)
  {
    match a
    case Spawn(t) => Goto(s, t, Idle)
    case Accept(t, job) => Goto(s, t, Looking(job))
    case Lookup(t) =>
      var job := s.threads[t].job;
      Goto(s, t, if JobKey(job) in s.flows then Writing(job, s.flows[JobKey(job)]) else Dialling(job))
    case Dial(t, sock) =>
      var job := s.threads[t].job;
      var f := Flow(sock, job.client, job.id, JobKey(job));
      Goto(s, t, Holding(job, f)).(dialled := s.dialled[sock := f])
    case DialFails(t) => Goto(s, t, Idle)
    case Insert(t) =>
      var Holding(job, f) := s.threads[t];
      Goto(s, t, if f.key in s.flows then Losing(job, f, s.flows[f.key]) else Starting(job, f))
        .(flows := InsertFlow(s.flows, f))
    case CloseLoser(t) =>
      var Losing(job, f, winner) := s.threads[t];
      Goto(s, t, Writing(job, winner)).(closes := s.closes + multiset{f.sock})
    case StartPump(t, u) =>
      var Starting(job, f) := s.threads[t];
      Goto(Goto(s, t, Writing(job, f)), u, Pumping(f)).(pumps := s.pumps + multiset{f.sock})
    case Write(t) => Goto(s, t, Idle)
    case WriteFails(t) => Goto(s, t, Sweeping([s.threads[t].f]))
    case Snapshot(t, stale) => Goto(s, t, Sweeping(stale))
    case Sweep(t) =>
      var stale := s.threads[t].stale;
      if stale == [] then Goto(s, t, Idle)
      else
        Goto(s, t, if Mapped(s.flows, stale[0]) then Closing(stale[0], stale[1..]) else Sweeping(stale[1..]))
          .(flows := RemoveFlow(s.flows, stale[0]))
    case Close(t) =>
      var Closing(f, rest) := s.threads[t];
      Goto(s, t, Sweeping(rest)).(closes := s.closes + multiset{f.sock})
    case PumpRead(t, payload) => Goto(s, t, Relaying(s.threads[t].f, payload))
    case PumpFails(t) => Goto(s, t, Sweeping([s.threads[t].f]))
    case Relay(t) => Goto(s, t, Pumping(s.threads[t].f))
    case RelayFails(t) => Goto(s, t, Sweeping([s.threads[t].f]))
  }

  // ---- the invariant ----

  predicate Known(s: Server, f: Flow) {
    f.sock in s.dialled && s.dialled[f.sock] == f
  }

  /** Every flow a thread works with was dialled, and flowFor keeps to its job's key. */
  predicate PcGood(s: Server, pc: Pc) {
    match pc
    case Idle => true
    case Looking(_) => true
    case Dialling(_) => true
    case Holding(job, f) => Known(s, f) && f.key == JobKey(job)
    case Losing(job, f, w) => Known(s, f) && Known(s, w) && f.key == w.key == JobKey(job)
    case Starting(job, f) => Known(s, f) && f.key == JobKey(job)
    case Writing(job, f) => Known(s, f) && f.key == JobKey(job)
    case Sweeping(stale) => forall i :: 0 <= i < |stale| ==> Known(s, stale[i])
    case Closing(f, rest) => Known(s, f) && forall i :: 0 <= i < |rest| ==> Known(s, rest[i])
    case Pumping(f) => Known(s, f)
    case Relaying(f, _) => Known(s, f)
  }

  /** The socket a thread alone is responsible for. */
  function Owns(pc: Pc): Option<nat> {
    match pc
    case Holding(_, f) => Some(f.sock)
    case Losing(_, f, _) => Some(f.sock)
    case Closing(f, _) => Some(f.sock)
    case _ => None
  }

  predicate OwnedBy(s: Server, t: nat, sock: nat) {
    t in s.threads && Owns(s.threads[t]) == Some(sock)
  }

  predicate InMap(s: Server, sock: nat) {
    sock in s.dialled && Mapped(s.flows, s.dialled[sock])
  }

  predicate StartingOn(s: Server, t: nat, sock: nat) {
    t in s.threads && s.threads[t].Starting? && s.threads[t].f.sock == sock
  }

  ghost predicate TypeInv(s: Server) {
    && (forall n :: n in s.dialled ==>
          s.dialled[n].sock == n && s.dialled[n].key == FlowKey(s.dialled[n].client, s.dialled[n].id))
    && (forall k :: k in s.flows ==> s.flows[k].key == k && Known(s, s.flows[k]))
    && (forall t :: t in s.threads ==> PcGood(s, s.threads[t]))
  }

  /** Sockets are never shared between a thread, the map and the closed ones. */
  ghost predicate PlaceInv(s: Server) {
    && (forall t, u, n :: OwnedBy(s, t, n) && OwnedBy(s, u, n) ==> t == u)
    && (forall t, n :: OwnedBy(s, t, n) ==> n in s.dialled && !InMap(s, n) && s.closes[n] == 0)
    && (forall n :: InMap(s, n) ==> s.closes[n] == 0)
    && (forall n :: s.closes[n] <= 1 && (s.closes[n] == 1 ==> n in s.dialled))
    && (forall n :: n in s.dialled ==> s.closes[n] == 1 || InMap(s, n) || exists t :: OwnedBy(s, t, n))
  }

  /** A flowFor that has dialled or lost has started no pump on its socket. */
  predicate Unpumped(s: Server, t: nat, sock: nat) {
    t in s.threads && (s.threads[t].Holding? || s.threads[t].Losing?) && s.threads[t].f.sock == sock
  }

  ghost predicate PumpInv(s: Server) {
    && (forall n :: s.pumps[n] <= 1 && (s.pumps[n] == 1 ==> n in s.dialled))
    && (forall t, u, n :: StartingOn(s, t, n) && StartingOn(s, u, n) ==> t == u)
    && (forall t, n :: StartingOn(s, t, n) ==> n in s.dialled && s.pumps[n] == 0)
    && (forall t, n :: Unpumped(s, t, n) ==> s.pumps[n] == 0 && forall u :: !StartingOn(s, u, n))
    && (forall n :: InMap(s, n) ==> s.pumps[n] == 1 || exists t :: StartingOn(s, t, n))
  }

  ghost predicate Inv(s: Server) {
    TypeInv(s) && PlaceInv(s) && PumpInv(s)
  }

  ghost predicate Init(s: Server) {
    && s.flows == map[] && s.dialled == map[]
    && s.pumps == multiset{} && s.closes == multiset{}
    && forall t :: t in s.threads ==> s.threads[t].Idle?
  }

  // ---- every step keeps it ----

  /** Nothing that places a socket has changed. */
  lemma PlaceFrame(s: Server, s': Server)
    requires PlaceInv(s)
    requires s'.dialled == s.dialled && s'.closes == s.closes && s'.flows == s.flows
    requires forall t, n :: OwnedBy(s', t, n) == OwnedBy(s, t, n)
    ensures PlaceInv(s')
  {
    forall n ensures InMap(s', n) == InMap(s, n) {}
    forall n | n in s.dialled && s.closes[n] != 1 && !InMap(s, n) ensures exists t :: OwnedBy(s', t, n) {
      var t :| OwnedBy(s, t, n);
      assert OwnedBy(s', t, n);
    }
  }

  /** Nothing that decides about pumps has changed; sockets may have left the map. */
  lemma PumpFrame(s: Server, s': Server)
    requires PumpInv(s)
    requires s.dialled.Keys <= s'.dialled.Keys && s'.pumps == s.pumps
    requires forall n :: InMap(s', n) ==> InMap(s, n)
    requires forall t, n :: StartingOn(s', t, n) == StartingOn(s, t, n)
    requires forall t, n :: Unpumped(s', t, n) ==> Unpumped(s, t, n) || n !in s.dialled
    ensures PumpInv(s')
  {
    forall n | InMap(s', n) && s.pumps[n] != 1 ensures exists t :: StartingOn(s', t, n) {
      var t :| StartingOn(s, t, n);
      assert StartingOn(s', t, n);
    }
  }

  /** Known flows stay known, so only the stepping thread's new place has to be looked at. */
  lemma TypeFrame(s: Server, s': Server)
    requires TypeInv(s)
    requires forall n :: n in s.dialled ==> n in s'.dialled && s'.dialled[n] == s.dialled[n]
    requires forall n :: n in s'.dialled ==>
               n in s.dialled
               || (s'.dialled[n].sock == n && s'.dialled[n].key == FlowKey(s'.dialled[n].client, s'.dialled[n].id))
    requires forall k :: k in s'.flows ==>
             (k in s.flows && s'.flows[k] == s.flows[k]) || (s'.flows[k].key == k && Known(s, s'.flows[k]))
    requires forall t :: t in s'.threads ==>
             (t in s.threads && s'.threads[t] == s.threads[t]) || PcGood(s', s'.threads[t])
    ensures TypeInv(s')
  {
    hide FlowKey;
    forall t | t in s'.threads && t in s.threads && s'.threads[t] == s.threads[t] ensures PcGood(s', s'.threads[t]) {
      assert PcGood(s, s.threads[t]);
    }
  }

  /** A thread moves on without taking, giving up or starting anything. */
  lemma QuietStep(s: Server, t: nat, pc: Pc)
    requires Inv(s) && PcGood(s, pc)
    requires Owns(pc) == None && !pc.Starting?
    requires t in s.threads ==> Owns(s.threads[t]) == None && !s.threads[t].Starting?
    ensures Inv(Goto(s, t, pc))
  {
    hide FlowKey, PlaceInv, PumpInv, TypeInv;
    var s' := Goto(s, t, pc);
    TypeFrame(s, s');
    PlaceFrame(s, s');
    PumpFrame(s, s');
  }

  lemma DialPlaces(s: Server, s': Server, t: nat, sock: nat)
    requires PlaceInv(s) && sock !in s.dialled
    requires s'.dialled.Keys == s.dialled.Keys + {sock} && s'.closes == s.closes
    requires forall n :: InMap(s', n) == InMap(s, n)
    requires forall u, n :: n != sock ==> OwnedBy(s', u, n) == OwnedBy(s, u, n)
    requires forall u :: OwnedBy(s', u, sock) <==> u == t
    ensures PlaceInv(s')
  {
    forall n | n in s'.dialled && s.closes[n] != 1 && !InMap(s, n) ensures exists u :: OwnedBy(s', u, n) {
      if n == sock {
        assert OwnedBy(s', t, n);
      } else {
        var u :| OwnedBy(s, u, n);
        assert OwnedBy(s', u, n);
      }
    }
  }

  lemma DialMaps(s: Server, f: Flow)
    requires TypeInv(s) && f.sock !in s.dialled
    ensures forall n :: InMap(s.(dialled := s.dialled[f.sock := f]), n) == InMap(s, n)
  {
    hide FlowKey;
    forall n ensures InMap(s.(dialled := s.dialled[f.sock := f]), n) == InMap(s, n) {
      if f.key in s.flows { assert Known(s, s.flows[f.key]); }
    }
  }

  lemma NoOwnerYet(s: Server, sock: nat)
    requires PlaceInv(s) && sock !in s.dialled
    ensures forall t :: !OwnedBy(s, t, sock)
  {
  }

  lemma DialStep(s: Server, t: nat, sock: nat)
    requires Inv(s) && Enabled(s, Dial(t, sock))
    ensures Inv(Next(s, Dial(t, sock)))
  {
    hide FlowKey, TypeInv, PlaceInv, PumpInv;
    var s' := Next(s, Dial(t, sock));
    TypeFrame(s, s');
    DialMaps(s, s'.dialled[sock]);
    forall n ensures InMap(s', n) == InMap(s, n) {
      assert InMap(s', n) == InMap(s.(dialled := s'.dialled), n);
    }
    NoOwnerYet(s, sock);
    forall u ensures OwnedBy(s', u, sock) <==> u == t {
      assert u != t ==> OwnedBy(s', u, sock) == OwnedBy(s, u, sock);
    }
    forall u, n | n != sock ensures OwnedBy(s', u, n) == OwnedBy(s, u, n) {}
    DialPlaces(s, s', t, sock);
    PumpFrame(s, s');
  }

  lemma OneOwner(s: Server, t: nat, sock: nat)
    requires PlaceInv(s) && OwnedBy(s, t, sock)
    ensures forall u :: OwnedBy(s, u, sock) <==> u == t
    ensures forall u :: Unpumped(s, u, sock) ==> u == t
    ensures sock in s.dialled
  {
    forall u | Unpumped(s, u, sock) ensures u == t {
      assert OwnedBy(s, u, sock);
    }
  }

  lemma MappedIsKnown(s: Server)
    requires Inv(s)
    ensures forall k :: k in s.flows ==> s.flows[k].key == k && Known(s, s.flows[k])
  {
  }

  lemma PcIsGood(s: Server, t: nat)
    requires Inv(s) && t in s.threads
    ensures PcGood(s, s.threads[t])
  {
  }

  lemma InsertPlaces(s: Server, s': Server, t: nat, sock: nat)
    requires PlaceInv(s) && OwnedBy(s, t, sock)
    requires s'.dialled == s.dialled && s'.closes == s.closes
    requires forall n :: InMap(s', n) <==> n == sock || InMap(s, n)
    requires forall u, n :: OwnedBy(s', u, n) <==> OwnedBy(s, u, n) && n != sock
    ensures PlaceInv(s')
  {
    forall n | n in s'.dialled && s.closes[n] != 1 && !InMap(s', n) ensures exists u :: OwnedBy(s', u, n) {
      var u :| OwnedBy(s, u, n);
      assert OwnedBy(s', u, n);
    }
  }

  lemma InsertMaps(s: Server, f: Flow)
    requires TypeInv(s) && Known(s, f) && f.key !in s.flows
    ensures forall n :: InMap(s.(flows := s.flows[f.key := f]), n) <==> n == f.sock || InMap(s, n)
  {
    hide FlowKey;
    forall n ensures InMap(s.(flows := s.flows[f.key := f]), n) <==> n == f.sock || InMap(s, n) {
      if n in s.dialled && s.dialled[n] == f { assert n == f.sock; }
    }
  }

  lemma InsertPumps(s: Server, s': Server, t: nat, sock: nat)
    requires PumpInv(s) && Unpumped(s, t, sock) && sock in s.dialled
    requires s'.dialled == s.dialled && s'.pumps == s.pumps
    requires forall n :: InMap(s', n) <==> n == sock || InMap(s, n)
    requires forall u, n :: StartingOn(s', u, n) <==> StartingOn(s, u, n) || (u == t && n == sock)
    requires forall u, n :: Unpumped(s', u, n) ==> Unpumped(s, u, n) && n != sock
    ensures PumpInv(s')
  {
    forall n | InMap(s', n) && s.pumps[n] != 1 ensures exists u :: StartingOn(s', u, n) {
      if n == sock {
        assert StartingOn(s', t, n);
      } else {
        var u :| StartingOn(s, u, n);
        assert StartingOn(s', u, n);
      }
    }
  }

  lemma InsertStep(s: Server, t: nat)
    requires Inv(s) && Enabled(s, Insert(t))
    ensures Inv(Next(s, Insert(t)))
  {
    hide FlowKey, TypeInv, PlaceInv, PumpInv;
    var Holding(job, f) := s.threads[t];
    var s' := Next(s, Insert(t));
    PcIsGood(s, t);
    assert Unpumped(s, t, f.sock) && OwnedBy(s, t, f.sock);
    MappedIsKnown(s);
    TypeFrame(s, s');
    if f.key in s.flows {
      PlaceFrame(s, s');
      PumpFrame(s, s');
    } else {
      InsertMaps(s, f);
      forall n ensures InMap(s', n) <==> n == f.sock || InMap(s, n) {
        assert InMap(s', n) == InMap(s.(flows := s.flows[f.key := f]), n);
      }
      OneOwner(s, t, f.sock);
      forall u, n ensures OwnedBy(s', u, n) <==> OwnedBy(s, u, n) && n != f.sock {
        assert u != t ==> OwnedBy(s', u, n) == OwnedBy(s, u, n);
        assert n == f.sock ==> OwnedBy(s, u, f.sock) == (u == t);
      }
      forall u, n | Unpumped(s', u, n) ensures Unpumped(s, u, n) && n != f.sock {
        assert n == f.sock ==> Unpumped(s, u, f.sock);
      }
      InsertPlaces(s, s', t, f.sock);
      InsertPumps(s, s', t, f.sock);
    }
  }

  lemma ClosePlaces(s: Server, s': Server, t: nat, sock: nat)
    requires PlaceInv(s) && OwnedBy(s, t, sock)
    requires s'.dialled == s.dialled && s'.closes == s.closes + multiset{sock}
    requires forall n :: InMap(s', n) == InMap(s, n)
    requires forall u, n :: OwnedBy(s', u, n) <==> OwnedBy(s, u, n) && u != t
    ensures PlaceInv(s')
  {
    forall n | n in s'.dialled && s'.closes[n] != 1 && !InMap(s', n) ensures exists u :: OwnedBy(s', u, n) {
      var u :| OwnedBy(s, u, n);
      assert OwnedBy(s', u, n);
    }
  }

  /** A thread closes the socket it owns and goes on owning nothing. */
  lemma CloseStep(s: Server, t: nat, sock: nat, pc: Pc)
    requires Inv(s) && OwnedBy(s, t, sock) && PcGood(s, pc)
    requires Owns(pc) == None && !pc.Starting?
    ensures Inv(Goto(s, t, pc).(closes := s.closes + multiset{sock}))
  {
    hide FlowKey, TypeInv, PlaceInv, PumpInv;
    var s' := Goto(s, t, pc).(closes := s.closes + multiset{sock});
    assert PcGood(s', pc);
    TypeFrame(s, s');
    forall n ensures InMap(s', n) == InMap(s, n) {}
    ClosePlaces(s, s', t, sock);
    PumpFrame(s, s');
  }

  lemma StartedPumps(s: Server, s': Server, t: nat, sock: nat)
    requires PumpInv(s) && StartingOn(s, t, sock)
    requires s'.dialled == s.dialled && s'.pumps == s.pumps + multiset{sock}
    requires forall n :: InMap(s', n) == InMap(s, n)
    requires forall u, n :: StartingOn(s', u, n) <==> StartingOn(s, u, n) && u != t
    requires forall u, n :: Unpumped(s', u, n) ==> Unpumped(s, u, n)
    ensures PumpInv(s')
  {
    forall n | InMap(s', n) && s'.pumps[n] != 1 ensures exists u :: StartingOn(s', u, n) {
      var u :| StartingOn(s, u, n);
      assert StartingOn(s', u, n);
    }
  }

  lemma StartPumpStep(s: Server, t: nat, u: nat)
    requires Inv(s) && Enabled(s, StartPump(t, u))
    ensures Inv(Next(s, StartPump(t, u)))
  {
    hide FlowKey, TypeInv, PlaceInv, PumpInv;
    var Starting(job, f) := s.threads[t];
    var s' := Next(s, StartPump(t, u));
    PcIsGood(s, t);
    assert StartingOn(s, t, f.sock);
    assert PcGood(s', Writing(job, f)) && PcGood(s', Pumping(f));
    TypeFrame(s, s');
    PlaceFrame(s, s');
    forall n ensures InMap(s', n) == InMap(s, n) {}
    StartedPumps(s, s', t, f.sock);
  }

  lemma RemoveMaps(s: Server, f: Flow)
    requires TypeInv(s) && Known(s, f) && Mapped(s.flows, f)
    ensures InMap(s, f.sock)
    ensures forall n :: InMap(s.(flows := s.flows - {f.key}), n) <==> InMap(s, n) && n != f.sock
  {
  }

  lemma RemovePlaces(s: Server, s': Server, t: nat, sock: nat)
    requires PlaceInv(s) && InMap(s, sock)
    requires s'.dialled == s.dialled && s'.closes == s.closes
    requires forall n :: InMap(s', n) <==> InMap(s, n) && n != sock
    requires forall u, n :: OwnedBy(s', u, n) <==> OwnedBy(s, u, n) || (u == t && n == sock)
    ensures PlaceInv(s')
  {
    forall n | n in s'.dialled && s.closes[n] != 1 && !InMap(s', n) ensures exists u :: OwnedBy(s', u, n) {
      if n == sock {
        assert OwnedBy(s', t, n);
      } else {
        var u :| OwnedBy(s, u, n);
        assert OwnedBy(s', u, n);
      }
    }
  }

  lemma RemoveStep(s: Server, t: nat, f: Flow, rest: seq<Flow>)
    requires Inv(s) && t in s.threads && s.threads[t].Sweeping? && Mapped(s.flows, f)
    requires PcGood(s, Closing(f, rest))
    ensures Inv(Goto(s, t, Closing(f, rest)).(flows := s.flows - {f.key}))
  {
    hide FlowKey, TypeInv, PlaceInv, PumpInv;
    var s' := Goto(s, t, Closing(f, rest)).(flows := s.flows - {f.key});
    assert PcGood(s', Closing(f, rest));
    TypeFrame(s, s');
    RemoveMaps(s, f);
    forall n ensures InMap(s', n) <==> InMap(s, n) && n != f.sock {
      assert InMap(s', n) == InMap(s.(flows := s.flows - {f.key}), n);
    }
    RemovePlaces(s, s', t, f.sock);
    PumpFrame(s, s');
  }

  lemma SweepStep(s: Server, t: nat)
    requires Inv(s) && Enabled(s, Sweep(t))
    ensures Inv(Next(s, Sweep(t)))
  {
    hide FlowKey, TypeInv, PlaceInv, PumpInv;
    var stale := s.threads[t].stale;
    PcIsGood(s, t);
    if stale == [] {
      QuietStep(s, t, Idle);
    } else if !Mapped(s.flows, stale[0]) {
      QuietStep(s, t, Sweeping(stale[1..]));
    } else {
      RemoveStep(s, t, stale[0], stale[1..]);
    }
  }

  lemma NextKeepsInv(s: Server, a: Act)
    requires Inv(s) && Enabled(s, a)
    ensures Inv(Next(s, a))
  {
    hide FlowKey, Inv;
    if a.t in s.threads { PcIsGood(s, a.t); }
    match a
    case Dial(t, sock) => DialStep(s, t, sock);
    case Insert(t) => InsertStep(s, t);
    case CloseLoser(t) =>
      var Losing(job, f, w) := s.threads[t];
      CloseStep(s, t, f.sock, Writing(job, w));
    case StartPump(t, u) => StartPumpStep(s, t, u);
    case Sweep(t) => SweepStep(s, t);
    case Close(t) =>
      var Closing(f, rest) := s.threads[t];
      CloseStep(s, t, f.sock, Sweeping(rest));
    case _ =>
      MappedIsKnown(s);
      QuietStep(s, a.t, Next(s, a).threads[a.t]);
  }

  // ---- whole runs ----

  /** The states of a run that starts in `s` and performs `acts`. */
  ghost predicate Runs(s: Server, acts: seq<Act>)
    decreases |acts|
  {
    acts == [] || (Enabled(s, acts[0]) && Runs(Next(s, acts[0]), acts[1..]))
  }

  ghost function After(s: Server, acts: seq<Act>): Server
    requires Runs(s, acts)
    decreases |acts|
  {
    if acts == [] then s else After(Next(s, acts[0]), acts[1..])
  }

  lemma {:induction false} RunKeepsInv(s: Server, acts: seq<Act>)
    requires Inv(s) && Runs(s, acts)
    ensures Inv(After(s, acts))
    decreases |acts|
  {
    hide Inv, Enabled, Next;
    if acts != [] {
      NextKeepsInv(s, acts[0]);
      RunKeepsInv(Next(s, acts[0]), acts[1..]);
    }
  }

  lemma InitIsInv(s: Server)
    requires Init(s)
    ensures Inv(s)
  {
  }

  /** Where a dialled socket can be. */
  datatype Place = Held(t: nat) | InMapAt(key: string) | BeingClosed(t: nat) | Closed

  predicate IsAt(s: Server, sock: nat, p: Place) {
    match p
    case Held(t) => t in s.threads && (s.threads[t].Holding? || s.threads[t].Losing?) && s.threads[t].f.sock == sock
    case InMapAt(k) => k in s.flows && s.flows[k].sock == sock
    case BeingClosed(t) => t in s.threads && s.threads[t].Closing? && s.threads[t].f.sock == sock
    case Closed => sock in s.closes
  }

  lemma PlaceOfSocket(s: Server, sock: nat)
    requires Inv(s) && sock in s.dialled
    ensures exists p :: IsAt(s, sock, p)
    ensures forall p, q :: IsAt(s, sock, p) && IsAt(s, sock, q) ==> p == q
  {
    hide FlowKey;
    if s.closes[sock] == 1 {
      assert IsAt(s, sock, Closed);
    } else if InMap(s, sock) {
      assert IsAt(s, sock, InMapAt(s.dialled[sock].key));
    } else {
      var t :| OwnedBy(s, t, sock);
      assert IsAt(s, sock, Held(t)) || IsAt(s, sock, BeingClosed(t));
    }
    forall p | IsAt(s, sock, p)
      ensures p.Held? || p.BeingClosed? ==> OwnedBy(s, p.t, sock)
      ensures p.InMapAt? ==> InMap(s, sock) && p.key == s.dialled[sock].key
    {
      if p.InMapAt? { assert Known(s, s.flows[p.key]); }
    }
  }

  /**
   In every state of every run, each dialled socket is in exactly one place: held
   by one unfinished flowFor, in the map under one key, being closed by one
   caller, or closed; and no socket has been closed twice.
   */
  lemma SocketsConserved(s: Server, acts: seq<Act>)
    requires Init(s) && Runs(s, acts)
    ensures var s' := After(s, acts); forall n ::
              && s'.closes[n] <= 1
              && (n in s'.dialled ==>
                    && (exists p :: IsAt(s', n, p))
                    && (forall p, q :: IsAt(s', n, p) && IsAt(s', n, q) ==> p == q))
  {
    hide IsAt;
    InitIsInv(s);
    RunKeepsInv(s, acts);
    forall n | n in After(s, acts).dialled
      ensures exists p :: IsAt(After(s, acts), n, p)
      ensures forall p, q :: IsAt(After(s, acts), n, p) && IsAt(After(s, acts), n, q) ==> p == q
    {
      PlaceOfSocket(After(s, acts), n);
    }
  }

  /**
   A mapped socket has exactly one pump: already started, or still to be started
   by the one flowFor that inserted it; no socket ever gets two.
   */
  lemma OnePumpEach(s: Server, acts: seq<Act>)
    requires Init(s) && Runs(s, acts)
    ensures var s' := After(s, acts); forall n ::
              && s'.pumps[n] <= 1
              && (InMap(s', n) ==>
                    && (s'.pumps[n] == 0 <==> exists t :: StartingOn(s', t, n))
                    && (forall t, u :: StartingOn(s', t, n) && StartingOn(s', u, n) ==> t == u))
  {
    InitIsInv(s);
    RunKeepsInv(s, acts);
  }

  lemma OnlySweepsRemove(s: Server, a: Act, g: Flow)
    requires Enabled(s, a) && !a.Sweep? && Mapped(s.flows, g)
    ensures Mapped(Next(s, a).flows, g)
  {
    hide FlowKey;
  }

  /**
   A mapped flow leaves the map at exactly one kind of step: a closeFlow called for that very
   flow. Neither a late closeFlow for an older flow under the same key, nor an insert, nor
   anything else takes it out or puts another in its place.
   */
  lemma LeavesOnlyByItsOwnClose(s: Server, a: Act, g: Flow)
    requires Inv(s) && Enabled(s, a) && Mapped(s.flows, g)
    ensures Mapped(Next(s, a).flows, g)
            <==> !(a.Sweep? && s.threads[a.t].stale != [] && s.threads[a.t].stale[0].sock == g.sock)
  {
    hide FlowKey, Inv;
    MappedIsKnown(s);
    if a.Sweep? {
      PcIsGood(s, a.t);
    } else {
      OnlySweepsRemove(s, a, g);
    }
  }

  /** In every state of every run a key names its own (client, id), and different pairs use different sockets. */
  lemma PairsNeverShareSockets(s: Server, acts: seq<Act>)
    requires Init(s) && Runs(s, acts)
    ensures var flows := After(s, acts).flows; forall k, l :: k in flows && l in flows ==>
              && k == FlowKey(flows[k].client, flows[k].id)
              && (k != l ==>
                    flows[k].sock != flows[l].sock && (flows[k].client, flows[k].id) != (flows[l].client, flows[l].id))
  {
    hide FlowKey;
    InitIsInv(s);
    RunKeepsInv(s, acts);
    var s' := After(s, acts);
    forall k | k in s'.flows ensures Known(s', s'.flows[k]) && k == s'.flows[k].key {}
  }

  // ---- what one thread can count on ----

  lemma {:induction false} StaysPut(s: Server, acts: seq<Act>, t: nat)
    requires Runs(s, acts) && t in s.threads && forall i :: 0 <= i < |acts| ==> acts[i].t != t
    ensures t in After(s, acts).threads && After(s, acts).threads[t] == s.threads[t]
    ensures Inv(s) ==> Inv(After(s, acts))
    decreases |acts|
  {
    hide Inv;
    if acts != [] {
      if Inv(s) { NextKeepsInv(s, acts[0]); }
      StaysPut(Next(s, acts[0]), acts[1..], t);
    }
  }

  lemma OwnIsSafe(s: Server, t: nat, sock: nat)
    requires Inv(s)
    ensures OwnedBy(s, t, sock) ==> !InMap(s, sock) && s.closes[sock] == 0
    ensures Unpumped(s, t, sock) || StartingOn(s, t, sock) ==> s.pumps[sock] == 0
  {
    hide TypeInv;
  }

  /**
   Whatever the other threads do while `t` is between two of its steps, a socket that `t` has
   dialled or taken out stays its own, unmapped and unclosed, without a pump if it was
   dialled and not inserted, and a socket whose pump it is about to start gets none from them.
   */
  lemma OthersLeaveMineAlone(s: Server, acts: seq<Act>, t: nat, sock: nat)
    requires Inv(s) && Runs(s, acts) && t in s.threads && forall i :: 0 <= i < |acts| ==> acts[i].t != t
    ensures var s' := After(s, acts);
            && (OwnedBy(s, t, sock) ==> OwnedBy(s', t, sock) && !InMap(s', sock) && s'.closes[sock] == 0)
            && (Unpumped(s, t, sock) || StartingOn(s, t, sock) ==> s'.pumps[sock] == 0)
  {
    hide PlaceInv, PumpInv, TypeInv, InMap, Runs;
    StaysPut(s, acts, t);
    OwnIsSafe(After(s, acts), t, sock);
  }

  /** The closeFlow thread `t` has come to takes a flow with the key `k` out of the map. */
  predicate TakesOut(s: Server, t: nat, k: string)
    requires t in s.threads && s.threads[t].Sweeping?
  {
    var stale := s.threads[t].stale;
    stale != [] && stale[0].key == k && Mapped(s.flows, stale[0])
  }

  /** `acts` takes no flow with the key `k` out of the map. */
  ghost predicate Undisturbed(s: Server, acts: seq<Act>, k: string)
    requires Runs(s, acts)
    decreases |acts|
  {
    acts == [] ||
    (var a := acts[0];
     && !(a.Sweep? && TakesOut(s, a.t, k))
     && Undisturbed(Next(s, a), acts[1..], k))
  }

  /** A thread that has got to know the winner under the key `k` knows the mapped flow. */
  predicate KnowsWinner(s: Server, t: nat, k: string) {
    t in s.threads ==>
      match s.threads[t]
      case Losing(_, _, w) => w.key == k ==> Mapped(s.flows, w)
      case Starting(_, f) => f.key == k ==> Mapped(s.flows, f)
      case Writing(_, f) => f.key == k ==> Mapped(s.flows, f)
      case _ => true
  }

  /** `t` has not been through either of flowFor's locks. */
  predicate Undecided(s: Server, t: nat) {
    t in s.threads && (s.threads[t].Idle? || s.threads[t].Looking? || s.threads[t].Dialling? || s.threads[t].Holding?)
  }

  lemma StepKeepsWinner(s: Server, a: Act, t: nat, k: string)
    requires Inv(s) && Enabled(s, a) && KnowsWinner(s, t, k)
    requires !(a.Sweep? && TakesOut(s, a.t, k))
    ensures KnowsWinner(Next(s, a), t, k)
  {
    hide FlowKey, TypeInv, PlaceInv, PumpInv;
    MappedIsKnown(s);
    if a.t in s.threads { PcIsGood(s, a.t); }
    forall g | Mapped(s.flows, g) && g.key == k ensures Mapped(Next(s, a).flows, g) {
      LeavesOnlyByItsOwnClose(s, a, g);
    }
  }

  lemma {:induction false} RunKeepsWinner(s: Server, acts: seq<Act>, t: nat, k: string)
    requires Inv(s) && Runs(s, acts) && Undisturbed(s, acts, k) && KnowsWinner(s, t, k)
    ensures KnowsWinner(After(s, acts), t, k)
    decreases |acts|
  {
    hide Inv, Next, Enabled, KnowsWinner;
    if acts != [] {
      StepKeepsWinner(s, acts[0], t, k);
      NextKeepsInv(s, acts[0]);
      RunKeepsWinner(Next(s, acts[0]), acts[1..], t, k);
    }
  }

  /**
   However two flowFor calls for the same client and id race, when both have returned - and no
   closeFlow has taken a flow out under that key meanwhile - they have returned the same flow,
   the one that is mapped; any other socket dialled for the key is not in the map.
   */
  lemma RacersAgree(s: Server, acts: seq<Act>, t: nat, u: nat, k: string)
    requires Inv(s) && Runs(s, acts) && Undisturbed(s, acts, k) && Undecided(s, t) && Undecided(s, u)
    requires var s' := After(s, acts);
             && t in s'.threads && s'.threads[t].Writing? && JobKey(s'.threads[t].job) == k
             && u in s'.threads && s'.threads[u].Writing? && JobKey(s'.threads[u].job) == k
    ensures var s' := After(s, acts);
            && s'.threads[t].f == s'.threads[u].f && Mapped(s'.flows, s'.threads[t].f)
            && forall n :: n in s'.dialled && s'.dialled[n].key == k && InMap(s', n) ==> n == s'.threads[t].f.sock
  {
    hide FlowKey, PlaceInv, PumpInv, Runs, Undisturbed;
    RunKeepsInv(s, acts);
    RunKeepsWinner(s, acts, t, k);
    RunKeepsWinner(s, acts, u, k);
    PcIsGood(After(s, acts), t);
    PcIsGood(After(s, acts), u);
  }

  // ---- every mapped flow is looked after ----

  /** The socket of some flow of `stale` is `sock`. */
  predicate Listed(stale: seq<Flow>, sock: nat) {
    exists i :: 0 <= i < |stale| && stale[i].sock == sock
  }

  /** Thread `t` is about to start the pump of `sock`, is that pump, or has a closeFlow of its flow to do. */
  predicate Attends(s: Server, t: nat, sock: nat) {
    t in s.threads &&
    match s.threads[t]
    case Starting(_, f) => f.sock == sock
    case Pumping(f) => f.sock == sock
    case Relaying(f, _) => f.sock == sock
    case Sweeping(stale) => Listed(stale, sock)
    case Closing(_, rest) => Listed(rest, sock)
    case _ => false
  }

  ghost predicate Attended(s: Server) {
    forall n :: InMap(s, n) ==> exists t :: Attends(s, t, n)
  }

  /** Only an insert brings a socket into the map, and the thread that inserts it starts its pump. */
  lemma EntersAttended(s: Server, a: Act, n: nat)
    requires Inv(s) && Enabled(s, a) && InMap(Next(s, a), n) && !InMap(s, n)
    ensures Attends(Next(s, a), a.t, n)
  {
    hide FlowKey, PlaceInv, PumpInv, Listed;
    if a.t in s.threads { PcIsGood(s, a.t); }
    MappedIsKnown(s);
  }

  lemma ListedAtOnce(f: Flow)
    ensures Listed([f], f.sock)
  {
    assert [f][0] == f;
  }

  lemma ListedFurther(stale: seq<Flow>, sock: nat)
    requires stale != [] && Listed(stale, sock) && stale[0].sock != sock
    ensures Listed(stale[1..], sock)
  {
    var i :| 0 <= i < |stale| && stale[i].sock == sock;
    assert stale[1..][i - 1] == stale[i];
  }

  lemma SweepsOn(s: Server, t: nat, n: nat)
    requires Inv(s) && Enabled(s, Sweep(t)) && InMap(s, n) && Attends(s, t, n) && InMap(Next(s, Sweep(t)), n)
    ensures Attends(Next(s, Sweep(t)), t, n)
  {
    hide FlowKey, PlaceInv, PumpInv;
    var stale := s.threads[t].stale;
    PcIsGood(s, t);
    assert stale != [] && Known(s, stale[0]) && stale[0].sock != n;
    ListedFurther(stale, n);
  }

  /** A thread's own step: it goes on attending, or hands over to the pump it starts. */
  lemma HandsOn(s: Server, a: Act, n: nat)
    requires Inv(s) && Enabled(s, a) && InMap(s, n) && Attends(s, a.t, n) && InMap(Next(s, a), n)
    ensures Attends(Next(s, a), if a.StartPump? then a.pump else a.t, n)
  {
    hide FlowKey, PlaceInv, PumpInv, TypeInv, Listed, InMap;
    match a {
      case PumpFails(t) => ListedAtOnce(s.threads[t].f);
      case RelayFails(t) => ListedAtOnce(s.threads[t].f);
      case Sweep(t) => SweepsOn(s, t, n);
      case _ =>
    }
  }

  /** A mapped socket that is attended stays so until it leaves the map. */
  lemma StaysAttended(s: Server, a: Act, t: nat, n: nat)
    requires Inv(s) && Enabled(s, a) && InMap(s, n) && Attends(s, t, n) && InMap(Next(s, a), n)
    ensures exists u :: Attends(Next(s, a), u, n)
  {
    hide FlowKey, Inv, Listed, InMap;
    if a.t == t {
      HandsOn(s, a, n);
    } else {
      assert Attends(Next(s, a), t, n);
    }
  }

  lemma {:induction false} RunKeepsAttended(s: Server, acts: seq<Act>)
    requires Inv(s) && Attended(s) && Runs(s, acts)
    ensures Attended(After(s, acts))
    decreases |acts|
  {
    hide Inv, Next, Enabled, Attends, InMap;
    if acts != [] {
      var s' := Next(s, acts[0]);
      NextKeepsInv(s, acts[0]);
      forall n | InMap(s', n) ensures exists t :: Attends(s', t, n) {
        if InMap(s, n) {
          var t :| Attends(s, t, n);
          StaysAttended(s, acts[0], t, n);
        } else {
          EntersAttended(s, acts[0], n);
        }
      }
      RunKeepsAttended(s', acts[1..]);
    }
  }

  lemma NobodyMapped(s: Server)
    requires Init(s)
    ensures Attended(s)
  {
  }

  /**
   In every state of every run a mapped flow has a pump that is still running or about to be
   started, or a closeFlow of it is still to come: none is left in the map unattended.
   */
  lemma MappedAreAttended(s: Server, acts: seq<Act>, k: string)
    requires Init(s) && Runs(s, acts) && k in After(s, acts).flows
    ensures exists t :: Attends(After(s, acts), t, After(s, acts).flows[k].sock)
  {
    hide FlowKey, PlaceInv, PumpInv, Attends;
    InitIsInv(s);
    RunKeepsInv(s, acts);
    NobodyMapped(s);
    RunKeepsAttended(s, acts);
    var s' := After(s, acts);
    MappedIsKnown(s');
    assert InMap(s', s'.flows[k].sock);
  }
}
