/**
 The whole relay: clients, network and server composed, and the attribution of
 replies over every run.

 The network keeps every packet ever sent and may deliver it any number of times,
 in any order, or never; it makes up none. A packet's `wire` bytes and its address
 are all that travel: the other fields of a packet, and `named`, `heard`, `carried`,
 `replies`, `delivered` and every `sock` of a client are history.
 */
module Relay {
  import opened Words
  import opened Crc32
  import opened Packet
  import opened FlowKeys
  import opened FlowIds
  import C = ClientTable
  import S = ServerMachine

  /** The shared cipher, and which client each transport source address belongs to. */
  datatype Env = Env(cipher: Cipher, owner: Addr -> nat)

  datatype UpPacket = Up(src: Addr, wire: Bytes, nonce: Bytes, id: uint32, payload: Bytes, origin: S.Origin)
  datatype DownPacket = Down(dst: Addr, wire: Bytes, nonce: Bytes, id: uint32, payload: Bytes, sock: nat)

  /** A flow localLoop has looked up, with the datagram it is about to send for it. */
  datatype Outgoing = Outgoing(id: uint32, addr: Addr, payload: Bytes)

  /** A reply on its way to a local address. */
  datatype Incoming = Incoming(addr: Addr, payload: Bytes, sock: nat)

  datatype Client = Client(
    table: C.Table,
    openings: nat,
    named: map<uint32, Addr>,
    heard: set<(Addr, Bytes)>,
    sending: Option<Outgoing>,
    writing: Option<Incoming>,
    delivered: set<Incoming>)

  datatype System = System(
    clients: map<nat, Client>,
    server: S.Server,
    up: set<UpPacket>,
    down: set<DownPacket>,
    carried: set<(nat, S.Origin, Bytes)>,
    replies: set<(nat, Bytes)>)

  datatype Event =
    | OpenFlow(c: nat, addr: Addr, payload: Bytes, table: C.Table, id: uint32)
    | FindFlow(c: nat, addr: Addr, payload: Bytes)
    | SendUp(c: nat, src: Addr, nonce: Bytes)
    | SkipUp(c: nat)
    | Ping(c: nat, src: Addr, nonce: Bytes)
    | ReapFlow(c: nat, addr: Addr)
    | ReceiveDown(c: nat, p: DownPacket)
    | WriteLocal(c: nat)
    | ReceiveUp(t: nat, q: UpPacket, nonce: Bytes)
    | ServerStep(a: S.Act, nonce: Bytes)
    | TargetReplies(sock: nat, payload: Bytes)

  const FIRST_CLIENT := Client(C.EMPTY, 0, map[], {}, None, None, {})

  ghost predicate Init(st: System) {
    && S.Init(st.server)
    && (forall c :: c in st.clients ==> st.clients[c] == FIRST_CLIENT)
    && st.up == {} && st.down == {} && st.carried == {} && st.replies == {}
  }

  ghost predicate Enabled(env: Env, st: System, e: Event) {
    match e
    case OpenFlow(c, addr, _, t, id) =>
      c in st.clients && st.clients[c].sending == None && C.Opens(st.clients[c].table, addr, t, id)
    case FindFlow(c, addr, _) => c in st.clients && st.clients[c].sending == None && addr in st.clients[c].table.byAddr
    case SendUp(c, src, nonce) =>
      c in st.clients && st.clients[c].sending.Some? && env.owner(src) == c && |nonce| == NONCE_SIZE
    case SkipUp(c) => c in st.clients
    case Ping(c, src, nonce) => c in st.clients && env.owner(src) == c && |nonce| == NONCE_SIZE
    case ReapFlow(c, addr) => c in st.clients && addr in st.clients[c].table.byAddr
    case ReceiveDown(c, p) => c in st.clients && p in st.down && env.owner(p.dst) == c && st.clients[c].writing == None
    case WriteLocal(c) => c in st.clients && st.clients[c].writing.Some?
    case ReceiveUp(t, p, nonce) =>
      p in st.up && t in st.server.threads && st.server.threads[t].Idle? && |nonce| == NONCE_SIZE
    case ServerStep(a, nonce) =>
      && S.Enabled(st.server, a) && !a.Accept? && |nonce| == NONCE_SIZE
      && (a.PumpRead? ==> (st.server.threads[a.t].f.sock, a.payload) in st.replies)
    case TargetReplies(sock, _) => sock in st.server.dialled
  }

  function PutClient(st: System, c: nat, k: Client): System {
    st.(clients := st.clients[c := k])
  }

  function Opening(c: Cipher, wire: Bytes): OpenResult {
    if |c.decrypt(wire)| == |wire| then OpenBytes(c, wire) else ErrShortPacket
  }

  function Next(env: Env, st: System, e: Event): System
    requires Enabled(env, st, e)
  {
    match e
    case OpenFlow(c, addr, payload, t, id) =>
      var k := st.clients[c];
      PutClient(st, c, k.(table := t, openings := k.openings + 1, named := k.named[id := addr],
                          heard := k.heard + {(addr, payload)}, sending := Some(Outgoing(id, addr, payload))))
    case FindFlow(c, addr, payload) =>
      var k := st.clients[c];
      PutClient(st, c, k.(heard := k.heard + {(addr, payload)},
                          sending := Some(Outgoing(k.table.byAddr[addr], addr, payload))))
    case SendUp(c, src, nonce) =>
      var k := st.clients[c];
      var o := k.sending.value;
      var p := Up(src, SealBytes(env.cipher, nonce, Word(o.id), o.payload), nonce, o.id, o.payload,
          S.Origin(c, o.addr));
      PutClient(st, c, k.(sending := None)).(up := st.up + {p})
    case SkipUp(c) => PutClient(st, c, st.clients[c].(sending := None))
    case Ping(c, src, nonce) =>
      st.(up := st.up + {Up(src, SealBytes(env.cipher, nonce, KEEP_ALIVE_FLOW, []), nonce, 0, [], S.Origin(c, ""))})
    case ReapFlow(c, addr) =>
      var k := st.clients[c];
      PutClient(st, c,
          k.(table := C.Table(k.table.byAddr - {addr}, k.table.byID - {k.table.byAddr[addr]}, k.table.nextID)))
    case ReceiveDown(c, p) =>
      var k := st.clients[c];
      (match Opening(env.cipher, p.wire)
       case Opened(w, payload) =>
         if w != KEEP_ALIVE_FLOW && Number(w) in k.table.byID
         then PutClient(st, c, k.(writing := Some(Incoming(k.table.byID[Number(w)], payload, p.sock))))
         else st
       case _ => st)
    case WriteLocal(c) =>
      var k := st.clients[c];
      PutClient(st, c, k.(writing := None, delivered := k.delivered + {k.writing.value}))
    case ReceiveUp(t, p, nonce) =>
      (match Opening(env.cipher, p.wire)
       case Opened(w, payload) =>
         if w == KEEP_ALIVE_FLOW
         then st.(down := st.down + {Down(p.src, SealBytes(env.cipher, nonce, KEEP_ALIVE_FLOW, []), nonce, 0, [], 0)})
         else st.(server := S.Next(st.server, S.Accept(t, S.Job(p.src, Number(w), payload, p.origin))))
       case _ => st)
    case ServerStep(a, nonce) =>
      var s' := S.Next(st.server, a);
      if a.Write? then
        var pc := st.server.threads[a.t];
        st.(server := s', carried := st.carried + {(pc.f.sock, pc.job.origin, pc.job.payload)})
      else if a.Relay? then
        var pc := st.server.threads[a.t];
        var f, payload := pc.f, pc.payload;
        var p := Down(f.client, SealBytes(env.cipher, nonce, Word(f.id), payload), nonce, f.id, payload, f.sock);
        st.(server := s', down := st.down + {p})
      else st.(server := s')
    case TargetReplies(sock, payload) => st.(replies := st.replies + {(sock, payload)})
  }

  // ---- the invariant ----

  /** Client `c` gave flow id `id` to local address `addr`. */
  predicate Names(clients: map<nat, Client>, c: nat, id: uint32, addr: Addr) {
    c in clients && id in clients[c].named && clients[c].named[id] == addr
  }

  /** While at most 2^32 - 1 flows have been opened, ids count up and none is given twice. */
  ghost predicate ClientOk(k: Client) {
    && C.Twin(k.table)
    && k.table.nextID == k.openings
    && (forall i :: i in k.named ==> 1 <= i <= k.openings)
    && (forall i :: i in k.table.byID ==> i in k.named && k.named[i] == k.table.byID[i])
    && (k.sending.Some? ==>
          k.sending.value.id != 0 && k.sending.value.id in k.named
          && k.named[k.sending.value.id] == k.sending.value.addr)
  }

  ghost predicate ClientsOk(st: System) {
    forall c :: c in st.clients ==> ClientOk(st.clients[c])
  }

  /** Everything that is to end up on a socket of flow (client, id) comes from the address that id names. */
  predicate From(env: Env, clients: map<nat, Client>, client: Addr, id: uint32, origin: S.Origin) {
    env.owner(client) == origin.relay && Names(clients, origin.relay, id, origin.addr)
  }

  ghost predicate UpOk(env: Env, st: System) {
    forall p :: p in st.up ==>
      && |p.nonce| == NONCE_SIZE
      && p.wire == SealBytes(env.cipher, p.nonce, Word(p.id), p.payload)
      && (p.id != 0 ==> From(env, st.clients, p.src, p.id, p.origin))
  }

  predicate HasJob(pc: S.Pc) {
    pc.Looking? || pc.Dialling? || pc.Holding? || pc.Losing? || pc.Starting? || pc.Writing?
  }

  ghost predicate JobsOk(env: Env, st: System) {
    forall t :: t in st.server.threads && HasJob(st.server.threads[t]) ==>
      var job := st.server.threads[t].job;
      job.id != 0 && From(env, st.clients, job.client, job.id, job.origin)
  }

  ghost predicate CarriedOk(env: Env, st: System) {
    forall n, o, payload :: (n, o, payload) in st.carried ==>
      n in st.server.dialled && From(env, st.clients, st.server.dialled[n].client, st.server.dialled[n].id, o)
  }

  /** `payload` is a reply the target sent to the socket dialled for (client, id). */
  predicate Reply(st: System, sock: nat, client: Addr, id: uint32, payload: Bytes) {
    && sock in st.server.dialled && (sock, payload) in st.replies
    && st.server.dialled[sock].client == client && st.server.dialled[sock].id == id
  }

  ghost predicate RelaysOk(st: System) {
    forall t :: t in st.server.threads && st.server.threads[t].Relaying? ==>
      (st.server.threads[t].f.sock, st.server.threads[t].payload) in st.replies
  }

  ghost predicate DownOk(env: Env, st: System) {
    forall p :: p in st.down ==>
      && |p.nonce| == NONCE_SIZE
      && p.wire == SealBytes(env.cipher, p.nonce, Word(p.id), p.payload)
      && (p.id != 0 ==> Reply(st, p.sock, p.dst, p.id, p.payload))
  }

  /** A reply bound for `i.addr` at client `c` came in on the socket of a flow of that address. */
  predicate Sourced(env: Env, st: System, c: nat, i: Incoming) {
    && i.sock in st.server.dialled && (i.sock, i.payload) in st.replies
    && From(env, st.clients, st.server.dialled[i.sock].client, st.server.dialled[i.sock].id, S.Origin(c, i.addr))
  }

  ghost predicate RepliesOk(env: Env, st: System) {
    forall c :: c in st.clients ==>
      && (st.clients[c].writing.Some? ==> Sourced(env, st, c, st.clients[c].writing.value))
      && forall i :: i in st.clients[c].delivered ==> Sourced(env, st, c, i)
  }

  ghost predicate Inv(env: Env, st: System) {
    && S.Inv(st.server)
    && ClientsOk(st)
    && UpOk(env, st) && JobsOk(env, st) && CarriedOk(env, st)
    && RelaysOk(st) && DownOk(env, st) && RepliesOk(env, st)
  }

  ghost predicate Bounded(st: System) {
    forall c :: c in st.clients ==> st.clients[c].openings < WORD_SPACE
  }

  // ---- what later states keep ----

  /** No name is taken back, no socket changes its flow and no reply is forgotten. */
  ghost predicate Later(st: System, st': System) {
    && (forall c, i, a :: Names(st.clients, c, i, a) ==> Names(st'.clients, c, i, a))
    && (forall n :: n in st.server.dialled ==> n in st'.server.dialled && st'.server.dialled[n] == st.server.dialled[n])
    && st.replies <= st'.replies
  }

  lemma LaterKeepsReplies(env: Env, st: System, st': System)
    requires Later(st, st') && RepliesOk(env, st)
    requires st'.clients.Keys == st.clients.Keys
    requires forall c :: c in st.clients ==>
               && (st'.clients[c].writing == st.clients[c].writing || st'.clients[c].writing == None)
               && (st'.clients[c].delivered == st.clients[c].delivered
                   || (st.clients[c].writing.Some?
                       && st'.clients[c].delivered == st.clients[c].delivered + {st.clients[c].writing.value}))
    ensures RepliesOk(env, st')
  {
    forall c, i | c in st.clients && Sourced(env, st, c, i) ensures Sourced(env, st', c, i) {}
  }

  lemma LaterKeepsCarried(env: Env, st: System, st': System)
    requires Later(st, st') && CarriedOk(env, st) && st'.carried == st.carried
    ensures CarriedOk(env, st')
  {
  }

  lemma LaterKeepsUp(env: Env, st: System, st': System)
    requires Later(st, st') && UpOk(env, st) && st'.up == st.up
    ensures UpOk(env, st')
  {
  }

  lemma LaterKeepsDown(env: Env, st: System, st': System)
    requires Later(st, st') && DownOk(env, st) && st'.down == st.down
    ensures DownOk(env, st')
  {
  }

  lemma LaterKeepsJobs(env: Env, st: System, st': System)
    requires Later(st, st') && JobsOk(env, st)
    requires forall t :: t in st'.server.threads && HasJob(st'.server.threads[t]) ==>
               t in st.server.threads && HasJob(st.server.threads[t])
               && st'.server.threads[t].job == st.server.threads[t].job
    ensures JobsOk(env, st')
  {
  }

  // ---- client steps ----

  /** Below the bound the next id is simply the next number, and it is new. */
  lemma NextIdIsNew(k: Client, addr: Addr, t: C.Table, id: uint32)
    requires ClientOk(k) && C.Opens(k.table, addr, t, id) && k.openings + 1 < WORD_SPACE
    ensures id == k.openings + 1 && id !in k.named
  {
    hide C.Twin;
    var n: nat :| n <= |k.table.byID| + 2 && FirstFree(k.table.byID.Keys, k.table.nextID, n, id);
    TakesSuccessor(k.table.byID.Keys, k.table.nextID, n, id);
  }

  lemma OpenKeepsClient(k: Client, addr: Addr, t: C.Table, id: uint32, payload: Bytes)
    requires ClientOk(k) && C.Opens(k.table, addr, t, id) && k.openings + 1 < WORD_SPACE
    ensures ClientOk(k.(table := t, openings := k.openings + 1, named := k.named[id := addr],
                        heard := k.heard + {(addr, payload)}, sending := Some(Outgoing(id, addr, payload))))
  {
    NextIdIsNew(k, addr, t, id);
    C.StepKeepsTwin(k.table, t);
  }

  /** The step changes one client, and what it says keeps. */
  lemma ClientStep(env: Env, st: System, c: nat, k: Client)
    requires Inv(env, st) && c in st.clients && ClientOk(k)
    requires forall i :: i in st.clients[c].named ==> i in k.named && k.named[i] == st.clients[c].named[i]
    requires k.writing == st.clients[c].writing || k.writing == None
    requires k.delivered == st.clients[c].delivered
             || (st.clients[c].writing.Some? && k.delivered == st.clients[c].delivered + {st.clients[c].writing.value})
    ensures Inv(env, PutClient(st, c, k))
    ensures Later(st, PutClient(st, c, k))
  {
    hide S.Inv, ClientOk, UpOk, JobsOk, CarriedOk, DownOk, RepliesOk, SealBytes;
    var st' := PutClient(st, c, k);
    assert Later(st, st');
    LaterKeepsUp(env, st, st');
    LaterKeepsJobs(env, st, st');
    LaterKeepsCarried(env, st, st');
    LaterKeepsDown(env, st, st');
    LaterKeepsReplies(env, st, st');
  }

  // ---- server steps ----

  /** A server step keeps every dialled flow. */
  lemma DialledStays(s: S.Server, a: S.Act)
    requires S.Enabled(s, a)
    ensures forall n :: n in s.dialled ==> n in S.Next(s, a).dialled && S.Next(s, a).dialled[n] == s.dialled[n]
  {
    hide FlowKey;
  }

  /** Threads go on with the job they have; only Accept brings one in. */
  lemma JobsStay(s: S.Server, a: S.Act)
    requires S.Enabled(s, a)
    ensures forall t :: t in S.Next(s, a).threads && HasJob(S.Next(s, a).threads[t]) ==>
              || (a.Accept? && t == a.t && S.Next(s, a).threads[t].job == a.job)
              || (t in s.threads && HasJob(s.threads[t]) && S.Next(s, a).threads[t].job == s.threads[t].job)
  {
    hide FlowKey;
  }

  /** A pump relays what it has read on its own socket. */
  lemma RelaysStay(s: S.Server, a: S.Act)
    requires S.Enabled(s, a)
    ensures a.PumpRead? ==> a.t in s.threads && s.threads[a.t].Pumping?
    ensures forall t :: t in S.Next(s, a).threads && S.Next(s, a).threads[t].Relaying? ==>
              || (t in s.threads && s.threads[t] == S.Next(s, a).threads[t])
              || (a.PumpRead? && t == a.t && S.Next(s, a).threads[t] == S.Relaying(s.threads[t].f, a.payload))
  {
    hide FlowKey;
  }

  /** A flow some thread is writing for, or relaying from, is the one its socket was dialled for. */
  lemma ThreadFlow(s: S.Server, t: nat)
    requires S.Inv(s) && t in s.threads
    ensures s.threads[t].Writing? ==>
              var f := s.threads[t].f;
              S.Known(s, f) && f.client == s.threads[t].job.client && f.id == s.threads[t].job.id
    ensures s.threads[t].Relaying? ==> S.Known(s, s.threads[t].f)
  {
    hide FlowKey;
    assert S.PcGood(s, s.threads[t]);
    if s.threads[t].Writing? {
      var f, job := s.threads[t].f, s.threads[t].job;
      FlowKeyInjective(f.client, f.id, job.client, job.id);
    }
  }

  lemma ServerMoves(env: Env, st: System, a: S.Act, s': S.Server, down': set<DownPacket>,
      carried': set<(nat, S.Origin, Bytes)>)
    requires Inv(env, st) && S.Enabled(st.server, a) && s' == S.Next(st.server, a)
    requires a.PumpRead? ==> (st.server.threads[a.t].f.sock, a.payload) in st.replies
    ensures var st' := st.(server := s', down := down', carried := carried');
            Later(st, st') && S.Inv(s') && RelaysOk(st') && ClientsOk(st') && UpOk(env, st') && RepliesOk(env, st')
    ensures !a.Accept? ==> JobsOk(env, st.(server := s', down := down', carried := carried'))
  {
    hide S.Inv, S.Next, ClientOk, UpOk, JobsOk, RepliesOk, SealBytes, S.Enabled;
    var st' := st.(server := s', down := down', carried := carried');
    S.NextKeepsInv(st.server, a);
    DialledStays(st.server, a);
    JobsStay(st.server, a);
    RelaysStay(st.server, a);
    assert Later(st, st');
    LaterKeepsUp(env, st, st');
    LaterKeepsReplies(env, st, st');
    if !a.Accept? { LaterKeepsJobs(env, st, st'); }
  }

  // ---- every event keeps the invariant ----

  lemma AddUp(env: Env, st: System, p: UpPacket)
    requires Inv(env, st) && |p.nonce| == NONCE_SIZE
    requires p.wire == SealBytes(env.cipher, p.nonce, Word(p.id), p.payload)
    requires p.id != 0 ==> From(env, st.clients, p.src, p.id, p.origin)
    ensures Inv(env, st.(up := st.up + {p}))
  {
    hide S.Inv, ClientOk, SealBytes, Word;
    var st' := st.(up := st.up + {p});
    assert Later(st, st');
    LaterKeepsReplies(env, st, st');
    LaterKeepsDown(env, st, st');
  }

  lemma AddDown(env: Env, st: System, p: DownPacket)
    requires Inv(env, st) && |p.nonce| == NONCE_SIZE
    requires p.wire == SealBytes(env.cipher, p.nonce, Word(p.id), p.payload)
    requires p.id != 0 ==> Reply(st, p.sock, p.dst, p.id, p.payload)
    ensures Inv(env, st.(down := st.down + {p}))
  {
    hide S.Inv, ClientOk, SealBytes, Word;
    var st' := st.(down := st.down + {p});
    assert Later(st, st');
    LaterKeepsReplies(env, st, st');
  }

  /** A packet that was sent opens as what was sealed into it. */
  lemma OpensAsSealed(c: Cipher, wire: Bytes, nonce: Bytes, id: uint32, payload: Bytes)
    requires Invertible(c) && |nonce| == NONCE_SIZE && wire == SealBytes(c, nonce, Word(id), payload)
    ensures Opening(c, wire) == Opened(Word(id), payload)
    ensures Number(Word(id)) == id && (Word(id) == KEEP_ALIVE_FLOW <==> id == 0)
  {
    hide SealBytes, OpenBytes;
    assert |c.decrypt(wire)| == |c.encrypt(wire)| == |wire|;
    OpenAfterSeal(c, nonce, Word(id), payload);
    WordsAreNumbers(0, id);
  }

  lemma SameClient(k: Client, w: Option<Incoming>)
    requires ClientOk(k)
    ensures ClientOk(k.(writing := w))
  {
  }

  lemma WritingStep(env: Env, st: System, c: nat, i: Incoming)
    requires Inv(env, st) && c in st.clients && Sourced(env, st, c, i)
    ensures Inv(env, PutClient(st, c, st.clients[c].(writing := Some(i))))
  {
    hide S.Inv, ClientOk, SealBytes, UpOk, JobsOk, CarriedOk, DownOk;
    var k := st.clients[c].(writing := Some(i));
    var st' := PutClient(st, c, k);
    assert ClientOk(k) by { SameClient(st.clients[c], Some(i)); }
    assert Later(st, st');
    LaterKeepsUp(env, st, st');
    LaterKeepsJobs(env, st, st');
    LaterKeepsCarried(env, st, st');
    LaterKeepsDown(env, st, st');
    forall d, j | d in st.clients && Sourced(env, st, d, j) ensures Sourced(env, st', d, j) {}
  }

  lemma ReceiveDownKeeps(env: Env, st: System, c: nat, p: DownPacket)
    requires Invertible(env.cipher) && Inv(env, st) && Enabled(env, st, ReceiveDown(c, p))
    ensures Inv(env, Next(env, st, ReceiveDown(c, p)))
  {
    hide S.Inv, SealBytes, Opening, Word, Number, Invertible;
    OpensAsSealed(env.cipher, p.wire, p.nonce, p.id, p.payload);
    var k := st.clients[c];
    if p.id != 0 && p.id in k.table.byID {
      var i := Incoming(k.table.byID[p.id], p.payload, p.sock);
      assert Sourced(env, st, c, i);
      WritingStep(env, st, c, i);
    }
  }

  lemma AcceptKeeps(env: Env, st: System, t: nat, job: S.Job)
    requires Inv(env, st) && S.Enabled(st.server, S.Accept(t, job))
    requires job.id != 0 && From(env, st.clients, job.client, job.id, job.origin)
    ensures Inv(env, st.(server := S.Next(st.server, S.Accept(t, job))))
  {
    hide S.Inv, S.Next, ClientOk, SealBytes, UpOk, CarriedOk, DownOk, RepliesOk, RelaysOk, S.Enabled;
    var a := S.Accept(t, job);
    var st' := st.(server := S.Next(st.server, a));
    ServerMoves(env, st, a, st'.server, st.down, st.carried);
    LaterKeepsCarried(env, st, st');
    LaterKeepsDown(env, st, st');
    JobsStay(st.server, a);
    forall u | u in st'.server.threads && HasJob(st'.server.threads[u])
      ensures st'.server.threads[u].job.id != 0
      ensures var j := st'.server.threads[u].job; From(env, st'.clients, j.client, j.id, j.origin)
    {
    }
  }

  lemma ZeroIsKeepAlive()
    ensures Word(0) == KEEP_ALIVE_FLOW
  {
  }

  lemma ReceiveUpKeeps(env: Env, st: System, t: nat, p: UpPacket, nonce: Bytes)
    requires Invertible(env.cipher) && Inv(env, st) && Enabled(env, st, ReceiveUp(t, p, nonce))
    ensures Inv(env, Next(env, st, ReceiveUp(t, p, nonce)))
  {
    hide S.Inv, SealBytes, Opening, Word, Number, Invertible, RelaysOk, RepliesOk, DownOk, CarriedOk, ClientsOk;
    OpensAsSealed(env.cipher, p.wire, p.nonce, p.id, p.payload);
    if p.id == 0 {
      WordsAreNumbers(KEEP_ALIVE_FLOW, 0);
      ZeroIsKeepAlive();
      AddDown(env, st, Down(p.src, SealBytes(env.cipher, nonce, KEEP_ALIVE_FLOW, []), nonce, 0, [], 0));
    } else {
      AcceptKeeps(env, st, t, S.Job(p.src, p.id, p.payload, p.origin));
    }
  }

  lemma ServerStepKeeps(env: Env, st: System, a: S.Act, nonce: Bytes)
    requires Inv(env, st) && Enabled(env, st, ServerStep(a, nonce))
    ensures Inv(env, Next(env, st, ServerStep(a, nonce)))
  {
    hide S.Inv, S.Next, ClientOk, SealBytes, UpOk, RepliesOk, Word;
    var st' := Next(env, st, ServerStep(a, nonce));
    ServerMoves(env, st, a, st'.server, st'.down, st'.carried);
    assert st' == st.(server := st'.server, down := st'.down, carried := st'.carried);
    if a.Write? {
      ThreadFlow(st.server, a.t);
      LaterKeepsDown(env, st, st');
      assert st.server.threads[a.t].Writing?;
      LaterKeepsCarried(env, st, st'.(carried := st.carried));
    } else if a.Relay? {
      ThreadFlow(st.server, a.t);
      LaterKeepsCarried(env, st, st');
      LaterKeepsDown(env, st, st'.(down := st.down));
    } else {
      LaterKeepsCarried(env, st, st');
      LaterKeepsDown(env, st, st');
    }
  }

  lemma SendUpKeeps(env: Env, st: System, c: nat, src: Addr, nonce: Bytes)
    requires Inv(env, st) && Enabled(env, st, SendUp(c, src, nonce))
    ensures Inv(env, Next(env, st, SendUp(c, src, nonce)))
  {
    hide S.Inv, SealBytes, Word, UpOk, JobsOk, CarriedOk, DownOk, RepliesOk;
    var k := st.clients[c];
    var o := k.sending.value;
    ClientStep(env, st, c, k.(sending := None));
    var st1 := PutClient(st, c, k.(sending := None));
    var p := Up(src, SealBytes(env.cipher, nonce, Word(o.id), o.payload), nonce, o.id, o.payload, S.Origin(c, o.addr));
    AddUp(env, st1, p);
    assert Next(env, st, SendUp(c, src, nonce)) == st1.(up := st1.up + {p});
  }

  lemma ClientIsOk(env: Env, st: System, c: nat)
    requires Inv(env, st) && c in st.clients
    ensures ClientOk(st.clients[c])
  {
  }

  lemma OpenFlowKeeps(env: Env, st: System, c: nat, addr: Addr, payload: Bytes, t: C.Table, id: uint32)
    requires Inv(env, st) && Enabled(env, st, OpenFlow(c, addr, payload, t, id))
    requires Bounded(Next(env, st, OpenFlow(c, addr, payload, t, id)))
    ensures Inv(env, Next(env, st, OpenFlow(c, addr, payload, t, id)))
  {
    hide Inv, ClientOk;
    var k := st.clients[c];
    var k' := Next(env, st, OpenFlow(c, addr, payload, t, id)).clients[c];
    assert k'.openings < WORD_SPACE;
    ClientIsOk(env, st, c);
    NextIdIsNew(k, addr, t, id);
    OpenKeepsClient(k, addr, t, id, payload);
    ClientStep(env, st, c, k');
  }

  lemma ClientEventKeeps(env: Env, st: System, e: Event)
    requires Inv(env, st) && Enabled(env, st, e)
    requires e.FindFlow? || e.SkipUp? || e.ReapFlow? || e.WriteLocal?
    ensures Inv(env, Next(env, st, e))
  {
    hide Inv;
    ClientIsOk(env, st, e.c);
    ClientStep(env, st, e.c, Next(env, st, e).clients[e.c]);
  }

  lemma TargetKeeps(env: Env, st: System, sock: nat, payload: Bytes)
    requires Inv(env, st)
    ensures Inv(env, st.(replies := st.replies + {(sock, payload)}))
  {
    hide S.Inv, ClientOk, SealBytes, UpOk, JobsOk, CarriedOk, RepliesOk;
    var st' := st.(replies := st.replies + {(sock, payload)});
    assert Later(st, st');
    LaterKeepsUp(env, st, st');
    LaterKeepsJobs(env, st, st');
    LaterKeepsCarried(env, st, st');
    LaterKeepsReplies(env, st, st');
  }

  lemma NextKeepsInv(env: Env, st: System, e: Event)
    requires Invertible(env.cipher) && Inv(env, st) && Enabled(env, st, e) && Bounded(Next(env, st, e))
    ensures Inv(env, Next(env, st, e))
  {
    match e
    case OpenFlow(c, addr, payload, t, id) => OpenFlowKeeps(env, st, c, addr, payload, t, id);
    case SendUp(c, src, nonce) => SendUpKeeps(env, st, c, src, nonce);
    case Ping(c, src, nonce) =>
      hide SealBytes, Inv;
      ZeroIsKeepAlive();
      AddUp(env, st, Up(src, SealBytes(env.cipher, nonce, KEEP_ALIVE_FLOW, []), nonce, 0, [], S.Origin(c, "")));
    case ReceiveDown(c, p) => ReceiveDownKeeps(env, st, c, p);
    case ReceiveUp(t, p, nonce) => ReceiveUpKeeps(env, st, t, p, nonce);
    case ServerStep(a, nonce) => ServerStepKeeps(env, st, a, nonce);
    case TargetReplies(sock, payload) => TargetKeeps(env, st, sock, payload);
    case _ => ClientEventKeeps(env, st, e);
  }

  // ---- whole runs ----

  ghost predicate Runs(env: Env, st: System, es: seq<Event>)
    decreases |es|
  {
    es == [] || (Enabled(env, st, es[0]) && Runs(env, Next(env, st, es[0]), es[1..]))
  }

  ghost function After(env: Env, st: System, es: seq<Event>): System
    requires Runs(env, st, es)
    decreases |es|
  {
    if es == [] then st else After(env, Next(env, st, es[0]), es[1..])
  }

  lemma OpeningsGrow(env: Env, st: System, e: Event)
    requires Enabled(env, st, e)
    ensures Next(env, st, e).clients.Keys == st.clients.Keys
    ensures forall c :: c in st.clients ==> st.clients[c].openings <= Next(env, st, e).clients[c].openings
  {
    hide SealBytes, Opening, Word, Number, S.Next;
  }

  lemma {:induction false} BoundedBefore(env: Env, st: System, es: seq<Event>)
    requires Runs(env, st, es) && Bounded(After(env, st, es))
    ensures Bounded(st)
    decreases |es|
  {
    hide Enabled, Next;
    if es != [] {
      BoundedBefore(env, Next(env, st, es[0]), es[1..]);
      OpeningsGrow(env, st, es[0]);
    }
  }

  lemma {:induction false} RunKeepsInv(env: Env, st: System, es: seq<Event>)
    requires Invertible(env.cipher) && Inv(env, st)
    requires Runs(env, st, es) && Bounded(After(env, st, es))
    ensures Inv(env, After(env, st, es))
    decreases |es|
  {
    hide Enabled, Next, Inv;
    if es != [] {
      BoundedBefore(env, Next(env, st, es[0]), es[1..]);
      NextKeepsInv(env, st, es[0]);
      RunKeepsInv(env, Next(env, st, es[0]), es[1..]);
    }
  }

  lemma InitIsInv(env: Env, st: System)
    requires Init(st)
    ensures Inv(env, st)
  {
    S.InitIsInv(st.server);
  }

  /**
   What client `c` wrote to a local address came from the target, on a socket that has
   carried datagrams of that very address and of nobody else.
   */
  ghost predicate Attributed(st: System, c: nat, i: Incoming) {
    && (i.sock, i.payload) in st.replies
    && forall o, payload :: (i.sock, o, payload) in st.carried ==> o == S.Origin(c, i.addr)
  }

  lemma OriginsAgree(env: Env, st: System, c: nat, i: Incoming)
    requires CarriedOk(env, st) && Sourced(env, st, c, i)
    ensures Attributed(st, c, i)
  {
  }

  /**
   Reply attribution, over every run in which no client opens more than 2^32 - 1 flows:
   however the network loses, repeats and reorders, however flows are reaped and
   redialled, and whichever transport addresses each client uses in turn.
   */
  lemma RepliesAttributed(env: Env, st: System, es: seq<Event>)
    requires Invertible(env.cipher)
    requires Init(st) && Runs(env, st, es) && Bounded(After(env, st, es))
    ensures var st' := After(env, st, es);
            forall c, i :: c in st'.clients && i in st'.clients[c].delivered ==> Attributed(st', c, i)
  {
    hide Enabled, Next, Runs;
    InitIsInv(env, st);
    RunKeepsInv(env, st, es);
    var st' := After(env, st, es);
    forall c, i | c in st'.clients && i in st'.clients[c].delivered ensures Attributed(st', c, i) {
      OriginsAgree(env, st', c, i);
    }
  }
}
