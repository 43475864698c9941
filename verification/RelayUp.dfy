/**
 The other direction of the relay: what the server writes to a socket. Nothing here needs
 the bound on openings, for no flow id is looked up on the way.
 */
module RelayUp {
  import opened Words
  import opened Crc32
  import opened Packet
  import opened FlowKeys
  import opened Relay
  import C = ClientTable
  import S = ServerMachine

  /** A payload that client `o.relay` has read from its local address `o.addr`. */
  predicate Heard(st: System, o: S.Origin, payload: Bytes) {
    o.relay in st.clients && (o.addr, payload) in st.clients[o.relay].heard
  }

  /** It was sent from a transport address of that very client. */
  predicate Genuine(env: Env, st: System, client: Addr, o: S.Origin, payload: Bytes) {
    env.owner(client) == o.relay && Heard(st, o, payload)
  }

  ghost predicate SendingOk(st: System) {
    forall c :: c in st.clients && st.clients[c].sending.Some? ==>
      (st.clients[c].sending.value.addr, st.clients[c].sending.value.payload) in st.clients[c].heard
  }

  ghost predicate WireOk(env: Env, st: System) {
    forall p :: p in st.up ==>
      && |p.nonce| == NONCE_SIZE
      && p.wire == SealBytes(env.cipher, p.nonce, Word(p.id), p.payload)
      && (p.id != 0 ==> Genuine(env, st, p.src, p.origin, p.payload))
  }

  ghost predicate WorkOk(env: Env, st: System) {
    forall t :: t in st.server.threads && HasJob(st.server.threads[t]) ==>
      var job := st.server.threads[t].job;
      Genuine(env, st, job.client, job.origin, job.payload)
  }

  ghost predicate WrittenOk(env: Env, st: System) {
    forall n, o, payload :: (n, o, payload) in st.carried ==>
      n in st.server.dialled && Genuine(env, st, st.server.dialled[n].client, o, payload)
  }

  ghost predicate UpInv(env: Env, st: System) {
    S.Inv(st.server) && SendingOk(st) && WireOk(env, st) && WorkOk(env, st) && WrittenOk(env, st)
  }

  /** Nothing heard is forgotten and no socket changes its flow. */
  ghost predicate Grown(st: System, st': System) {
    && (forall o, payload :: Heard(st, o, payload) ==> Heard(st', o, payload))
    && (forall n :: n in st.server.dialled ==> n in st'.server.dialled && st'.server.dialled[n] == st.server.dialled[n])
  }

  lemma GrownKeeps(env: Env, st: System, st': System)
    requires Grown(st, st')
    ensures WireOk(env, st) && st'.up == st.up ==> WireOk(env, st')
    ensures WrittenOk(env, st) && st'.carried == st.carried ==> WrittenOk(env, st')
    ensures WorkOk(env, st) && st'.server.threads == st.server.threads ==> WorkOk(env, st')
  {
    hide SealBytes, Word;
  }

  /** A client event other than sending. */
  lemma ClientKeeps(env: Env, st: System, e: Event)
    requires UpInv(env, st) && Enabled(env, st, e)
    requires e.OpenFlow? || e.FindFlow? || e.SkipUp? || e.ReapFlow? || e.WriteLocal? || e.ReceiveDown?
    ensures UpInv(env, Next(env, st, e))
  {
    hide S.Inv, WireOk, WorkOk, WrittenOk, Opening, SealBytes, Word, Number, C.Opens;
    assert Grown(st, Next(env, st, e));
    GrownKeeps(env, st, Next(env, st, e));
  }

  lemma SendKeeps(env: Env, st: System, c: nat, src: Addr, nonce: Bytes)
    requires UpInv(env, st) && Enabled(env, st, SendUp(c, src, nonce))
    ensures UpInv(env, Next(env, st, SendUp(c, src, nonce)))
  {
    hide S.Inv, SealBytes, Word;
    assert Grown(st, Next(env, st, SendUp(c, src, nonce)));
  }

  lemma PingKeeps(env: Env, st: System, c: nat, src: Addr, nonce: Bytes)
    requires UpInv(env, st) && Enabled(env, st, Ping(c, src, nonce))
    ensures UpInv(env, Next(env, st, Ping(c, src, nonce)))
  {
    hide S.Inv, SealBytes;
    ZeroIsKeepAlive();
    assert Grown(st, Next(env, st, Ping(c, src, nonce)));
  }

  lemma WriterIsKnown(s: S.Server, a: S.Act)
    requires S.Inv(s) && S.Enabled(s, a) && a.Write?
    ensures a.t in s.threads && s.threads[a.t].Writing?
    ensures var pc := s.threads[a.t]; S.Known(s, pc.f) && pc.f.client == pc.job.client
  {
    hide FlowKey;
    ThreadFlow(s, a.t);
  }

  lemma ServerKeeps(env: Env, st: System, a: S.Act, st': System)
    requires UpInv(env, st) && S.Enabled(st.server, a) && st'.server == S.Next(st.server, a)
    requires st'.clients == st.clients && st'.up == st.up
    requires a.Accept? ==> Genuine(env, st, a.job.client, a.job.origin, a.job.payload)
    requires st'.carried == st.carried
             || (a.Write? && var pc := st.server.threads[a.t];
                 st'.carried == st.carried + {(pc.f.sock, pc.job.origin, pc.job.payload)})
    ensures UpInv(env, st')
  {
    hide S.Inv, S.Next, S.Enabled, SealBytes, Word, WireOk, FlowKey;
    S.NextKeepsInv(st.server, a);
    DialledStays(st.server, a);
    JobsStay(st.server, a);
    assert Grown(st, st');
    GrownKeeps(env, st, st');
    if a.Write? { WriterIsKnown(st.server, a); }
  }

  lemma ReceiveKeeps(env: Env, st: System, t: nat, p: UpPacket, nonce: Bytes)
    requires Invertible(env.cipher) && UpInv(env, st) && Enabled(env, st, ReceiveUp(t, p, nonce))
    ensures UpInv(env, Next(env, st, ReceiveUp(t, p, nonce)))
  {
    hide S.Inv, S.Next, SealBytes, Opening, Word, Number, Invertible;
    OpensAsSealed(env.cipher, p.wire, p.nonce, p.id, p.payload);
    var st' := Next(env, st, ReceiveUp(t, p, nonce));
    if p.id == 0 {
      assert Grown(st, st');
      GrownKeeps(env, st, st');
    } else {
      ServerKeeps(env, st, S.Accept(t, S.Job(p.src, p.id, p.payload, p.origin)), st');
    }
  }

  lemma RepliesKeep(env: Env, st: System, sock: nat, payload: Bytes)
    requires UpInv(env, st)
    ensures UpInv(env, st.(replies := st.replies + {(sock, payload)}))
  {
    hide S.Inv, SealBytes, Word;
  }

  lemma NextKeepsUp(env: Env, st: System, e: Event)
    requires Invertible(env.cipher) && UpInv(env, st) && Enabled(env, st, e)
    ensures UpInv(env, Next(env, st, e))
  {
    hide UpInv, SealBytes, S.Next;
    match e
    case SendUp(c, src, nonce) => SendKeeps(env, st, c, src, nonce);
    case Ping(c, src, nonce) => PingKeeps(env, st, c, src, nonce);
    case ReceiveUp(t, p, nonce) => ReceiveKeeps(env, st, t, p, nonce);
    case ServerStep(a, nonce) => ServerKeeps(env, st, a, Next(env, st, e));
    case TargetReplies(sock, payload) => RepliesKeep(env, st, sock, payload);
    case _ => ClientKeeps(env, st, e);
  }

  lemma {:induction false} RunKeepsUp(env: Env, st: System, es: seq<Event>)
    requires Invertible(env.cipher) && UpInv(env, st) && Runs(env, st, es)
    ensures UpInv(env, After(env, st, es))
    decreases |es|
  {
    hide UpInv, Next, Enabled;
    if es != [] {
      NextKeepsUp(env, st, es[0]);
      RunKeepsUp(env, Next(env, st, es[0]), es[1..]);
    }
  }

  /**
   Upward integrity, over every run whatsoever: each payload the server writes to a socket has
   been read by the client that owns the address the socket was dialled for, from the local
   address it is attributed to.
   */
  lemma DatagramsAreGenuine(env: Env, st: System, es: seq<Event>, sock: nat, o: S.Origin, payload: Bytes)
    requires Invertible(env.cipher) && Init(st) && Runs(env, st, es)
    requires (sock, o, payload) in After(env, st, es).carried
    ensures var st' := After(env, st, es);
            && sock in st'.server.dialled && env.owner(st'.server.dialled[sock].client) == o.relay
            && o.relay in st'.clients && (o.addr, payload) in st'.clients[o.relay].heard
  {
    hide Next, Enabled, Runs;
    S.InitIsInv(st.server);
    assert UpInv(env, st);
    RunKeepsUp(env, st, es);
  }
}
