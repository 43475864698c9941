/**
 Why reply attribution needs its bound: the very first flow past 2^32 - 1 takes an id for
 the second time, and a reply still on its way is then written to the wrong address.
 */
module RelayBound {
  import opened Words
  import opened Crc32
  import opened Packet
  import opened FlowKeys
  import opened FlowIds
  import opened Relay
  import C = ClientTable
  import S = ServerMachine

  ghost predicate Reaches(env: Env, st: System, st': System) {
    exists es :: Runs(env, st, es) && After(env, st, es) == st'
  }

  lemma {:induction false} Append(env: Env, st: System, es: seq<Event>, e: Event)
    requires Runs(env, st, es) && Enabled(env, After(env, st, es), e)
    ensures Runs(env, st, es + [e]) && After(env, st, es + [e]) == Next(env, After(env, st, es), e)
    decreases |es|
  {
    hide Enabled, Next;
    if es == [] {
      assert (es + [e])[0] == e && (es + [e])[1..] == [];
    } else {
      assert (es + [e])[0] == es[0] && (es + [e])[1..] == es[1..] + [e];
      Append(env, Next(env, st, es[0]), es[1..], e);
    }
  }

  lemma OneMore(env: Env, st: System, mid: System, e: Event)
    requires Reaches(env, st, mid) && Enabled(env, mid, e)
    ensures Reaches(env, st, Next(env, mid, e))
  {
    hide Enabled, Next;
    var es :| Runs(env, st, es) && After(env, st, es) == mid;
    Append(env, st, es, e);
  }

  // ---- the pieces of the run ----

  const ZEROES: Bytes := [0, 0, 0, 0, 0, 0, 0, 0, 0, 0, 0, 0, 0, 0, 0, 0]
  const ORIGIN := S.Origin(0, "a")

  /** The client once "a" has its flow and its datagram has been sent. */
  const OPENED :=
    Client(C.Table(map["a" := 1], map[1 := "a"], 1), 1, map[1 := "a"], {("a", [])}, None, None, {})

  /** One client, one idle server thread, nothing sent. */
  const START := System(map[0 := FIRST_CLIENT], S.Server(map[], map[0 := S.Idle], map[], multiset{}, multiset{}),
      {}, {}, {}, {})

  /** A client at rest: no live flow, nothing pending, counter and openings at `n`. */
  predicate AtRest(st: System, n: nat) {
    && n < WORD_SPACE && st.clients.Keys == {0}
    && st.clients[0].table == C.Table(map[], map[], n)
    && st.clients[0].openings == n
    && st.clients[0].sending == None && st.clients[0].writing == None && st.clients[0].delivered == {}
  }

  /** A reply for flow 1 is in the network, from a socket that carried a datagram of "a". */
  predicate ReplyPending(env: Env, st: System, src: Addr) {
    && Down(src, SealBytes(env.cipher, ZEROES, Word(1), []), ZEROES, 1, [], 0) in st.down
    && (0, ORIGIN, []) in st.carried
  }

  /** What the following client events leave alone. */
  predicate SameOutside(st: System, st': System) {
    st'.down == st.down && st'.carried == st.carried
  }

  lemma OpensOnEmpty(n: nat, addr: Addr, id: uint32)
    requires n < WORD_SPACE && id == if n + 1 < WORD_SPACE then n + 1 else 1
    ensures C.Opens(C.Table(map[], map[], n), addr, C.Table(map[addr := id], map[id := addr], id), id)
  {
    var t := C.Table(map[], map[], n);
    var k: nat := if n + 1 < WORD_SPACE then 1 else 2;
    assert Probe(n, 1) == if n + 1 < WORD_SPACE then n + 1 else 0;
    assert t.byID.Keys == {};
    assert FirstFree(t.byID.Keys, n, k, id);
  }

  /** Opening a flow for `addr` on an empty table, and dropping its datagram. */
  lemma OpenAndSkip(env: Env, start: System, st: System, n: nat, addr: Addr, id: uint32) returns (st': System)
    requires Reaches(env, start, st) && AtRest(st, n)
    requires id == if n + 1 < WORD_SPACE then n + 1 else 1
    ensures Reaches(env, start, st') && SameOutside(st, st') && st'.clients.Keys == {0}
    ensures st'.clients[0].table == C.Table(map[addr := id], map[id := addr], id)
    ensures st'.clients[0].openings == n + 1
    ensures st'.clients[0].sending == None && st'.clients[0].writing == None && st'.clients[0].delivered == {}
  {
    hide C.Opens, SealBytes, Word, Opening, Number, S.Next, S.Enabled, Reaches;
    OpensOnEmpty(n, addr, id);
    var e := OpenFlow(0, addr, [], C.Table(map[addr := id], map[id := addr], id), id);
    OneMore(env, start, st, e);
    var mid := Next(env, st, e);
    OneMore(env, start, mid, SkipUp(0));
    st' := Next(env, mid, SkipUp(0));
  }

  /** A flow opened and reaped again moves the counter on by one. */
  lemma Cycle(env: Env, start: System, st: System, n: nat) returns (st': System)
    requires Reaches(env, start, st) && AtRest(st, n) && n + 1 < WORD_SPACE
    ensures Reaches(env, start, st') && AtRest(st', n + 1) && SameOutside(st, st')
  {
    var mid := OpenAndSkip(env, start, st, n, "x", n + 1);
    var e := ReapFlow(0, "x");
    OneMore(env, start, mid, e);
    st' := Next(env, mid, e);
    assert st'.clients[0].table.byAddr == map[] && st'.clients[0].table.byID == map[];
  }

  lemma {:induction false} CycleTo(env: Env, start: System, st: System, n: nat, last: nat) returns (st': System)
    requires Reaches(env, start, st) && AtRest(st, n) && n <= last < WORD_SPACE
    ensures Reaches(env, start, st') && AtRest(st', last) && SameOutside(st, st')
    decreases last - n
  {
    if n == last {
      st' := st;
    } else {
      var mid := Cycle(env, start, st, n);
      st' := CycleTo(env, start, mid, n + 1, last);
    }
  }

  /** The late reply meets the new owner of its id. */
  lemma Misdelivers(env: Env, start: System, st: System, src: Addr) returns (st': System)
    requires Invertible(env.cipher) && env.owner(src) == 0
    requires Reaches(env, start, st) && AtRest(st, WORD_SPACE - 1) && ReplyPending(env, st, src)
    ensures Reaches(env, start, st')
    ensures st'.clients.Keys == {0} && st'.clients[0].openings == WORD_SPACE
    ensures Incoming("b", [], 0) in st'.clients[0].delivered && !Attributed(st', 0, Incoming("b", [], 0))
  {
    hide SealBytes, Opening, Word, Number, Invertible;
    var d := Down(src, SealBytes(env.cipher, ZEROES, Word(1), []), ZEROES, 1, [], 0);
    var s1 := OpenAndSkip(env, start, st, WORD_SPACE - 1, "b", 1);
    OpensAsSealed(env.cipher, d.wire, ZEROES, 1, []);
    OneMore(env, start, s1, ReceiveDown(0, d));
    var s2 := Next(env, s1, ReceiveDown(0, d));
    assert s2.clients[0].writing == Some(Incoming("b", [], 0));
    OneMore(env, start, s2, WriteLocal(0));
    st' := Next(env, s2, WriteLocal(0));
    assert (0, ORIGIN, []) in st'.carried && ORIGIN != S.Origin(0, "b");
  }

  lemma FirstOpens()
    ensures C.Opens(C.EMPTY, "a", C.Table(map["a" := 1], map[1 := "a"], 1), 1)
  {
    assert Probe(0, 1) == 1;
    assert C.EMPTY.byID.Keys == {};
    assert FirstFree({}, 0, 1, 1);
  }

  lemma NothingDone(env: Env)
    ensures Reaches(env, START, START)
  {
    assert Runs(env, START, []) && After(env, START, []) == START;
  }

  /** Flow 1 of "a" is opened. */
  lemma OpensFirst(env: Env) returns (st: System)
    ensures Reaches(env, START, st)
    ensures st == START.(clients := map[0 := OPENED.(sending := Some(Outgoing(1, "a", [])))])
  {
    hide C.Opens, Reaches, SealBytes, Word, Opening, Number, S.Next, S.Enabled;
    NothingDone(env);
    FirstOpens();
    var e := OpenFlow(0, "a", [], C.Table(map["a" := 1], map[1 := "a"], 1), 1);
    OneMore(env, START, START, e);
    st := Next(env, START, e);
    assert st.clients[0].named == map[1 := "a"];
  }

  /** Its datagram is sent on. */
  lemma SendsFirst(env: Env, src: Addr) returns (st: System)
    requires Invertible(env.cipher) && env.owner(src) == 0
    ensures Reaches(env, START, st)
    ensures st.clients.Keys == {0} && st.clients[0] == OPENED
    ensures st.server == START.server && st.carried == {} && st.down == {}
    ensures Up(src, SealBytes(env.cipher, ZEROES, Word(1), []), ZEROES, 1, [], ORIGIN) in st.up
  {
    hide SealBytes, Word, Reaches, Invertible;
    var s1 := OpensFirst(env);
    OneMore(env, START, s1, SendUp(0, src, ZEROES));
    st := Next(env, s1, SendUp(0, src, ZEROES));
  }

  lemma Stepped(env: Env, st: System, a: S.Act) returns (st': System)
    requires Reaches(env, START, st) && S.Enabled(st.server, a) && !a.Accept? && !a.PumpRead?
    ensures Reaches(env, START, st') && st' == Next(env, st, ServerStep(a, ZEROES))
    ensures st'.server == S.Next(st.server, a) && st'.clients == st.clients && st.carried <= st'.carried
            && st.down <= st'.down
    ensures a.Write? ==>
              var pc := st.server.threads[a.t];
              (pc.f.sock, pc.job.origin, pc.job.payload) in st'.carried
    ensures a.Relay? ==>
              var pc := st.server.threads[a.t];
              Down(pc.f.client, SealBytes(env.cipher, ZEROES, Word(pc.f.id), pc.payload),
                   ZEROES, pc.f.id, pc.payload, pc.f.sock) in st'.down
  {
    hide S.Next, SealBytes, Word, Reaches;
    OneMore(env, START, st, ServerStep(a, ZEROES));
    st' := Next(env, st, ServerStep(a, ZEROES));
  }

  lemma StartsAndWrites(env: Env, st: System, job: S.Job) returns (st': System)
    requires Reaches(env, START, st)
    requires var f := S.Flow(0, job.client, job.id, S.JobKey(job));
             && st.server.threads == map[0 := S.Starting(job, f)]
             && 0 in st.server.dialled && st.server.closes == multiset{}
    ensures Reaches(env, START, st') && st'.clients == st.clients && (0, job.origin, job.payload) in st'.carried
    ensures 0 in st'.server.dialled && 1 in st'.server.threads && st'.server.closes == multiset{}
    ensures st'.server.threads[1] == S.Pumping(S.Flow(0, job.client, job.id, S.JobKey(job)))
  {
    hide FlowKey, Next, Enabled, Reaches, SealBytes, Word;
    var s5 := Stepped(env, st, S.StartPump(0, 1));
    assert s5.server.threads[0].Writing? && s5.server.threads[0].job == job && s5.server.threads[0].f.sock == 0;
    st' := Stepped(env, s5, S.Write(0));
  }

  lemma Received(env: Env, st: System, p: UpPacket, job: S.Job) returns (st': System)
    requires Invertible(env.cipher) && Reaches(env, START, st) && st.server == START.server
    requires p == Up(job.client, SealBytes(env.cipher, ZEROES, Word(1), []), ZEROES, 1, [], job.origin) && p in st.up
    requires job.id == 1 && job.payload == []
    ensures Reaches(env, START, st') && st' == st.(server := S.Goto(START.server, 0, S.Looking(job)))
  {
    hide SealBytes, Word, Opening, Number, Invertible, Reaches;
    OpensAsSealed(env.cipher, p.wire, ZEROES, 1, []);
    OneMore(env, START, st, ReceiveUp(0, p, ZEROES));
    st' := Next(env, st, ReceiveUp(0, p, ZEROES));
  }

  lemma DialsAndInserts(env: Env, st: System, job: S.Job) returns (st': System)
    requires Reaches(env, START, st) && st.server == S.Goto(START.server, 0, S.Looking(job))
    ensures Reaches(env, START, st') && st'.clients == st.clients
    ensures var f := S.Flow(0, job.client, job.id, S.JobKey(job));
            && st'.server.threads == map[0 := S.Starting(job, f)]
            && 0 in st'.server.dialled && st'.server.closes == multiset{}
  {
    hide FlowKey, Next, Enabled, Reaches, SealBytes, Word;
    var s2 := Stepped(env, st, S.Lookup(0));
    assert s2.server == S.Goto(START.server, 0, S.Dialling(job));
    var s3 := Stepped(env, s2, S.Dial(0, 0));
    var f := S.Flow(0, job.client, job.id, S.JobKey(job));
    assert s3.server.threads == map[0 := S.Holding(job, f)] && s3.server.flows == map[];
    st' := Stepped(env, s3, S.Insert(0));
  }

  /** The server dials a socket for it and writes the datagram there. */
  lemma ServerCarries(env: Env, st: System, src: Addr, p: UpPacket) returns (st': System)
    requires Invertible(env.cipher) && Reaches(env, START, st)
    requires st.server == START.server && st.carried == {} && st.down == {}
    requires p == Up(src, SealBytes(env.cipher, ZEROES, Word(1), []), ZEROES, 1, [], ORIGIN) && p in st.up
    ensures Reaches(env, START, st') && st'.clients == st.clients && (0, ORIGIN, []) in st'.carried
    ensures 0 in st'.server.dialled && 1 in st'.server.threads && st'.server.closes == multiset{}
    ensures st'.server.threads[1] == S.Pumping(S.Flow(0, src, 1, FlowKey(src, 1)))
  {
    hide FlowKey, Next, Enabled, Reaches, Invertible, SealBytes, Word, S.Enabled, S.Next;
    var job := S.Job(src, 1, [], ORIGIN);
    var s1 := Received(env, st, p, job);
    var s2 := DialsAndInserts(env, s1, job);
    st' := StartsAndWrites(env, s2, job);
  }

  lemma TargetAnswers(env: Env, st: System) returns (st': System)
    requires Reaches(env, START, st) && 0 in st.server.dialled && st.server.closes == multiset{}
    requires 1 in st.server.threads && st.server.threads[1].Pumping? && st.server.threads[1].f.sock == 0
    ensures Reaches(env, START, st') && st'.clients == st.clients && st'.carried == st.carried
    ensures st'.server == S.Goto(st.server, 1, S.Relaying(st.server.threads[1].f, []))
  {
    hide SealBytes, Word, Reaches, Opening;
    OneMore(env, START, st, TargetReplies(0, []));
    var s1 := Next(env, st, TargetReplies(0, []));
    OneMore(env, START, s1, ServerStep(S.PumpRead(1, []), ZEROES));
    st' := Next(env, s1, ServerStep(S.PumpRead(1, []), ZEROES));
  }

  /** The target replies, and the pump puts the reply on the wire. */
  lemma PumpReplies(env: Env, st: System, src: Addr) returns (st': System)
    requires Reaches(env, START, st) && 0 in st.server.dialled && st.server.closes == multiset{}
    requires 1 in st.server.threads && st.server.threads[1] == S.Pumping(S.Flow(0, src, 1, FlowKey(src, 1)))
    requires (0, ORIGIN, []) in st.carried
    ensures Reaches(env, START, st') && st'.clients == st.clients && ReplyPending(env, st', src)
  {
    hide SealBytes, Word, FlowKey, Reaches;
    var s2 := TargetAnswers(env, st);
    assert s2.server.threads[1] == S.Relaying(S.Flow(0, src, 1, FlowKey(src, 1)), []);
    st' := Stepped(env, s2, S.Relay(1));
  }

  ghost predicate OpensAtMost(st: System, n: nat) {
    forall c :: c in st.clients ==> st.clients[c].openings <= n
  }

  ghost predicate AllAttributed(st: System) {
    forall c, i :: c in st.clients && i in st.clients[c].delivered ==> Attributed(st, c, i)
  }

  /** All replies are attributed in every run in which no client opens more than `n` flows. */
  ghost predicate AttributionHolds(env: Env, n: nat) {
    forall st, es :: Init(st) && Runs(env, st, es) && OpensAtMost(After(env, st, es), n) ==>
        AllAttributed(After(env, st, es))
  }

  lemma ReapsFirst(env: Env, st: System, src: Addr) returns (st': System)
    requires Reaches(env, START, st) && ReplyPending(env, st, src)
    requires st.clients.Keys == {0} && st.clients[0] == OPENED
    ensures Reaches(env, START, st') && AtRest(st', 1) && ReplyPending(env, st', src)
  {
    hide SealBytes, Word;
    OneMore(env, START, st, ReapFlow(0, "a"));
    st' := Next(env, st, ReapFlow(0, "a"));
    assert st'.clients[0].table.byAddr == map[] && st'.clients[0].table.byID == map[];
  }

  lemma OneFlowMore(env: Env, src: Addr) returns (es: seq<Event>)
    requires Invertible(env.cipher) && env.owner(src) == 0
    ensures Runs(env, START, es)
    ensures var st' := After(env, START, es);
            && st'.clients.Keys == {0} && st'.clients[0].openings == WORD_SPACE
            && Incoming("b", [], 0) in st'.clients[0].delivered && !Attributed(st', 0, Incoming("b", [], 0))
  {
    hide Runs, After, Next, Enabled, Attributed, SealBytes, Word;
    var s1 := SendsFirst(env, src);
    var s2 := ServerCarries(env, s1, src, Up(src, SealBytes(env.cipher, ZEROES, Word(1), []), ZEROES, 1, [], ORIGIN));
    var s3 := PumpReplies(env, s2, src);
    var s4 := ReapsFirst(env, s3, src);
    var s5 := CycleTo(env, START, s4, 1, WORD_SPACE - 1);
    var s6 := Misdelivers(env, START, s5, src);
    es :| Runs(env, START, es) && After(env, START, es) == s6;
  }

  /**
   The exact bound: with any cipher, attribution holds for clients that open at most `n` flows
   if and only if n < 2^32. One flow more, and some run writes a reply to an address whose
   datagrams its socket never carried.
   */
  lemma AttributionHoldsIff(env: Env, src: Addr, n: nat)
    requires Invertible(env.cipher) && env.owner(src) == 0
    ensures AttributionHolds(env, n) <==> n < WORD_SPACE
  {
    hide Runs, After, Next, Enabled, Attributed, SealBytes, Word;
    if n < WORD_SPACE {
      forall st, es | Init(st) && Runs(env, st, es) && OpensAtMost(After(env, st, es), n)
        ensures AllAttributed(After(env, st, es))
      {
        RepliesAttributed(env, st, es);
      }
    } else {
      var es := OneFlowMore(env, src);
      var st' := After(env, START, es);
      assert Init(START) && OpensAtMost(st', n);
      assert 0 in st'.clients && Incoming("b", [], 0) in st'.clients[0].delivered;
      assert !AllAttributed(st');
    }
  }
}
