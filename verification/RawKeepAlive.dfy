/**
 Relay keepalives over a raw connection (udptun/client.go, maintain; udptun/server.go,
 RunServer; rawtcp/conn_linux.go): the client writes a ping every period, the server
 answers each one it captures, and both cleaners tick whenever they like. A keepalive
 takes at most `delay` to be captured; everything else at both ends is arbitrary.
 */
module RawKeepAlive {
  import opened Words
  import opened RawTcp
  import opened RawLife

  /** `client` and `server` are the ends' addresses, each the key of the other's flow. */
  datatype Config = Config(
    period: nat, delay: nat,
    client: Addr, server: Addr, clientPort: nat, serverPort: nat,
    ping: seq<octet>, pong: seq<octet>)

  /** A keepalive on its way, to be captured by `due`. */
  datatype Flight = Flight(segment: Segment, due: int)

  datatype Link = Link(now: int, client: Table, server: Table, nextPing: int, up: seq<Flight>, down: seq<Flight>)

  datatype Move =
    | Advance(d: nat)
    | Ping(millis: uint32)
    | ReachServer(i: nat, handle: nat, millis: uint32)
    | ReachClient(i: nat, handle: nat)
    | AtClient(act: Action)
    | AtServer(act: Action)

  /** Time stops at what is due: the next ping, and every keepalive on its way. */
  predicate Enabled(l: Link, m: Move) {
    match m
    case Advance(d) =>
      && l.now + d <= l.nextPing
      && (forall f :: f in l.up + l.down ==> l.now + d <= f.due)
    case Ping(_) => l.now == l.nextPing
    case ReachServer(i, _, _) => i < |l.up|
    case ReachClient(i, _) => i < |l.down|
    case _ => true
  }

  function Without<T>(s: seq<T>, i: nat): seq<T>
    requires i < |s|
  {
    s[..i] + s[i + 1..]
  }

  /** What a write of `p` to `a` puts on the wire: nothing while the flow has no handle. */
  function Sent(t: Table, a: Addr, now: int, lport: nat, rport: nat, p: seq<octet>, millis: uint32,
      delay: nat): seq<Flight>
  {
    var e := At(t, a, now);
    if e.handle == None then [] else [Flight(Built(e, lport, rport, p, millis), now + delay)]
  }

  function Written(t: Table, a: Addr, now: int, n: nat, port: nat): Table {
    Apply(t, Event(now, Write(a, n, At(t, a, now).handle.Some?)), port)
  }

  function Next(c: Config, l: Link, m: Move): Link
    requires Enabled(l, m)
  {
    match m
    case Advance(d) => l.(now := l.now + d)
    case Ping(millis) =>
      l.(client := Written(l.client, c.server, l.now, |c.ping|, c.clientPort),
         up := l.up + Sent(l.client, c.server, l.now, c.clientPort, c.serverPort, c.ping, millis, c.delay),
         nextPing := l.nextPing + c.period)
    case ReachServer(i, h, millis) =>
      var s := l.up[i].segment;
      var e := Event(l.now, Capture(c.client, s, h));
      var t := Apply(l.server, e, c.serverPort);
      // RunServer answers what captureFlow hands over to it
      if HandedOver(l.server, e, c.serverPort, h) == [] then l.(server := t, up := Without(l.up, i))
      else
        l.(server := Written(t, c.client, l.now, |c.pong|, c.serverPort),
           up := Without(l.up, i),
           down := l.down + Sent(t, c.client, l.now, c.serverPort, c.clientPort, c.pong, millis, c.delay))
    case ReachClient(i, h) =>
      l.(client := Apply(l.client, Event(l.now, Capture(c.server, l.down[i].segment, h)), c.clientPort),
         down := Without(l.down, i))
    case AtClient(act) => l.(client := Apply(l.client, Event(l.now, act), c.clientPort))
    case AtServer(act) => l.(server := Apply(l.server, Event(l.now, act), c.serverPort))
  }

  /** The flow to `a` is there, with its connection and a handle to write on. */
  predicate Alive(t: Table, a: Addr) {
    a in t && t[a].connected && t[a].handle.Some?
  }

  predicate BothAlive(c: Config, l: Link) {
    Alive(l.client, c.server) && Alive(l.server, c.client)
  }

  /** Both flows are up, and either end has heard from the other in the current period. */
  predicate Init(c: Config, l: Link) {
    && BothAlive(c, l) && l.up == [] && l.down == []
    && l.now <= l.nextPing <= l.now + c.period
    && l.nextPing <= l.server[c.client].ts + c.period
    && l.nextPing <= l.client[c.server].ts + c.period
  }

  // ---- no flow goes unfed for longer than a period and the delays ----

  /** The next capture at the server is due in time: a ping is on its way, or will be. */
  ghost predicate ServerFed(c: Config, l: Link) {
    Alive(l.server, c.client) &&
    (var limit := l.server[c.client].ts + c.period + c.delay;
     l.nextPing + c.delay <= limit || exists f :: f in l.up && f.due <= limit)
  }

  ghost predicate ClientFed(c: Config, l: Link) {
    Alive(l.client, c.server) &&
    (var limit := l.client[c.server].ts + c.period + 2 * c.delay;
     || l.nextPing + 2 * c.delay <= limit
     || (exists f :: f in l.up && f.due + c.delay <= limit)
     || (exists f :: f in l.down && f.due <= limit))
  }

  predicate FlightsOk(c: Config, l: Link) {
    && l.now <= l.nextPing <= l.now + c.period
    && (forall f :: f in l.up ==> l.now <= f.due && Deliverable(f.segment, c.serverPort, true))
    && (forall f :: f in l.down ==> l.now <= f.due && f.segment.dstPort == c.clientPort)
  }

  ghost predicate Inv(c: Config, l: Link) {
    FlightsOk(c, l) && ServerFed(c, l) && ClientFed(c, l)
  }

  predicate Quick(c: Config) {
    c.period + 2 * c.delay <= FLOW_EXPIRE && c.ping != []
  }

  /** A flow that is fed outlives a tick at this moment. */
  lemma FedInTime(c: Config, l: Link)
    requires Inv(c, l)
    ensures l.now <= l.server[c.client].ts + c.period + c.delay
    ensures l.now <= l.client[c.server].ts + c.period + 2 * c.delay
  {
  }

  lemma ActionKeeps(t: Table, a: Addr, e: Event, port: nat)
    requires Alive(t, a) && e.now - t[a].ts <= FLOW_EXPIRE
    ensures Alive(Apply(t, e, port), a)
    ensures Apply(t, e, port)[a].ts == if Captures(e, a, port) then e.now else t[a].ts
  {
    ApplyAt(t, e, a, port);
  }

  lemma OthersKeepInv(c: Config, l: Link, m: Move)
    requires Quick(c) && Inv(c, l) && Enabled(l, m)
    requires m.Advance? || m.AtClient? || m.AtServer?
    ensures Inv(c, Next(c, l, m))
  {
    hide Apply;
    FedInTime(c, l);
    match m
    case AtClient(act) => ActionKeeps(l.client, c.server, Event(l.now, act), c.clientPort);
    case AtServer(act) => ActionKeeps(l.server, c.client, Event(l.now, act), c.serverPort);
    case _ =>
  }

  lemma PingKeepsInv(c: Config, l: Link, millis: uint32)
    requires Quick(c) && Inv(c, l) && Enabled(l, Ping(millis))
    ensures Inv(c, Next(c, l, Ping(millis)))
  {
    hide Apply;
    FedInTime(c, l);
    var n := |l.up|;
    var l' := Next(c, l, Ping(millis));
    ActionKeeps(l.client, c.server, Event(l.now, Write(c.server, |c.ping|, true)), c.clientPort);
    assert l'.up[n] in l'.up && l'.up[n].due == l.now + c.delay;
  }

  lemma WithoutKeeps<T>(s: seq<T>, i: nat)
    requires i < |s|
    ensures forall x :: x in s ==> x == s[i] || x in Without(s, i)
    ensures forall x :: x in Without(s, i) ==> x in s
  {
    assert s == s[..i] + [s[i]] + s[i + 1..];
  }

  lemma ReachServerKeepsInv(c: Config, l: Link, i: nat, h: nat, millis: uint32)
    requires Quick(c) && Inv(c, l) && Enabled(l, ReachServer(i, h, millis))
    ensures Inv(c, Next(c, l, ReachServer(i, h, millis)))
  {
    hide Apply, Without;
    FedInTime(c, l);
    WithoutKeeps(l.up, i);
    var l' := Next(c, l, ReachServer(i, h, millis));
    var e := Event(l.now, Capture(c.client, l.up[i].segment, h));
    var t := Apply(l.server, e, c.serverPort);
    ActionKeeps(l.server, c.client, e, c.serverPort);
    ActionKeeps(t, c.client, Event(l.now, Write(c.client, |c.pong|, true)), c.serverPort);
    assert l'.down[|l.down|] in l'.down && l'.down[|l.down|].due == l.now + c.delay <= l.up[i].due + c.delay;
  }

  lemma ReachClientKeepsInv(c: Config, l: Link, i: nat, h: nat)
    requires Quick(c) && Inv(c, l) && Enabled(l, ReachClient(i, h))
    ensures Inv(c, Next(c, l, ReachClient(i, h)))
  {
    hide Apply, Without;
    FedInTime(c, l);
    WithoutKeeps(l.down, i);
    ActionKeeps(l.client, c.server, Event(l.now, Capture(c.server, l.down[i].segment, h)), c.clientPort);
  }

  lemma NextKeepsInv(c: Config, l: Link, m: Move)
    requires Quick(c) && Inv(c, l) && Enabled(l, m)
    ensures Inv(c, Next(c, l, m))
  {
    hide Inv, Next, Enabled;
    match m
    case Ping(millis) => PingKeepsInv(c, l, millis);
    case ReachServer(i, h, millis) => ReachServerKeepsInv(c, l, i, h, millis);
    case ReachClient(i, h) => ReachClientKeepsInv(c, l, i, h);
    case _ => OthersKeepInv(c, l, m);
  }

  // ---- whole runs ----

  ghost predicate Runs(c: Config, l: Link, ms: seq<Move>)
    decreases |ms|
  {
    ms == [] || (Enabled(l, ms[0]) && Runs(c, Next(c, l, ms[0]), ms[1..]))
  }

  ghost function Reached(c: Config, l: Link, ms: seq<Move>): Link
    requires Runs(c, l, ms)
    decreases |ms|
  {
    if ms == [] then l else Reached(c, Next(c, l, ms[0]), ms[1..])
  }

  lemma {:induction false} RunKeepsInv(c: Config, l: Link, ms: seq<Move>)
    requires Quick(c) && Inv(c, l) && Runs(c, l, ms)
    ensures Inv(c, Reached(c, l, ms))
    decreases |ms|
  {
    hide Inv, Next, Enabled;
    if ms != [] {
      NextKeepsInv(c, l, ms[0]);
      RunKeepsInv(c, Next(c, l, ms[0]), ms[1..]);
    }
  }

  /** Neither cleaner ever evicts the relay's flow, in any run. */
  ghost predicate FlowsHold(c: Config) {
    forall l, ms :: Init(c, l) && Runs(c, l, ms) ==> BothAlive(c, Reached(c, l, ms))
  }

  // ---- slower than that, and some run starves the client's flow ----

  /** The first moment at which a cleaner tick evicts the client's flow. */
  function Deadline(c: Config, l: Link): int
    requires Alive(l.client, c.server)
  {
    l.client[c.server].ts + FLOW_EXPIRE + 1
  }

  /** No pong needs to reach the client before its flow expires. */
  predicate Starving(c: Config, l: Link) {
    && Alive(l.client, c.server)
    && l.now <= l.nextPing && l.now <= Deadline(c, l) <= l.nextPing + 2 * c.delay
    && (forall f :: f in l.up ==> l.now <= f.due && Deadline(c, l) <= f.due + c.delay)
    && (forall f :: f in l.down ==> Deadline(c, l) <= f.due)
  }

  lemma PingDelays(c: Config, l: Link)
    requires Starving(c, l) && l.now == l.nextPing
    ensures Starving(c, Next(c, l, Ping(0))) && Deadline(c, Next(c, l, Ping(0))) == Deadline(c, l)
  {
  }

  lemma CaptureDelays(c: Config, l: Link, i: nat)
    requires Starving(c, l) && i < |l.up| && l.up[i].due == l.now
    ensures var l' := Next(c, l, ReachServer(i, 0, 0)); Starving(c, l') && Deadline(c, l') == Deadline(c, l)
  {
    hide Apply;
    WithoutKeeps(l.up, i);
  }

  /** Delivering nothing before it must, a run comes to a tick at which the client's flow is evicted. */
  lemma {:induction false} Starves(c: Config, l: Link) returns (ms: seq<Move>)
    requires c.period > 0 && Starving(c, l)
    ensures Runs(c, l, ms) && !BothAlive(c, Reached(c, l, ms))
    decreases Deadline(c, l) - l.now, l.nextPing == l.now, |l.up|
  {
    if l.now == Deadline(c, l) {
      ms := [AtClient(Tick)];
      assert ms[1..] == [];
      assert Runs(c, Next(c, l, ms[0]), []);
    } else if l.now == l.nextPing {
      PingDelays(c, l);
      ms := Starves(c, Next(c, l, Ping(0)));
      ms := [Ping(0)] + ms;
    } else if i :| 0 <= i < |l.up| && l.up[i].due == l.now {
      CaptureDelays(c, l, i);
      ms := Starves(c, Next(c, l, ReachServer(i, 0, 0)));
      ms := [ReachServer(i, 0, 0)] + ms;
    } else {
      ms := Starves(c, Next(c, l, Advance(1)));
      ms := [Advance(1)] + ms;
    }
  }

  /**
   The exact bound for delays: neither cleaner evicts the relay's flow in any run if and only if
   a keepalive period and both delays fit into the minute a flow lives unfed.
   */
  lemma KeepalivesHoldIff(c: Config)
    requires c.period > 0 && c.ping != []
    ensures FlowsHold(c) <==> c.period + 2 * c.delay <= 60_000_000_000
  {
    if Quick(c) {
      forall l, ms | Init(c, l) && Runs(c, l, ms) ensures BothAlive(c, Reached(c, l, ms)) {
        RunKeepsInv(c, l, ms);
      }
    } else {
      var e := FlowState(true, Some(0), 0, 0, 0, 0);
      var l := Link(0, map[c.server := e], map[c.client := e], c.period, [], []);
      var ms := Starves(c, l);
      assert Init(c, l);
    }
  }
}
