/**
 Transport liveness in udptun/client.go - supervise, watchdog, the keepalive half of
 maintain and touchRecv - over time. The tickers are ideal: exactly one second apart,
 handled in the instant they are due; within an instant steps interleave freely.
 `keepAlive` is the positive number of seconds configured.
 */
module Watchdog {
  import opened Words

  /** Where the supervisor stands; transports are numbered. */
  datatype Supervisor =
    | Dialling
    | Installed(g: nat)     // handed out, lastRecv not touched yet
    | Looping(g: nat)       // watchdog started, inside transportLoop
    | Ended(g: nat)         // transportLoop has returned, still handed out

  /** History: what a watchdog that condemned its transport found, and when: lastRecv, and, for the
      transport itself, when it was last installed or heard from and the keepalives attempted on it
      since. */
  datatype Check = Check(g: nat, at: int, lastRecv: int, heard: int, pings: nat)

  /** A watchdog waits for its tick, has seen that its transport is the current one, or has found it
      silent and is about to close it. */
  datatype Dog = Waiting(next: int) | Checking | Condemning(check: Check)

  /** History: a closing by a watchdog, on what check, and how things stood when it came to it. */
  datatype Closing = Closing(check: Check, at: int, heard: int, pings: nat)

  datatype State = State(
    now: int,
    sup: Supervisor,
    conn: Option<nat>,
    lastRecv: int,
    dogs: map<nat, Dog>,
    nextTick: int,
    lastPing: Option<int>,
    pingTimes: seq<int>,
    used: set<nat>,
    sincePing: nat,
    heard: map<nat, int>,
    pings: map<nat, nat>,
    closings: set<Closing>)

  datatype Act =
    | Advance(d: nat)
    | Install(g: nat)
    | Touch
    | Receive
    | LoopEnds
    | Uninstall
    | MaintainTick
    | DogLooks(g: nat)
    | DogChecks(g: nat)
    | DogCloses(g: nat)

  function Period(keepAlive: nat): int { keepAlive * SECOND }

  function Dead(keepAlive: nat): int { 3 * Period(keepAlive) }

  /** Whether a maintain tick sends a keepalive. */
  predicate PingDue(lastPing: Option<int>, now: int, period: int) {
    lastPing == None || now - lastPing.value >= period
  }

  /** Whether a watchdog that finds its transport current gives it up. */
  predicate Silent(lastRecv: int, now: int, keepAlive: nat) {
    now - lastRecv > Dead(keepAlive)
  }

  /** Time stops at every tick that is due. */
  ghost predicate Enabled(s: State, a: Act) {
    match a
    case Advance(d) =>
      && s.now + d <= s.nextTick
      && forall g :: g in s.dogs ==> s.dogs[g].Waiting? && s.now + d <= s.dogs[g].next
    case Install(g) => s.sup.Dialling? && g !in s.used
    case Touch => s.sup.Installed?
    case Receive => s.sup.Looping?
    case LoopEnds => s.sup.Looping?
    case Uninstall => s.sup.Ended?
    case MaintainTick => s.now == s.nextTick
    case DogLooks(g) => g in s.dogs && s.dogs[g] == Waiting(s.now)
    case DogChecks(g) => g in s.dogs && s.dogs[g].Checking?
    case DogCloses(g) => g in s.dogs && s.dogs[g].Condemning?
  }

  function Next(keepAlive: nat, s: State, a: Act): State {
    match a
    case Advance(d) => s.(now := s.now + d)
    case Install(g) =>
      s.(sup := Installed(g), conn := Some(g), used := s.used + {g}, heard := s.heard[g := s.now],
         pings := s.pings[g := 0])
    case Touch =>
      if s.sup.Installed? then
        s.(sup := Looping(s.sup.g), lastRecv := s.now, dogs := s.dogs[s.sup.g := Waiting(s.now + SECOND)])
      else s
    case Receive =>
      if s.sup.Looping?
      then s.(lastRecv := s.now, heard := s.heard[s.sup.g := s.now], pings := s.pings[s.sup.g := 0])
      else s
    case LoopEnds => if s.sup.Looping? then s.(sup := Ended(s.sup.g)) else s
    case Uninstall => s.(sup := Dialling, conn := None)
    case MaintainTick =>
      var due := PingDue(s.lastPing, s.now, Period(keepAlive));
      var s1 := s.(nextTick := s.nextTick + SECOND);
      if !due then s1.(sincePing := s.sincePing + 1)
      else if s.conn.Some? && s.conn.value in s.pings
      then s1.(lastPing := Some(s.now), pingTimes := s.pingTimes + [s.now], sincePing := 0,
               pings := s.pings[s.conn.value := s.pings[s.conn.value] + 1])
      else s1.(lastPing := Some(s.now), pingTimes := s.pingTimes + [s.now], sincePing := 0)
    case DogLooks(g) => if s.conn != Some(g) then s.(dogs := s.dogs - {g}) else s.(dogs := s.dogs[g := Checking])
    case DogChecks(g) =>
      if Silent(s.lastRecv, s.now, keepAlive) && g in s.heard && g in s.pings
      then s.(dogs := s.dogs[g := Condemning(Check(g, s.now, s.lastRecv, s.heard[g], s.pings[g]))])
      else s.(dogs := s.dogs[g := Waiting(s.now + SECOND)])
    case DogCloses(g) =>
      if g in s.dogs && s.dogs[g].Condemning? && g in s.heard && g in s.pings
      then s.(dogs := s.dogs - {g}, closings := s.closings + {Closing(s.dogs[g].check, s.now, s.heard[g], s.pings[g])})
      else s
  }

  ghost predicate Init(s: State) {
    && s.sup == Dialling && s.conn == None && s.dogs == map[] && s.used == {}
    && s.lastPing == None && s.pingTimes == [] && s.sincePing == 0 && s.nextTick == s.now + SECOND
    && s.lastRecv <= s.now && s.heard == map[] && s.pings == map[] && s.closings == {}
  }

  // ---- the invariant ----

  /** When the next keepalive is due. */
  function DuePing(keepAlive: nat, s: State): int {
    if s.lastPing == None then s.nextTick else s.lastPing.value + Period(keepAlive)
  }

  /** Keepalives go out exactly when they are due. */
  predicate PingInv(keepAlive: nat, s: State) {
    && s.now <= s.nextTick <= s.now + SECOND
    && (s.lastPing.Some? ==>
          s.lastPing.value <= s.now && s.nextTick == s.lastPing.value + (s.sincePing + 1) * SECOND
          && s.sincePing + 1 <= keepAlive)
  }

  predicate Current(s: State) {
    s.sup.Looping? || s.sup.Ended?
  }

  /** What is handed out is what the supervisor is at, and it has been counted for. */
  ghost predicate SupInv(s: State) {
    && s.conn == (if s.sup.Dialling? then None else Some(s.sup.g))
    && s.dogs.Keys <= s.used == s.heard.Keys == s.pings.Keys
    && (s.sup.Installed? ==> s.sup.g in s.used && s.sup.g !in s.dogs)
    && (Current(s) ==> s.sup.g in s.used)
  }

  /** Receipts and installations are never later than lastRecv, once there is a watchdog to care. */
  ghost predicate HeardInv(s: State) {
    && s.lastRecv <= s.now
    && (forall g :: g in s.dogs ==> g in s.heard && s.heard[g] <= s.lastRecv)
    && (forall g :: g in s.heard ==> s.heard[g] <= s.now)
  }

  /** The current transport has been pinged once per period of silence. */
  predicate CountInv(keepAlive: nat, s: State) {
    Current(s) && s.sup.g in s.pings ==>
      || s.pings[s.sup.g] >= 3
      || DuePing(keepAlive, s) <= s.lastRecv + (s.pings[s.sup.g] + 1) * Period(keepAlive)
  }

  predicate CheckOk(keepAlive: nat, c: Check) {
    && c.heard <= c.lastRecv
    && Dead(keepAlive) < c.at - c.lastRecv <= Dead(keepAlive) + SECOND
    && c.pings >= 3
  }

  /** Since the check either nothing has been received, or something has, in that very instant. */
  predicate SinceCheck(c: Check, heard: int, pings: nat) {
    (heard == c.heard && pings >= c.pings) || heard == c.at
  }

  /** No watchdog ever sleeps past its transport's last second. */
  ghost predicate DogInv(keepAlive: nat, s: State) {
    forall g :: g in s.dogs ==>
      && (s.dogs[g].Waiting? ==> s.now <= s.dogs[g].next <= s.lastRecv + Dead(keepAlive) + SECOND)
      && (s.dogs[g].Checking? ==>
            s.now <= s.lastRecv + Dead(keepAlive) + SECOND
            && (s.now > s.lastRecv + Dead(keepAlive) ==> g in s.pings && s.pings[g] >= 3))
      && (s.dogs[g].Condemning? ==> s.now <= s.lastRecv + Dead(keepAlive) + SECOND)
  }

  /** A transport is closed in the instant in which it was condemned. */
  ghost predicate CondemnInv(keepAlive: nat, s: State) {
    forall g :: g in s.dogs && s.dogs[g].Condemning? ==>
      var c := s.dogs[g].check;
      && c.g == g && c.at == s.now && CheckOk(keepAlive, c)
      && g in s.heard && g in s.pings && SinceCheck(c, s.heard[g], s.pings[g])
  }

  ghost predicate Closed(s: State, g: nat) {
    exists c :: c in s.closings && c.check.g == g
  }

  /** A current transport has its watchdog until that closes it. */
  ghost predicate WatchedInv(s: State) {
    Current(s) ==> s.sup.g in s.dogs || Closed(s, s.sup.g)
  }

  ghost predicate ClosingsOk(keepAlive: nat, s: State) {
    forall c :: c in s.closings ==>
      CheckOk(keepAlive, c.check) && c.at == c.check.at && SinceCheck(c.check, c.heard, c.pings)
  }

  ghost predicate TimingInv(keepAlive: nat, s: State) {
    PingInv(keepAlive, s) && SupInv(s) && HeardInv(s) && CountInv(keepAlive, s) && DogInv(keepAlive, s)
  }

  ghost predicate ClosingInv(keepAlive: nat, s: State) {
    CondemnInv(keepAlive, s) && WatchedInv(s) && ClosingsOk(keepAlive, s)
  }

  ghost predicate Inv(keepAlive: nat, s: State) {
    TimingInv(keepAlive, s) && ClosingInv(keepAlive, s)
  }

  /** No keepalive is ever late. */
  lemma PingsOnTime(keepAlive: nat, s: State)
    requires keepAlive > 0 && PingInv(keepAlive, s)
    ensures s.now <= DuePing(keepAlive, s) <= s.now + Period(keepAlive)
  {
  }

  /** More than three silent periods mean three keepalives. */
  lemma SilenceMeansPings(keepAlive: nat, s: State)
    requires keepAlive > 0 && PingInv(keepAlive, s) && SupInv(s) && CountInv(keepAlive, s) && Current(s)
    requires s.now > s.lastRecv + Dead(keepAlive)
    ensures s.pings[s.sup.g] >= 3
  {
    PingsOnTime(keepAlive, s);
    var n := s.pings[s.sup.g];
    assert n == 0 || n == 1 || n == 2 || n >= 3;
  }

  lemma TickKeepsTiming(keepAlive: nat, s: State)
    requires keepAlive > 0 && TimingInv(keepAlive, s) && Enabled(s, MaintainTick)
    ensures TimingInv(keepAlive, Next(keepAlive, s, MaintainTick))
  {
    hide Dead;
    PingsOnTime(keepAlive, s);
    var s' := Next(keepAlive, s, MaintainTick);
    if Current(s) {
      var n := s.pings[s.sup.g];
      assert (n + 2) * Period(keepAlive) == (n + 1) * Period(keepAlive) + Period(keepAlive);
    }
  }

  lemma TransportStepKeepsTiming(keepAlive: nat, s: State, a: Act)
    requires keepAlive > 0 && TimingInv(keepAlive, s) && Enabled(s, a)
    requires a.Install? || a.LoopEnds? || a.Uninstall?
    ensures TimingInv(keepAlive, Next(keepAlive, s, a))
  {
  }

  lemma NonNegative(n: nat, p: nat)
    ensures n * p >= 0
  {
  }

  /** A touch of lastRecv gives the transport three fresh periods. */
  lemma TouchKeepsTiming(keepAlive: nat, s: State, a: Act)
    requires keepAlive > 0 && TimingInv(keepAlive, s) && Enabled(s, a)
    requires a.Touch? || a.Receive?
    ensures TimingInv(keepAlive, Next(keepAlive, s, a))
  {
    PingsOnTime(keepAlive, s);
    var n := Next(keepAlive, s, a).pings[s.sup.g];
    assert (n + 1) * Period(keepAlive) == n * Period(keepAlive) + Period(keepAlive);
    NonNegative(n, Period(keepAlive));
  }

  lemma AdvanceKeepsTiming(keepAlive: nat, s: State, d: nat)
    requires keepAlive > 0 && TimingInv(keepAlive, s) && Enabled(s, Advance(d))
    ensures TimingInv(keepAlive, Next(keepAlive, s, Advance(d)))
  {
  }

  lemma DogLooksKeepsTiming(keepAlive: nat, s: State, g: nat)
    requires keepAlive > 0 && TimingInv(keepAlive, s) && Enabled(s, DogLooks(g))
    ensures TimingInv(keepAlive, Next(keepAlive, s, DogLooks(g)))
  {
    if s.conn == Some(g) && s.now > s.lastRecv + Dead(keepAlive) {
      SilenceMeansPings(keepAlive, s);
    }
  }

  /** Keepalives and their counts do not depend on the watchdogs. */
  lemma DogsAside(keepAlive: nat, s: State, dogs: map<nat, Dog>)
    ensures PingInv(keepAlive, s.(dogs := dogs)) == PingInv(keepAlive, s)
    ensures CountInv(keepAlive, s.(dogs := dogs)) == CountInv(keepAlive, s)
  {
    hide Period;
  }

  lemma DogChecksKeepsTiming(keepAlive: nat, s: State, g: nat)
    requires keepAlive > 0 && TimingInv(keepAlive, s) && Enabled(s, DogChecks(g))
    ensures TimingInv(keepAlive, Next(keepAlive, s, DogChecks(g)))
  {
    DogsAside(keepAlive, s, Next(keepAlive, s, DogChecks(g)).dogs);
    hide PingInv, CountInv, Dead, Period;
  }

  lemma DogClosesKeepsTiming(keepAlive: nat, s: State, g: nat)
    requires keepAlive > 0 && TimingInv(keepAlive, s) && Enabled(s, DogCloses(g))
    ensures TimingInv(keepAlive, Next(keepAlive, s, DogCloses(g)))
  {
  }

  lemma ClosingKeeps(keepAlive: nat, s: State, g: nat)
    requires keepAlive > 0 && Inv(keepAlive, s) && Enabled(s, DogCloses(g))
    ensures ClosingInv(keepAlive, Next(keepAlive, s, DogCloses(g)))
  {
    var c := Closing(s.dogs[g].check, s.now, s.heard[g], s.pings[g]);
    assert c in Next(keepAlive, s, DogCloses(g)).closings && c.check.g == g;
  }

  lemma CondemningKeeps(keepAlive: nat, s: State, g: nat)
    requires keepAlive > 0 && Inv(keepAlive, s) && Enabled(s, DogChecks(g))
    ensures ClosingInv(keepAlive, Next(keepAlive, s, DogChecks(g)))
  {
    hide PingInv, CountInv, Dead, Period;
  }

  lemma NextKeepsClosing(keepAlive: nat, s: State, a: Act)
    requires keepAlive > 0 && Inv(keepAlive, s) && Enabled(s, a) && !a.DogChecks? && !a.DogCloses?
    ensures ClosingInv(keepAlive, Next(keepAlive, s, a))
  {
    hide PingInv, CountInv, DogInv, CheckOk, Dead, Period;
  }

  lemma NextKeepsTiming(keepAlive: nat, s: State, a: Act)
    requires keepAlive > 0 && TimingInv(keepAlive, s) && Enabled(s, a)
    ensures TimingInv(keepAlive, Next(keepAlive, s, a))
  {
    hide TimingInv, Next;
    match a
    case MaintainTick => TickKeepsTiming(keepAlive, s);
    case Advance(d) => AdvanceKeepsTiming(keepAlive, s, d);
    case DogLooks(g) => DogLooksKeepsTiming(keepAlive, s, g);
    case DogChecks(g) => DogChecksKeepsTiming(keepAlive, s, g);
    case DogCloses(g) => DogClosesKeepsTiming(keepAlive, s, g);
    case Touch => TouchKeepsTiming(keepAlive, s, a);
    case Receive => TouchKeepsTiming(keepAlive, s, a);
    case _ => TransportStepKeepsTiming(keepAlive, s, a);
  }

  lemma NextKeepsInv(keepAlive: nat, s: State, a: Act)
    requires keepAlive > 0 && Inv(keepAlive, s) && Enabled(s, a)
    ensures Inv(keepAlive, Next(keepAlive, s, a))
  {
    hide TimingInv, ClosingInv, Next;
    NextKeepsTiming(keepAlive, s, a);
    match a
    case DogChecks(g) => CondemningKeeps(keepAlive, s, g);
    case DogCloses(g) => ClosingKeeps(keepAlive, s, g);
    case _ => NextKeepsClosing(keepAlive, s, a);
  }

  ghost predicate Runs(keepAlive: nat, s: State, acts: seq<Act>)
    decreases |acts|
  {
    acts == [] || (Enabled(s, acts[0]) && Runs(keepAlive, Next(keepAlive, s, acts[0]), acts[1..]))
  }

  ghost function After(keepAlive: nat, s: State, acts: seq<Act>): State
    requires Runs(keepAlive, s, acts)
    decreases |acts|
  {
    if acts == [] then s else After(keepAlive, Next(keepAlive, s, acts[0]), acts[1..])
  }

  lemma {:induction false} RunKeepsInv(keepAlive: nat, s: State, acts: seq<Act>)
    requires keepAlive > 0 && Inv(keepAlive, s) && Runs(keepAlive, s, acts)
    ensures Inv(keepAlive, After(keepAlive, s, acts))
    decreases |acts|
  {
    hide Inv, Next, Enabled;
    if acts != [] {
      NextKeepsInv(keepAlive, s, acts[0]);
      RunKeepsInv(keepAlive, Next(keepAlive, s, acts[0]), acts[1..]);
    }
  }

  lemma InitIsInv(keepAlive: nat, s: State)
    requires keepAlive > 0 && Init(s)
    ensures Inv(keepAlive, s)
  {
  }

  /**
   A watchdog condemns its transport only when that has been installed and heard from last more
   than three keepalive periods ago, has been sent at least three keepalives since, and has been
   silent for at most a second more; it closes it in that same instant. A current transport that
   has been silent for longer than three periods and a second has been closed.

   Between check and close a packet may still arrive: the transport has been silent for three
   periods when it is closed, too, if and only if none did.
   */
  lemma WatchdogIsSafeAndPrompt(keepAlive: nat, s: State, acts: seq<Act>)
    requires keepAlive > 0 && Init(s) && Runs(keepAlive, s, acts)
    ensures var s' := After(keepAlive, s, acts);
            && (forall c :: c in s'.closings ==>
                  && c.check.at - c.check.heard > 3 * keepAlive * SECOND
                  && c.check.pings >= 3
                  && 3 * keepAlive * SECOND < c.check.at - c.check.lastRecv <= (3 * keepAlive + 1) * SECOND
                  && c.at == c.check.at
                  && (c.at - c.heard > 3 * keepAlive * SECOND <==> c.heard == c.check.heard)
                  && (c.heard == c.check.heard ==> c.pings >= 3))
            && (Current(s') && s'.now - s'.lastRecv > (3 * keepAlive + 1) * SECOND ==> Closed(s', s'.sup.g))
  {
    InitIsInv(keepAlive, s);
    RunKeepsInv(keepAlive, s, acts);
  }

  // ---- keepalives in time ----

  /** When keepalive number `i` is sent, counted from 0, by a client started at `start`. */
  function PingTime(keepAlive: nat, start: int, i: nat): int {
    start + SECOND + i * Period(keepAlive)
  }

  ghost predicate Paced(keepAlive: nat, start: int, s: State) {
    && (forall i :: 0 <= i < |s.pingTimes| ==> s.pingTimes[i] == PingTime(keepAlive, start, i))
    && (if s.pingTimes == [] then s.lastPing == None && s.nextTick == start + SECOND
        else s.lastPing == Some(PingTime(keepAlive, start, |s.pingTimes| - 1)))
  }

  lemma OnePeriodLater(keepAlive: nat, start: int, i: nat)
    ensures PingTime(keepAlive, start, i + 1) == PingTime(keepAlive, start, i) + Period(keepAlive)
  {
    assert (i + 1) * Period(keepAlive) == i * Period(keepAlive) + Period(keepAlive);
  }

  lemma TickKeepsPace(keepAlive: nat, start: int, s: State)
    requires keepAlive > 0 && PingInv(keepAlive, s) && Paced(keepAlive, start, s) && Enabled(s, MaintainTick)
    ensures Paced(keepAlive, start, Next(keepAlive, s, MaintainTick))
  {
    if s.pingTimes != [] { OnePeriodLater(keepAlive, start, |s.pingTimes| - 1); }
  }

  lemma {:induction false} RunKeepsPace(keepAlive: nat, start: int, s: State, acts: seq<Act>)
    requires keepAlive > 0 && Inv(keepAlive, s) && Paced(keepAlive, start, s) && Runs(keepAlive, s, acts)
    ensures Paced(keepAlive, start, After(keepAlive, s, acts))
    decreases |acts|
  {
    hide PingInv, ClosingInv, SupInv, HeardInv, CountInv, DogInv, PingTime;
    if acts != [] {
      NextKeepsInv(keepAlive, s, acts[0]);
      if acts[0].MaintainTick? { TickKeepsPace(keepAlive, start, s); }
      RunKeepsPace(keepAlive, start, Next(keepAlive, s, acts[0]), acts[1..]);
    }
  }

  /**
   In every run the keepalives are sent one second after the start and then exactly every
   `keepAlive` seconds, none early, none late and none left out.
   */
  lemma KeepalivesArePaced(keepAlive: nat, s: State, acts: seq<Act>)
    requires keepAlive > 0 && Init(s) && Runs(keepAlive, s, acts)
    ensures var s' := After(keepAlive, s, acts);
            && (forall i :: 0 <= i < |s'.pingTimes| ==>
                  s'.pingTimes[i] == s.now + 1_000_000_000 + i * (keepAlive * 1_000_000_000))
            && s'.now <= s.now + 1_000_000_000 + |s'.pingTimes| * (keepAlive * 1_000_000_000)
  {
    InitIsInv(keepAlive, s);
    RunKeepsInv(keepAlive, s, acts);
    RunKeepsPace(keepAlive, s.now, s, acts);
    var s' := After(keepAlive, s, acts);
    PingsOnTime(keepAlive, s');
    if s'.pingTimes != [] { OnePeriodLater(keepAlive, s.now, |s'.pingTimes| - 1); }
  }

  // ---- a packet between check and close ----

  ghost predicate Reaches(keepAlive: nat, s: State, s': State) {
    exists acts :: Runs(keepAlive, s, acts) && After(keepAlive, s, acts) == s'
  }

  lemma {:induction false} Append(keepAlive: nat, s: State, acts: seq<Act>, a: Act)
    requires Runs(keepAlive, s, acts) && Enabled(After(keepAlive, s, acts), a)
    ensures Runs(keepAlive, s, acts + [a])
    ensures After(keepAlive, s, acts + [a]) == Next(keepAlive, After(keepAlive, s, acts), a)
    decreases |acts|
  {
    hide Enabled, Next;
    if acts == [] {
      assert (acts + [a])[0] == a && (acts + [a])[1..] == [];
    } else {
      assert (acts + [a])[0] == acts[0] && (acts + [a])[1..] == acts[1..] + [a];
      Append(keepAlive, Next(keepAlive, s, acts[0]), acts[1..], a);
    }
  }

  lemma OneMore(keepAlive: nat, s: State, mid: State, a: Act)
    requires Reaches(keepAlive, s, mid) && Enabled(mid, a)
    ensures Reaches(keepAlive, s, Next(keepAlive, mid, a))
  {
    hide Enabled, Next;
    var acts :| Runs(keepAlive, s, acts) && After(keepAlive, s, acts) == mid;
    Append(keepAlive, s, acts, a);
  }

  const START := State(0, Dialling, None, 0, map[], SECOND, None, [], {}, 0, map[], map[], {})

  /** Transport 0 has been looped on for `n` silent seconds. */
  predicate Quiet(s: State, n: nat) {
    && s.now == n * SECOND && s.nextTick == s.now + SECOND && s.lastRecv == 0
    && s.sup == Looping(0) && s.conn == Some(0) && s.dogs == map[0 := Waiting(s.now + SECOND)]
    && 0 in s.heard && s.heard[0] == 0 && 0 in s.pings
  }

  /** One more second goes by, and the watchdog has seen that its transport is current. */
  lemma SecondPasses(keepAlive: nat, s: State, n: nat) returns (s': State)
    requires Reaches(keepAlive, START, s) && Quiet(s, n)
    ensures Reaches(keepAlive, START, s') && Quiet(s'.(dogs := map[0 := Waiting(s'.now + SECOND)]), n + 1)
    ensures s'.dogs == map[0 := Checking]
  {
    hide Reaches;
    OneMore(keepAlive, START, s, Advance(SECOND));
    var s1 := Next(keepAlive, s, Advance(SECOND));
    OneMore(keepAlive, START, s1, MaintainTick);
    var s2 := Next(keepAlive, s1, MaintainTick);
    OneMore(keepAlive, START, s2, DogLooks(0));
    s' := Next(keepAlive, s2, DogLooks(0));
    assert s'.dogs == map[0 := Checking];
  }

  lemma {:induction false} StaysQuiet(keepAlive: nat, s: State, n: nat, last: nat) returns (s': State)
    requires Reaches(keepAlive, START, s) && Quiet(s, n) && n <= last <= 3 * keepAlive
    ensures Reaches(keepAlive, START, s') && Quiet(s', last)
    decreases last - n
  {
    hide Reaches;
    if n == last {
      s' := s;
    } else {
      var mid := SecondPasses(keepAlive, s, n);
      OneMore(keepAlive, START, mid, DogChecks(0));
      var next := Next(keepAlive, mid, DogChecks(0));
      assert next.dogs == map[0 := Waiting(next.now + SECOND)];
      s' := StaysQuiet(keepAlive, next, n + 1, last);
    }
  }

  lemma NoSteps(keepAlive: nat, s: State)
    ensures Reaches(keepAlive, s, s)
  {
    assert Runs(keepAlive, s, []) && After(keepAlive, s, []) == s;
  }

  lemma Starts(keepAlive: nat) returns (s: State)
    ensures Reaches(keepAlive, START, s) && Quiet(s, 0)
  {
    hide Reaches;
    NoSteps(keepAlive, START);
    OneMore(keepAlive, START, START, Install(0));
    var s1 := Next(keepAlive, START, Install(0));
    OneMore(keepAlive, START, s1, Touch);
    s := Next(keepAlive, s1, Touch);
  }

  /**
   With every keepalive period there is a run in which a transport is closed in the very
   instant in which it was heard from: a packet that comes in between check and close is lost.
   */
  lemma ClosedWhenHeardFrom(keepAlive: nat) returns (s': State, c: Closing)
    requires keepAlive > 0
    ensures Init(START) && Reaches(keepAlive, START, s')
    ensures c in s'.closings && c.at == c.heard
  {
    hide Reaches;
    var s0 := Starts(keepAlive);
    var s1 := StaysQuiet(keepAlive, s0, 0, 3 * keepAlive);
    var s2 := SecondPasses(keepAlive, s1, 3 * keepAlive);
    OneMore(keepAlive, START, s2, DogChecks(0));
    var s3 := Next(keepAlive, s2, DogChecks(0));
    OneMore(keepAlive, START, s3, Receive);
    var s4 := Next(keepAlive, s3, Receive);
    OneMore(keepAlive, START, s4, DogCloses(0));
    s' := Next(keepAlive, s4, DogCloses(0));
    c := Closing(s4.dogs[0].check, s4.now, s4.heard[0], s4.pings[0]);
  }

  // ---- time goes on ----

  /** The watchdogs that have something to do before time can. */
  function Awake(s: State): set<nat> {
    set g | g in s.dogs && !(s.dogs[g].Waiting? && s.dogs[g].next > s.now)
  }

  lemma AwakeIsDue(keepAlive: nat, s: State, g: nat)
    requires Inv(keepAlive, s) && g in Awake(s)
    ensures s.dogs[g].Waiting? ==> s.dogs[g].next == s.now
    ensures g in s.heard && g in s.pings
  {
  }

  /** Watchdog `g` does what is due, in this instant. */
  lemma Settles(keepAlive: nat, start: State, s: State, g: nat) returns (s': State)
    requires keepAlive > 0 && Inv(keepAlive, s) && Reaches(keepAlive, start, s) && g in Awake(s)
    ensures Inv(keepAlive, s') && Reaches(keepAlive, start, s')
    ensures s'.now == s.now && s'.nextTick == s.nextTick && Awake(s') == Awake(s) - {g}
    decreases match s.dogs[g] case Waiting(_) => 3 case Checking => 2 case Condemning(_) => 1
  {
    hide Inv, Reaches;
    AwakeIsDue(keepAlive, s, g);
    var a :=
      match s.dogs[g]
      case Waiting(_) => DogLooks(g)
      case Checking => DogChecks(g)
      case Condemning(_) => DogCloses(g);
    OneMore(keepAlive, start, s, a);
    NextKeepsInv(keepAlive, s, a);
    s' := Next(keepAlive, s, a);
    if g in Awake(s') {
      s' := Settles(keepAlive, start, s', g);
    }
  }

  lemma {:induction false} AllSettle(keepAlive: nat, start: State, s: State) returns (s': State)
    requires keepAlive > 0 && Inv(keepAlive, s) && Reaches(keepAlive, start, s)
    ensures Inv(keepAlive, s') && Reaches(keepAlive, start, s')
    ensures s'.now == s.now && s'.nextTick == s.nextTick && Awake(s') == {}
    decreases |Awake(s)|
  {
    hide Inv, Reaches, Awake;
    if Awake(s) == {} {
      s' := s;
    } else {
      var g :| g in Awake(s);
      var next := Settles(keepAlive, start, s, g);
      s' := AllSettle(keepAlive, start, next);
    }
  }

  lemma TickAhead(keepAlive: nat, s: State)
    requires Inv(keepAlive, s)
    ensures s.now <= s.nextTick
  {
  }

  /**
   Waiting for ticks never stops the clock: from every reachable state the tickers alone lead to
   a later moment.
   */
  lemma TimeGoesOn(keepAlive: nat, s: State, acts: seq<Act>) returns (s': State)
    requires keepAlive > 0 && Init(s) && Runs(keepAlive, s, acts)
    ensures Reaches(keepAlive, After(keepAlive, s, acts), s') && s'.now > After(keepAlive, s, acts).now
  {
    hide Inv, Reaches, Runs, After;
    InitIsInv(keepAlive, s);
    RunKeepsInv(keepAlive, s, acts);
    var here := After(keepAlive, s, acts);
    NoSteps(keepAlive, here);
    var s1 := AllSettle(keepAlive, here, here);
    TickAhead(keepAlive, s1);
    if s1.now == s1.nextTick {
      OneMore(keepAlive, here, s1, MaintainTick);
      s1 := Next(keepAlive, s1, MaintainTick);
    }
    forall g | g in s1.dogs ensures s1.dogs[g].Waiting? && s1.now + 1 <= s1.dogs[g].next {
      assert g !in Awake(s1);
    }
    OneMore(keepAlive, here, s1, Advance(1));
    s' := Next(keepAlive, s1, Advance(1));
  }

  /** `g` has been handed out and taken back. */
  predicate TakenBack(s: State, g: nat) {
    g in s.used && s.conn != Some(g)
  }

  lemma {:induction false} StaysTakenBack(keepAlive: nat, s: State, acts: seq<Act>, g: nat)
    requires Runs(keepAlive, s, acts) && TakenBack(s, g)
    ensures TakenBack(After(keepAlive, s, acts), g)
    decreases |acts|
  {
    if acts != [] {
      StaysTakenBack(keepAlive, Next(keepAlive, s, acts[0]), acts[1..], g);
    }
  }

  /**
   What supervise hands out: nothing while it dials, and from the installation of a transport
   until its loop has ended that transport and no other. Every dial makes a new connection, so
   one taken back is never written to again, however long the redialling takes.
   */
  lemma HandsOutOnlyTheCurrent(keepAlive: nat, s: State, acts: seq<Act>, later: seq<Act>, g: nat)
    requires keepAlive > 0 && Init(s) && Runs(keepAlive, s, acts)
    requires Runs(keepAlive, After(keepAlive, s, acts), later)
    ensures var s' := After(keepAlive, s, acts);
            && s'.conn == (if s'.sup.Dialling? then None else Some(s'.sup.g))
            && (TakenBack(s', g) ==> After(keepAlive, s', later).conn != Some(g))
  {
    InitIsInv(keepAlive, s);
    RunKeepsInv(keepAlive, s, acts);
    if TakenBack(After(keepAlive, s, acts), g) {
      StaysTakenBack(keepAlive, After(keepAlive, s, acts), later, g);
    }
  }
}
