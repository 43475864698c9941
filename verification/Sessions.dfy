/**
 Session ownership in the kcptun client (client/main.go): the accept loop hands expired
 sessions to the scavenger over a channel, and the scavenger releases them in time.
 Sessions are numbered in the order waitConn makes them.
 */
module Sessions {
  import opened Words
  import opened RoundRobin

  const CHANNEL_CAPACITY := 128

  datatype Config = Config(numconn: nat, autoExpire: int, scavengeTTL: int)

  datatype Mux = Mux(session: nat, ttl: int)

  /** Whether the accept loop replaces the slot's session before serving from it. */
  predicate Expires(c: Config, m: Mux, closed: bool, now: int) {
    closed || (c.autoExpire > 0 && now > m.ttl)
  }

  function NewMux(c: Config, session: nat, now: int): Mux {
    Mux(session, now + c.autoExpire * SECOND)
  }

  /** A session waiting to be released; `no` is its place in the order of arrival. */
  datatype Entry = Entry(session: nat, ts: int, no: nat)

  // ---- one scavenger tick ----

  /** `over(s)` is whether session `s` has no streams left or is closed. */
  predicate Releases(e: Entry, now: int, ttl: int, over: nat -> bool) {
    over(e.session) || (ttl >= 0 && now - e.ts >= ttl * SECOND)
  }

  function Kept(list: seq<Entry>, now: int, ttl: int, over: nat -> bool): seq<Entry> {
    if list == [] then []
    else
      var n := |list| - 1;
      Kept(list[..n], now, ttl, over) + (if Releases(list[n], now, ttl, over) then [] else [list[n]])
  }

  function Dropped(list: seq<Entry>, now: int, ttl: int, over: nat -> bool): seq<nat> {
    if list == [] then []
    else
      var n := |list| - 1;
      Dropped(list[..n], now, ttl, over) + (if Releases(list[n], now, ttl, over) then [list[n].session] else [])
  }

  function SessionsOf(list: seq<Entry>): seq<nat> {
    if list == [] then [] else SessionsOf(list[..|list| - 1]) + [list[|list| - 1].session]
  }

  lemma SessionsOfAppend(list: seq<Entry>, e: Entry)
    ensures SessionsOf(list + [e]) == SessionsOf(list) + [e.session]
  {
    assert (list + [e])[..|list|] == list;
  }

  /** A tick loses no session and duplicates none. */
  lemma {:induction false} TickConserves(list: seq<Entry>, now: int, ttl: int, over: nat -> bool)
    ensures multiset(SessionsOf(list))
            == multiset(SessionsOf(Kept(list, now, ttl, over))) + multiset(Dropped(list, now, ttl, over))
  {
    if list != [] {
      var n := |list| - 1;
      var kept, dropped := Kept(list[..n], now, ttl, over), Dropped(list[..n], now, ttl, over);
      hide Releases;
      TickConserves(list[..n], now, ttl, over);
      assert SessionsOf(list) == SessionsOf(list[..n]) + [list[n].session];
      if Releases(list[n], now, ttl, over) {
        assert Kept(list, now, ttl, over) == kept && Dropped(list, now, ttl, over) == dropped + [list[n].session];
      } else {
        SessionsOfAppend(kept, list[n]);
        assert Dropped(list, now, ttl, over) == dropped;
      }
    }
  }

  /** In order of arrival, and therefore of time stamp. */
  predicate Ordered(list: seq<Entry>) {
    forall i, j :: 0 <= i < j < |list| ==> list[i].no < list[j].no && list[i].ts <= list[j].ts
  }

  /** What is kept is in the old order, was not to be released, and nothing else was lost. */
  lemma {:induction false} KeptIsFiltered(list: seq<Entry>, now: int, ttl: int, over: nat -> bool)
    ensures forall e :: e in Kept(list, now, ttl, over) <==> e in list && !Releases(e, now, ttl, over)
    ensures Ordered(list) ==> Ordered(Kept(list, now, ttl, over))
  {
    if list != [] {
      var n := |list| - 1;
      KeptIsFiltered(list[..n], now, ttl, over);
      assert forall e :: e in list <==> e in list[..n] || e == list[n];
      if Ordered(list) {
        forall i | 0 <= i < |Kept(list[..n], now, ttl, over)|
          ensures Kept(list[..n], now, ttl, over)[i].no < list[n].no
                  && Kept(list[..n], now, ttl, over)[i].ts <= list[n].ts
        {
          assert Kept(list[..n], now, ttl, over)[i] in list[..n];
        }
      }
    }
  }

  class Scavenger {
    const ttl: int
    var sessionList: seq<Entry>
    var arrivals: nat

    constructor (ttl: int)
      ensures this.ttl == ttl && sessionList == [] && arrivals == 0
    {
      this.ttl := ttl;
      sessionList, arrivals := [], 0;
    }

    method Receive(session: nat, now: int)
      modifies this
      ensures sessionList == old(sessionList) + [Entry(session, now, old(arrivals))]
      ensures arrivals == old(arrivals) + 1
    {
      sessionList := sessionList + [Entry(session, now, arrivals)];
      arrivals := arrivals + 1;
    }

    /** One tick; returns the sessions it closes, in order. */
    method Tick(now: int, over: nat -> bool) returns (closed: seq<nat>)
      modifies this`sessionList
      ensures sessionList == Kept(old(sessionList), now, ttl, over)
      ensures closed == Dropped(old(sessionList), now, ttl, over)
    {
      closed := [];
      var newList: seq<Entry> := [];
      for k := 0 to |sessionList|
        invariant newList == Kept(sessionList[..k], now, ttl, over)
        invariant closed == Dropped(sessionList[..k], now, ttl, over)
        invariant sessionList == old(sessionList)
      {
        var s := sessionList[k];
        assert sessionList[..k + 1][..k] == sessionList[..k];
        if over(s.session) {
          closed := closed + [s.session];
        } else if ttl >= 0 && now - s.ts >= ttl * SECOND {
          closed := closed + [s.session];
        } else {
          newList := newList + [s];
        }
      }
      assert sessionList[..|sessionList|] == sessionList;
      sessionList := newList;
    }
  }

  // ---- the accept loop ----

  class AcceptLoop {
    const cfg: Config
    const muxes: array<Mux>
    var rr: nat

    ghost predicate Valid()
      reads this
    {
      0 < cfg.numconn < WRAP && muxes.Length == cfg.numconn && rr < WRAP
    }

    /** Fills every slot with a fresh session, numbered from 0. */
    constructor (cfg: Config, now: nat -> int)
      requires 0 < cfg.numconn < WRAP
      ensures Valid() && fresh(muxes) && this.cfg == cfg && rr == 0
      ensures forall k :: 0 <= k < cfg.numconn ==> muxes[k] == Mux(k, now(k) + cfg.autoExpire * 1_000_000_000)
    {
      this.cfg := cfg;
      rr := 0;
      var slots := new Mux[cfg.numconn];
      for k := 0 to cfg.numconn
        invariant forall i :: 0 <= i < k ==> slots[i] == NewMux(cfg, i, now(i))
      {
        slots[k] := NewMux(cfg, k, now(k));
      }
      muxes := slots;
    }

    /**
     One turn of the loop for an accepted connection. `closed` is whether the slot's session
     reports closed, `renewed` the session waitConn would make, at time `later`. Returns the
     session that serves the connection, and the one sent to the scavenger, if any.
     */
    method AcceptOne(closed: bool, now: int, renewed: nat, later: int) returns (served: nat, expired: Option<nat>)
      requires Valid()
      modifies this`rr, muxes
      ensures Valid()
      ensures rr == (old(rr) + 1) % 65536
      ensures var idx := old(rr) % cfg.numconn;
              var due := closed || (cfg.autoExpire > 0 && now > old(muxes[idx]).ttl);
              var young := Mux(renewed, later + cfg.autoExpire * 1_000_000_000);
              && muxes[..] == (if due then old(muxes[..])[idx := young] else old(muxes[..]))
              && expired == (if due then Some(old(muxes[idx]).session) else None)
              && served == muxes[idx].session
    {
      var idx := rr % cfg.numconn;
      expired := None;
      if closed || (cfg.autoExpire > 0 && now > muxes[idx].ttl) {
        expired := Some(muxes[idx].session);
        muxes[idx] := Mux(renewed, later + cfg.autoExpire * SECOND);
      }
      served := muxes[idx].session;
      rr := (rr + 1) % WRAP;
    }
  }

  // ---- both goroutines and the channel, interleaved ----

  /** Where the accept loop stands: at its head, blocked on the channel for slot `idx`, dialling
      the replacement, or about to serve. */
  datatype Pc = AtHead | Sending(idx: nat) | Dialling(idx: nat) | Serving(idx: nat)

  /** What the accept loop found: the session of the slot, whether it reported closed, and when. */
  datatype Look = Look(session: nat, closed: bool, at: int)

  /** A connection, with what was found for it and the session that it was then served from. */
  datatype Service = Service(look: Look, session: nat)

  /** `made` sessions exist so far; `released` lists those the scavenger has closed; `accepts` and
      `served` count connections, in all and by slot. History: when each session was made, the
      latest look, and all connections served. */
  datatype State = State(
    now: int,
    pc: Pc,
    muxes: seq<Mux>,
    rr: nat,
    made: nat,
    channel: seq<nat>,
    list: seq<Entry>,
    arrivals: nat,
    released: seq<nat>,
    accepts: nat,
    served: seq<nat>,
    born: seq<int>,
    look: Look,
    services: seq<Service>)

  datatype Act =
    | Wait(d: nat)
    | Accept(closed: bool)
    | Send
    | Connect
    | Serve
    | Receive
    | Tick(over: nat -> bool)

  ghost predicate Init(c: Config, s: State) {
    && 0 < c.numconn < WRAP
    && s.pc == AtHead && s.rr == 0 && s.accepts == 0
    && |s.muxes| == |s.served| == s.made == c.numconn
    && |s.born| == c.numconn && s.look.at <= s.now && s.services == []
    && (forall k :: 0 <= k < c.numconn ==>
          s.muxes[k].session == k && s.muxes[k] == NewMux(c, k, s.born[k]) && s.served[k] == 0)
    && s.channel == [] && s.list == [] && s.arrivals == 0 && s.released == []
  }

  predicate Enabled(c: Config, s: State, a: Act) {
    match a
    case Wait(_) => true
    case Accept(_) => s.pc.AtHead? && c.numconn > 0 && s.rr % c.numconn < |s.muxes|
    case Send => s.pc.Sending? && s.pc.idx < |s.muxes| && |s.channel| < CHANNEL_CAPACITY
    case Connect => s.pc.Dialling? && s.pc.idx < |s.muxes|
    case Serve => s.pc.Serving? && s.pc.idx < |s.served| && s.pc.idx < |s.muxes|
    case Receive => s.channel != []
    case Tick(_) => true
  }

  function Next(c: Config, s: State, a: Act): State
    requires Enabled(c, s, a)
  {
    match a
    case Wait(d) => s.(now := s.now + d)
    case Accept(closed) =>
      var idx := s.rr % c.numconn;
      s.(pc := if Expires(c, s.muxes[idx], closed, s.now) then Sending(idx) else Serving(idx),
         look := Look(s.muxes[idx].session, closed, s.now))
    case Send => s.(pc := Dialling(s.pc.idx), channel := s.channel + [s.muxes[s.pc.idx].session])
    case Connect =>
      s.(pc := Serving(s.pc.idx), made := s.made + 1, born := s.born + [s.now],
         muxes := s.muxes[s.pc.idx := NewMux(c, s.made, s.now)])
    case Serve =>
      s.(pc := AtHead, rr := (s.rr + 1) % WRAP, accepts := s.accepts + 1,
         served := s.served[s.pc.idx := s.served[s.pc.idx] + 1],
         services := s.services + [Service(s.look, s.muxes[s.pc.idx].session)])
    case Receive =>
      s.(channel := s.channel[1..], list := s.list + [Entry(s.channel[0], s.now, s.arrivals)],
         arrivals := s.arrivals + 1)
    case Tick(over) =>
      s.(list := Kept(s.list, s.now, c.scavengeTTL, over),
         released := s.released + Dropped(s.list, s.now, c.scavengeTTL, over))
  }

  /** The sessions the mux slots hold; a slot whose session has been sent off no longer counts. */
  function Slots(s: State): seq<nat> {
    seq(|s.muxes|, i requires 0 <= i < |s.muxes| => s.muxes[i].session)
  }

  ghost function Elsewhere(s: State): multiset<nat> {
    multiset(s.channel) + multiset(SessionsOf(s.list)) + multiset(s.released)
  }

  /** One each of the sessions made so far. */
  ghost function Made(n: nat): multiset<nat> {
    if n == 0 then multiset{} else Made(n - 1) + multiset{n - 1}
  }

  ghost predicate OwnInv(s: State) {
    if s.pc.Dialling? then
      s.pc.idx < |s.muxes| && multiset(Slots(s)) - multiset{s.muxes[s.pc.idx].session} + Elsewhere(s) == Made(s.made)
    else multiset(Slots(s)) + Elsewhere(s) == Made(s.made)
  }

  ghost predicate ListInv(s: State) {
    && Ordered(s.list)
    && forall i :: 0 <= i < |s.list| ==> s.list[i].no < s.arrivals && s.list[i].ts <= s.now
  }

  ghost predicate TurnInv(c: Config, s: State) {
    && 0 < c.numconn < WRAP && |s.muxes| == |s.served| == c.numconn
    && s.rr == s.accepts % WRAP
    && (!s.pc.AtHead? ==> s.pc.idx == Slot(c.numconn, s.accepts))
    && forall j :: 0 <= j < c.numconn ==> s.served[j] == Served(c.numconn, s.accepts, j)
  }

  ghost predicate Inv(c: Config, s: State) {
    OwnInv(s) && ListInv(s) && TurnInv(c, s)
  }

  lemma {:induction false} MadeOnce(n: nat, k: nat)
    ensures Made(n)[k] == if k < n then 1 else 0
  {
    if n > 0 { MadeOnce(n - 1, k); }
  }

  lemma {:induction false} FirstSessions(s: seq<nat>)
    requires forall k :: 0 <= k < |s| ==> s[k] == k
    ensures multiset(s) == Made(|s|)
  {
    if s != [] {
      var n := |s| - 1;
      assert s == s[..n] + [s[n]];
      FirstSessions(s[..n]);
    }
  }

  lemma InitIsInv(c: Config, s: State)
    requires Init(c, s)
    ensures Inv(c, s)
  {
    FirstSessions(Slots(s));
  }

  lemma SendKeepsOwners(c: Config, s: State)
    requires OwnInv(s) && Enabled(c, s, Send)
    ensures OwnInv(Next(c, s, Send))
  {
    hide Made, SessionsOf;
    var s' := Next(c, s, Send);
    var x := s.muxes[s.pc.idx].session;
    assert Slots(s') == Slots(s) && Slots(s)[s.pc.idx] == x;
    assert multiset(s'.channel) == multiset(s.channel) + multiset{x};
  }

  lemma ConnectKeepsOwners(c: Config, s: State)
    requires OwnInv(s) && Enabled(c, s, Connect)
    ensures OwnInv(Next(c, s, Connect))
  {
    hide SessionsOf;
    var s' := Next(c, s, Connect);
    assert Slots(s') == Slots(s)[s.pc.idx := s.made];
    assert Made(s'.made) == Made(s.made) + multiset{s.made};
  }

  lemma ReceiveKeepsOwners(c: Config, s: State)
    requires OwnInv(s) && Enabled(c, s, Receive)
    ensures OwnInv(Next(c, s, Receive))
  {
    hide Made, SessionsOf;
    var s' := Next(c, s, Receive);
    assert Slots(s') == Slots(s);
    SessionsOfAppend(s.list, Entry(s.channel[0], s.now, s.arrivals));
    assert s.channel == [s.channel[0]] + s.channel[1..];
    assert Elsewhere(s') == Elsewhere(s);
  }

  lemma TickKeepsOwners(c: Config, s: State, over: nat -> bool)
    requires OwnInv(s)
    ensures OwnInv(Next(c, s, Tick(over)))
  {
    hide Made, SessionsOf, Kept, Dropped;
    var s' := Next(c, s, Tick(over));
    assert Slots(s') == Slots(s);
    TickConserves(s.list, s.now, c.scavengeTTL, over);
    assert Elsewhere(s') == Elsewhere(s);
  }

  lemma NextKeepsOwners(c: Config, s: State, a: Act)
    requires OwnInv(s) && Enabled(c, s, a)
    ensures OwnInv(Next(c, s, a))
  {
    hide Made, SessionsOf, Kept, Dropped;
    match a
    case Send => SendKeepsOwners(c, s);
    case Connect => ConnectKeepsOwners(c, s);
    case Receive => ReceiveKeepsOwners(c, s);
    case Tick(over) => TickKeepsOwners(c, s, over);
    case _ => assert Slots(Next(c, s, a)) == Slots(s);
  }

  lemma NextKeepsList(c: Config, s: State, a: Act)
    requires ListInv(s) && Enabled(c, s, a)
    ensures ListInv(Next(c, s, a))
  {
    hide Kept, Dropped;
    if a.Tick? {
      var kept := Kept(s.list, s.now, c.scavengeTTL, a.over);
      KeptIsFiltered(s.list, s.now, c.scavengeTTL, a.over);
      forall i | 0 <= i < |kept| ensures kept[i].no < s.arrivals && kept[i].ts <= s.now {
        assert kept[i] in s.list;
      }
    }
  }

  lemma ServeKeepsTurns(c: Config, s: State)
    requires TurnInv(c, s) && Enabled(c, s, Serve)
    ensures TurnInv(c, Next(c, s, Serve))
  {
    hide Slot;
    var s' := Next(c, s, Serve);
    forall j | 0 <= j < c.numconn ensures s'.served[j] == Served(c.numconn, s'.accepts, j) {
      assert Served(c.numconn, s.accepts + 1, j)
          == Served(c.numconn, s.accepts, j) + (if Slot(c.numconn, s.accepts) == j then 1 else 0);
    }
  }

  lemma NextKeepsTurns(c: Config, s: State, a: Act)
    requires TurnInv(c, s) && Enabled(c, s, a)
    ensures TurnInv(c, Next(c, s, a))
  {
    hide Kept, Dropped, Served;
    if a.Serve? { ServeKeepsTurns(c, s); }
  }

  ghost predicate Runs(c: Config, s: State, acts: seq<Act>)
    decreases |acts|
  {
    acts == [] || (Enabled(c, s, acts[0]) && Runs(c, Next(c, s, acts[0]), acts[1..]))
  }

  ghost function After(c: Config, s: State, acts: seq<Act>): State
    requires Runs(c, s, acts)
    decreases |acts|
  {
    if acts == [] then s else After(c, Next(c, s, acts[0]), acts[1..])
  }

  lemma {:induction false} RunKeepsInv(c: Config, s: State, acts: seq<Act>)
    requires Inv(c, s) && Runs(c, s, acts)
    ensures Inv(c, After(c, s, acts))
    decreases |acts|
  {
    hide OwnInv, ListInv, TurnInv, Next, Enabled;
    if acts != [] {
      NextKeepsOwners(c, s, acts[0]);
      NextKeepsList(c, s, acts[0]);
      NextKeepsTurns(c, s, acts[0]);
      RunKeepsInv(c, Next(c, s, acts[0]), acts[1..]);
    }
  }

  /**
   Whenever the accept loop is at its head, every session made so far is in exactly one place,
   once: a mux slot, the channel, the scavenger's list, or released.
   */
  lemma SessionsConserved(c: Config, s: State, acts: seq<Act>, k: nat)
    requires Init(c, s) && Runs(c, s, acts) && After(c, s, acts).pc.AtHead?
    ensures var s' := After(c, s, acts);
            multiset(Slots(s'))[k] + multiset(s'.channel)[k]
            + multiset(SessionsOf(s'.list))[k] + multiset(s'.released)[k]
            == if k < s'.made then 1 else 0
  {
    InitIsInv(c, s);
    RunKeepsInv(c, s, acts);
    MadeOnce(After(c, s, acts).made, k);
  }

  /** In every state of every run the scavenger's list is in arrival order and sorted by time stamp. */
  lemma ListStaysOrdered(c: Config, s: State, acts: seq<Act>)
    requires Init(c, s) && Runs(c, s, acts)
    ensures Ordered(After(c, s, acts).list)
  {
    InitIsInv(c, s);
    RunKeepsInv(c, s, acts);
  }

  lemma {:induction false} DroppedAll(list: seq<Entry>, now: int, ttl: int, over: nat -> bool, e: Entry)
    requires e in list && Releases(e, now, ttl, over)
    ensures e.session in Dropped(list, now, ttl, over)
  {
    var n := |list| - 1;
    if e in list[..n] {
      DroppedAll(list[..n], now, ttl, over, e);
    } else {
      assert e == list[n];
    }
  }

  /** One tick releases the listed sessions that are over or, with a ttl, have been listed for that long. */
  lemma TickReleasesExactly(c: Config, s: State, over: nat -> bool, e: Entry)
    requires e in s.list
    ensures var s' := Next(c, s, Tick(over));
            && (e in s'.list <==> !over(e.session) && (c.scavengeTTL < 0 || s.now < e.ts + c.scavengeTTL * SECOND))
            && (e !in s'.list ==> e.session in s'.released)
  {
    KeptIsFiltered(s.list, s.now, c.scavengeTTL, over);
    if Releases(e, s.now, c.scavengeTTL, over) {
      DroppedAll(s.list, s.now, c.scavengeTTL, over, e);
    }
  }

  /** Some tick of the run finds the session of `e` over, or listed for its ttl. */
  ghost predicate FallsDue(c: Config, s: State, acts: seq<Act>, e: Entry)
    requires Runs(c, s, acts)
    decreases |acts|
  {
    acts != [] &&
    ((acts[0].Tick? && Releases(e, s.now, c.scavengeTTL, acts[0].over))
     || FallsDue(c, Next(c, s, acts[0]), acts[1..], e))
  }

  /** An entry that has left the list never comes back, and a released session stays released. */
  lemma {:induction false} StaysReleased(c: Config, s: State, acts: seq<Act>, e: Entry)
    requires Runs(c, s, acts) && e !in s.list && e.no < s.arrivals && e.session in s.released
    ensures e !in After(c, s, acts).list && e.session in After(c, s, acts).released
    decreases |acts|
  {
    hide Kept, Dropped;
    if acts != [] {
      if acts[0].Tick? { KeptIsFiltered(s.list, s.now, c.scavengeTTL, acts[0].over); }
      StaysReleased(c, Next(c, s, acts[0]), acts[1..], e);
    }
  }

  lemma {:induction false} FirstTickDueReleases(c: Config, s: State, acts: seq<Act>, e: Entry)
    requires Runs(c, s, acts) && ListInv(s) && e in s.list
    ensures var s' := After(c, s, acts);
            if FallsDue(c, s, acts, e) then e !in s'.list && e.session in s'.released else e in s'.list
    decreases |acts|
  {
    hide Kept, Dropped;
    if acts != [] {
      var s1 := Next(c, s, acts[0]);
      NextKeepsList(c, s, acts[0]);
      if acts[0].Tick? { TickReleasesExactly(c, s, acts[0].over, e); }
      if e in s1.list {
        FirstTickDueReleases(c, s1, acts[1..], e);
      } else {
        StaysReleased(c, s1, acts[1..], e);
      }
    }
  }

  /** Some tick of the run comes at or after the deadline. */
  ghost predicate TicksAfter(c: Config, s: State, acts: seq<Act>, deadline: int)
    requires Runs(c, s, acts)
    decreases |acts|
  {
    acts != [] && ((acts[0].Tick? && s.now >= deadline) || TicksAfter(c, Next(c, s, acts[0]), acts[1..], deadline))
  }

  lemma {:induction false} DeadlineFallsDue(c: Config, s: State, acts: seq<Act>, e: Entry)
    requires Runs(c, s, acts) && c.scavengeTTL >= 0 && TicksAfter(c, s, acts, e.ts + c.scavengeTTL * SECOND)
    ensures FallsDue(c, s, acts, e)
    decreases |acts|
  {
    hide Next, Enabled;
    if !(acts[0].Tick? && s.now >= e.ts + c.scavengeTTL * SECOND) {
      DeadlineFallsDue(c, Next(c, s, acts[0]), acts[1..], e);
    }
  }

  /**
   An entry listed at any point of any run is still listed after any continuation in which no
   tick found its session over or its ttl passed; otherwise it has left the list for good and
   its session is among the released. So with a ttl the first tick at or after ts + ttl
   releases it at the latest.
   */
  lemma ReleasedInTime(c: Config, s: State, before: seq<Act>, acts: seq<Act>, e: Entry)
    requires Init(c, s) && Runs(c, s, before) && e in After(c, s, before).list
    requires Runs(c, After(c, s, before), acts)
    ensures var s0 := After(c, s, before);
            var s' := After(c, s0, acts);
            && (e in s'.list <==> !FallsDue(c, s0, acts, e))
            && (e !in s'.list ==> e.session in s'.released)
            && (c.scavengeTTL >= 0 && TicksAfter(c, s0, acts, e.ts + c.scavengeTTL * SECOND) ==>
                e.session in s'.released)
  {
    InitIsInv(c, s);
    RunKeepsInv(c, s, before);
    var s0 := After(c, s, before);
    FirstTickDueReleases(c, s0, acts, e);
    if c.scavengeTTL >= 0 && TicksAfter(c, s0, acts, e.ts + c.scavengeTTL * SECOND) {
      DeadlineFallsDue(c, s0, acts, e);
    }
  }

  /**
   Over every run the slots' shares differ by at most accepts/65536 + 1, and by at most 1 if
   numconn divides 65536.
   */
  lemma SharesStayEven(c: Config, s: State, acts: seq<Act>, j: nat, k: nat)
    requires Init(c, s) && Runs(c, s, acts) && j < k < c.numconn
    ensures var s' := After(c, s, acts);
            && |s'.served| == c.numconn
            && 0 <= s'.served[j] - s'.served[k] <= s'.accepts / 65536 + 1
            && (65536 % c.numconn == 0 ==> s'.served[j] - s'.served[k] <= 1)
  {
    InitIsInv(c, s);
    RunKeepsInv(c, s, acts);
    SlotsDifferLittle(c.numconn, After(c, s, acts).accepts, j, k);
  }

  // ---- which session serves ----

  /** The session found is to be replaced: it is closed, or older than autoExpire seconds. */
  predicate Dead(c: Config, born: seq<int>, l: Look)
    requires l.session < |born|
  {
    l.closed || (c.autoExpire > 0 && l.at - born[l.session] > c.autoExpire * SECOND)
  }

  /** A live session serves; a dead one is replaced by one made after the look. */
  predicate WellServed(c: Config, born: seq<int>, l: Look, session: nat) {
    && l.session < |born| && session < |born|
    && (session == l.session <==> !Dead(c, born, l))
    && (session != l.session ==> born[session] >= l.at)
  }

  function Expiry(c: Config, s: State, k: nat): int
    requires k < |s.muxes| && s.muxes[k].session < |s.born|
  {
    s.born[s.muxes[k].session] + c.autoExpire * SECOND
  }

  ghost predicate ServeInv(c: Config, s: State) {
    && |s.born| == s.made && s.look.at <= s.now && |s.services| == s.accepts
    && (forall k :: 0 <= k < |s.muxes| ==> s.muxes[k].session < s.made && s.muxes[k].ttl == Expiry(c, s, k))
    && (s.pc.Sending? || s.pc.Dialling? ==>
          s.pc.idx < |s.muxes| && s.look.session == s.muxes[s.pc.idx].session && Dead(c, s.born, s.look))
    && (s.pc.Serving? ==> s.pc.idx < |s.muxes| && WellServed(c, s.born, s.look, s.muxes[s.pc.idx].session))
    && (forall i :: 0 <= i < |s.services| ==> WellServed(c, s.born, s.services[i].look, s.services[i].session))
  }

  lemma NextKeepsServices(c: Config, s: State, a: Act)
    requires ServeInv(c, s) && Enabled(c, s, a)
    ensures ServeInv(c, Next(c, s, a))
  {
    hide Kept, Dropped;
  }

  lemma {:induction false} RunKeepsServices(c: Config, s: State, acts: seq<Act>)
    requires ServeInv(c, s) && Runs(c, s, acts)
    ensures ServeInv(c, After(c, s, acts))
    decreases |acts|
  {
    hide ServeInv, Next, Enabled;
    if acts != [] {
      NextKeepsServices(c, s, acts[0]);
      RunKeepsServices(c, Next(c, s, acts[0]), acts[1..]);
    }
  }

  /**
   In every run a connection is served from the session its slot held if and only if that was
   neither closed when the connection was accepted nor, with autoExpire, older than that many
   seconds then; otherwise from one that has been made since. No live session is replaced.
   */
  lemma ServedFromLiveSessions(c: Config, s: State, acts: seq<Act>, i: nat)
    requires Init(c, s) && Runs(c, s, acts) && i < |After(c, s, acts).services|
    ensures var s' := After(c, s, acts);
            var x := s'.services[i];
            && x.look.session < |s'.born| == s'.made && x.session < s'.made && |s'.services| == s'.accepts
            && (var age := x.look.at - s'.born[x.look.session];
                x.session == x.look.session <==>
                !x.look.closed && (c.autoExpire <= 0 || age <= c.autoExpire * 1_000_000_000))
            && (x.session != x.look.session ==> s'.born[x.session] >= x.look.at)
  {
    assert ServeInv(c, s);
    RunKeepsServices(c, s, acts);
  }

  /** Never more than 128 sessions wait in the channel. */
  lemma {:induction false} ChannelIsBounded(c: Config, s: State, acts: seq<Act>)
    requires Runs(c, s, acts) && |s.channel| <= 128
    ensures |After(c, s, acts).channel| <= 128
    decreases |acts|
  {
    hide Kept, Dropped, Expires;
    if acts != [] {
      ChannelIsBounded(c, Next(c, s, acts[0]), acts[1..]);
    }
  }
}
