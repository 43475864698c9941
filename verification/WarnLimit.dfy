/**
 The rate limit on recurring warnings (warn in udptun/client.go): read the clock, load
 the time of the last message, compare-and-swap. Callers interleave at will, and the
 clock may even step back.
 */
module WarnLimit {
  import opened Words

  datatype Pc = Idle | HasNow(now: int) | HasPrev(now: int, prev: int)

  /** The counter, the callers, and the timestamps of the messages printed so far. */
  datatype State = State(last: int, callers: map<nat, Pc>, printed: seq<int>)

  datatype Act = ReadClock(t: nat, now: int) | Load(t: nat) | Swap(t: nat)

  predicate Enabled(s: State, a: Act) {
    a.t in s.callers &&
    match a
    case ReadClock(t, _) => s.callers[t].Idle?
    case Load(t) => s.callers[t].HasNow?
    case Swap(t) => s.callers[t].HasPrev?
  }

  function Goto(s: State, t: nat, pc: Pc): State {
    s.(callers := s.callers[t := pc])
  }

  function Next(s: State, a: Act): State
    requires Enabled(s, a)
  {
    match a
    case ReadClock(t, now) => Goto(s, t, HasNow(now))
    case Load(t) => Goto(s, t, HasPrev(s.callers[t].now, s.last))
    case Swap(t) =>
      var now, prev := s.callers[t].now, s.callers[t].prev;
      if now - prev < SECOND || s.last != prev then Goto(s, t, Idle)
      else Goto(s, t, Idle).(last := now, printed := s.printed + [now])
  }

  ghost predicate Runs(s: State, acts: seq<Act>)
    decreases |acts|
  {
    acts == [] || (Enabled(s, acts[0]) && Runs(Next(s, acts[0]), acts[1..]))
  }

  ghost function After(s: State, acts: seq<Act>): State
    requires Runs(s, acts)
    decreases |acts|
  {
    if acts == [] then s else After(Next(s, acts[0]), acts[1..])
  }

  /** Messages are at least a second apart, whichever two one looks at. */
  predicate Spaced(printed: seq<int>) {
    forall i, j :: 0 <= i < j < |printed| ==> printed[j] - printed[i] >= SECOND
  }

  ghost predicate Inv(s: State) {
    && Spaced(s.printed)
    && s.last == if s.printed == [] then 0 else s.printed[|s.printed| - 1]
  }

  lemma {:induction false} RunKeepsInv(s: State, acts: seq<Act>)
    requires Inv(s) && Runs(s, acts)
    ensures Inv(After(s, acts))
    decreases |acts|
  {
    if acts != [] {
      RunKeepsInv(Next(s, acts[0]), acts[1..]);
    }
  }

  /** Over every interleaving of any callers, two messages are never less than a second apart. */
  lemma MessagesAreSpaced(s: State, acts: seq<Act>)
    requires s.last == 0 && s.printed == [] && Runs(s, acts)
    ensures Spaced(After(s, acts).printed)
  {
    RunKeepsInv(s, acts);
  }

  /** One counter of the client, with the messages it let through. */
  class Counter {
    var last: int
    ghost var printed: seq<int>
    /** History: how many of them are this caller's, and how many the others'. */
    ghost var own: nat
    ghost var others: nat

    ghost predicate Valid()
      reads this
    {
      && Spaced(printed) && |printed| == own + others
      && last == if printed == [] then 0 else printed[|printed| - 1]
    }

    constructor ()
      ensures Valid() && printed == []
    {
      last, printed, own, others := 0, [], 0, 0;
    }

    /** Other callers run to whatever point they like. */
    method Interfere()
      requires Valid()
      modifies this
      ensures Valid() && old(printed) <= printed && own == old(own)
    {
    }

    method CompareAndSwap(prev: int, now: int) returns (ok: bool)
      modifies this`last
      ensures ok == (old(last) == prev) && last == if ok then now else old(last)
    {
      ok := last == prev;
      if ok { last := now; }
    }

    method Warn(now: int) returns (passed: bool)
      requires Valid()
      modifies this
      ensures Valid() && old(printed) <= printed
      ensures passed ==> printed != [] && printed[|printed| - 1] == now && now - old(last) >= 1_000_000_000
      ensures own == old(own) + (if passed then 1 else 0)
      ensures !passed ==> now - old(last) < 1_000_000_000 || others > old(others)
    {
      var prev := last;
      Interfere();
      if now - prev < SECOND { return false; }
      passed := CompareAndSwap(prev, now);
      if passed { printed, own := printed + [now], own + 1; }
    }
  }
}
