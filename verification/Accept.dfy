// The accept loop of a service: back-off after temporary errors, the state it shows and its bounded log of events.

module Accepting {
  // Durations are in nanoseconds.
  const SECOND := 1_000_000_000
  const MAX_EVENTS := 20

  datatype Phase = Running | Ready | Failed | Closed

  datatype Event = Event(time: int, message: string)

  const BLANK := Event(0, "")

  // What a call of the listener brings: a connection, whether it is admitted, or an error.
  datatype Arrival = Conn(admitted: bool) | Temporary | Fatal

  function PhaseName(p: Phase): string {
    match p
    case Running => "running"
    case Ready => "ready"
    case Failed => "failed"
    case Closed => "closed"
  }

  function StateMessage(name: string, p: Phase): string {
    "service " + name + " is " + PhaseName(p)
  }

  function ListenMessage(name: string, addr: string): string {
    "service " + name + " is listening on " + addr
  }

  // The last events of a log, as many as are kept.
  function Kept<T>(log: seq<T>): (r: seq<T>)
    ensures |r| == (if |log| <= MAX_EVENTS then |log| else MAX_EVENTS)
  {
    if |log| <= MAX_EVENTS then log else log[|log| - MAX_EVENTS..]
  }

  class Status {
    const clock: nat -> int
    var phase: Phase
    var events: seq<Event>
    // How often the clock was read, and every message ever logged.
    var readings: nat
    ghost var log: seq<string>

    ghost predicate Valid()
      reads this
    {
      events == Kept(Stamped(clock, log)) && readings == |log|
    }

    constructor (clock: nat -> int)
      ensures Valid() && log == [] && this.clock == clock
    {
      this.clock := clock;
      phase, events, readings, log := Running, [], 0, [];
    }

    // The n-th event carries the n-th reading of the clock.
    method AddEvent(message: string)
      requires Valid()
      modifies this`events, this`readings, this`log
      ensures Valid() && log == old(log) + [message]
    {
      var event := Event(clock(readings), message);
      KeptNext(Stamped(clock, log), event);
      StampedNext(clock, log, message);
      if |events| == MAX_EVENTS {
        events := events[1..];
      }
      events, readings, log := events + [event], readings + 1, log + [message];
    }

    method SetState(name: string, p: Phase)
      requires Valid()
      modifies this
      ensures Valid() && phase == p && log == old(log) + [StateMessage(name, p)]
    {
      phase := p;
      AddEvent(StateMessage(name, p));
    }

    // A copy of the events, filled up with blank ones.
    method Events() returns (r: seq<Event>)
      requires Valid()
      ensures |r| == MAX_EVENTS && r[..|events|] == events
      ensures forall i :: |events| <= i < MAX_EVENTS ==> r[i] == BLANK
    {
      r := seq(MAX_EVENTS, i => BLANK);
      var i := 0;
      while i < |events|
        invariant 0 <= i <= |events| && |r| == MAX_EVENTS && r[..i] == events[..i]
        invariant forall j :: i <= j < MAX_EVENTS ==> r[j] == BLANK
      {
        r := r[i := events[i]];
        assert r[..i + 1] == events[..i + 1];
        i := i + 1;
      }
    }
  }

  function Stamped(clock: nat -> int, log: seq<string>): (r: seq<Event>)
    ensures |r| == |log|
  {
    seq(|log|, i requires 0 <= i < |log| => Event(clock(i), log[i]))
  }

  lemma StampedNext(clock: nat -> int, log: seq<string>, message: string)
    ensures Stamped(clock, log + [message]) == Stamped(clock, log) + [Event(clock(|log|), message)]
  {
  }

  // Dropping the oldest of a full list and appending keeps exactly the last events.
  lemma KeptNext<T>(log: seq<T>, e: T)
    ensures Kept(log + [e]) == (if |Kept(log)| == MAX_EVENTS then Kept(log)[1..] else Kept(log)) + [e]
  {
  }

  // ---------- Back-off ----------

  function Pow2(n: nat): (r: nat)
    ensures r > n
  {
    if n == 0 then 1 else 2 * Pow2(n - 1)
  }

  function Min(a: int, b: int): int {
    if a < b then a else b
  }

  // The delay after k temporary errors in a row: 1 s, 2 s, 4 s and 5 s from then on.
  function Delay(k: nat): int {
    if k == 0 then 0 else Min(Pow2(k - 1) * SECOND, 5 * SECOND)
  }

  // Doubling with a limit at every step gives the same as doubling first and limiting once.
  lemma DelayNext(k: nat)
    ensures Delay(k + 1) == Min(if Delay(k) == 0 then SECOND else 2 * Delay(k), 5 * SECOND)
  {
  }

  // One second, two, four, and five from then on.
  lemma DelayTable(k: nat)
    ensures Delay(k) == if k == 0 then 0 else if k == 1 then 1_000_000_000 else if k == 2 then 2_000_000_000
                        else if k == 3 then 4_000_000_000 else 5_000_000_000
  {
    if k >= 4 {
      assert Pow2(k - 1) >= 8 by {
        PowerGrows(k - 1);
      }
    }
  }

  lemma {:induction false} PowerGrows(n: nat)
    requires n >= 3
    ensures Pow2(n) >= 8
  {
    if n > 3 {
      PowerGrows(n - 1);
    }
  }

  // How many temporary errors end a history.
  function InARow(arrivals: seq<Arrival>): (k: nat)
    ensures k <= |arrivals|
    ensures k == 0 <==> (arrivals == [] || !arrivals[|arrivals| - 1].Temporary?)
  {
    if arrivals == [] || !arrivals[|arrivals| - 1].Temporary? then 0
    else 1 + InARow(arrivals[..|arrivals| - 1])
  }

  lemma {:induction false} InARowCounts(arrivals: seq<Arrival>)
    ensures var k := InARow(arrivals);
      && (forall i :: |arrivals| - k <= i < |arrivals| ==> arrivals[i].Temporary?)
      && (k < |arrivals| ==> !arrivals[|arrivals| - k - 1].Temporary?)
  {
    if InARow(arrivals) > 0 {
      InARowCounts(arrivals[..|arrivals| - 1]);
    }
  }

  // The phase a service shows once it has met these arrivals and none of them was fatal.
  function PhaseAfter(arrivals: seq<Arrival>): Phase {
    if InARow(arrivals) > 0 then Failed else Ready
  }

  // What is logged: every temporary error, every recovery from one, and the end.
  function Logged(name: string, arrivals: seq<Arrival>): seq<string> {
    if arrivals == [] then []
    else
      var past, a := arrivals[..|arrivals| - 1], arrivals[|arrivals| - 1];
      Logged(name, past)
      + (match a
         case Temporary => [StateMessage(name, Failed)]
         case Fatal => [StateMessage(name, Closed)]
         case Conn(_) => if InARow(past) > 0 then [StateMessage(name, Ready)] else [])
  }

  function Delays(arrivals: seq<Arrival>): seq<int> {
    if arrivals == [] then []
    else
      Delays(arrivals[..|arrivals| - 1])
      + if arrivals[|arrivals| - 1].Temporary? then [Delay(InARow(arrivals))] else []
  }

  // Connections handed to the handler; the others that arrive are closed at once.
  function Handled(arrivals: seq<Arrival>): nat {
    if arrivals == [] then 0
    else Handled(arrivals[..|arrivals| - 1]) + if arrivals[|arrivals| - 1] == Conn(true) then 1 else 0
  }

  // The phase shown at the loop head is the one of the last state message, or the initial one.
  lemma {:induction false} LastLogged(name: string, arrivals: seq<Arrival>)
    requires Fatal !in arrivals
    ensures var log := [StateMessage(name, Ready)] + Logged(name, arrivals);
      log[|log| - 1] == StateMessage(name, PhaseAfter(arrivals))
  {
    if arrivals != [] {
      var past := arrivals[..|arrivals| - 1];
      LastLogged(name, past);
      var a := arrivals[|arrivals| - 1];
      assert a in arrivals;
    }
  }

  // The arrivals that change what the service shows: every error, and a connection right after a temporary error.
  predicate Changes(arrivals: seq<Arrival>, i: nat) {
    i < |arrivals| && (!arrivals[i].Conn? || (i > 0 && arrivals[i - 1].Temporary?))
  }

  predicate Served(arrivals: seq<Arrival>, i: nat) {
    i < |arrivals| && arrivals[i] == Conn(true)
  }

  predicate Pauses(arrivals: seq<Arrival>, i: nat) {
    i < |arrivals| && arrivals[i] == Temporary
  }

  ghost function Places(arrivals: seq<Arrival>, at: (seq<Arrival>, nat) -> bool): set<nat> {
    set i: nat | i < |arrivals| && at(arrivals, i)
  }

  ghost predicate Local(at: (seq<Arrival>, nat) -> bool) {
    forall arrivals, i: nat, n: nat :: i < n <= |arrivals| ==> at(arrivals[..n], i) == at(arrivals, i)
  }

  lemma {:induction false} PlacesNext(arrivals: seq<Arrival>, at: (seq<Arrival>, nat) -> bool)
    requires arrivals != [] && Local(at)
    ensures var n := |arrivals| - 1;
      |Places(arrivals, at)| == |Places(arrivals[..n], at)| + if at(arrivals, n) then 1 else 0
  {
    var n := |arrivals| - 1;
    var past := Places(arrivals[..n], at);
    assert n !in past;
    assert Places(arrivals, at) == past + if at(arrivals, n) then {n} else {};
  }

  // One message is logged for every change, one pause is slept for every temporary error, and every connection
  // admitted is handed to the handler once.
  lemma {:induction false} OneEach(name: string, arrivals: seq<Arrival>)
    ensures |Logged(name, arrivals)| == |Places(arrivals, Changes)|
    ensures |Delays(arrivals)| == |Places(arrivals, Pauses)|
    ensures Handled(arrivals) == |Places(arrivals, Served)|
  {
    hide StateMessage, Delay;
    if arrivals != [] {
      OneEach(name, arrivals[..|arrivals| - 1]);
      PlacesNext(arrivals, Changes);
      PlacesNext(arrivals, Pauses);
      PlacesNext(arrivals, Served);
    }
  }

  // The pause after a temporary error is the one for the number of temporary errors in a row up to it.
  lemma {:induction false} PauseLength(arrivals: seq<Arrival>, i: nat)
    requires Pauses(arrivals, i)
    ensures var k := |Places(arrivals[..i], Pauses)|;
      k < |Delays(arrivals)| && Delays(arrivals)[k] == Delay(InARow(arrivals[..i + 1]))
    decreases |arrivals|
  {
    hide Delay;
    var n := |arrivals| - 1;
    if i < n {
      PauseLength(arrivals[..n], i);
      assert arrivals[..n][..i] == arrivals[..i] && arrivals[..n][..i + 1] == arrivals[..i + 1];
    } else {
      OneEach("", arrivals[..n]);
      assert arrivals[..n + 1] == arrivals;
    }
  }

  lemma Nothing(name: string)
    ensures InARow([]) == 0 && Delay(0) == 0 && Delays([]) == [] && Handled([]) == 0 && Logged(name, []) == []
  {
  }

  // One more arrival.
  lemma Meets(name: string, arrivals: seq<Arrival>, n: nat)
    requires n < |arrivals|
    ensures var past, next, a := arrivals[..n], arrivals[..n + 1], arrivals[n];
      && InARow(next) == (if a.Temporary? then 1 + InARow(past) else 0)
      && Delays(next) == Delays(past) + (if a.Temporary? then [Delay(InARow(next))] else [])
      && Handled(next) == Handled(past) + (if a == Conn(true) then 1 else 0)
      && Logged(name, next) == Logged(name, past)
         + (match a
            case Temporary => [StateMessage(name, Failed)]
            case Fatal => [StateMessage(name, Closed)]
            case Conn(_) => if InARow(past) > 0 then [StateMessage(name, Ready)] else [])
      && next == past + [a]
  {
    hide StateMessage, Delay;
    assert arrivals[..n + 1][..n] == arrivals[..n];
  }

  lemma Resting(k: nat)
    ensures Delay(k) == 0 <==> k == 0
    ensures Delay(k) >= 0
  {
  }

  class Service {
    const name: string
    const addr: string
    const status: Status
    // What the loop has slept through and handed to the handler so far.
    var slept: seq<int>
    var handled: nat

    constructor (name: string, addr: string, clock: nat -> int)
      ensures status.Valid() && status.phase == Running && status.log == [StateMessage(name, Running)]
      ensures fresh(status) && this.name == name && this.addr == addr && slept == [] && handled == 0
    {
      this.name, this.addr := name, addr;
      slept, handled := [], 0;
      status := new Status(clock);
      new;
      status.SetState(name, Running);
    }

    // Accepts until a fatal error. The arrivals are what the listener brings; when they run out
    // the loop is still waiting at its head.
    method Serve(arrivals: seq<Arrival>) returns (n: nat, delay: int)
      requires status.Valid() && slept == [] && handled == 0
      modifies this, status
      ensures status.Valid() && n <= |arrivals| && Fatal !in arrivals[..n]
      ensures n < |arrivals| ==> arrivals[n] == Fatal
      ensures var met := if n < |arrivals| then arrivals[..n + 1] else arrivals[..n];
        status.log == old(status.log) + [StateMessage(name, Ready), ListenMessage(name, addr)] + Logged(name, met)
      ensures status.phase == if n < |arrivals| then Closed else PhaseAfter(arrivals[..n])
      ensures delay == Delay(InARow(arrivals[..n])) && slept == Delays(arrivals[..n])
      ensures handled == Handled(arrivals[..n])
    {
      hide StateMessage, ListenMessage, Pow2, Delay, Logged, Delays, Handled, InARow, Kept, Stamped;
      status.SetState(name, Ready);
      status.AddEvent(ListenMessage(name, addr));
      ghost var start := status.log;
      n, delay := 0, 0;
      Nothing(name);
      while n < |arrivals|
        invariant 0 <= n <= |arrivals| && Fatal !in arrivals[..n] && status.Valid()
        invariant status.log == start + Logged(name, arrivals[..n])
        invariant delay == Delay(InARow(arrivals[..n])) && slept == Delays(arrivals[..n])
        invariant status.phase == if delay != 0 then Failed else Ready
        invariant handled == Handled(arrivals[..n])
      {
        Meets(name, arrivals, n);
        Resting(InARow(arrivals[..n]));
        match arrivals[n] {
          case Temporary =>
            DelayNext(InARow(arrivals[..n]));
            delay := if delay == 0 then SECOND else 2 * delay;
            if delay > 5 * SECOND {
              delay := 5 * SECOND;
            }
            status.SetState(name, Failed);
            slept := slept + [delay];
          case Fatal =>
            status.SetState(name, Closed);
            return;
          case Conn(admitted) =>
            if delay > 0 {
              delay := 0;
              status.SetState(name, Ready);
            }
            if admitted {
              handled := handled + 1;
            }
        }
        n := n + 1;
      }
      Resting(InARow(arrivals[..n]));
    }
  }
}
