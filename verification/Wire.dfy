// What happens on the wire when a route is dialled: which connections are made, which markers move, what is closed.
// A dial is a script of foreign calls, each with what is undone when it is refused. The outcome of every
// foreign call is an oracle, so every failure point is covered.

module Wire {
  import opened Nodes

  datatype Call =
    | Resolve(node: Peer)
    | Open(addr: string)                  // a direct connection
    | Via(node: Peer, addr: string)   // a connection through a node
    | Greet(node: Peer)               // the handshake with a node

  // A refused call may hang up the connection made so far, and it marks a marker. Enclosing parts of a
  // script add marks of their own.
  datatype Script =
    | Do(call: Call, hang: bool, mark: Marker?)
    | Clear(marker: Marker?)
    | Then(first: Script, second: Script)
    | Guard(body: Script, onRefusal: Marker?)

  datatype Move = Marked(m: Marker, at: int) | Cleared(m: Marker)

  // The record of a run: the number of foreign calls, the successful connections and the marker moves in order,
  // how many connections were closed, and the refused calls.
  datatype Tape = Tape(calls: nat, links: seq<Call>, moves: seq<Move>, closed: nat, refused: seq<Call>)

  // The outcome of the n-th foreign call, and the time once n calls were made.
  datatype Env = Env(fate: (Call, nat) -> bool, clock: nat -> int)

  datatype Run = Run(tape: Tape, ok: bool)

  predicate IsLink(c: Call) {
    c.Open? || c.Via?
  }

  function LinkOf(c: Call): seq<Call> {
    if IsLink(c) then [c] else []
  }

  function MarkMove(m: Marker?, at: int): seq<Move> {
    if m == null then [] else [Marked(m, at)]
  }

  function ClearMove(m: Marker?): seq<Move> {
    if m == null then [] else [Cleared(m)]
  }

  function Ask(env: Env, t: Tape, c: Call): Run {
    if env.fate(c, t.calls) then Run(Tape(t.calls + 1, t.links + LinkOf(c), t.moves, t.closed, t.refused), true)
    else Run(Tape(t.calls + 1, t.links, t.moves, t.closed, t.refused + [c]), false)
  }

  function Hang(t: Tape): Tape {
    t.(closed := t.closed + 1)
  }

  function MarkIn(env: Env, t: Tape, m: Marker?): Tape {
    t.(moves := t.moves + MarkMove(m, env.clock(t.calls)))
  }

  function ClearIn(t: Tape, m: Marker?): Tape {
    t.(moves := t.moves + ClearMove(m))
  }

  function Exec(env: Env, t: Tape, s: Script): Run
    decreases s
  {
    match s
    case Do(c, hang, mark) =>
      var a := Ask(env, t, c);
      if a.ok then a else Run(MarkIn(env, if hang then Hang(a.tape) else a.tape, mark), false)
    case Clear(m) => Run(ClearIn(t, m), true)
    case Then(a, b) =>
      var r := Exec(env, t, a);
      if r.ok then Exec(env, r.tape, b) else r
    case Guard(b, mark) =>
      var r := Exec(env, t, b);
      if r.ok then r else Run(MarkIn(env, r.tape, mark), false)
  }

  // How composite scripts run.
  lemma TryThen(env: Env, t: Tape, a: Script, rest: Script)
    ensures var r := Exec(env, t, a);
      Exec(env, t, Then(a, rest)) == if r.ok then Exec(env, r.tape, rest) else r
  {
  }

  lemma AskThen(env: Env, t: Tape, c: Call, m: Marker?, rest: Script)
    ensures var a := Ask(env, t, c);
      Exec(env, t, Then(Do(c, true, m), rest))
      == if a.ok then Exec(env, a.tape, rest) else Run(MarkIn(env, Hang(a.tape), m), false)
  {
  }

  lemma Guarded(env: Env, t: Tape, body: Script, m: Marker?)
    ensures var r := Exec(env, t, body);
      Exec(env, t, Then(Guard(body, m), Clear(m)))
      == if r.ok then Run(ClearIn(r.tape, m), true) else Run(MarkIn(env, r.tape, m), false)
  {
  }

  lemma {:induction false} ExecCalls(env: Env, t: Tape, s: Script)
    ensures t.calls <= Exec(env, t, s).tape.calls
    decreases s
  {
    match s {
      case Do(_, _, _) =>
      case Clear(_) =>
      case Then(a, b) =>
        ExecCalls(env, t, a);
        if Exec(env, t, a).ok {
          ExecCalls(env, Exec(env, t, a).tape, b);
        }
      case Guard(b, _) =>
        ExecCalls(env, t, b);
    }
  }

  // ---------- What a script does when nothing is refused ----------

  function Links(s: Script): seq<Call> {
    match s
    case Do(c, _, _) => LinkOf(c)
    case Clear(_) => []
    case Then(a, b) => Links(a) + Links(b)
    case Guard(b, _) => Links(b)
  }

  function Clears(s: Script): seq<Move> {
    match s
    case Do(_, _, _) => []
    case Clear(m) => ClearMove(m)
    case Then(a, b) => Clears(a) + Clears(b)
    case Guard(b, _) => Clears(b)
  }

  // ---------- Which calls are asked for ----------

  // Every call of a script, in order.
  function Asks(s: Script): seq<Call> {
    match s
    case Do(c, _, _) => [c]
    case Clear(_) => []
    case Then(a, b) => Asks(a) + Asks(b)
    case Guard(b, _) => Asks(b)
  }

  function LinksIn(cs: seq<Call>): seq<Call> {
    if cs == [] then [] else LinksIn(cs[..|cs| - 1]) + LinkOf(cs[|cs| - 1])
  }

  lemma {:induction false} LinksInBoth(a: seq<Call>, b: seq<Call>)
    ensures LinksIn(a + b) == LinksIn(a) + LinksIn(b)
    decreases |b|
  {
    if b == [] {
      assert a + b == a;
    } else {
      LinksInBoth(a, b[..|b| - 1]);
      assert (a + b)[..|a + b| - 1] == a + b[..|b| - 1];
    }
  }

  // The first k of the calls are granted when they are made from the n-th on.
  ghost predicate Granted(env: Env, calls: seq<Call>, k: nat, n: nat) {
    k <= |calls| && forall i :: 0 <= i < k ==> env.fate(calls[i], n + i)
  }

  // A run that made the first k calls and was refused the next one, or made all of them.
  ghost predicate Asked(env: Env, t: Tape, calls: seq<Call>, k: nat, r: Run) {
    && Granted(env, calls, k, t.calls) && r.tape.links == t.links + LinksIn(calls[..k])
    && (r.ok ==> k == |calls| && r.tape.calls == t.calls + k && r.tape.refused == t.refused)
    && (!r.ok ==>
          && k < |calls| && !env.fate(calls[k], t.calls + k)
          && r.tape.calls == t.calls + k + 1 && r.tape.refused == t.refused + [calls[k]])
  }

  lemma {:induction false} AskedFirst(env: Env, t: Tape, a: seq<Call>, b: seq<Call>, k: nat, r: Run)
    requires Asked(env, t, a, k, r) && !r.ok
    ensures Asked(env, t, a + b, k, r)
  {
    assert (a + b)[..k] == a[..k];
  }

  lemma {:induction false} AskedSecond(env: Env, t: Tape, a: seq<Call>, q: Tape, b: seq<Call>, k: nat, r: Run)
    requires Asked(env, t, a, |a|, Run(q, true)) && Asked(env, q, b, k, r)
    ensures Asked(env, t, a + b, |a| + k, r)
  {
    hide Granted, LinksIn;
    GrantedBoth(env, a, b, k, t.calls);
    assert a[..|a|] == a && (a + b)[..|a| + k] == a + b[..k];
    LinksInBoth(a, b[..k]);
    Assoc(t.links, LinksIn(a), LinksIn(b[..k]));
  }

  lemma {:induction false} GrantedBoth(env: Env, a: seq<Call>, b: seq<Call>, k: nat, n: nat)
    requires Granted(env, a, |a|, n) && Granted(env, b, k, n + |a|)
    ensures Granted(env, a + b, |a| + k, n)
  {
    var c := a + b;
    forall i | 0 <= i < |a| + k ensures env.fate(c[i], n + i) {
      assert i >= |a| ==> env.fate(b[i - |a|], (n + |a|) + (i - |a|));
    }
  }

  // A script makes its calls one by one, in order, up to the first that is refused, and it succeeds when none is.
  // The connections are those among the calls that were granted.
  lemma {:induction false} ExecAsks(env: Env, t: Tape, s: Script) returns (k: nat)
    ensures Asked(env, t, Asks(s), k, Exec(env, t, s))
    decreases s
  {
    hide Asked;
    match s {
      case Do(c, _, _) =>
        k := if env.fate(c, t.calls) then 1 else 0;
        AskedOne(env, t, s);
      case Clear(_) =>
        k := 0;
        AskedNothing(env, t, s);
      case Then(a, b) =>
        var q := Exec(env, t, a);
        k := ExecAsks(env, t, a);
        if q.ok {
          var m := ExecAsks(env, q.tape, b);
          AllAsked(env, t, Asks(a), k, q);
          AskedSecond(env, t, Asks(a), q.tape, Asks(b), m, Exec(env, t, s));
          k := k + m;
        } else {
          AskedFirst(env, t, Asks(a), Asks(b), k, q);
        }
      case Guard(b, _) =>
        k := ExecAsks(env, t, b);
        AskedInside(env, t, s, k);
    }
  }

  lemma {:induction false} AllAsked(env: Env, t: Tape, calls: seq<Call>, k: nat, r: Run)
    requires Asked(env, t, calls, k, r) && r.ok
    ensures k == |calls|
  {
  }

  lemma {:induction false} AskedOne(env: Env, t: Tape, s: Script)
    requires s.Do?
    ensures Asked(env, t, Asks(s), if env.fate(s.call, t.calls) then 1 else 0, Exec(env, t, s))
  {
    var one := [s.call];
    assert one[..0] == [] && one[..1] == one && LinksIn(one) == LinksIn([]) + LinkOf(s.call);
  }

  lemma {:induction false} AskedNothing(env: Env, t: Tape, s: Script)
    requires s.Clear?
    ensures Asked(env, t, Asks(s), 0, Exec(env, t, s))
  {
  }

  lemma {:induction false} AskedInside(env: Env, t: Tape, s: Script, k: nat)
    requires s.Guard? && Asked(env, t, Asks(s.body), k, Exec(env, t, s.body))
    ensures Asked(env, t, Asks(s), k, Exec(env, t, s))
  {
  }

  // ---------- What it does when a call is refused ----------

  // The connections made and the markers cleared before, the refused call, the hang-ups and the markers marked after.
  datatype Failure = Failure(links: seq<Call>, clears: seq<Move>, call: Call, hangs: nat, marks: seq<Marker>)

  function ListOf(m: Marker?): seq<Marker> {
    if m == null then [] else [m]
  }

  function MarkAll(ms: seq<Marker>, at: int): (r: seq<Move>)
    ensures |r| == |ms|
  {
    seq(|ms|, i requires 0 <= i < |ms| => Marked(ms[i], at))
  }

  function After(a: Script, f: Failure): Failure {
    f.(links := Links(a) + f.links, clears := Clears(a) + f.clears)
  }

  function Around(f: Failure, m: Marker?): Failure {
    f.(marks := f.marks + ListOf(m))
  }

  // A path to one call of a script: where a run may be cut.
  datatype Cut = Here | InFirst(cut: Cut) | InSecond(cut: Cut) | Inside(cut: Cut)

  ghost predicate Cuts(s: Script, c: Cut)
    decreases s
  {
    match s
    case Do(_, _, _) => c.Here?
    case Clear(_) => false
    case Then(a, b) => (c.InFirst? && Cuts(a, c.cut)) || (c.InSecond? && Cuts(b, c.cut))
    case Guard(b, _) => c.Inside? && Cuts(b, c.cut)
  }

  // What happens when the script is cut there.
  ghost function FailureOf(s: Script, c: Cut): Failure
    requires Cuts(s, c)
    decreases s
  {
    match s
    case Do(call, hang, mark) => Failure([], [], call, if hang then 1 else 0, ListOf(mark))
    case Then(a, b) => if c.InFirst? then FailureOf(a, c.cut) else After(a, FailureOf(b, c.cut))
    case Guard(b, m) => Around(FailureOf(b, c.cut), m)
  }

  ghost predicate CarriedOut(t: Tape, s: Script, r: Tape) {
    r == Tape(r.calls, t.links + Links(s), t.moves + Clears(s), t.closed, t.refused)
  }

  ghost predicate Failed(env: Env, t: Tape, f: Failure, r: Tape) {
    r == Tape(r.calls, t.links + f.links, t.moves + f.clears + MarkAll(f.marks, env.clock(r.calls)),
              t.closed + f.hangs, t.refused + [f.call])
  }

  ghost predicate CutRun(env: Env, t: Tape, s: Script, r: Tape, c: Cut) {
    Cuts(s, c) && Failed(env, t, FailureOf(s, c), r)
  }

  lemma Assoc<T>(a: seq<T>, b: seq<T>, c: seq<T>)
    ensures (a + b) + c == a + (b + c)
  {
  }

  lemma FailedAfter(env: Env, t: Tape, a: Script, f: Failure, q: Tape, r: Tape)
    requires CarriedOut(t, a, q) && Failed(env, q, f, r)
    ensures Failed(env, t, After(a, f), r)
  {
    Assoc(t.links, Links(a), f.links);
    Assoc(t.moves, Clears(a), f.clears);
  }

  lemma FailedAround(env: Env, t: Tape, f: Failure, m: Marker?, q: Tape)
    requires Failed(env, t, f, q)
    ensures Failed(env, t, Around(f, m), MarkIn(env, q, m))
  {
    var at := env.clock(q.calls);
    assert MarkAll(f.marks + ListOf(m), at) == MarkAll(f.marks, at) + MarkMove(m, at);
    Assoc(t.moves + f.clears, MarkAll(f.marks, at), MarkMove(m, at));
  }

  // Every run is the whole script, or the script cut at one of its calls.
  lemma {:induction false} ExecOutcome(env: Env, t: Tape, s: Script)
    ensures var r := Exec(env, t, s);
      if r.ok then CarriedOut(t, s, r.tape) else exists c :: CutRun(env, t, s, r.tape, c)
    decreases s
  {
    var r := Exec(env, t, s);
    match s {
      case Do(call, hang, mark) =>
        if !r.ok {
          assert MarkAll(ListOf(mark), env.clock(r.tape.calls)) == MarkMove(mark, env.clock(r.tape.calls));
          assert CutRun(env, t, s, r.tape, Here);
        }
      case Clear(m) =>
      case Then(a, b) =>
        ExecOutcome(env, t, a);
        var q := Exec(env, t, a);
        if q.ok {
          ExecOutcome(env, q.tape, b);
          if !r.ok {
            var c :| CutRun(env, q.tape, b, r.tape, c);
            FailedAfter(env, t, a, FailureOf(b, c), q.tape, r.tape);
            assert CutRun(env, t, s, r.tape, InSecond(c));
          }
        } else {
          var c :| CutRun(env, t, a, q.tape, c);
          assert CutRun(env, t, s, r.tape, InFirst(c));
        }
      case Guard(b, m) =>
        ExecOutcome(env, t, b);
        var q := Exec(env, t, b);
        if !q.ok {
          var c :| CutRun(env, t, b, q.tape, c);
          FailedAround(env, t, FailureOf(b, c), m, q.tape);
          assert CutRun(env, t, s, r.tape, Inside(c));
        }
    }
  }

  // A failing run made some of the connections of the whole script.
  lemma {:induction false} FailureLinks(s: Script, c: Cut)
    requires Cuts(s, c)
    ensures FailureOf(s, c).links <= Links(s)
    decreases s
  {
    match s {
      case Do(_, _, _) =>
      case Then(a, b) =>
        FailureLinks(if c.InFirst? then a else b, c.cut);
      case Guard(b, m) =>
        FailureLinks(b, c.cut);
    }
  }
}
