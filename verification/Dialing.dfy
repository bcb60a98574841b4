// Dialling a route: every method is proved to carry out the script of its routes.

module Dialing {
  import opened Nodes
  import opened Wire
  import opened Routing

  // The markers after a sequence of moves.
  ghost function Replay(base: Marks, moves: seq<Move>): (r: Marks)
    ensures r.Keys == base.Keys
  {
    if moves == [] then base
    else
      var r := Replay(base, moves[..|moves| - 1]);
      match moves[|moves| - 1]
      case Marked(m, at) => if m in r then r[m := Mark(r[m].fails + 1, at)] else r
      case Cleared(m) => if m in r then r[m := Mark(0, r[m].since)] else r
  }

  // The outside world: it answers foreign calls and keeps the record. The markers in ms follow the record.
  class World {
    var tape: Tape
    const env: Env
    ghost const ms: set<Marker>
    ghost const base: Marks

    constructor (env: Env, ghost ms: set<Marker>)
      ensures Valid() && this.env == env && this.ms == ms && tape == Tape(0, [], [], 0, [])
      ensures base == Reading(ms)
    {
      this.env := env;
      this.ms := ms;
      this.base := Reading(ms);
      this.tape := Tape(0, [], [], 0, []);
    }

    ghost predicate Valid()
      reads this, ms
    {
      Reading(ms) == Replay(base, tape.moves)
    }

    method Ask(c: Call) returns (ok: bool)
      requires Valid()
      modifies this`tape
      ensures Valid()
      ensures Run(tape, ok) == Wire.Ask(env, old(tape), c)
    {
      var r := Wire.Ask(env, tape, c);
      tape := r.tape;
      ok := r.ok;
    }

    method Hang()
      requires Valid()
      modifies this`tape
      ensures Valid()
      ensures tape == Wire.Hang(old(tape))
    {
      tape := Wire.Hang(tape);
    }

    method Mark(m: Marker?)
      requires Valid() && (m != null ==> m in ms)
      modifies this`tape, ms
      ensures Valid()
      ensures tape == MarkIn(env, old(tape), m)
    {
      if m != null {
        var at := env.clock(tape.calls);
        m.Mark(at);
        assert MarkIn(env, tape, m).moves == tape.moves + [Marked(m, at)];
        tape := MarkIn(env, tape, m);
        assert tape.moves[..|tape.moves| - 1] == old(tape.moves);
      } else {
        assert MarkIn(env, tape, m).moves == tape.moves;
      }
    }

    method Reset(m: Marker?)
      requires Valid() && (m != null ==> m in ms)
      modifies this`tape, ms
      ensures Valid()
      ensures tape == ClearIn(old(tape), m)
    {
      if m != null {
        m.Reset();
        tape := ClearIn(tape, m);
        assert tape.moves[..|tape.moves| - 1] == old(tape.moves);
      } else {
        assert ClearIn(tape, m).moves == tape.moves;
      }
    }
  }

  lemma WorldReads(w: World)
    requires w.Valid()
    ensures Reading(w.ms) == Replay(w.base, w.tape.moves) && w.base.Keys == w.ms
  {
    assert Reading(w.ms).Keys == w.ms;
  }

  predicate MarksAt(moves: seq<Move>, m: Marker, i: nat) {
    i < |moves| && moves[i].Marked? && moves[i].m == m
  }

  // The failures of a marker from move k on.
  ghost function FailuresFrom(moves: seq<Move>, m: Marker, k: nat): set<nat> {
    set i: nat | k <= i < |moves| && MarksAt(moves, m, i)
  }

  // The marker was last cleared just before move k, or never when k is 0.
  ghost predicate ClearSince(moves: seq<Move>, m: Marker, k: nat) {
    && k <= |moves| && (k == 0 || moves[k - 1] == Cleared(m))
    && forall i :: k <= i < |moves| ==> moves[i] != Cleared(m)
  }

  // A marker reads the number of failures since it was last cleared, and the time of the last failure ever.
  lemma {:induction false} ReplayCountsFailures(base: Marks, moves: seq<Move>, m: Marker, k: nat)
    requires m in base && ClearSince(moves, m, k)
    ensures Replay(base, moves)[m].fails == (if k == 0 then base[m].fails else 0) + |FailuresFrom(moves, m, k)|
    decreases |moves|
  {
    if k < |moves| {
      var n := |moves| - 1;
      ReplayCountsFailures(base, moves[..n], m, k);
      FailuresNext(moves, m, k);
    } else {
      assert FailuresFrom(moves, m, k) == {};
    }
  }

  lemma FailuresNext(moves: seq<Move>, m: Marker, k: nat)
    requires k < |moves|
    ensures var n := |moves| - 1;
      |FailuresFrom(moves, m, k)| == |FailuresFrom(moves[..n], m, k)| + if MarksAt(moves, m, n) then 1 else 0
  {
    var n := |moves| - 1;
    var past, all := FailuresFrom(moves[..n], m, k), FailuresFrom(moves, m, k);
    assert n !in past;
    assert all == past + if MarksAt(moves, m, n) then {n} else {};
  }

  ghost predicate LastMark(moves: seq<Move>, m: Marker, i: nat) {
    MarksAt(moves, m, i) && forall j :: i < j < |moves| ==> !MarksAt(moves, m, j)
  }

  lemma {:induction false} ReplayKeepsLastTime(base: Marks, moves: seq<Move>, m: Marker, i: nat)
    requires m in base && LastMark(moves, m, i)
    ensures Replay(base, moves)[m].since == moves[i].at
    decreases |moves|
  {
    var past := moves[..|moves| - 1];
    if i < |moves| - 1 {
      assert !MarksAt(moves, m, |moves| - 1);
      assert forall j :: i < j < |past| ==> !MarksAt(moves, m, j) && moves[j] == past[j];
      ReplayKeepsLastTime(base, past, m, i);
    }
  }

  // In the world, a marker counts the failures since the success that last cleared it.
  lemma MarkersCountFailures(w: World, m: Marker, k: nat)
    requires w.Valid() && m in w.ms && ClearSince(w.tape.moves, m, k)
    ensures m in w.base && m.count == (if k == 0 then w.base[m].fails else 0) + |FailuresFrom(w.tape.moves, m, k)|
    ensures forall i: nat :: LastMark(w.tape.moves, m, i) ==> m.time == w.tape.moves[i].at
  {
    hide Replay, ClearSince;
    WorldReads(w);
    assert Reading(w.ms)[m] == Mark(m.count, m.time);
    ReplayCountsFailures(w.base, w.tape.moves, m, k);
    forall i: nat | LastMark(w.tape.moves, m, i) ensures m.time == w.tape.moves[i].at {
      ReplayKeepsLastTime(w.base, w.tape.moves, m, i);
    }
  }

  // ---------- Routes that nest without a cycle ----------

  ghost function LevelOf(r: Route): Level
    reads r
  {
    Level(Specs(r.nodes), r.marker)
  }

  ghost function Levels(rs: seq<Route>): (ls: seq<Level>)
    reads rs
    ensures |ls| == |rs| && forall k :: 0 <= k < |rs| ==> ls[k] == LevelOf(rs[k])
  {
    seq(|rs|, k requires 0 <= k < |rs| reads rs => LevelOf(rs[k]))
  }

  // The mutable objects some routes are made of.
  datatype Region = Region(routes: set<Route>, transports: set<Transport>)

  // Nothing leads out of the region.
  ghost predicate Closed(g: Region)
    reads g.routes, g.transports
  {
    && (forall r, n :: r in g.routes && n in r.nodes ==> n.transport in g.transports)
    && (forall t :: t in g.transports && t.route != null ==> t.route in g.routes)
  }

  // Each route after the first is nested around the one before it, through the transport of its head.
  // The first one is not nested around any route with nodes.
  ghost predicate Chained(rs: seq<Route>, g: Region)
    requires Closed(g)
    reads g.routes, g.transports
  {
    && (forall k :: 0 <= k < |rs| ==> rs[k] in g.routes)
    && (forall k :: 0 < k < |rs| ==> rs[k].nodes != [] && rs[k].nodes[0].transport.route == rs[k - 1])
    && (rs != [] && rs[0].nodes != [] ==>
          var inner := rs[0].nodes[0].transport.route; inner == null || inner.nodes == [])
  }

  // The markers a dial may move.
  ghost predicate Marking(rs: seq<Route>, ms: set<Marker>)
    reads rs
  {
    forall k :: 0 <= k < |rs| ==>
      && Covered(rs[k].nodes, ms)
      && (rs[k].marker != null ==> rs[k].marker in ms)
  }

  // The routes, their levels and the region they live in, over the markers a dial may move.
  ghost predicate Built(rs: seq<Route>, ls: seq<Level>, g: Region, ms: set<Marker>)
    reads rs, g.routes, g.transports
  {
    Closed(g) && Chained(rs, g) && Marking(rs, ms) && ls == Levels(rs)
  }

  // Dials through a route, or directly when there is none or it has no nodes.
  method Dial(route: Route?, target: string, w: World, ghost rs: seq<Route>, ghost ls: seq<Level>, ghost g: Region)
    returns (ok: bool)
    requires w.Valid() && Built(rs, ls, g, w.ms)
    requires if rs == [] then route == null else route == rs[|rs| - 1]
    modifies w`tape, w.ms
    ensures w.Valid()
    ensures Run(w.tape, ok) == Exec(w.env, old(w.tape), DialScript(ls, target))
    decreases |rs|, 4
  {
    if route == null || route.nodes == [] {
      ok := w.Ask(Open(target));
      return;
    }
    var last := route.nodes[|route.nodes| - 1].spec;
    TryThen(w.env, w.tape, ConnectScript(ls[..|ls| - 1], ls[|ls| - 1]), Do(Via(Id(last), target), true, null));
    ok := Connect(route, w, rs, ls, g);
    if !ok {
      return;
    }
    ok := w.Ask(Via(Id(last), target));
    if !ok {
      w.Hang();
    }
  }

  // Connects to the last node and marks or resets the chain.
  method Connect(route: Route, w: World, ghost rs: seq<Route>, ghost ls: seq<Level>, ghost g: Region)
    returns (ok: bool)
    requires w.Valid() && Built(rs, ls, g, w.ms)
    requires rs != [] && route == rs[|rs| - 1] && route.nodes != []
    modifies w`tape, w.ms
    ensures w.Valid()
    ensures Run(w.tape, ok) == Exec(w.env, old(w.tape), ConnectScript(ls[..|ls| - 1], ls[|ls| - 1]))
    decreases |rs|, 3
  {
    ghost var body := RouteScript(ls[..|ls| - 1], ls[|ls| - 1].nodes);
    Guarded(w.env, w.tape, body, route.marker);
    ok := Walk(route, w, rs, ls, g);
    if ok {
      w.Reset(route.marker);
    } else {
      w.Mark(route.marker);
    }
  }

  method Greet(n: NodeSpec, w: World) returns (ok: bool)
    requires w.Valid() && (n.marker != null ==> n.marker in w.ms)
    modifies w`tape, w.ms
    ensures w.Valid()
    ensures Run(w.tape, ok) == Exec(w.env, old(w.tape), GreetScript(n))
  {
    ok := w.Ask(Call.Greet(Id(n)));
    if ok {
      w.Reset(n.marker);
    } else {
      w.Hang();
      w.Mark(n.marker);
    }
  }

  // From a connected node to the next one.
  method Hop(prev: NodeSpec, n: NodeSpec, w: World) returns (ok: bool)
    requires w.Valid() && (n.marker != null ==> n.marker in w.ms)
    modifies w`tape, w.ms
    ensures w.Valid()
    ensures Run(w.tape, ok) == Exec(w.env, old(w.tape), HopScript(prev, n))
  {
    ghost var s := HopScript(prev, n);
    AskThen(w.env, w.tape, Resolve(Id(n)), n.marker, s.second);
    ok := w.Ask(Resolve(Id(n)));
    if ok {
      AskThen(w.env, w.tape, Via(Id(prev), n.addr), n.marker, s.second.second);
      ok := w.Ask(Via(Id(prev), n.addr));
    }
    if ok {
      ok := Greet(n, w);
    } else {
      w.Hang();
      w.Mark(n.marker);
    }
  }

  // The head of a route is dialled through the route nested in its transport, or directly.
  method DialHead(n: Node, w: World, ghost rs: seq<Route>, ghost ls: seq<Level>, ghost g: Region)
    returns (ok: bool)
    requires w.Valid() && Built(rs, ls, g, w.ms)
    requires rs != [] && rs[|rs| - 1].nodes != [] && n == rs[|rs| - 1].nodes[0]
    modifies w`tape, w.ms
    ensures w.Valid()
    ensures Run(w.tape, ok) == Exec(w.env, old(w.tape), DialScript(ls[..|ls| - 1], n.spec.addr))
    decreases |rs|, 0
  {
    var inner := n.transport.route;
    if inner != null && inner.nodes != [] {
      assert |rs| > 1 && inner == rs[|rs| - 2];
      ok := Dial(inner, n.spec.addr, w, rs[..|rs| - 1], ls[..|ls| - 1], g);
    } else {
      ok := w.Ask(Open(n.spec.addr));
    }
  }

  lemma MarkerKnown(rs: seq<Route>, ls: seq<Level>, g: Region, ms: set<Marker>)
    requires Built(rs, ls, g, ms)
    ensures forall r, n :: r in rs && n in r.nodes && n.spec.marker != null ==> n.spec.marker in ms
    ensures |ls| == |rs|
  {
  }

  method Head(n: Node, w: World, ghost rs: seq<Route>, ghost ls: seq<Level>, ghost g: Region)
    returns (ok: bool)
    requires w.Valid() && Built(rs, ls, g, w.ms)
    requires rs != [] && rs[|rs| - 1].nodes != [] && n == rs[|rs| - 1].nodes[0]
    modifies w`tape, w.ms
    ensures w.Valid()
    ensures Run(w.tape, ok) == Exec(w.env, old(w.tape), HeadAround(DialScript(ls[..|ls| - 1], n.spec.addr), n.spec))
    decreases |rs|, 1
  {
    hide DialScript, Exec, HeadAround, GreetScript, Built, World.Valid;
    MarkerKnown(rs, ls, g, w.ms);
    HeadDialled(w.env, w.tape, DialScript(ls[..|ls| - 1], n.spec.addr), n.spec);
    ok := w.Ask(Resolve(Id(n.spec)));
    if !ok {
      w.Mark(n.spec.marker);
      return;
    }
    ok := DialHead(n, w, rs, ls, g);
    if ok {
      ok := Greet(n.spec, w);
    } else {
      w.Mark(n.spec.marker);
    }
  }

  // Once a walk has failed the rest of it is not carried out.
  lemma {:induction false} WalkStops(env: Env, t: Tape, head: Script, nodes: seq<NodeSpec>, i: nat, k: nat)
    requires 1 <= i <= k <= |nodes|
    requires !Exec(env, t, WalkScript(head, nodes, i)).ok
    ensures Exec(env, t, WalkScript(head, nodes, k)) == Exec(env, t, WalkScript(head, nodes, i))
    decreases k
  {
    if i < k {
      WalkStops(env, t, head, nodes, i, k - 1);
    }
  }

  // Reaches every node after the first through the one before it.
  method WalkOn(nodes: seq<NodeSpec>, w: World, ghost head: Script, ghost t: Tape) returns (ok: bool)
    requires w.Valid() && nodes != []
    requires forall n :: n in nodes && n.marker != null ==> n.marker in w.ms
    requires Exec(w.env, t, head) == Run(w.tape, true)
    modifies w`tape, w.ms
    ensures w.Valid()
    ensures Run(w.tape, ok) == Exec(w.env, t, WalkScript(head, nodes, |nodes|))
  {
    ok := true;
    var i := 1;
    while ok && i < |nodes|
      invariant 1 <= i <= |nodes|
      invariant w.Valid()
      invariant Run(w.tape, ok) == Exec(w.env, t, WalkScript(head, nodes, i))
    {
      TryThen(w.env, t, WalkScript(head, nodes, i), HopScript(nodes[i - 1], nodes[i]));
      ok := Hop(nodes[i - 1], nodes[i], w);
      i := i + 1;
    }
    if !ok {
      WalkStops(w.env, t, head, nodes, i, |nodes|);
    }
  }

  method Walk(route: Route, w: World, ghost rs: seq<Route>, ghost ls: seq<Level>, ghost g: Region)
    returns (ok: bool)
    requires w.Valid() && Built(rs, ls, g, w.ms)
    requires rs != [] && route == rs[|rs| - 1] && route.nodes != []
    modifies w`tape, w.ms
    ensures w.Valid()
    ensures Run(w.tape, ok) == Exec(w.env, old(w.tape), RouteScript(ls[..|ls| - 1], ls[|ls| - 1].nodes))
    decreases |rs|, 2
  {
    var nodes := Specs(route.nodes);
    ghost var head := HeadAround(DialScript(ls[..|ls| - 1], nodes[0].addr), nodes[0]);
    ok := Head(route.nodes[0], w, rs, ls, g);
    if ok {
      ok := WalkOn(nodes, w, head, old(w.tape));
    } else {
      WalkStops(w.env, old(w.tape), head, nodes, 1, |nodes|);
    }
  }
}
