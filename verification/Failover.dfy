// The potential behind failover: every failed attempt uses up one of the failures that live broken nodes have left.

module Failover {
  import opened Common
  import opened Nodes
  import opened Selector
  import opened Hops
  import opened Wire
  import opened Routing
  import opened Refusal
  import opened FlatDial
  import opened Dialing

  // A candidate of a hop together with the fail filter of that hop's selector.
  datatype Entrant = Entrant(f: Filter, n: Node)

  ghost function Cands(h: Hop, req: Request): seq<Node> {
    Candidates(h.split, h.nodes, req)
  }

  // The fail filter that opens a standard pipeline.
  ghost function FailRule(h: Hop): (f: Filter)
    ensures f.FailFilter?
  {
    if h.selector != null && Standard(h.selector.filters) then h.selector.filters[0] else FailFilter(0, 0)
  }

  // At least two candidates, none prioritised, the standard selector, no bypass of the whole hop.
  ghost predicate Failsafe(h: Hop, req: Request) {
    && h.selector != null && Standard(h.selector.filters)
    && !(h.bypass.Some? && h.bypass.value(req))
    && |Cands(h, req)| > 1 && !Prioritised(Cands(h, req))
  }

  ghost predicate AllFailsafe(hops: seq<Hop>, req: Request) {
    forall h :: h in hops ==> Failsafe(h, req)
  }

  ghost function Entrants(h: Hop, req: Request): (r: seq<Entrant>)
    requires Failsafe(h, req)
    ensures |r| == |Cands(h, req)|
    ensures forall i :: 0 <= i < |r| ==> r[i] == Entrant(FailRule(h), Cands(h, req)[i])
  {
    var c := Cands(h, req);
    seq(|c|, i requires 0 <= i < |c| => Entrant(FailRule(h), c[i]))
  }

  ghost function Pool(hops: seq<Hop>, req: Request): (r: seq<Entrant>)
    requires AllFailsafe(hops, req)
    ensures forall e | e in r :: e.f.FailFilter?
  {
    if hops == [] then [] else Pool(hops[..|hops| - 1], req) + Entrants(hops[|hops| - 1], req)
  }

  lemma {:induction false} PoolHasAll(hops: seq<Hop>, req: Request, h: Hop, n: Node)
    requires AllFailsafe(hops, req) && Failsafe(h, req)
    requires h in hops && n in Cands(h, req)
    ensures Entrant(FailRule(h), n) in Pool(hops, req)
  {
    var m := |hops| - 1;
    if h == hops[m] {
      var i :| 0 <= i < |Cands(h, req)| && Cands(h, req)[i] == n;
      assert Entrants(h, req)[i] in Entrants(h, req);
    } else {
      assert h in hops[..m];
      PoolHasAll(hops[..m], req, h, n);
    }
  }

  // ---------- The budget of an entrant and of a pool ----------

  // The failures a live broken node has left before it is filtered out, at least one; judged at the deadline.
  ghost function Budget(env: Env, e: Entrant, marks: Marks, deadline: int): nat
    requires e.f.FailFilter?
  {
    if Works(env, e.n.spec) || !Live(e.f, e.n, marks, deadline) then 0
    else
      var left := MaxFails(e.f, e.n.spec) - MarkOf(marks, e.n.spec.marker).fails;
      if left < 1 then 1 else left
  }

  ghost function Total(env: Env, pool: seq<Entrant>, marks: Marks, deadline: int): nat
    requires forall e :: e in pool ==> e.f.FailFilter?
  {
    if pool == [] then 0
    else
      Total(env, pool[..|pool| - 1], marks, deadline) + Budget(env, pool[|pool| - 1], marks, deadline)
  }

  // The places of the candidates that do not work.
  ghost function BrokenPlaces(env: Env, pool: seq<Entrant>): set<nat> {
    set i: nat | i < |pool| && !Works(env, pool[i].n.spec)
  }

  // The failures left are at most those allowed for one node, for each candidate that does not work.
  lemma {:induction false} TotalAtMost(env: Env, pool: seq<Entrant>, marks: Marks, deadline: int, m: nat)
    requires forall e :: e in pool ==> e.f.FailFilter?
    requires forall e :: e in pool ==> MaxFails(e.f, e.n.spec) <= m
    ensures Total(env, pool, marks, deadline) <= m * |BrokenPlaces(env, pool)|
  {
    hide Works, BrokenPlaces, MaxFails;
    if pool != [] {
      var k := |pool| - 1;
      TotalAtMost(env, pool[..k], marks, deadline, m);
      assert pool[k] in pool;
      MoreBroken(env, pool);
      BudgetAtMost(env, pool[k], marks, deadline);
      Times(m, |BrokenPlaces(env, pool[..k])|);
    }
  }

  lemma BudgetAtMost(env: Env, e: Entrant, marks: Marks, deadline: int)
    requires e.f.FailFilter?
    ensures Budget(env, e, marks, deadline) <= if Works(env, e.n.spec) then 0 else MaxFails(e.f, e.n.spec)
  {
    hide Works;
  }

  lemma Times(m: nat, k: nat)
    ensures m * (k + 1) == m * k + m
  {
  }

  lemma {:induction false} MoreBroken(env: Env, pool: seq<Entrant>)
    requires pool != []
    ensures var k := |pool| - 1;
      |BrokenPlaces(env, pool)| == |BrokenPlaces(env, pool[..k])| + if Works(env, pool[k].n.spec) then 0 else 1
  {
    hide Works;
    var k := |pool| - 1;
    var past := BrokenPlaces(env, pool[..k]);
    assert k !in past;
    assert BrokenPlaces(env, pool) == past + if Works(env, pool[k].n.spec) then {} else {k};
  }

  ghost predicate Lowers(env: Env, e: Entrant, marks: Marks, later: Marks, deadline: int)
    requires e.f.FailFilter?
  {
    Budget(env, e, later, deadline) <= Budget(env, e, marks, deadline)
  }

  lemma {:induction false} TotalFalls(env: Env, pool: seq<Entrant>, marks: Marks, later: Marks, deadline: int, x: Entrant)
    requires forall e :: e in pool ==> e.f.FailFilter?
    requires forall e :: e in pool ==> Lowers(env, e, marks, later, deadline)
    requires x.f.FailFilter? && Budget(env, x, later, deadline) < Budget(env, x, marks, deadline)
    ensures Total(env, pool, later, deadline) <= Total(env, pool, marks, deadline)
    ensures x in pool ==> Total(env, pool, later, deadline) < Total(env, pool, marks, deadline)
  {
    hide Budget;
    if pool != [] {
      var m := |pool| - 1;
      TotalFalls(env, pool[..m], marks, later, deadline, x);
      assert pool[m] in pool;
      assert x in pool ==> x in pool[..m] || x == pool[m];
    }
  }

  // ---------- What a pool must satisfy ----------

  // Working and broken nodes are told apart by their markers, and the chain has a marker of its own.
  ghost predicate Sound(env: Env, pool: seq<Entrant>, ms: set<Marker>, chain: Marker?) {
    && (forall e :: e in pool ==> e.f.FailFilter? && !e.n.transport.multiplex && e.n.spec.marker in ms)
    && (forall e :: e in pool ==> e.n.spec.marker != chain)
    && (forall e :: e in pool ==> Works(env, e.n.spec) || Broken(env, e.n.spec))
    && (forall e, d :: e in pool && d in pool && Works(env, e.n.spec) && !Works(env, d.n.spec) ==>
          e.n.spec.marker != d.n.spec.marker)
  }

  // The verdict on an entrant does not change between now and the deadline through the mere passing of time.
  ghost predicate Fixed(e: Entrant, marks: Marks, now: int, deadline: int)
    requires e.f.FailFilter?
  {
    var k := MarkOf(marks, e.n.spec.marker);
    var timeout := FailTimeout(e.f, e.n.spec);
    k.fails < MaxFails(e.f, e.n.spec) || now - k.since >= timeout || deadline - k.since < timeout
  }

  ghost predicate Steady(env: Env, pool: seq<Entrant>, marks: Marks, now: int, deadline: int) {
    forall e :: e in pool && e.f.FailFilter? && !Works(env, e.n.spec) ==> Fixed(e, marks, now, deadline)
  }

  // Every hop has a working live candidate.
  ghost predicate HasWorking(env: Env, h: Hop, req: Request, marks: Marks, now: int)
    requires Failsafe(h, req)
  {
    exists g :: g in Cands(h, req) && Works(env, g.spec) && Live(FailRule(h), g, marks, now)
  }

  // ---------- One failed attempt ----------

  // How the markers moved: the markers of working nodes were at most cleared, the marker of the broken node
  // got one more failure at the given time, all others of the pool are as before.
  ghost predicate Moved(env: Env, pool: seq<Entrant>, marks: Marks, later: Marks, hit: Node, at: int) {
    && hit.spec.marker != null && hit.spec.marker in marks && hit.spec.marker in later
    && later[hit.spec.marker] == Mark(marks[hit.spec.marker].fails + 1, at)
    && forall e :: e in pool ==>
         var k, k' := MarkOf(marks, e.n.spec.marker), MarkOf(later, e.n.spec.marker);
         if Works(env, e.n.spec) then k' == k || k' == Mark(0, k.since)
         else e.n.spec.marker == hit.spec.marker || k' == k
  }

  lemma MovedLowers(env: Env, pool: seq<Entrant>, marks: Marks, later: Marks, hit: Node, at: int,
                    now: int, deadline: int, e: Entrant)
    requires Moved(env, pool, marks, later, hit, at) && e in pool && e.f.FailFilter?
    requires !Works(env, e.n.spec) ==> Fixed(e, marks, now, deadline)
    requires deadline - at < FailTimeout(e.f, e.n.spec) && now <= at <= deadline
    ensures Lowers(env, e, marks, later, deadline)
    ensures e.n == hit && !Works(env, e.n.spec) && Live(e.f, e.n, marks, now) ==>
      Budget(env, e, later, deadline) < Budget(env, e, marks, deadline)
    ensures !Works(env, e.n.spec) ==> Fixed(e, later, at, deadline)
  {
  }

  // ---------- From the record of a failed attempt to the markers ----------

  lemma ClearedMark(base: Marks, moves: seq<Move>, c: Marker?, m: Marker)
    requires m in base
    ensures var k, k' := Replay(base, moves)[m], Replay(base, moves + ClearMove(c))[m];
      k' == if c == m then Mark(0, k.since) else k
  {
    if c != null {
      assert (moves + [Cleared(c)])[..|moves|] == moves;
    } else {
      assert moves + [] == moves;
    }
  }

  // Clearing a list of nodes leaves other markers alone and at most clears the rest.
  lemma {:induction false} ClearedMarks(base: Marks, moves: seq<Move>, nodes: seq<NodeSpec>, k: nat, m: Marker)
    requires m in base && k <= |nodes|
    ensures var v, v' := Replay(base, moves)[m], Replay(base, moves + ClearAll(nodes[..k]))[m];
      && (v' == v || v' == Mark(0, v.since))
      && ((forall i :: 0 <= i < k ==> nodes[i].marker != m) ==> v' == v)
  {
    if k == 0 {
      assert moves + ClearAll(nodes[..0]) == moves;
    } else {
      hide Replay, ClearAll, ClearMove;
      ClearedMarks(base, moves, nodes, k - 1, m);
      ClearAllStep(moves, nodes, k);
      ClearedMark(base, moves + ClearAll(nodes[..k - 1]), nodes[k - 1].marker, m);
    }
  }

  lemma MarkedMarks(base: Marks, moves: seq<Move>, m: Marker?, at: int)
    ensures var r := Replay(base, moves + MarkMove(m, at));
      r == if m != null && m in base
           then Replay(base, moves)[m := Mark(Replay(base, moves)[m].fails + 1, at)]
           else Replay(base, moves)
  {
    if m != null {
      assert (moves + [Marked(m, at)])[..|moves|] == moves;
    } else {
      assert moves + [] == moves;
    }
  }

  // The selected nodes with their filters, hop by hop.
  ghost predicate Drawn(pool: seq<Entrant>, picks: seq<Node>) {
    forall i :: 0 <= i < |picks| ==> Entered(pool, picks[i])
  }

  ghost predicate Entered(pool: seq<Entrant>, n: Node) {
    exists f :: Entrant(f, n) in pool
  }

  lemma FailureMoves(env: Env, pool: seq<Entrant>, ms: set<Marker>, chain: Marker?, base: Marks, picks: seq<Node>,
                     b: nat, t: Tape, r: Tape)
    requires Sound(env, pool, ms, chain) && base.Keys == ms && Drawn(pool, picks)
    requires FlatFailure(env, Level(Specs(picks), chain), b, t, r) && !Works(env, picks[b].spec)
    ensures Moved(env, pool, Replay(base, t.moves), Replay(base, r.moves), picks[b], env.clock(r.calls))
  {
    hide Replay, Works, Broken;
    var nodes, at := Specs(picks), env.clock(r.calls);
    var mid := t.moves + ClearAll(nodes[..b]);
    var hit := nodes[b].marker;
    MarkedMarks(base, mid, hit, at);
    MarkedMarks(base, mid + MarkMove(hit, at), chain, at);
    assert Entered(pool, picks[b]);
    var fh :| Entrant(fh, picks[b]) in pool;
    assert Entrant(fh, picks[b]).n.spec.marker in ms;
    forall i | 0 <= i < b ensures nodes[i].marker in ms && Works(env, nodes[i]) {
      assert Entered(pool, picks[i]);
      var f :| Entrant(f, picks[i]) in pool;
      assert Entrant(f, picks[i]).n.spec.marker in ms;
    }
    forall e | e in pool && !Works(env, e.n.spec) ensures forall i :: 0 <= i < b ==> nodes[i].marker != e.n.spec.marker {
      forall i | 0 <= i < b ensures nodes[i].marker != e.n.spec.marker {
        assert Entered(pool, picks[i]);
        var f :| Entrant(f, picks[i]) in pool;
        assert Works(env, Entrant(f, picks[i]).n.spec);
      }
    }
    assert Entrant(fh, picks[b]) in pool && !Works(env, Entrant(fh, picks[b]).n.spec);
    ClearedMarks(base, t.moves, nodes, b, hit);
    forall e | e in pool
      ensures var k, k' := MarkOf(Replay(base, t.moves), e.n.spec.marker), MarkOf(Replay(base, r.moves), e.n.spec.marker);
        if Works(env, e.n.spec) then k' == k || k' == Mark(0, k.since)
        else e.n.spec.marker == hit || k' == k
    {
      ClearedMarks(base, t.moves, nodes, b, e.n.spec.marker);
    }
  }
}
