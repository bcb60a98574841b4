// Chains at work: the bound on failed attempts with a broken and a working node, a multiplexed transport selected
// twice, and a dead node that is preferred.

module Examples {
  import opened Common
  import opened Nodes
  import opened Weighted
  import opened Selector
  import opened Hops
  import opened Wire
  import opened FlatDial
  import opened Routing
  import opened Dialing
  import opened Routes
  import opened RoutePaths
  import opened Chains
  import opened Failover
  import opened Routers

  const BAD := Peer("bad", "bad:1")

  // Only the address of the bad node never resolves. Time stands still.
  const ENV := Env((c: Call, i: nat) => c != Resolve(BAD), (i: nat) => 0)

  const REQUEST := Request("tcp", "target:80", "target:80", "", "")

  function Spec(name: string, addr: string, m: Marker): NodeSpec {
    NodeSpec(name, addr, 0, 1, false, None, None, None, None, None, m)
  }

  lemma BothDecided(bad: NodeSpec, good: NodeSpec)
    requires Id(bad) == BAD && Id(good) != BAD
    ensures Broken(ENV, bad) && !Works(ENV, bad) && Works(ENV, good) && Monotone(ENV.clock) && Accepts(ENV, "target:80")
  {
    assert !ENV.fate(Resolve(Id(bad)), 0);
    BrokenDoesNotWork(ENV, bad, 0);
  }

  // One hop with these two nodes, the standard pipeline, and nothing that filters by request.
  ghost predicate TwoNodes(h: Hop, bad: Node, good: Node) {
    && h.nodes == [bad, good] && h.bypass == None && h.selector != null
    && h.selector.filters == [FailFilter(1, 0), BackupFilter]
    && bad.spec.marker != null && good.spec.marker != null
    && bad.spec == Spec("bad", "bad:1", bad.spec.marker) && good.spec == Spec("good", "good:1", good.spec.marker)
    && !bad.transport.multiplex && !good.transport.multiplex
  }

  lemma AnyoneMay(split: string -> string, s: NodeSpec)
    requires s.bypass == None && s.matcher == None && s.filter == None
    ensures Eligible(split, s, REQUEST)
  {
  }

  lemma OneMore(split: string -> string, ns: seq<Node?>, n: Node)
    requires Eligible(split, n.spec, REQUEST)
    ensures Candidates(split, ns + [n], REQUEST) == Candidates(split, ns, REQUEST) + [n]
  {
    hide Eligible;
    assert (ns + [n])[..|ns|] == ns;
  }

  lemma BothEnter(h: Hop, bad: Node, good: Node)
    requires TwoNodes(h, bad, good)
    ensures Cands(h, REQUEST) == [bad, good] && Failsafe(h, REQUEST)
    ensures Entrants(h, REQUEST) == [Entrant(FailRule(h), bad), Entrant(FailRule(h), good)]
    ensures FailRule(h) == FailFilter(1, 0)
  {
    hide Candidates;
    PairEnters(h, bad, good);
  }

  lemma PoolOfOne(h: Hop, b: Entrant, g: Entrant)
    requires Failsafe(h, REQUEST) && Entrants(h, REQUEST) == [b, g]
    ensures Pool([h], REQUEST) == [b, g]
  {
    hide Failsafe, Entrants;
    assert [h][..0] == [] && Pool([h], REQUEST) == [] + [b, g];
  }

  lemma BudgetOfOne(b: Entrant, g: Entrant, marks: Marks)
    requires b.f == FailFilter(1, 0) == g.f && !Works(ENV, b.n.spec) && Works(ENV, g.n.spec)
    requires b.n.spec.maxFails == None && b.n.spec.failTimeout == None && MarkOf(marks, b.n.spec.marker) == Mark(0, 0)
    ensures Total(ENV, [b, g], marks, 0) == 1
  {
    hide Works;
    assert [b, g][..1] == [b] && [b][..0] == [];
    assert Total(ENV, [b], marks, 0) == 1;
  }

  lemma Bounded(h: Hop, bad: Node, good: Node, ms: set<Marker>, chain: Marker, marks: Marks)
    requires TwoNodes(h, bad, good) && ms == {bad.spec.marker, good.spec.marker, chain}
    requires bad.spec.marker != good.spec.marker && bad.spec.marker != chain && good.spec.marker != chain
    requires marks.Keys == ms && forall m :: m in marks ==> marks[m] == Mark(0, 0)
    ensures Hopeful(ENV, [h], REQUEST, ms, chain, marks, 0, 0)
    ensures Brief(Pool([h], REQUEST), 0, 0) && TotalBudget(ENV, [h], REQUEST, marks, 0) == 1
  {
    hide Works, Broken, Candidates, Pool, Failsafe, Total, Cands, FailRule, Entrants;
    BothEnter(h, bad, good);
    BothDecided(bad.spec, good.spec);
    var f := FailRule(h);
    PoolOfOne(h, Entrant(f, bad), Entrant(f, good));
    BudgetOfOne(Entrant(f, bad), Entrant(f, good), marks);
    assert good in Cands(h, REQUEST) && Live(f, good, marks, 0);
    assert HasWorking(ENV, h, REQUEST, marks, 0);
  }

  lemma Ready(r: Router, h: Hop, bad: Node, good: Node, resolve: nat -> Option<string>, ms: set<Marker>,
              ts: set<Transport>)
    requires r.chain.hops == [h] && TwoNodes(h, bad, good) && ts == {bad.transport, good.transport}
    requires r.chain.marker != null && r.chain.marker in ms && bad.spec.marker in ms && good.spec.marker in ms
    requires forall i: nat :: resolve(i) == Some("target:80")
    ensures r.Routable("tcp", "target:80", resolve, ms, ts)
  {
    hide Failsafe, Candidates, Eligible;
    BothEnter(h, bad, good);
    assert Requested("tcp", "target:80", "target:80") == REQUEST;
    assert Candidates(h.split, h.nodes, REQUEST) == [bad, good];
  }

  method TwoSpecs() returns (bad: Node, good: Node, hop: Hop)
    ensures fresh(bad) && fresh(good) && fresh(hop) && TwoNodes(hop, bad, good) && bad.transport != good.transport
    ensures fresh(bad.transport) && fresh(good.transport) && bad.transport.route == null && good.transport.route == null
    ensures bad.spec.marker != good.spec.marker && fresh(bad.spec.marker) && fresh(good.spec.marker)
    ensures bad.spec.marker.count == 0 && bad.spec.marker.time == 0
    ensures good.spec.marker.count == 0 && good.spec.marker.time == 0
    ensures hop.Valid() && hop.Counters() == {} && hop.Tables() == {}
  {
    var mb := new Marker();
    var mg := new Marker();
    var tb := new Transport(false);
    var tg := new Transport(false);
    bad := new Node(Spec("bad", "bad:1", mb), tb);
    good := new Node(Spec("good", "good:1", mg), tg);
    var selector := new NodeSelector(FifoStrategy, [FailFilter(1, 0), BackupFilter]);
    hop := new Hop([bad, good], None, selector, s => "");
  }

  lemma NoCounters(c: Chain, h: Hop, ts: set<Transport>)
    requires c.hops == [h] && h.Valid() && h.Counters() == {} && h.Tables() == {}
    requires forall t :: t in ts ==> t.route == null
    ensures c.Valid() && c.Plain(ts) && c.Counters() == {} && c.Tables() == {}
  {
  }

  // With one retry the dial succeeds, because only one attempt can fail.
  method OneFailureAtMost() returns (end: Ending, failed: nat)
    ensures end == Reached && failed <= 1
  {
    hide Hopeful, Brief, Pool, TotalBudget, Failsafe, Candidates, Chain.Known, Chain.Separate, Chain.Valid, Chain.Plain,
      Chain.Counters, Chain.Tables, Hop.Valid, Hop.Counters, Hop.Tables, Router.Routable, World.Valid, TwoNodes, Replay,
      Spec, Monotone, Accepts, Works, Broken;
    var bad, good, hop := TwoSpecs();
    var mc := new Marker();
    var chain := new Chain([hop], mc);
    var router := new Router(1, chain);
    ghost var ms, ts := {bad.spec.marker, good.spec.marker, mc}, {bad.transport, good.transport};
    var w := new World(ENV, ms);
    var resolve := (i: nat) => Some("target:80");
    NoCounters(chain, hop, ts);
    Ready(router, hop, bad, good, resolve, ms, ts);
    SpecsOf(hop, bad, good);
    BothDecided(bad.spec, good.spec);
    Bounded(hop, bad, good, ms, mc, Reading(ms));
    ghost var tries, fatal;
    end, failed, tries, fatal := router.Dial("tcp", "target:80", resolve, w, (i, j) => 0, 2, ts, "target:80", 0);
  }

  lemma SpecsOf(h: Hop, bad: Node, good: Node)
    requires TwoNodes(h, bad, good)
    ensures Id(bad.spec) == BAD && Id(good.spec) != BAD && bad.spec.marker != null && good.spec.marker != null
  {
  }

  // ---------- A shared multiplexed transport ----------

  // The only candidate of a hop is selected by every hop that is that one.
  lemma SameTwice(c: Chain, h: Hop, n: Node, marks: Marks, now: int, picks: seq<Node>, orders: seq<seq<Node>>)
    requires c.hops == [h, h] && h.bypass == None && Candidates(h.split, h.nodes, REQUEST) == [n]
    requires n.transport.multiplex && c.Selection(REQUEST, marks, now, picks, orders)
    ensures !Distinct(MuxTransports(picks))
  {
    hide Candidates;
    assert |picks| < 2 ==> h.Selected(REQUEST, marks, now, orders[|picks|], null);
    assert picks[0] == n && picks[1] == n;
    assert picks == [n, n] && [n, n][..1] == [n] && [n][..0] == [];
    assert MuxTransports([n]) == [] + [n.transport];
    var ts := MuxTransports(picks);
    assert ts == [n.transport] + [n.transport];
    assert ts[0] == ts[1];
  }

  method OneHop() returns (n: Node, h: Hop)
    ensures fresh(n) && fresh(h) && fresh(n.transport) && n.transport.multiplex && n.transport.route == null
    ensures n.spec.marker != null && fresh(n.spec.marker)
    ensures h.bypass == None && Candidates(h.split, h.nodes, REQUEST) == [n]
    ensures h.Valid() && h.Counters() == {} && h.Tables() == {}
  {
    var m := new Marker();
    var t := new Transport(true);
    n := new Node(Spec("only", "only:1", m), t);
    h := new Hop([n], None, null, s => "");
    AnyoneMay(h.split, n.spec);
    OneMore(h.split, [], n);
    assert [] + [n] == [n] && Candidates(h.split, [], REQUEST) == [];
  }

  ghost predicate FirstTry(c: Chain, w: World, reqs: nat -> Request, tries: seq<Try>) {
    tries != [] && Chosen(c, w.env, w.base, reqs(0), tries[0]) && Distinct(MuxTransports(tries[0].picks))
  }

  lemma TriedFirst(c: Chain, w: World, reqs: nat -> Request, start: Tape, end: Tape, tries: seq<Try>, ok: bool)
    requires c.hops != [] && tries != [] && Tried(c, w.env, w.base, reqs, start, end, tries, ok)
    ensures FirstTry(c, w, reqs, tries)
  {
    hide Exec, DialScript, LevelsOf, Chosen, Distinct, MuxTransports;
    assert IsTry(c, w.env, w.base, reqs(0), tries[0], ok && 0 == |tries| - 1);
  }

  // A chain that holds one hop twice, with a multiplexed node, overflows the stack at the first try.
  method SameHopTwice() returns (end: Ending, failed: nat)
    ensures end == Overflown && failed == 0
  {
    hide Hopeful, Brief, Pool, TotalBudget, Candidates, Chain.Valid, Chain.Plain, Chain.Counters, Chain.Tables,
      Hop.Valid, Hop.Counters, Hop.Tables, World.Valid, Replay, Spec, Tried, Chosen, Distinct, MuxTransports,
      Router.Promising, Chain.Selection, Overflows;
    var n, h := OneHop();
    var mc := new Marker();
    var chain := new Chain([h, h], mc);
    var router := new Router(0, chain);
    var w := new World(ENV, {n.spec.marker, mc});
    var resolve := (i: nat) => Some("target:80");
    NoCountersTwice(chain, h, {n.transport});
    KnownTwice(router, h, n, resolve, {n.spec.marker, mc});
    ghost var tries, fatal;
    ghost var start := w.tape;
    end, failed, tries, fatal := router.Dial("tcp", "target:80", resolve, w, (i, j) => 0, 3, {n.transport}, "", 0);
    ghost var reqs := Router.RequestsOf("tcp", "target:80", resolve);
    assert reqs(0) == REQUEST;
    if tries != [] {
      TriedFirst(chain, w, reqs, start, w.tape, tries, end.Reached?);
      NeverChosen(chain, h, n, w, tries[0]);
    }
  }

  lemma NeverChosen(c: Chain, h: Hop, n: Node, w: World, y: Try)
    requires c.hops == [h, h] && h.bypass == None && Candidates(h.split, h.nodes, REQUEST) == [n]
    requires n.transport.multiplex
    ensures !(Chosen(c, w.env, w.base, REQUEST, y) && Distinct(MuxTransports(y.picks)))
  {
    hide Candidates, Distinct, MuxTransports, Chain.Selection, Replay;
    if Chosen(c, w.env, w.base, REQUEST, y) {
      SameTwice(c, h, n, Replay(w.base, y.before.moves), w.env.clock(y.before.calls), y.picks, y.orders);
    }
  }

  lemma NoCountersTwice(c: Chain, h: Hop, ts: set<Transport>)
    requires c.hops == [h, h] && h.Valid() && h.Counters() == {} && h.Tables() == {}
    requires forall t :: t in ts ==> t.route == null
    ensures c.Valid() && c.Plain(ts) && c.Counters() == {} && c.Tables() == {}
  {
  }

  lemma KnownTwice(r: Router, h: Hop, n: Node, resolve: nat -> Option<string>, ms: set<Marker>)
    requires r.chain.hops == [h, h] && Candidates(h.split, h.nodes, REQUEST) == [n]
    requires r.chain.marker != null && r.chain.marker in ms && n.spec.marker != null && n.spec.marker in ms
    requires forall i: nat :: resolve(i) == Some("target:80")
    ensures r.Routable("tcp", "target:80", resolve, ms, {n.transport})
  {
    hide Candidates;
    assert Requested("tcp", "target:80", "target:80") == REQUEST;
  }

  // ---------- A dead node that is preferred ----------

  function Preferred(s: NodeSpec): NodeSpec {
    s.(priority := 1)
  }

  // The dead node has a positive priority and the live one has none: the dead one is selected.
  method DeadIsPreferred() returns (r: Node?, dead: Node, live: Node, h: Hop, ghost marks: Marks)
    ensures Candidates(h.split, h.nodes, REQUEST) == [dead, live] && h.selector != null
    ensures Standard(h.selector.filters)
    ensures r == dead && !Live(h.selector.filters[0], dead, marks, 0) && Live(h.selector.filters[0], live, marks, 0)
  {
    hide Candidates, Hop.Valid, Hop.Counters, Hop.Tables;
    var md := new Marker();
    var ml := new Marker();
    var td := new Transport(false);
    var tl := new Transport(false);
    dead := new Node(Preferred(Spec("dead", "dead:1", md)), td);
    live := new Node(Spec("live", "live:1", ml), tl);
    md.Mark(0);
    var selector := new NodeSelector(FifoStrategy, [FailFilter(1, 0), BackupFilter]);
    h := new Hop([dead, live], None, selector, s => "");
    PairEnters(h, dead, live);
    ghost var order;
    marks := Reading({md, ml});
    NoneCount(h);
    r, order := h.Select(REQUEST, 0, 0, {md, ml});
    TopIsFirst(h, dead, live, marks, order, r);
  }

  lemma NoneCount(h: Hop)
    requires h.selector != null && h.selector.strategy.FifoStrategy?
    ensures h.Valid() && h.Counters() == {} && h.Tables() == {}
  {
  }

  lemma PairEnters(h: Hop, a: Node, b: Node)
    requires h.nodes == [a, b]
    requires a.spec.bypass == None && a.spec.matcher == None && a.spec.filter == None
    requires b.spec.bypass == None && b.spec.matcher == None && b.spec.filter == None
    ensures Candidates(h.split, h.nodes, REQUEST) == [a, b]
  {
    hide Eligible;
    AnyoneMay(h.split, a.spec);
    AnyoneMay(h.split, b.spec);
    OneMore(h.split, [], a);
    OneMore(h.split, [a], b);
    assert Candidates(h.split, [], REQUEST) == [] && [] + [a] == [a] && [a] + [b] == [a, b];
  }

  lemma TopIsFirst(h: Hop, a: Node, b: Node, marks: Marks, order: seq<Node>, r: Node?)
    requires h.bypass == None && Candidates(h.split, h.nodes, REQUEST) == [a, b]
    requires a.spec.priority > 0 && b.spec.priority < a.spec.priority
    requires h.Selected(REQUEST, marks, 0, order, r)
    ensures r == a
  {
    hide Candidates;
    assert a in [a, b] && Prioritised([a, b]);
  }
}
