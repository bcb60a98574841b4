// The retry loop of the router, and the bound on failed attempts.

module Routers {
  import opened Common
  import opened Nodes
  import opened Weighted
  import opened Selector
  import opened Hops
  import opened Wire
  import opened Routing
  import opened Refusal
  import opened FlatDial
  import opened Dialing
  import opened Routes
  import opened RoutePaths
  import opened Chains
  import opened Failover

  // Everything the bound needs to know at one moment: every hop has two candidates or more and one of them works
  // and is live; the others are broken for good; no fail timeout runs out before the deadline.
  ghost predicate Hopeful(env: Env, hops: seq<Hop>, req: Request, ms: set<Marker>, chain: Marker?,
                          marks: Marks, now: int, deadline: int)
  {
    && AllFailsafe(hops, req)
    && Sound(env, Pool(hops, req), ms, chain)
    && Steady(env, Pool(hops, req), marks, now, deadline)
    && (forall h :: h in hops ==> HasWorking(env, h, req, marks, now))
  }

  // The failures all live broken candidates have left.
  ghost function TotalBudget(env: Env, hops: seq<Hop>, req: Request, marks: Marks, deadline: int): nat {
    if AllFailsafe(hops, req) then Total(env, Pool(hops, req), marks, deadline) else 0
  }

  // From the start on, the deadline is nearer than any fail timeout.
  ghost predicate Brief(pool: seq<Entrant>, start: int, deadline: int) {
    forall e :: e in pool && e.f.FailFilter? ==> deadline - start < FailTimeout(e.f, e.n.spec)
  }

  // While every hop has a working live candidate, every hop selects a live node.
  lemma HopPicksLive(env: Env, h: Hop, req: Request, marks: Marks, now: int, order: seq<Node>, r: Node?)
    requires Failsafe(h, req) && HasWorking(env, h, req, marks, now)
    requires h.Selected(req, marks, now, order, r)
    ensures r != null && r in Cands(h, req) && Live(FailRule(h), r, marks, now)
  {
    StandardSelect(h, req, marks, now, order, r);
  }

  ghost predicate PickedLive(hops: seq<Hop>, req: Request, marks: Marks, now: int, picks: seq<Node>)
    requires AllFailsafe(hops, req)
  {
    && |picks| == |hops|
    && forall i :: 0 <= i < |picks| ==>
         picks[i] in Cands(hops[i], req) && Live(FailRule(hops[i]), picks[i], marks, now)
  }

  lemma SelectionIsLive(env: Env, c: Chain, req: Request, ms: set<Marker>, marks: Marks, now: int, deadline: int,
                        picks: seq<Node>, orders: seq<seq<Node>>)
    requires Hopeful(env, c.hops, req, ms, c.marker, marks, now, deadline)
    requires c.Selection(req, marks, now, picks, orders)
    ensures PickedLive(c.hops, req, marks, now, picks)
  {
    hide Failsafe, HasWorking, Hop.Selected, Live, Cands, Sound, Steady, Pool;
    if |picks| < |c.hops| {
      HopPicksLive(env, c.hops[|picks|], req, marks, now, orders[|picks|], null);
      assert false;
    }
    forall i | 0 <= i < |picks|
      ensures picks[i] in Cands(c.hops[i], req) && Live(FailRule(c.hops[i]), picks[i], marks, now)
    {
      HopPicksLive(env, c.hops[i], req, marks, now, orders[i], picks[i]);
    }
  }

  lemma PickedAreDrawn(env: Env, hops: seq<Hop>, req: Request, ms: set<Marker>, chain: Marker?,
                       marks: Marks, now: int, picks: seq<Node>)
    requires AllFailsafe(hops, req) && Sound(env, Pool(hops, req), ms, chain)
    requires PickedLive(hops, req, marks, now, picks)
    ensures Drawn(Pool(hops, req), picks) && Decided(env, Specs(picks))
    ensures forall i :: 0 <= i < |picks| ==> !picks[i].transport.multiplex
    ensures forall i :: 0 <= i < |picks| ==> Entrant(FailRule(hops[i]), picks[i]) in Pool(hops, req)
  {
    hide Works, Broken, Pool, Live, Cands;
    forall i | 0 <= i < |picks|
      ensures Entrant(FailRule(hops[i]), picks[i]) in Pool(hops, req) && Entered(Pool(hops, req), picks[i])
    {
      PoolHasAll(hops, req, hops[i], picks[i]);
    }
    forall n | n in Specs(picks) ensures Works(env, n) || Broken(env, n) {
      var i :| 0 <= i < |picks| && Specs(picks)[i] == n;
      var e := Entrant(FailRule(hops[i]), picks[i]);
      assert e in Pool(hops, req);
    }
  }

  // A failed attempt leaves the hops hopeful and lowers the total budget.
  lemma AttemptUsesBudget(env: Env, hops: seq<Hop>, req: Request, ms: set<Marker>, chain: Marker?, start: int,
                          marks: Marks, later: Marks, now: int, at: int, after: int, deadline: int,
                          picks: seq<Node>, b: nat)
    requires Hopeful(env, hops, req, ms, chain, marks, now, deadline)
    requires Brief(Pool(hops, req), start, deadline) && start <= now <= at <= after <= deadline
    requires PickedLive(hops, req, marks, now, picks) && b < |picks| && !Works(env, picks[b].spec)
    requires Moved(env, Pool(hops, req), marks, later, picks[b], at)
    ensures Hopeful(env, hops, req, ms, chain, later, after, deadline)
    ensures Total(env, Pool(hops, req), later, deadline) < Total(env, Pool(hops, req), marks, deadline)
  {
    var pool := Pool(hops, req);
    var x := Entrant(FailRule(hops[b]), picks[b]);
    forall e | e in pool
      ensures Lowers(env, e, marks, later, deadline)
      ensures !Works(env, e.n.spec) ==> Fixed(e, later, after, deadline)
      ensures e == x ==> Budget(env, x, later, deadline) < Budget(env, x, marks, deadline)
    {
      EntrantAfter(env, pool, marks, later, picks[b], at, now, after, deadline, start, e);
    }
    PickedAreDrawn(env, hops, req, ms, chain, marks, now, picks);
    TotalFalls(env, pool, marks, later, deadline, x);
    forall h | h in hops ensures HasWorking(env, h, req, later, after) {
      WorkingStays(env, hops, h, req, marks, later, now, after, picks[b], at);
    }
  }

  lemma EntrantAfter(env: Env, pool: seq<Entrant>, marks: Marks, later: Marks, hit: Node, at: int, now: int,
                     after: int, deadline: int, start: int, e: Entrant)
    requires e in pool && e.f.FailFilter? && Moved(env, pool, marks, later, hit, at)
    requires Brief(pool, start, deadline) && Steady(env, pool, marks, now, deadline)
    requires start <= now <= at <= after <= deadline
    ensures Lowers(env, e, marks, later, deadline)
    ensures !Works(env, e.n.spec) ==> Fixed(e, later, after, deadline)
    ensures e.n == hit && !Works(env, e.n.spec) && Live(e.f, e.n, marks, now) ==>
      Budget(env, e, later, deadline) < Budget(env, e, marks, deadline)
  {
    MovedLowers(env, pool, marks, later, hit, at, now, deadline, e);
  }

  lemma WorkingStays(env: Env, hops: seq<Hop>, h: Hop, req: Request, marks: Marks, later: Marks,
                     now: int, after: int, hit: Node, at: int)
    requires AllFailsafe(hops, req) && h in hops && Failsafe(h, req)
    requires HasWorking(env, h, req, marks, now) && now <= after
    requires Moved(env, Pool(hops, req), marks, later, hit, at)
    ensures HasWorking(env, h, req, later, after)
  {
    hide Works, Pool, Cands;
    var g :| g in Cands(h, req) && Works(env, g.spec) && Live(FailRule(h), g, marks, now);
    PoolHasAll(hops, req, h, g);
    var e := Entrant(FailRule(h), g);
    assert e in Pool(hops, req);
    assert Live(FailRule(h), g, later, after);
  }

  ghost predicate Monotone(clock: nat -> int) {
    forall i: nat, j: nat :: i <= j ==> clock(i) <= clock(j)
  }

  // The target accepts every connection made through a node.
  ghost predicate Accepts(env: Env, target: string) {
    forall p, i :: env.fate(Via(p, target), i)
  }

  lemma FailedAttempt(env: Env, c: Chain, req: Request, ms: set<Marker>, base: Marks, t: Tape, r: Run, picks: seq<Node>,
                      orders: seq<seq<Node>>, ls: seq<Level>, start: int, deadline: int)
    requires base.Keys == ms && Hopeful(env, c.hops, req, ms, c.marker, Replay(base, t.moves), env.clock(t.calls), deadline)
    requires Brief(Pool(c.hops, req), start, deadline) && Monotone(env.clock) && Accepts(env, req.address)
    requires c.hops != [] && c.Selection(req, Replay(base, t.moves), env.clock(t.calls), picks, orders)
    requires LevelsOf(ls, picks, c.marker) && r == Exec(env, t, DialScript(ls, req.address)) && !r.ok
    requires start <= env.clock(t.calls) && env.clock(r.tape.calls) <= deadline
    ensures t.calls <= r.tape.calls
    ensures Hopeful(env, c.hops, req, ms, c.marker, Replay(base, r.tape.moves), env.clock(r.tape.calls), deadline)
    ensures TotalBudget(env, c.hops, req, Replay(base, r.tape.moves), deadline)
          < TotalBudget(env, c.hops, req, Replay(base, t.moves), deadline)
  {
    hide Exec, DialScript, Replay, Works, Broken, PickedLive, FlatFailure, Moved, Drawn, Chain.Selection, Total, Decided,
      Brief, Accepts, Pool;
    ExecCalls(env, t, DialScript(ls, req.address));
    AttemptFails(env, c, req, ms, base, t, r, picks, orders, ls, deadline);
    var marks, pool := Replay(base, t.moves), Pool(c.hops, req);
    var now, at := env.clock(t.calls), env.clock(r.tape.calls);
    var b: nat :| HitAt(env, pool, marks, Replay(base, r.tape.moves), picks, b, at);
    SelectionIsLive(env, c, req, ms, marks, now, deadline, picks, orders);
    AttemptUsesBudget(env, c.hops, req, ms, c.marker, start, marks, Replay(base, r.tape.moves), now, at, at, deadline,
                      picks, b);
  }

  ghost predicate HitAt(env: Env, pool: seq<Entrant>, marks: Marks, later: Marks, picks: seq<Node>, b: nat, at: int) {
    b < |picks| && !Works(env, picks[b].spec) && Moved(env, pool, marks, later, picks[b], at)
  }

  // A failed attempt hits one broken node of the selection.
  lemma AttemptFails(env: Env, c: Chain, req: Request, ms: set<Marker>, base: Marks, t: Tape, r: Run, picks: seq<Node>,
                     orders: seq<seq<Node>>, ls: seq<Level>, deadline: int)
    requires base.Keys == ms && Hopeful(env, c.hops, req, ms, c.marker, Replay(base, t.moves), env.clock(t.calls), deadline)
    requires Accepts(env, req.address)
    requires c.hops != [] && c.Selection(req, Replay(base, t.moves), env.clock(t.calls), picks, orders)
    requires LevelsOf(ls, picks, c.marker) && r == Exec(env, t, DialScript(ls, req.address)) && !r.ok
    ensures exists b: nat :: HitAt(env, Pool(c.hops, req), Replay(base, t.moves), Replay(base, r.tape.moves), picks, b,
                                   env.clock(r.tape.calls))
  {
    hide Exec, DialScript, Replay, Works, Broken, Moved, Drawn, Chain.Selection, Decided, Pool;
    var marks, pool := Replay(base, t.moves), Pool(c.hops, req);
    var now, l := env.clock(t.calls), Level(Specs(picks), c.marker);
    SelectionIsLive(env, c, req, ms, marks, now, deadline, picks, orders);
    PickedAreDrawn(env, c.hops, req, ms, c.marker, marks, now, picks);
    assert ls == [l];
    FlatOutcome(env, t, l, req.address);
    var b: nat :| FlatFailure(env, l, b, t, r.tape);
    BrokenDoesNotWork(env, picks[b].spec, t.calls);
    FailureMoves(env, pool, ms, c.marker, base, picks, b, t, r.tape);
    assert HitAt(env, pool, marks, Replay(base, r.tape.moves), picks, b, env.clock(r.tape.calls));
  }

  lemma BrokenDoesNotWork(env: Env, n: NodeSpec, i: nat)
    requires Broken(env, n)
    ensures !Works(env, n)
  {
    AllCalls(env, n, i, Open(n.addr), i, i);
  }

  // Candidates of a hopeful chain are not multiplexed, so no selection overflows.
  lemma HopefulIsFlat(env: Env, c: Chain, req: Request, ms: set<Marker>, marks: Marks, now: int, deadline: int,
                      picks: seq<Node>, orders: seq<seq<Node>>)
    requires Hopeful(env, c.hops, req, ms, c.marker, marks, now, deadline)
    requires c.Selection(req, marks, now, picks, orders)
    ensures Distinct(MuxTransports(picks))
  {
    hide Chain.Selection, Pool, PickedLive;
    SelectionIsLive(env, c, req, ms, marks, now, deadline, picks, orders);
    PickedAreDrawn(env, c.hops, req, ms, c.marker, marks, now, picks);
    NoMux(picks);
  }

  // The levels dialled for a selection: they flatten to it, and without multiplexing there is a single route.
  ghost predicate LevelsOf(ls: seq<Level>, picks: seq<Node>, chain: Marker?) {
    && Nested(ls) && Flatten(ls) == Specs(picks)
    && ((forall n :: n in picks ==> !n.transport.multiplex) ==> ls == [Level(Specs(picks), chain)])
  }

  // The chain is bypassed and the target dialled directly exactly when the first hop finds every candidate dead.
  lemma BypassedWhenAllDead(c: Chain, req: Request, marks: Marks, now: int, picks: seq<Node>, orders: seq<seq<Node>>,
                            ls: seq<Level>)
    requires c.hops != [] && Failsafe(c.hops[0], req) && c.Selection(req, marks, now, picks, orders)
    requires LevelsOf(ls, picks, c.marker)
    ensures DialScript(ls, req.address) == Do(Open(req.address), false, null)
        <==> forall n :: n in Cands(c.hops[0], req) ==> !Live(FailRule(c.hops[0]), n, marks, now)
  {
    StandardSelect(c.hops[0], req, marks, now, orders[0], if picks == [] then null else picks[0]);
    assert |Specs(picks)| == |picks|;
    if picks == [] {
      assert Specs(picks) == [];
      assert ls == [Level([], c.marker)];
    } else if ls == [] || ls[|ls| - 1].nodes == [] {
      EmptyFlatten(ls);
    }
  }

  ghost predicate AllDead(h: Hop, req: Request, marks: Marks, now: int) {
    forall n :: n in Cands(h, req) ==> !Live(FailRule(h), n, marks, now)
  }

  // The route is cut at the first hop that finds every candidate dead, and the target is dialled from there.
  lemma CutAtFirstDeadHop(c: Chain, req: Request, marks: Marks, now: int, picks: seq<Node>, orders: seq<seq<Node>>,
                          ls: seq<Level>)
    requires c.hops != [] && AllFailsafe(c.hops, req) && c.Selection(req, marks, now, picks, orders)
    requires LevelsOf(ls, picks, c.marker)
    ensures |picks| <= |c.hops| && (forall i :: 0 <= i < |picks| ==> !AllDead(c.hops[i], req, marks, now))
    ensures |picks| < |c.hops| ==> AllDead(c.hops[|picks|], req, marks, now)
    ensures Links(DialScript(ls, req.address)) == PathLinks(Specs(picks), req.address)
  {
    hide Failsafe, Hop.Selected, Live, Cands, FailRule;
    DialLinks(ls, req.address);
    forall i | 0 <= i < |picks| ensures !AllDead(c.hops[i], req, marks, now) {
      DeadIffNone(c.hops[i], req, marks, now, orders[i], picks[i]);
    }
    if |picks| < |c.hops| {
      DeadIffNone(c.hops[|picks|], req, marks, now, orders[|picks|], null);
    }
  }

  lemma DeadIffNone(h: Hop, req: Request, marks: Marks, now: int, order: seq<Node>, r: Node?)
    requires Failsafe(h, req) && h.Selected(req, marks, now, order, r)
    ensures r == null <==> AllDead(h, req, marks, now)
  {
    hide Hop.Selected, Live;
    StandardSelect(h, req, marks, now, order, r);
  }

  lemma EmptyFlatten(ls: seq<Level>)
    requires Nested(ls) && (ls == [] || ls[|ls| - 1].nodes == [])
    ensures Flatten(ls) == []
  {
    if ls != [] {
      assert |ls| == 1;
      assert Flatten(ls[..0]) == [];
    }
  }

  lemma PlanLevels(p: Plan, ms: set<Marker>, chain: Marker?)
    requires p.rs != [] && Shows(p.h) && Distinct(MuxTransports(p.picks)) && p.rs[0].marker == chain
    requires Covered(p.picks, ms) && (chain != null ==> chain in ms)
    ensures Marking(p.rs, ms)
    ensures Built(p.rs, Levels(p.rs), Region(p.h.nodes.Keys, p.h.link.Keys), ms)
    ensures LevelsOf(Levels(p.rs), p.picks, chain)
  {
    PlanMarkers(p);
    PlanCovered(p, ms);
    PlanIsDialable(p, ms);
    if forall n :: n in p.picks ==> !n.transport.multiplex {
      NoMux(p.picks);
      SinglePlan(p);
    }
  }

  lemma SinglePlan(p: Plan)
    requires p.rs != [] && Shows(p.h) && MuxTransports(p.picks) == [] && Flatten(Levels(p.rs)) == Specs(p.picks)
    ensures Levels(p.rs) == [Level(Specs(p.picks), p.rs[0].marker)]
  {
    assert Outers(p.h, p.rs) == [] && |p.rs| == 1;
    var ls := Levels(p.rs);
    assert ls[..0] == [] && Flatten(ls) == [] + ls[0].nodes;
    assert ls[0].nodes == Specs(p.picks) && ls == [LevelOf(p.rs[0])];
  }

  // Every node of the routes has the options of some selected node.
  lemma PlanCovered(p: Plan, ms: set<Marker>)
    requires p.rs != [] && Shows(p.h)
    requires Covered(p.picks, ms)
    ensures forall k :: 0 <= k < |p.rs| ==> Covered(p.rs[k].nodes, ms)
  {
    forall k, n | 0 <= k < |p.rs| && n in p.rs[k].nodes && n.spec.marker != null ensures n.spec.marker in ms {
      InAllNodes(p.h, p.rs, k, n);
      var i :| 0 <= i < |AllNodes(p.h, p.rs)| && AllNodes(p.h, p.rs)[i] == n;
      assert Specs(AllNodes(p.h, p.rs))[i] == Specs(p.picks)[i];
      assert p.picks[i] in p.picks;
    }
  }

  lemma {:induction false} InAllNodes(h: Snap, rs: seq<Route>, k: nat, n: Node)
    requires (forall k :: 0 <= k < |rs| ==> rs[k] in h.nodes) && k < |rs| && n in h.nodes[rs[k]]
    ensures n in AllNodes(h, rs)
  {
    if k < |rs| - 1 {
      InAllNodes(h, rs[..|rs| - 1], k, n);
    }
  }

  // One try: the record before and after, the nodes selected hop by hop and the routes dialled.
  datatype Try = Try(before: Tape, after: Tape, picks: seq<Node>, orders: seq<seq<Node>>, ls: seq<Level>)

  // How a try or a dial ends. An overflow of the stack ends the whole process.
  datatype Ending = Reached | NotReached | Overflown

  // Every try selects anew, with the markers as the tries before it left them, and dials what it selected.
  ghost predicate IsTry(c: Chain, env: Env, base: Marks, req: Request, y: Try, ok: bool) {
    && Exec(env, y.before, DialScript(y.ls, req.address)) == Run(y.after, ok)
    && (if c.hops == [] then y.ls == []
        else LevelsOf(y.ls, y.picks, c.marker) && Chosen(c, env, base, req, y) && Distinct(MuxTransports(y.picks)))
  }

  ghost predicate Chosen(c: Chain, env: Env, base: Marks, req: Request, y: Try) {
    c.Selection(req, Replay(base, y.before.moves), env.clock(y.before.calls), y.picks, y.orders)
  }

  // A try that selects a multiplexed transport twice: printing its path overflows the stack before anything is dialled.
  ghost predicate Overflows(c: Chain, env: Env, base: Marks, req: Request, y: Try) {
    c.hops != [] && Chosen(c, env, base, req, y) && !Distinct(MuxTransports(y.picks)) && y.after == y.before
  }

  // A try begins where the one before it ended.
  predicate Follows(tries: seq<Try>, i: nat, start: Tape)
    requires i < |tries|
  {
    tries[i].before == if i == 0 then start else tries[i - 1].after
  }

  // A series of tries from one record to another; only the last may have succeeded.
  ghost predicate Tried(c: Chain, env: Env, base: Marks, reqs: nat -> Request, start: Tape, end: Tape, tries: seq<Try>,
                        ok: bool)
  {
    && (ok ==> tries != [])
    && (forall i :: 0 <= i < |tries| ==> IsTry(c, env, base, reqs(i), tries[i], ok && i == |tries| - 1))
    && (forall i :: 0 <= i < |tries| ==> Follows(tries, i, start))
    && end == if tries == [] then start else tries[|tries| - 1].after
  }

  lemma TriedNext(c: Chain, env: Env, base: Marks, reqs: nat -> Request, start: Tape, mid: Tape, tries: seq<Try>,
                  y: Try, ok: bool)
    requires Tried(c, env, base, reqs, start, mid, tries, false) && y.before == mid
    requires IsTry(c, env, base, reqs(|tries|), y, ok)
    ensures Tried(c, env, base, reqs, start, y.after, tries + [y], ok)
  {
    hide IsTry;
    var all, m := tries + [y], |tries|;
    forall i | 0 <= i <= m ensures IsTry(c, env, base, reqs(i), all[i], ok && i == m) {
      if i < m {
        assert all[i] == tries[i] && (ok && i == m) == (false && i == m - 1) == false;
      }
    }
    forall i | 0 <= i <= m ensures Follows(all, i, start) {
      assert i < m ==> Follows(tries, i, start);
    }
  }

  lemma NotTried(c: Chain, env: Env, base: Marks, reqs: nat -> Request, start: Tape)
    ensures Tried(c, env, base, reqs, start, start, [], false)
  {
  }

  // The last connection made leads to the address.
  predicate EndsAt(t: Tape, addr: string) {
    t.links != [] && var last := t.links[|t.links| - 1]; IsLink(last) && last.addr == addr
  }

  // A try that succeeds ends with a connection to the address asked for.
  lemma {:induction false} TryReaches(c: Chain, env: Env, base: Marks, req: Request, y: Try)
    requires IsTry(c, env, base, req, y, true)
    ensures EndsAt(y.after, req.address)
  {
    hide Chosen, Distinct, MuxTransports, Refused;
    DialOutcome(y.ls, req.address, env, y.before);
    var path := Flatten(y.ls);
    PathLinksAt(path, req.address, |path|);
  }

  lemma {:induction false} TriedReaches(c: Chain, env: Env, base: Marks, reqs: nat -> Request, start: Tape, end: Tape,
                                        tries: seq<Try>)
    requires Tried(c, env, base, reqs, start, end, tries, true)
    ensures tries != [] && EndsAt(end, reqs(|tries| - 1).address)
  {
    hide IsTry, Follows, EndsAt;
    var k: nat := |tries| - 1;
    TryReaches(c, env, base, reqs(k), tries[k]);
  }

  class Router {
    const retries: int
    const chain: Chain

    constructor (retries: int, chain: Chain)
      ensures this.retries == retries && this.chain == chain
    {
      this.retries := retries;
      this.chain := chain;
    }

    // One pass of the retry loop: route, print the path, dial. The stack is as deep as there are routes, or deeper.
    method Attempt(req: Request, w: World, entropy: nat -> nat, stack: nat, ghost ts: set<Transport>)
      returns (end: Ending, ghost picks: seq<Node>, ghost orders: seq<seq<Node>>, ghost ls: seq<Level>)
      requires w.Valid() && chain.Valid() && chain.Plain(ts) && chain.Known(req, w.ms, ts) && stack > |chain.hops|
      requires chain.marker != null ==> chain.marker in w.ms
      modifies chain.Counters(), chain.Tables(), ts, w`tape, w.ms
      ensures w.Valid() && chain.Valid() && chain.Plain(ts)
      ensures chain.hops != [] ==>
        chain.Selection(req, old(Reading(w.ms)), w.env.clock(old(w.tape.calls)), picks, orders)
      ensures end.Overflown? <==> chain.hops != [] && !Distinct(MuxTransports(picks))
      ensures end.Overflown? ==> w.tape == old(w.tape)
      ensures !end.Overflown? ==> Run(w.tape, end.Reached?) == Exec(w.env, old(w.tape), DialScript(ls, req.address))
      ensures !end.Overflown? ==> if chain.hops == [] then ls == [] else LevelsOf(ls, picks, chain.marker)
    {
      hide Consistent, Hop.Selected, Exec, DialScript, Chain.Selection, LevelsOf, Distinct, MuxTransports, Chain.Known,
        Chain.Valid, Chain.Plain, World.Valid, Shows, Reading, Covered;
      var rt;
      ghost var p;
      rt, orders, p := chain.Route(req, w.env.clock(w.tape.calls), entropy, w.ms, ts);
      picks, ls := p.picks, [];
      if rt == null {
        end := DialDirect(req.address, w);
      } else {
        SelectionIsCovered(chain, req, old(Reading(w.ms)), w.env.clock(old(w.tape.calls)), picks, orders);
        end, ls := DialPlan(rt, p, req.address, stack, w);
      }
    }

    function Count(): int {
      if retries + 1 <= 0 then 1 else retries + 1
    }

    // What every attempt relies on, whatever the address resolves to.
    ghost predicate Routable(network: string, address: string, resolve: nat -> Option<string>, ms: set<Marker>,
                             ts: set<Transport>)
    {
      && (chain.marker != null ==> chain.marker in ms)
      && forall i: nat :: resolve(i).Some? ==>
           var req := Requested(network, address, resolve(i).value);
           chain.Known(req, ms, ts)
    }

    // The situation in which failover is bounded.
    ghost predicate Promising(req: Request, resolve: nat -> Option<string>, env: Env, ms: set<Marker>, marks: Marks,
                              start: int, deadline: int)
    {
      && chain.hops != [] && (forall i: nat :: resolve(i) == Some(req.address))
      && Monotone(env.clock) && Accepts(env, req.address)
      && Hopeful(env, chain.hops, req, ms, chain.marker, marks, start, deadline)
      && Brief(Pool(chain.hops, req), start, deadline)
    }

    // What is asked for in each try; the address is resolved anew every time.
    static function RequestsOf(network: string, address: string, resolve: nat -> Option<string>): nat -> Request {
      (i: nat) => Requested(network, address, if resolve(i).Some? then resolve(i).value else "")
    }

    // Each of the first n tries asks for what the address resolved to at that time, on behalf of the address itself.
    static ghost predicate Resolved(network: string, address: string, resolve: nat -> Option<string>, n: nat) {
      forall i: nat :: i < n ==>
        var req := RequestsOf(network, address, resolve)(i);
        resolve(i) == Some(req.address) && req.network == network && req.host == address
    }

    static lemma ResolvedNext(network: string, address: string, resolve: nat -> Option<string>, n: nat)
      ensures Resolved(network, address, resolve, 0)
      ensures Resolved(network, address, resolve, n) && resolve(n).Some? ==> Resolved(network, address, resolve, n + 1)
    {
    }

    static lemma ResolvedAt(network: string, address: string, resolve: nat -> Option<string>, n: nat, i: nat)
      requires Resolved(network, address, resolve, n) && i < n
      ensures resolve(i) == Some(RequestsOf(network, address, resolve)(i).address)
    {
    }

    // Retries until an attempt succeeds, the address does not resolve or the tries are used up: one, and one more for each
    // retry configured. A try that selects a multiplexed transport twice overflows the stack, whatever its depth. In a
    // promising situation, and if the dial ends by the deadline, the failed attempts number at most the total budget.
    method Dial(network: string, address: string, resolve: nat -> Option<string>, w: World, entropy: (nat, nat) -> nat,
                stack: nat, ghost ts: set<Transport>, ghost ip: string, ghost deadline: int)
      returns (end: Ending, failed: nat, ghost tries: seq<Try>, ghost fatal: Try)
      requires w.Valid() && chain.Valid() && chain.Plain(ts) && Routable(network, address, resolve, w.ms, ts)
      requires stack > |chain.hops|
      modifies chain.Counters(), chain.Tables(), ts, w`tape, w.ms
      ensures w.Valid() && chain.Valid() && chain.Plain(ts)
      ensures |tries| == (if end.Reached? then failed + 1 else failed)
      ensures |tries| <= (if retries < 0 then 1 else retries + 1)
      ensures !end.NotReached? ==> failed < (if retries < 0 then 1 else retries + 1)
      ensures Resolved(network, address, resolve, |tries|)
      ensures end.Reached? ==> resolve(failed).Some? && EndsAt(w.tape, resolve(failed).value)
      ensures Tried(chain, w.env, w.base, RequestsOf(network, address, resolve), old(w.tape), w.tape, tries, end.Reached?)
      ensures end.NotReached? ==> failed == (if retries < 0 then 1 else retries + 1) || resolve(failed).None?
      ensures end.Overflown? ==>
        && resolve(failed).Some? && fatal.before == w.tape
        && Overflows(chain, w.env, w.base, RequestsOf(network, address, resolve)(failed), fatal)
      ensures var req := Requested(network, address, ip);
        var marks, start := old(Reading(w.ms)), w.env.clock(old(w.tape.calls));
        Promising(req, resolve, w.env, w.ms, marks, start, deadline) && w.env.clock(w.tape.calls) <= deadline ==>
          && !end.Overflown? && failed <= TotalBudget(w.env, chain.hops, req, marks, deadline)
          && ((if retries < 0 then 1 else retries + 1) > TotalBudget(w.env, chain.hops, req, marks, deadline) ==>
                end.Reached?)
    {
      hide Hopeful, TotalBudget, Reading, World.Valid, Chain.Valid, Chain.Plain, Replay, Exec, DialScript, Brief,
        Chain.Selection, LevelsOf, AllFailsafe, Chain.Known, Pool, Tried, Distinct, MuxTransports, Accepts, EndsAt, Resolved;
      end, failed, tries, fatal := NotReached, 0, [], Try(w.tape, w.tape, [], [], []);
      ghost var reqs := RequestsOf(network, address, resolve);
      NotTried(chain, w.env, w.base, reqs, w.tape);
      ResolvedNext(network, address, resolve, 0);
      ghost var req := Requested(network, address, ip);
      ghost var start := w.env.clock(w.tape.calls);
      ghost var promise := Promising(req, resolve, w.env, w.ms, Reading(w.ms), start, deadline);
      ghost var budget := TotalBudget(w.env, chain.hops, req, Reading(w.ms), deadline);
      while !end.Reached? && failed < Count()
        invariant w.Valid() && chain.Valid() && chain.Plain(ts) && !end.Overflown?
        invariant failed <= Count() && (end.Reached? ==> failed < Count())
        invariant |tries| == (if end.Reached? then failed + 1 else failed)
        invariant Resolved(network, address, resolve, |tries|)
        invariant Tried(chain, w.env, w.base, reqs, old(w.tape), w.tape, tries, end.Reached?)
        invariant promise ==> start <= w.env.clock(w.tape.calls)
        invariant promise && w.env.clock(w.tape.calls) <= deadline ==>
          failed + (if end.Reached? then 0 else TotalBudget(w.env, chain.hops, req, Reading(w.ms), deadline)) <= budget
        invariant promise && w.env.clock(w.tape.calls) <= deadline && !end.Reached? ==>
          Hopeful(w.env, chain.hops, req, w.ms, chain.marker, Reading(w.ms), w.env.clock(w.tape.calls), deadline)
        decreases Count() - failed, !end.Reached?
      {
        match resolve(failed) {
          case None =>
            return;
          case Some(addr) =>
            ghost var picks, orders, ls;
            ghost var t := w.tape;
            var now := failed;
            WorldReads(w);
            end, picks, orders, ls := Attempt(Requested(network, address, addr), w, i => entropy(now, i), stack, ts);
            WorldReads(w);
            ghost var y := Try(t, w.tape, picks, orders, ls);
            if promise && w.env.clock(t.calls) <= deadline {
              HopefulIsFlat(w.env, chain, req, w.ms, Replay(w.base, t.moves), w.env.clock(t.calls), deadline, picks, orders);
            }
            if end.Overflown? {
              fatal := y;
              return;
            }
            TriedNext(chain, w.env, w.base, reqs, old(w.tape), t, tries, y, end.Reached?);
            ResolvedNext(network, address, resolve, |tries|);
            tries := tries + [y];
            ExecCalls(w.env, t, DialScript(ls, addr));
            if promise && !end.Reached? && w.env.clock(w.tape.calls) <= deadline {
              FailedAttempt(w.env, chain, req, w.ms, w.base, t, Run(w.tape, false), picks, orders, ls, start, deadline);
            }
            if !end.Reached? {
              failed := failed + 1;
            }
        }
      }
      if end.Reached? {
        ResolvedAt(network, address, resolve, |tries|, failed);
        TriedReaches(chain, w.env, w.base, reqs, old(w.tape), w.tape, tries);
      }
    }
  }

  // The request of a dial whose address resolved.
  function Requested(network: string, address: string, ip: string): Request {
    Request(network, ip, address, "", "")
  }

  method DialDirect(target: string, w: World) returns (end: Ending)
    requires w.Valid()
    modifies w`tape, w.ms
    ensures w.Valid() && !end.Overflown?
    ensures Run(w.tape, end.Reached?) == Exec(w.env, old(w.tape), DialScript([], target))
  {
    var ok := Dial(null, target, w, [], [], Region({}, {}));
    end := if ok then Reached else NotReached;
  }

  // The path in the log is the selection, hop by hop; there is none when a multiplexed transport was selected twice.
  method PrintPath(rt: Route, stack: nat, ghost p: Plan) returns (path: Option<seq<Node>>)
    requires Stands(p, rt) && stack >= |p.rs|
    ensures path.Some? <==> Distinct(MuxTransports(p.picks))
    ensures path.Some? ==> Specs(path.value) == Specs(p.picks)
  {
    hide Distinct, MuxTransports;
    PathExistsIffDistinct(p, stack);
    PlanSealed(p);
    path := RoutePath(rt, stack, p.h);
  }

  // The path is printed, and then the route that holds the same selection is dialled.
  method DialPlan(rt: Route, ghost p: Plan, target: string, stack: nat, w: World) returns (end: Ending, ghost ls: seq<Level>)
    requires w.Valid() && Stands(p, rt) && stack > |p.picks|
    requires Covered(p.picks, w.ms) && (rt.marker != null ==> rt.marker in w.ms)
    modifies w`tape, w.ms
    ensures w.Valid()
    ensures end.Overflown? <==> !Distinct(MuxTransports(p.picks))
    ensures end.Overflown? ==> w.tape == old(w.tape)
    ensures !end.Overflown? ==> LevelsOf(ls, p.picks, rt.marker)
    ensures !end.Overflown? ==> Run(w.tape, end.Reached?) == Exec(w.env, old(w.tape), DialScript(ls, target))
  {
    hide Consistent, Exec, DialScript, LevelsOf, Distinct, MuxTransports, World.Valid, Built, Covered;
    ls := [];
    RoutesCounted(p);
    var path := PrintPath(rt, stack, p);
    if path.None? {
      return Overflown, [];
    }
    PlanLevels(p, w.ms, rt.marker);
    ls := Levels(p.rs);
    var ok := Dial(rt, target, w, p.rs, ls, Region(p.h.nodes.Keys, p.h.link.Keys));
    end := if ok then Reached else NotReached;
  }

  lemma PlanSealed(p: Plan)
    requires p.rs != []
    ensures Sealed(p.h)
  {
  }
}
