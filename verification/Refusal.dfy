// What is marked, cleared and closed when dialling nested routes is refused, for every nesting and every call.

module Refusal {
  import opened Nodes
  import opened Wire
  import opened Routing

  // Every node of a list is cleared, in order.
  function ClearAll(nodes: seq<NodeSpec>): seq<Move> {
    if nodes == [] then [] else ClearAll(nodes[..|nodes| - 1]) + ClearMove(nodes[|nodes| - 1].marker)
  }

  // A successful dial clears the nodes of each route and then its chain, inner routes first.
  function SuccessMoves(ls: seq<Level>): seq<Move> {
    if ls == [] || ls[|ls| - 1].nodes == [] then []
    else
      var l := ls[|ls| - 1];
      SuccessMoves(ls[..|ls| - 1]) + ClearAll(l.nodes) + ClearMove(l.marker)
  }

  // Where a dial was refused: the route, the node in it, and whether the routes nested in that route were connected.
  // They are not when the head of the route cannot even be resolved.
  datatype Spot = Spot(level: nat, node: nat, inner: bool)

  ghost predicate ValidSpot(ls: seq<Level>, s: Spot) {
    s.level < |ls| && s.node < |ls[s.level].nodes| && (!s.inner ==> s.node == 0)
  }

  // Cleared before the refusal: the routes nested inside and the nodes before the refusing one.
  function ClearedBefore(ls: seq<Level>, s: Spot): seq<Move>
    requires ValidSpot(ls, s)
  {
    (if s.inner then SuccessMoves(ls[..s.level]) else []) + ClearAll(ls[s.level].nodes[..s.node])
  }

  // Every route around the failed one marks its head, which could not be dialled, and its chain.
  function OuterMarks(ls: seq<Level>, k: nat): seq<Marker>
    requires Nested(ls) && k > 0
  {
    if |ls| <= k then []
    else
      var l := ls[|ls| - 1];
      OuterMarks(ls[..|ls| - 1], k) + ListOf(l.nodes[0].marker) + ListOf(l.marker)
  }

  // Marked after the refusal: the node, its chain, and the routes around.
  function MarkedAfter(ls: seq<Level>, s: Spot): seq<Marker>
    requires Nested(ls) && ValidSpot(ls, s)
  {
    ListOf(ls[s.level].nodes[s.node].marker) + ListOf(ls[s.level].marker) + OuterMarks(ls, s.level + 1)
  }

  predicate About(c: Call, n: NodeSpec) {
    match c
    case Resolve(m) => m == Id(n)
    case Greet(m) => m == Id(n)
    case Open(addr) => addr == n.addr
    case Via(_, addr) => addr == n.addr
  }

  // The connections that reach the first k nodes of a path.
  function Reached(path: seq<NodeSpec>, k: nat): seq<Call>
    requires k <= |path|
  {
    if k == 0 then [] else ReachLinks(path[..k])
  }

  // The p-th node of a path refused. What was connected tells which of its calls it was: the nodes before it when it
  // does not resolve or is not reached, itself as well when it does not greet. Only the head of a route can refuse
  // with the inner routes not connected; then it does not resolve, and nothing was connected.
  ghost predicate Stops(path: seq<NodeSpec>, p: nat, head: bool, inner: bool, f: Failure)
    requires p < |path|
  {
    var n := path[p];
    match f.call
    case Resolve(_) => f.call == Resolve(Id(n)) && inner == !head && f.links == if head then [] else Reached(path, p)
    case Greet(_) => f.call == Greet(Id(n)) && inner && f.links == Reached(path, p + 1)
    case _ => f.call == LinkTo(path[..p], n.addr) && inner && f.links == Reached(path, p)
  }

  // The place of a spot on the flattened path.
  function Position(ls: seq<Level>, s: Spot): nat {
    if s.level < |ls| then |Flatten(ls[..s.level])| + s.node else 0
  }

  ghost predicate StopsAt(ls: seq<Level>, f: Failure, s: Spot) {
    Position(ls, s) < |Flatten(ls)| && Stops(Flatten(ls), Position(ls, s), s.node == 0, s.inner, f)
  }

  ghost predicate RefusedAt(ls: seq<Level>, f: Failure, s: Spot)
    requires Nested(ls)
  {
    && ValidSpot(ls, s) && About(f.call, ls[s.level].nodes[s.node]) && StopsAt(ls, f, s)
    && f.clears == ClearedBefore(ls, s) && f.marks == MarkedAfter(ls, s)
  }

  // The routes were connected but the target refused: everything was cleared and nothing is marked.
  ghost predicate RefusedByTarget(ls: seq<Level>, target: string, f: Failure) {
    && f.clears == SuccessMoves(ls) && f.marks == []
    && f.call == LinkTo(Flatten(ls), target) && f.links == Reached(Flatten(ls), |Flatten(ls)|)
  }

  // The connection made so far is closed once; nothing is closed when none was made.
  ghost predicate Closes(f: Failure) {
    f.hangs == if f.links == [] then 0 else 1
  }

  // ---------- The clears of a whole script ----------

  lemma ClearAllStep(before: seq<Move>, nodes: seq<NodeSpec>, k: nat)
    requires 0 < k <= |nodes|
    ensures before + ClearAll(nodes[..k]) == (before + ClearAll(nodes[..k - 1])) + ClearMove(nodes[k - 1].marker)
  {
    assert nodes[..k][..k - 1] == nodes[..k - 1];
    Assoc(before, ClearAll(nodes[..k - 1]), ClearMove(nodes[k - 1].marker));
  }

  lemma {:induction false} WalkClears(head: Script, before: seq<Move>, nodes: seq<NodeSpec>, k: nat)
    requires 1 <= k <= |nodes|
    requires Clears(head) == before + ClearAll(nodes[..1])
    ensures Clears(WalkScript(head, nodes, k)) == before + ClearAll(nodes[..k])
  {
    hide HopScript, ClearAll, ClearMove;
    if k > 1 {
      WalkClears(head, before, nodes, k - 1);
      HopDoes(nodes[k - 2], nodes[k - 1]);
      ClearAllStep(before, nodes, k);
    }
  }

  lemma {:induction false} WalkConnects(head: Script, nodes: seq<NodeSpec>, k: nat)
    requires 1 <= k <= |nodes| && Links(head) != []
    ensures Links(WalkScript(head, nodes, k)) != []
  {
    if k > 1 {
      WalkConnects(head, nodes, k - 1);
    }
  }

  lemma HeadClears(inner: seq<Level>, nodes: seq<NodeSpec>, d: Script)
    requires nodes != [] && Clears(d) == SuccessMoves(inner)
    ensures Clears(HeadAround(d, nodes[0])) == SuccessMoves(inner) + ClearAll(nodes[..1])
  {
    HeadDoes(d, nodes[0]);
    assert nodes[..1][..0] == [];
    assert ClearAll(nodes[..1]) == ClearMove(nodes[0].marker);
  }

  lemma RouteDoes(inner: seq<Level>, nodes: seq<NodeSpec>)
    requires nodes != [] && Clears(DialScript(inner, nodes[0].addr)) == SuccessMoves(inner)
    ensures Clears(RouteScript(inner, nodes)) == SuccessMoves(inner) + ClearAll(nodes)
    ensures Links(RouteScript(inner, nodes)) != []
  {
    var d := DialScript(inner, nodes[0].addr);
    DialConnects(inner, nodes[0].addr);
    HeadDoes(d, nodes[0]);
    HeadClears(inner, nodes, d);
    assert nodes[..|nodes|] == nodes;
    WalkClears(HeadAround(d, nodes[0]), SuccessMoves(inner), nodes, |nodes|);
    WalkConnects(HeadAround(d, nodes[0]), nodes, |nodes|);
  }

  // Dialling makes at least one connection, so a later refusal has something to close.
  lemma DialConnects(ls: seq<Level>, target: string)
    ensures Links(DialScript(ls, target)) != []
  {
  }

  lemma {:induction false} DialClears(ls: seq<Level>, target: string)
    ensures Clears(DialScript(ls, target)) == SuccessMoves(ls)
    decreases |ls|
  {
    if ls != [] && ls[|ls| - 1].nodes != [] {
      var inner, l := ls[..|ls| - 1], ls[|ls| - 1];
      DialClears(inner, l.nodes[0].addr);
      RouteDoes(inner, l.nodes);
      ConnectDoes(inner, l);
    }
  }

  // ---------- The failures ----------

  // A walk through a route nested around the inner ones fails on one of its own nodes, or inside.
  ghost predicate OwnRefusal(inner: seq<Level>, nodes: seq<NodeSpec>, f: Failure, i: nat, done: bool) {
    && i < |nodes| && (!done ==> i == 0) && About(f.call, nodes[i])
    && Stops(Flatten(inner) + nodes, |Flatten(inner)| + i, i == 0, done, f)
    && f.clears == (if done then SuccessMoves(inner) else []) + ClearAll(nodes[..i])
    && f.marks == ListOf(nodes[i].marker)
  }

  ghost predicate InnerRefusal(inner: seq<Level>, head: NodeSpec, f: Failure, s: Spot)
    requires Nested(inner)
  {
    && ValidSpot(inner, s) && About(f.call, inner[s.level].nodes[s.node]) && StopsAt(inner, f, s)
    && f.clears == ClearedBefore(inner, s) && f.marks == MarkedAfter(inner, s) + ListOf(head.marker)
  }

  ghost predicate WalkRefusal(inner: seq<Level>, nodes: seq<NodeSpec>, f: Failure)
    requires Nested(inner) && nodes != []
  {
    || (exists i: nat, done :: OwnRefusal(inner, nodes, f, i, done))
    || (exists s :: InnerRefusal(inner, nodes[0], f, s))
  }

  lemma ThenFailure(a: Script, b: Script, c: Cut)
    requires Cuts(Then(a, b), c)
    ensures c.InFirst? ==> Cuts(a, c.cut) && FailureOf(Then(a, b), c) == FailureOf(a, c.cut)
    ensures !c.InFirst? ==> c.InSecond? && Cuts(b, c.cut) && FailureOf(Then(a, b), c) == After(a, FailureOf(b, c.cut))
  {
  }

  // What was connected, after what was before, when a node refuses that is reached through another one.
  ghost predicate HopStops(prev: NodeSpec, n: NodeSpec, before: seq<Call>, f: Failure) {
    match f.call
    case Resolve(_) => f.call == Resolve(Id(n)) && f.links == before
    case Greet(_) => f.call == Greet(Id(n)) && f.links == before + [Via(Id(prev), n.addr)]
    case _ => f.call == Via(Id(prev), n.addr) && f.links == before
  }

  lemma HopFailures(prev: NodeSpec, n: NodeSpec, c: Cut)
    requires Cuts(HopScript(prev, n), c)
    ensures var f := FailureOf(HopScript(prev, n), c);
      && About(f.call, n) && f.clears == [] && f.marks == ListOf(n.marker) && f.hangs == 1
      && HopStops(prev, n, [], f)
  {
    var s := HopScript(prev, n);
    ThenFailure(s.first, s.second, c);
    if c.InSecond? {
      ThenFailure(s.second.first, s.second.second, c.cut);
      if c.cut.InSecond? {
        GreetFailures(n, c.cut.cut);
      }
    }
  }

  lemma GreetFailures(n: NodeSpec, c: Cut)
    requires Cuts(GreetScript(n), c)
    ensures FailureOf(GreetScript(n), c) == Failure([], [], Greet(Id(n)), 1, ListOf(n.marker))
  {
  }

  // The head cannot be dialled through the inner routes.
  lemma {:induction false} HeadUndialled(inner: seq<Level>, nodes: seq<NodeSpec>, c: Cut)
    requires Nested(inner) && nodes != []
    requires Cuts(DialScript(inner, nodes[0].addr), c)
    ensures var f := Around(FailureOf(DialScript(inner, nodes[0].addr), c), nodes[0].marker);
      WalkRefusal(inner, nodes, f) && Closes(f)
    decreases |inner|, 1
  {
    var n := nodes[0];
    var h := FailureOf(DialScript(inner, n.addr), c);
    var f := Around(h, n.marker);
    DialFailures(inner, n.addr, c);
    if RefusedByTarget(inner, n.addr, h) {
      assert f.marks == [] + ListOf(n.marker) && ClearAll(nodes[..0]) == [];
      HeadUnreached(Flatten(inner), nodes, f);
      assert OwnRefusal(inner, nodes, f, 0, true);
    } else {
      var sp :| RefusedAt(inner, h, sp);
      assert InnerRefusal(inner, n, f, sp);
    }
  }

  lemma {:induction false} HeadUnreached(pre: seq<NodeSpec>, nodes: seq<NodeSpec>, f: Failure)
    requires nodes != [] && f.call == LinkTo(pre, nodes[0].addr) && f.links == Reached(pre, |pre|)
    ensures Stops(pre + nodes, |pre|, true, true, f) && About(f.call, nodes[0])
  {
    assert (pre + nodes)[..|pre|] == pre && pre[..|pre|] == pre;
  }

  lemma {:induction false} HeadUngreeted(pre: seq<NodeSpec>, nodes: seq<NodeSpec>, f: Failure)
    requires nodes != [] && f.call == Greet(Id(nodes[0])) && f.links == PathLinks(pre, nodes[0].addr)
    ensures Stops(pre + nodes, |pre|, true, true, f)
  {
    var n := nodes[0];
    assert (pre + nodes)[..|pre| + 1] == pre + [n] && (pre + [n])[..|pre|] == pre;
  }

  // The head refuses, before or after it is dialled with script d.
  lemma {:induction false} HeadRefusal(inner: seq<Level>, nodes: seq<NodeSpec>, d: Script, c: Cut)
    requires Nested(inner) && nodes != []
    requires Clears(d) == SuccessMoves(inner) && Links(d) == PathLinks(Flatten(inner), nodes[0].addr)
    requires Cuts(HeadAround(d, nodes[0]), c) && !(c.InSecond? && c.cut.InFirst?)
    ensures var f := FailureOf(HeadAround(d, nodes[0]), c);
      WalkRefusal(inner, nodes, f) && Closes(f)
  {
    hide GreetScript, Flatten, SuccessMoves, PathLinks, Reached, LinkTo;
    var n := nodes[0];
    var s := HeadAround(d, n);
    var f := FailureOf(s, c);
    ThenFailure(s.first, s.second, c);
    assert ClearAll(nodes[..0]) == [];
    if c.InFirst? {
      assert f == Failure([], [], Resolve(Id(n)), 0, ListOf(n.marker));
      assert OwnRefusal(inner, nodes, f, 0, false);
    } else {
      ThenFailure(s.second.first, s.second.second, c.cut);
      GreetFailures(n, c.cut.cut);
      HeadUngreeted(Flatten(inner), nodes, f);
      assert OwnRefusal(inner, nodes, f, 0, true);
    }
  }

  // Otherwise the script that dials the head is cut.
  lemma HeadInside(d: Script, n: NodeSpec, c: Cut)
    requires Cuts(HeadAround(d, n), c) && c.InSecond? && c.cut.InFirst?
    ensures c.cut.cut.Inside? && Cuts(d, c.cut.cut.cut)
    ensures FailureOf(HeadAround(d, n), c) == Around(FailureOf(d, c.cut.cut.cut), n.marker)
  {
    var s := HeadAround(d, n);
    ThenFailure(s.first, s.second, c);
    ThenFailure(s.second.first, s.second.second, c.cut);
    assert Cuts(Guard(d, n.marker), c.cut.cut);
  }

  // A walk fails like its head, or on the way from one node to the next.
  ghost predicate HopRefusal(head: Script, nodes: seq<NodeSpec>, f: Failure, i: nat) {
    && 1 <= i < |nodes| && About(f.call, nodes[i]) && f.marks == ListOf(nodes[i].marker)
    && f.hangs == 1 && f.clears == Clears(WalkScript(head, nodes, i))
    && HopStops(nodes[i - 1], nodes[i], Links(WalkScript(head, nodes, i)), f)
  }

  ghost predicate FailsLike(s: Script, f: Failure, c: Cut) {
    Cuts(s, c) && f == FailureOf(s, c)
  }

  lemma {:induction false} WalkFailures(head: Script, nodes: seq<NodeSpec>, k: nat, c: Cut, f: Failure)
    requires 1 <= k <= |nodes| && FailsLike(WalkScript(head, nodes, k), f, c)
    ensures (exists h :: FailsLike(head, f, h)) || (exists i: nat :: HopRefusal(head, nodes, f, i))
  {
    if k == 1 {
      assert FailsLike(head, f, c);
    } else {
      var a, b := WalkScript(head, nodes, k - 1), HopScript(nodes[k - 2], nodes[k - 1]);
      ThenFailure(a, b, c);
      if c.InFirst? {
        WalkFailures(head, nodes, k - 1, c.cut, f);
      } else {
        HopFailures(nodes[k - 2], nodes[k - 1], c.cut);
        assert HopRefusal(head, nodes, f, k - 1);
      }
    }
  }

  lemma {:induction false} RouteFailures(inner: seq<Level>, nodes: seq<NodeSpec>, c: Cut)
    requires Nested(inner) && nodes != [] && Cuts(RouteScript(inner, nodes), c)
    ensures var f := FailureOf(RouteScript(inner, nodes), c);
      WalkRefusal(inner, nodes, f) && Closes(f)
    decreases |inner|, 2
  {
    var n := nodes[0];
    var d := DialScript(inner, n.addr);
    var head := HeadAround(d, n);
    var f := FailureOf(RouteScript(inner, nodes), c);
    DialClears(inner, n.addr);
    DialLinks(inner, n.addr);
    WalkFailures(head, nodes, |nodes|, c, f);
    if h :| FailsLike(head, f, h) {
      if h.InSecond? && h.cut.InFirst? {
        HeadInside(d, n, h);
        HeadUndialled(inner, nodes, h.cut.cut.cut);
      } else {
        HeadRefusal(inner, nodes, d, h);
      }
    } else {
      var i: nat :| HopRefusal(head, nodes, f, i);
      NextRefusal(inner, nodes, d, f, i);
    }
  }

  lemma {:induction false} NextRefusal(inner: seq<Level>, nodes: seq<NodeSpec>, d: Script, f: Failure, i: nat)
    requires Nested(inner) && nodes != []
    requires Clears(d) == SuccessMoves(inner) && Links(d) == PathLinks(Flatten(inner), nodes[0].addr)
    requires HopRefusal(HeadAround(d, nodes[0]), nodes, f, i)
    ensures WalkRefusal(inner, nodes, f) && Closes(f)
  {
    hide WalkScript, HeadAround, SuccessMoves, PathLinks, Flatten, Stops, HopStops, Closes, Reached, ClearAll;
    var head := HeadAround(d, nodes[0]);
    HeadDoes(d, nodes[0]);
    HeadClears(inner, nodes, d);
    WalkClears(head, SuccessMoves(inner), nodes, i);
    HopReached(inner, nodes, head, f, i);
    WalkConnects(head, nodes, i);
    HopCloses(nodes[i - 1], nodes[i], Links(WalkScript(head, nodes, i)), f);
    assert OwnRefusal(inner, nodes, f, i, true);
  }

  lemma {:induction false} HopCloses(prev: NodeSpec, n: NodeSpec, before: seq<Call>, f: Failure)
    requires before != [] && HopStops(prev, n, before, f) && f.hangs == 1
    ensures Closes(f)
  {
  }

  // The nodes before the i-th were reached when it refused.
  lemma {:induction false} HopReached(inner: seq<Level>, nodes: seq<NodeSpec>, head: Script, f: Failure, i: nat)
    requires nodes != [] && HopRefusal(head, nodes, f, i) && Links(head) == PathLinks(Flatten(inner), nodes[0].addr)
    ensures Stops(Flatten(inner) + nodes, |Flatten(inner)| + i, false, true, f)
  {
    hide WalkScript, Links, Flatten, PathLinks, ClearAll, Clears;
    var pre := Flatten(inner);
    assert pre + nodes[..1] == pre + [nodes[0]] && (pre + [nodes[0]])[..|pre|] == pre;
    WalkLinks(head, pre, nodes, i);
    NextStops(pre, nodes, i, f);
  }

  lemma {:induction false} NextStops(pre: seq<NodeSpec>, nodes: seq<NodeSpec>, i: nat, f: Failure)
    requires 1 <= i < |nodes| && HopStops(nodes[i - 1], nodes[i], ReachLinks(pre + nodes[..i]), f)
    ensures Stops(pre + nodes, |pre| + i, false, true, f)
  {
    hide ReachLinks;
    var here := pre + nodes[..i];
    assert (pre + nodes)[..|pre| + i] == here && (pre + nodes)[..|pre| + i + 1] == here + [nodes[i]];
    assert here[|here| - 1] == nodes[i - 1];
    ReachNext(here, nodes[i]);
  }

  // What was reached on the way through the inner routes was reached on the whole way.
  lemma {:induction false} StopsInside(inner: seq<Level>, l: Level, f: Failure, s: Spot)
    requires ValidSpot(inner, s) && StopsAt(inner, f, s)
    ensures StopsAt(inner + [l], Around(f, l.marker), s)
  {
    hide Stops;
    var ls := inner + [l];
    assert ls[..|inner|] == inner && ls[..s.level] == inner[..s.level];
    assert Flatten(ls) == Flatten(inner) + l.nodes;
    StopsLonger(Flatten(inner), l.nodes, Position(inner, s), s.node == 0, s.inner, f, l.marker);
  }

  lemma {:induction false} StopsLonger(path: seq<NodeSpec>, more: seq<NodeSpec>, p: nat, head: bool, inner: bool, f: Failure,
                                       m: Marker?)
    requires p < |path| && Stops(path, p, head, inner, f)
    ensures Stops(path + more, p, head, inner, Around(f, m))
  {
    hide ReachLinks;
    assert (path + more)[..p] == path[..p] && (path + more)[..p + 1] == path[..p + 1];
  }

  lemma OuterStep(inner: seq<Level>, l: Level, k: nat)
    requires Nested(inner + [l]) && Nested(inner) && 0 < k <= |inner| && l.nodes != []
    ensures OuterMarks(inner + [l], k) == OuterMarks(inner, k) + ListOf(l.nodes[0].marker) + ListOf(l.marker)
  {
    assert (inner + [l])[..|inner|] == inner;
  }

  lemma NestedInner(inner: seq<Level>, l: Level)
    requires Nested(inner + [l])
    ensures Nested(inner)
  {
    assert forall k :: 0 < k < |inner| ==> (inner + [l])[k] == inner[k];
  }

  lemma {:induction false} OwnSpot(inner: seq<Level>, l: Level, g: Failure, i: nat, done: bool)
    requires Nested(inner + [l]) && OwnRefusal(inner, l.nodes, g, i, done)
    ensures RefusedAt(inner + [l], Around(g, l.marker), Spot(|inner|, i, done))
  {
    hide Stops, ClearAll, SuccessMoves;
    assert (inner + [l])[..|inner|] == inner;
    assert OuterMarks(inner + [l], |inner| + 1) == [];
    var path := Flatten(inner) + l.nodes;
    assert Flatten(inner + [l]) == path && path + [] == path;
    StopsLonger(path, [], |Flatten(inner)| + i, i == 0, done, g, l.marker);
  }

  lemma Regroup<T>(a: seq<T>, o: seq<T>, h: seq<T>, c: seq<T>)
    ensures a + (o + h + c) == ((a + o) + h) + c
  {
  }

  lemma {:induction false} InnerSpot(inner: seq<Level>, l: Level, g: Failure, s: Spot)
    requires Nested(inner + [l]) && Nested(inner) && l.nodes != [] && InnerRefusal(inner, l.nodes[0], g, s)
    ensures RefusedAt(inner + [l], Around(g, l.marker), s)
  {
    var ls := inner + [l];
    OuterStep(inner, l, s.level + 1);
    StopsInside(inner, l, g, s);
    assert ls[..s.level] == inner[..s.level] && ls[s.level] == inner[s.level];
    var own := ListOf(inner[s.level].nodes[s.node].marker) + ListOf(inner[s.level].marker);
    Regroup(own, OuterMarks(inner, s.level + 1), ListOf(l.nodes[0].marker), ListOf(l.marker));
  }

  lemma {:induction false} ConnectFailures(inner: seq<Level>, l: Level, c: Cut)
    requires Nested(inner + [l]) && l.nodes != []
    requires Cuts(ConnectScript(inner, l), c)
    ensures var f := FailureOf(ConnectScript(inner, l), c);
      (exists s :: RefusedAt(inner + [l], f, s)) && Closes(f)
    decreases |inner|, 3
  {
    var g := FailureOf(RouteScript(inner, l.nodes), c.cut.cut);
    NestedInner(inner, l);
    RouteFailures(inner, l.nodes, c.cut.cut);
    assert FailureOf(ConnectScript(inner, l), c) == Around(g, l.marker);
    if i: nat, done :| OwnRefusal(inner, l.nodes, g, i, done) {
      OwnSpot(inner, l, g, i, done);
    } else {
      var s :| InnerRefusal(inner, l.nodes[0], g, s);
      InnerSpot(inner, l, g, s);
    }
  }

  lemma {:induction false} ConnectEnds(inner: seq<Level>, l: Level)
    requires l.nodes != []
    requires Nested(inner)
    ensures Clears(ConnectScript(inner, l)) == SuccessMoves(inner + [l])
    ensures var path := Flatten(inner + [l]);
      Links(ConnectScript(inner, l)) == Reached(path, |path|) != []
  {
    DialClears(inner, l.nodes[0].addr);
    DialLinks(inner, l.nodes[0].addr);
    RouteDoes(inner, l.nodes);
    RouteLinks(inner, l.nodes);
    ConnectDoes(inner, l);
    assert (inner + [l])[..|inner|] == inner;
    var path := Flatten(inner + [l]);
    assert path == Flatten(inner) + l.nodes && path[..|path|] == path;
  }

  lemma DoFailure(call: Call, hang: bool, mark: Marker?, c: Cut)
    requires Cuts(Do(call, hang, mark), c)
    ensures FailureOf(Do(call, hang, mark), c) == Failure([], [], call, if hang then 1 else 0, ListOf(mark))
  {
  }

  // Every way dialling can be refused, for every nesting of routes: either one node refuses, and exactly what
  // was passed before it is cleared while that node, its chain and the heads and chains around it are marked,
  // or the target refuses and no marker is marked. The connection made so far is closed exactly once.
  lemma {:induction false} DialFailures(ls: seq<Level>, target: string, c: Cut)
    requires Nested(ls) && Cuts(DialScript(ls, target), c)
    ensures var f := FailureOf(DialScript(ls, target), c);
      Closes(f) && (RefusedByTarget(ls, target, f) || exists s :: RefusedAt(ls, f, s))
    decreases |ls|, 0
  {
    if ls == [] || ls[|ls| - 1].nodes == [] {
      DoFailure(Open(target), false, null, c);
      NothingToPass(ls);
      assert SuccessMoves(ls) == [] && LinkTo(Flatten(ls), target) == Open(target);
    } else {
      var inner, l := ls[..|ls| - 1], ls[|ls| - 1];
      assert inner + [l] == ls;
      DialThrough(inner, l, target, c);
    }
  }

  lemma {:induction false} DialThrough(inner: seq<Level>, l: Level, target: string, c: Cut)
    requires Nested(inner + [l]) && l.nodes != []
    requires Cuts(Then(ConnectScript(inner, l), Do(Via(Id(l.nodes[|l.nodes| - 1]), target), true, null)), c)
    ensures var f := FailureOf(Then(ConnectScript(inner, l), Do(Via(Id(l.nodes[|l.nodes| - 1]), target), true, null)), c);
      Closes(f) && (RefusedByTarget(inner + [l], target, f) || exists s :: RefusedAt(inner + [l], f, s))
    decreases |inner|, 4
  {
    hide Cuts, FailureOf, ConnectScript, SuccessMoves, RefusedAt, Links, Clears, Reached;
    NestedInner(inner, l);
    var a, b := ConnectScript(inner, l), Do(Via(Id(l.nodes[|l.nodes| - 1]), target), true, null);
    ThenFailure(a, b, c);
    if c.InFirst? {
      ConnectFailures(inner, l, c.cut);
    } else {
      DoFailure(b.call, true, null, c.cut);
      ConnectEnds(inner, l);
      assert (inner + [l])[..|inner|] == inner && Flatten(inner + [l]) == Flatten(inner) + l.nodes;
    }
  }

  // The connections a refused dial made, out of all of them, when the p-th node refuses: those to the nodes before it
  // when it does not resolve or the connection to it is refused, and that connection as well when it does not greet.
  // A head is resolved before the inner routes are dialled, so nothing was connected when it does not resolve.
  ghost predicate CutShort(all: seq<Call>, p: nat, head: bool, f: Failure) {
    && p < |all|
    && match f.call
       case Resolve(_) => f.links == if head then [] else all[..p]
       case Greet(_) => f.links == all[..p + 1]
       case _ => f.call == all[p] && f.links == all[..p]
  }

  ghost predicate CutAt(ls: seq<Level>, target: string, f: Failure, s: Spot)
    requires Nested(ls)
  {
    RefusedAt(ls, f, s) && CutShort(PathLinks(Flatten(ls), target), Position(ls, s), s.node == 0, f)
  }

  ghost predicate CutBeforeTarget(ls: seq<Level>, target: string, f: Failure) {
    && RefusedByTarget(ls, target, f)
    && var all := PathLinks(Flatten(ls), target);
       f.call == all[|all| - 1] && f.links == all[..|all| - 1]
  }

  lemma {:induction false} ReachedIsPrefix(path: seq<NodeSpec>, target: string, k: nat)
    requires k <= |path|
    ensures Reached(path, k) == PathLinks(path, target)[..k]
    ensures PathLinks(path, target)[k] == LinkTo(path[..k], if k < |path| then path[k].addr else target)
  {
    PathLinksAt(path, target, k);
    if k > 0 {
      assert path[..k][..k - 1] == path[..k - 1];
    }
  }

  // A refused dial stopped short of the connection to the target, and exactly how short depends on the call refused.
  lemma {:induction false} DialStopsShort(ls: seq<Level>, target: string, c: Cut)
    requires Nested(ls) && Cuts(DialScript(ls, target), c)
    ensures var f := FailureOf(DialScript(ls, target), c);
      && f.links < PathLinks(Flatten(ls), target)
      && (CutBeforeTarget(ls, target, f) || exists s :: CutAt(ls, target, f, s))
  {
    hide DialScript, Cuts, FailureOf, PathLinks, SuccessMoves, ClearedBefore, MarkedAfter, Flatten, Reached;
    var f := FailureOf(DialScript(ls, target), c);
    var path := Flatten(ls);
    DialFailures(ls, target, c);
    if RefusedByTarget(ls, target, f) {
      ReachedIsPrefix(path, target, |path|);
      assert path[..|path|] == path;
    } else {
      var s :| RefusedAt(ls, f, s);
      var p := Position(ls, s);
      ReachedIsPrefix(path, target, p);
      if p + 1 <= |path| {
        ReachedIsPrefix(path, target, p + 1);
      }
      assert CutAt(ls, target, f, s);
    }
  }

  // The record of a refused dial.
  ghost predicate Refused(ls: seq<Level>, target: string, env: Env, t: Tape, r: Tape, f: Failure)
    requires Nested(ls)
  {
    && Failed(env, t, f, r) && Closes(f) && f.links < PathLinks(Flatten(ls), target)
    && (CutBeforeTarget(ls, target, f) || exists s :: CutAt(ls, target, f, s))
  }

  // The outcome of a dial in every world: the record of the run says exactly which of the cases it was.
  lemma DialOutcome(ls: seq<Level>, target: string, env: Env, t: Tape)
    requires Nested(ls)
    ensures var r := Exec(env, t, DialScript(ls, target));
      if r.ok then
        r.tape == Tape(r.tape.calls, t.links + PathLinks(Flatten(ls), target), t.moves + SuccessMoves(ls),
                       t.closed, t.refused)
      else exists f :: Refused(ls, target, env, t, r.tape, f)
  {
    var s := DialScript(ls, target);
    var r := Exec(env, t, s);
    ExecOutcome(env, t, s);
    if r.ok {
      DialLinks(ls, target);
      DialClears(ls, target);
    } else {
      var c :| CutRun(env, t, s, r.tape, c);
      DialFailures(ls, target, c);
      DialStopsShort(ls, target, c);
      assert Refused(ls, target, env, t, r.tape, FailureOf(s, c));
    }
  }
}
