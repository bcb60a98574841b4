// The script of dialling a target through nested routes, and what it does at every point where it can be refused.

module Routing {
  import opened Nodes
  import opened Wire

  // One route: its nodes in order and the marker of its chain.
  datatype Level = Level(nodes: seq<NodeSpec>, marker: Marker?)

  function GreetScript(n: NodeSpec): Script {
    Then(Do(Greet(Id(n)), true, n.marker), Clear(n.marker))
  }

  // A refusal once something is connected hangs up and marks the node.
  function HopScript(prev: NodeSpec, n: NodeSpec): Script {
    Then(Do(Resolve(Id(n)), true, n.marker),
    Then(Do(Via(Id(prev), n.addr), true, n.marker),
    GreetScript(n)))
  }

  // A head that is dialled by script d.
  function HeadAround(d: Script, n: NodeSpec): Script {
    Then(Do(Resolve(Id(n)), false, n.marker),
    Then(Guard(d, n.marker),
    GreetScript(n)))
  }

  // Once the head is reached by a script, every node up to the k-th is reached through the one before it.
  function WalkScript(head: Script, nodes: seq<NodeSpec>, k: nat): Script
    requires 1 <= k <= |nodes|
  {
    if k == 1 then head
    else Then(WalkScript(head, nodes, k - 1), HopScript(nodes[k - 2], nodes[k - 1]))
  }

  lemma GreetRuns(env: Env, t: Tape, n: NodeSpec)
    ensures var g := Ask(env, t, Greet(Id(n)));
      Exec(env, t, GreetScript(n))
      == if g.ok then Run(ClearIn(g.tape, n.marker), true) else Run(MarkIn(env, Hang(g.tape), n.marker), false)
  {
    TryThen(env, t, Do(Greet(Id(n)), true, n.marker), Clear(n.marker));
  }

  lemma HeadDialled(env: Env, t: Tape, d: Script, n: NodeSpec)
    ensures var a := Ask(env, t, Resolve(Id(n)));
      var r := Exec(env, a.tape, d);
      Exec(env, t, HeadAround(d, n))
      == if !a.ok then Run(MarkIn(env, a.tape, n.marker), false)
         else if r.ok then Exec(env, r.tape, GreetScript(n))
         else Run(MarkIn(env, r.tape, n.marker), false)
  {
    hide GreetScript;
    var s := HeadAround(d, n);
    TryThen(env, t, s.first, s.second);
    TryThen(env, Ask(env, t, Resolve(Id(n))).tape, s.second.first, s.second.second);
  }

  // The head of a route is dialled through the routes nested in its transport.
  function RouteScript(inner: seq<Level>, nodes: seq<NodeSpec>): Script
    requires nodes != []
    decreases |inner|, 1
  {
    WalkScript(HeadAround(DialScript(inner, nodes[0].addr), nodes[0]), nodes, |nodes|)
  }

  function ConnectScript(inner: seq<Level>, l: Level): Script
    requires l.nodes != []
    decreases |inner|, 2
  {
    Then(Guard(RouteScript(inner, l.nodes), l.marker), Clear(l.marker))
  }

  // The routes are listed innermost first. A route without nodes is a direct connection.
  function DialScript(ls: seq<Level>, target: string): Script
    decreases |ls|, 0
  {
    if ls == [] || ls[|ls| - 1].nodes == [] then Do(Open(target), false, null)
    else
      var l := ls[|ls| - 1];
      Then(ConnectScript(ls[..|ls| - 1], l), Do(Via(Id(l.nodes[|l.nodes| - 1]), target), true, null))
  }

  // Only the innermost route may be empty.
  ghost predicate Nested(ls: seq<Level>) {
    forall k :: 0 < k < |ls| ==> ls[k].nodes != []
  }

  // ---------- The connections of a whole script ----------

  function Flatten(ls: seq<Level>): seq<NodeSpec> {
    if ls == [] then [] else Flatten(ls[..|ls| - 1]) + ls[|ls| - 1].nodes
  }

  // Directly to the first node, from each node to the next, from the last node to the target.
  function PathLinks(path: seq<NodeSpec>, target: string): (r: seq<Call>)
    ensures |r| == |path| + 1
  {
    if path == [] then [Open(target)]
    else
      var n := path[|path| - 1];
      PathLinks(path[..|path| - 1], n.addr) + [Via(Id(n), target)]
  }

  // The connections that reach the last node of a path.
  function ReachLinks(path: seq<NodeSpec>): seq<Call>
    requires path != []
  {
    PathLinks(path[..|path| - 1], path[|path| - 1].addr)
  }

  lemma ReachNext(path: seq<NodeSpec>, n: NodeSpec)
    requires path != []
    ensures ReachLinks(path + [n]) == ReachLinks(path) + [Via(Id(path[|path| - 1]), n.addr)]
  {
    assert (path + [n])[..|path|] == path;
  }

  lemma GreetDoes(n: NodeSpec)
    ensures Links(GreetScript(n)) == []
    ensures Clears(GreetScript(n)) == ClearMove(n.marker)
  {
    var s := GreetScript(n);
    assert Clears(s.first) == [] && Clears(s.second) == ClearMove(n.marker);
  }

  lemma HopDoes(prev: NodeSpec, n: NodeSpec)
    ensures Links(HopScript(prev, n)) == [Via(Id(prev), n.addr)]
    ensures Clears(HopScript(prev, n)) == ClearMove(n.marker)
  {
    GreetDoes(n);
    var v := Then(Do(Via(Id(prev), n.addr), true, n.marker), GreetScript(n));
    assert Clears(v) == Clears(v.first) + Clears(v.second) && Clears(v.first) == [];
    assert Links(v) == [Via(Id(prev), n.addr)] && Clears(v) == ClearMove(n.marker);
  }

  lemma HeadDoes(d: Script, n: NodeSpec)
    ensures Links(HeadAround(d, n)) == Links(d)
    ensures Clears(HeadAround(d, n)) == Clears(d) + ClearMove(n.marker)
  {
    GreetDoes(n);
    var e := Then(Guard(d, n.marker), GreetScript(n));
    assert Links(e) == Links(d);
    assert Clears(e) == Clears(d) + ClearMove(n.marker);
  }

  lemma ReachStep(pre: seq<NodeSpec>, nodes: seq<NodeSpec>, k: nat)
    requires 2 <= k <= |nodes|
    ensures ReachLinks(pre + nodes[..k]) == ReachLinks(pre + nodes[..k - 1]) + [Via(Id(nodes[k - 2]), nodes[k - 1].addr)]
  {
    var here := pre + nodes[..k - 1];
    assert pre + nodes[..k] == here + [nodes[k - 1]];
    ReachNext(here, nodes[k - 1]);
  }

  lemma {:induction false} WalkLinks(head: Script, pre: seq<NodeSpec>, nodes: seq<NodeSpec>, k: nat)
    requires 1 <= k <= |nodes|
    requires Links(head) == ReachLinks(pre + nodes[..1])
    ensures Links(WalkScript(head, nodes, k)) == ReachLinks(pre + nodes[..k])
  {
    if k > 1 {
      WalkLinks(head, pre, nodes, k - 1);
      ReachStep(pre, nodes, k);
      HopDoes(nodes[k - 2], nodes[k - 1]);
    }
  }

  lemma RouteLinks(inner: seq<Level>, nodes: seq<NodeSpec>)
    requires nodes != []
    requires Links(DialScript(inner, nodes[0].addr)) == PathLinks(Flatten(inner), nodes[0].addr)
    ensures Links(RouteScript(inner, nodes)) == ReachLinks(Flatten(inner) + nodes)
  {
    hide DialScript, Flatten, PathLinks, Links, WalkScript, HeadAround;
    var pre, n := Flatten(inner), nodes[0];
    HeadDoes(DialScript(inner, n.addr), n);
    assert pre + nodes[..1] == pre + [n] && (pre + [n])[..|pre|] == pre && nodes[..|nodes|] == nodes;
    WalkLinks(HeadAround(DialScript(inner, n.addr), n), pre, nodes, |nodes|);
  }

  lemma ConnectDoes(inner: seq<Level>, l: Level)
    requires l.nodes != []
    ensures Links(ConnectScript(inner, l)) == Links(RouteScript(inner, l.nodes))
    ensures Clears(ConnectScript(inner, l)) == Clears(RouteScript(inner, l.nodes)) + ClearMove(l.marker)
  {
    var g := Guard(RouteScript(inner, l.nodes), l.marker);
    assert Links(g) == Links(g.body) && Clears(g) == Clears(g.body);
  }

  // The script makes exactly the connections of the flattened path, in order, each once.
  lemma {:induction false} DialLinks(ls: seq<Level>, target: string)
    requires Nested(ls)
    ensures Links(DialScript(ls, target)) == PathLinks(Flatten(ls), target)
    decreases |ls|
  {
    if ls == [] || ls[|ls| - 1].nodes == [] {
      assert Flatten(ls) == [];
    } else {
      var inner, nodes := ls[..|ls| - 1], ls[|ls| - 1].nodes;
      DialLinks(inner, nodes[0].addr);
      RouteLinks(inner, nodes);
      ConnectDoes(inner, ls[|ls| - 1]);
      var path := Flatten(ls);
      assert PathLinks(path, target) == ReachLinks(path) + [Via(Id(path[|path| - 1]), target)];
    }
  }

  // The i-th connection of a path leads from the node before to the i-th node, the last one to the target.
  lemma {:induction false} PathLinksAt(path: seq<NodeSpec>, target: string, i: nat)
    requires i <= |path|
    ensures PathLinks(path, target)[i] == LinkTo(path[..i], if i < |path| then path[i].addr else target)
    ensures PathLinks(path, target)[..i] == if i == 0 then [] else PathLinks(path[..i - 1], path[i - 1].addr)
    decreases |path|
  {
    if i < |path| {
      var past := path[..|path| - 1];
      PathLinksAt(past, path[|path| - 1].addr, i);
      assert past[..i] == path[..i] && (i > 0 ==> past[..i - 1] == path[..i - 1]);
      assert PathLinks(path, target)[..i] == PathLinks(past, path[|path| - 1].addr)[..i];
    } else {
      assert path[..i] == path;
    }
  }

  // ---------- The order of the calls ----------

  // From the last of the nodes passed, or directly when there is none.
  function LinkTo(before: seq<NodeSpec>, addr: string): Call {
    if before == [] then Open(addr) else Via(Id(before[|before| - 1]), addr)
  }

  // The heads that are resolved before anything is connected, those of the outer routes first: a head is resolved
  // before the routes it is dialled through.
  function Heads(ls: seq<Level>): seq<Call> {
    if ls == [] || ls[|ls| - 1].nodes == [] then []
    else [Resolve(Id(ls[|ls| - 1].nodes[0]))] + Heads(ls[..|ls| - 1])
  }

  // Passing k nodes of a route: each is resolved, unless it is the head, then connected to, then greeted.
  function Passing(before: seq<NodeSpec>, nodes: seq<NodeSpec>, k: nat): seq<Call>
    requires k <= |nodes|
  {
    if k == 0 then []
    else
      var n := nodes[k - 1];
      Passing(before, nodes, k - 1)
      + (if k == 1 then [] else [Resolve(Id(n))]) + [LinkTo(before + nodes[..k - 1], n.addr), Greet(Id(n))]
  }

  function Passes(ls: seq<Level>): seq<Call> {
    if ls == [] then []
    else
      var l := ls[|ls| - 1];
      Passes(ls[..|ls| - 1]) + Passing(Flatten(ls[..|ls| - 1]), l.nodes, |l.nodes|)
  }

  lemma {:induction false} HopAsks(prev: NodeSpec, n: NodeSpec)
    ensures Asks(HopScript(prev, n)) == [Resolve(Id(n)), Via(Id(prev), n.addr), Greet(Id(n))]
  {
    GreetAsks(n);
    var v := Then(Do(Via(Id(prev), n.addr), true, n.marker), GreetScript(n));
    assert Asks(v) == [Via(Id(prev), n.addr)] + [Greet(Id(n))];
  }

  lemma {:induction false} GreetAsks(n: NodeSpec)
    ensures Asks(GreetScript(n)) == [Greet(Id(n))]
  {
    var s := GreetScript(n);
    assert Asks(s.first) == [Greet(Id(n))] && Asks(s.second) == [];
  }

  lemma {:induction false} HeadAsks(d: Script, n: NodeSpec)
    ensures Asks(HeadAround(d, n)) == [Resolve(Id(n))] + Asks(d) + [Greet(Id(n))]
  {
    GreetAsks(n);
    var e := Then(Guard(d, n.marker), GreetScript(n));
    assert Asks(e) == Asks(d) + [Greet(Id(n))];
    Assoc([Resolve(Id(n))], Asks(d), [Greet(Id(n))]);
  }

  lemma {:induction false} WalkAsks(head: Script, first: seq<Call>, pre: seq<NodeSpec>, nodes: seq<NodeSpec>, k: nat)
    requires 1 <= k <= |nodes|
    requires Asks(head) == first + Passing(pre, nodes, 1)
    ensures Asks(WalkScript(head, nodes, k)) == first + Passing(pre, nodes, k)
  {
    hide HopScript;
    if k > 1 {
      WalkAsks(head, first, pre, nodes, k - 1);
      HopAsks(nodes[k - 2], nodes[k - 1]);
      var before := pre + nodes[..k - 1];
      assert before[|before| - 1] == nodes[k - 2];
      var n := nodes[k - 1];
      assert [Resolve(Id(n))] + [LinkTo(before, n.addr), Greet(Id(n))] == Asks(HopScript(nodes[k - 2], n));
      Assoc(first, Passing(pre, nodes, k - 1), Asks(HopScript(nodes[k - 2], n)));
      Assoc(Passing(pre, nodes, k - 1), [Resolve(Id(n))], [LinkTo(before, n.addr), Greet(Id(n))]);
    }
  }

  // A dial asks for the heads, outermost first, then for what passes the nodes of each route, inner routes first,
  // then for the target.
  lemma {:induction false} DialAsks(ls: seq<Level>, target: string)
    requires Nested(ls)
    ensures Asks(DialScript(ls, target)) == Heads(ls) + Passes(ls) + [LinkTo(Flatten(ls), target)]
    decreases |ls|
  {
    if ls == [] || ls[|ls| - 1].nodes == [] {
      NothingToPass(ls);
    } else {
      var inner, l := ls[..|ls| - 1], ls[|ls| - 1];
      DialAsks(inner, l.nodes[0].addr);
      RouteAsks(inner, l.nodes);
      var c := ConnectScript(inner, l);
      assert Asks(c) == Asks(c.first) + Asks(c.second) && Asks(c.first) == Asks(RouteScript(inner, l.nodes));
      Assoc(Heads(ls), Passes(inner), Passing(Flatten(inner), l.nodes, |l.nodes|));
      assert LinkTo(Flatten(ls), target) == Via(Id(l.nodes[|l.nodes| - 1]), target);
    }
  }

  lemma {:induction false} NothingToPass(ls: seq<Level>)
    requires Nested(ls) && (ls == [] || ls[|ls| - 1].nodes == [])
    ensures Flatten(ls) == [] && Passes(ls) == [] && Heads(ls) == []
  {
    if ls != [] {
      assert |ls| == 1 && ls[..0] == [];
      assert Passing(Flatten(ls[..0]), ls[0].nodes, 0) == [];
    }
  }

  lemma {:induction false} RouteAsks(inner: seq<Level>, nodes: seq<NodeSpec>)
    requires nodes != []
    requires Asks(DialScript(inner, nodes[0].addr)) == Heads(inner) + Passes(inner) + [LinkTo(Flatten(inner), nodes[0].addr)]
    ensures Asks(RouteScript(inner, nodes))
         == [Resolve(Id(nodes[0]))] + Heads(inner) + Passes(inner) + Passing(Flatten(inner), nodes, |nodes|)
  {
    hide DialScript, HeadAround, WalkScript, Asks, Heads, Passes, Flatten, LinkTo;
    var n, pre := nodes[0], Flatten(inner);
    var d := DialScript(inner, n.addr);
    HeadAsks(d, n);
    assert pre + nodes[..0] == pre;
    assert Passing(pre, nodes, 0) == [] && Passing(pre, nodes, 1) == [LinkTo(pre, n.addr), Greet(Id(n))];
    assert Asks(HeadAround(d, n)) == [Resolve(Id(n))] + Heads(inner) + Passes(inner) + Passing(pre, nodes, 1);
    WalkAsks(HeadAround(d, n), [Resolve(Id(n))] + Heads(inner) + Passes(inner), pre, nodes, |nodes|);
  }

  // In every world a dial makes these calls in this order until one is refused, and succeeds when none is.
  lemma {:induction false} DialAsksInOrder(ls: seq<Level>, target: string, env: Env, t: Tape) returns (k: nat)
    requires Nested(ls)
    ensures Asked(env, t, Heads(ls) + Passes(ls) + [LinkTo(Flatten(ls), target)], k, Exec(env, t, DialScript(ls, target)))
  {
    DialAsks(ls, target);
    k := ExecAsks(env, t, DialScript(ls, target));
  }
}
