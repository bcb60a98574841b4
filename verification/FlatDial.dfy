// Dialling a route without nesting when every node either works or is broken for the whole dial.

module FlatDial {
  import opened Nodes
  import opened Wire
  import opened Routing
  import opened Refusal

  // No call about the node is ever refused.
  ghost predicate Works(env: Env, n: NodeSpec) {
    forall c, i :: About(c, n) ==> env.fate(c, i)
  }

  // The node cannot be passed: it never resolves, or is never reached, or never completes its handshake.
  ghost predicate Broken(env: Env, n: NodeSpec) {
    || (forall i :: !env.fate(Resolve(Id(n)), i))
    || (forall c, i :: IsLink(c) && c.addr == n.addr ==> !env.fate(c, i))
    || (forall i :: !env.fate(Greet(Id(n)), i))
  }

  ghost predicate Decided(env: Env, nodes: seq<NodeSpec>) {
    forall n :: n in nodes ==> Works(env, n) || Broken(env, n)
  }

  // A run that gets past the nodes before the first broken one and stops there.
  ghost predicate PassedTo(env: Env, nodes: seq<NodeSpec>, k: nat, t: Tape, r: Tape) {
    && k <= |nodes| && (forall i :: 0 <= i < k ==> Works(env, nodes[i]))
    && r.calls >= t.calls && r.moves == t.moves + ClearAll(nodes[..k])
  }

  ghost predicate StoppedAt(env: Env, nodes: seq<NodeSpec>, b: nat, t: Tape, r: Tape) {
    && b < |nodes| && Broken(env, nodes[b]) && (forall i :: 0 <= i < b ==> Works(env, nodes[i]))
    && r.calls >= t.calls
    && r.moves == t.moves + ClearAll(nodes[..b]) + MarkMove(nodes[b].marker, env.clock(r.calls))
  }

  lemma HopSettled(env: Env, t: Tape, prev: NodeSpec, n: NodeSpec)
    requires Works(env, n) || Broken(env, n)
    ensures var r := Exec(env, t, HopScript(prev, n));
      && r.tape.calls >= t.calls
      && if r.ok then Works(env, n) && r.tape.moves == t.moves + ClearMove(n.marker)
         else Broken(env, n) && r.tape.moves == t.moves + MarkMove(n.marker, env.clock(r.tape.calls))
  {
    hide GreetScript;
    var s := HopScript(prev, n);
    var a := Ask(env, t, Resolve(Id(n)));
    AskThen(env, t, Resolve(Id(n)), n.marker, s.second);
    var v := Ask(env, a.tape, Via(Id(prev), n.addr));
    AskThen(env, a.tape, Via(Id(prev), n.addr), n.marker, s.second.second);
    GreetRuns(env, v.tape, n);
    AllCalls(env, n, t.calls, Via(Id(prev), n.addr), a.tape.calls, v.tape.calls);
  }

  // Works or broken shows in the three calls of any attempt on the node.
  lemma AllCalls(env: Env, n: NodeSpec, i: nat, link: Call, j: nat, k: nat)
    requires IsLink(link) && link.addr == n.addr
    ensures Works(env, n) ==> env.fate(Resolve(Id(n)), i) && env.fate(link, j) && env.fate(Greet(Id(n)), k)
    ensures Broken(env, n) ==> !(env.fate(Resolve(Id(n)), i) && env.fate(link, j) && env.fate(Greet(Id(n)), k))
  {
    assert About(Resolve(Id(n)), n) && About(link, n) && About(Greet(Id(n)), n);
  }

  lemma HeadSettled(env: Env, t: Tape, n: NodeSpec)
    requires Works(env, n) || Broken(env, n)
    ensures var r := Exec(env, t, HeadAround(Do(Open(n.addr), false, null), n));
      && r.tape.calls >= t.calls
      && if r.ok then Works(env, n) && r.tape.moves == t.moves + ClearMove(n.marker)
         else Broken(env, n) && r.tape.moves == t.moves + MarkMove(n.marker, env.clock(r.tape.calls))
  {
    hide GreetScript;
    var d := Do(Open(n.addr), false, null);
    var a := Ask(env, t, Resolve(Id(n)));
    var o := Exec(env, a.tape, d);
    HeadDialled(env, t, d, n);
    GreetRuns(env, o.tape, n);
    AllCalls(env, n, t.calls, Open(n.addr), a.tape.calls, o.tape.calls);
  }

  lemma FlatFirst(env: Env, t: Tape, nodes: seq<NodeSpec>, r: Run)
    requires Decided(env, nodes) && nodes != []
    requires r == Exec(env, t, HeadAround(Do(Open(nodes[0].addr), false, null), nodes[0]))
    ensures if r.ok then PassedTo(env, nodes, 1, t, r.tape) else StoppedAt(env, nodes, 0, t, r.tape)
  {
    hide HeadAround;
    HeadSettled(env, t, nodes[0]);
    assert nodes[..1][..0] == [] && ClearAll(nodes[..0]) == [];
    assert ClearAll(nodes[..1]) == ClearMove(nodes[0].marker);
  }

  lemma FlatNext(env: Env, t: Tape, nodes: seq<NodeSpec>, k: nat, q: Tape, r: Run)
    requires Decided(env, nodes) && 1 <= k < |nodes| && PassedTo(env, nodes, k, t, q)
    requires r == Exec(env, q, HopScript(nodes[k - 1], nodes[k]))
    ensures if r.ok then PassedTo(env, nodes, k + 1, t, r.tape) else StoppedAt(env, nodes, k, t, r.tape)
  {
    hide HopScript, ClearAll;
    HopSettled(env, q, nodes[k - 1], nodes[k]);
    ClearAllStep(t.moves, nodes, k + 1);
  }

  lemma {:induction false} FlatWalk(env: Env, t: Tape, nodes: seq<NodeSpec>, head: Script, k: nat, r: Run)
    requires Decided(env, nodes) && 1 <= k <= |nodes|
    requires head == HeadAround(Do(Open(nodes[0].addr), false, null), nodes[0])
    requires r == Exec(env, t, WalkScript(head, nodes, k))
    ensures if r.ok then PassedTo(env, nodes, k, t, r.tape) else exists b: nat :: StoppedAt(env, nodes, b, t, r.tape)
  {
    hide HeadAround, HopScript, Exec, StoppedAt, PassedTo, Decided;
    if k == 1 {
      FlatFirst(env, t, nodes, r);
    } else {
      var q := Exec(env, t, WalkScript(head, nodes, k - 1));
      FlatWalk(env, t, nodes, head, k - 1, q);
      TryThen(env, t, WalkScript(head, nodes, k - 1), HopScript(nodes[k - 2], nodes[k - 1]));
      if q.ok {
        FlatNext(env, t, nodes, k - 1, q.tape, r);
      }
    }
  }

  // A dial over decided nodes, to a target that accepts: it succeeds, or marks one broken node and the chain.
  ghost predicate FlatFailure(env: Env, l: Level, b: nat, t: Tape, r: Tape) {
    && b < |l.nodes| && Broken(env, l.nodes[b]) && (forall i :: 0 <= i < b ==> Works(env, l.nodes[i]))
    && r.calls >= t.calls
    && r.moves == t.moves + ClearAll(l.nodes[..b]) + MarkMove(l.nodes[b].marker, env.clock(r.calls))
                  + MarkMove(l.marker, env.clock(r.calls))
  }

  lemma FlatOutcome(env: Env, t: Tape, l: Level, target: string)
    requires l.nodes != [] && Decided(env, l.nodes)
    requires forall p, i :: env.fate(Via(p, target), i)
    ensures var r := Exec(env, t, DialScript([l], target));
      if r.ok then r.tape.calls >= t.calls
      else exists b: nat :: FlatFailure(env, l, b, t, r.tape)
  {
    hide HeadAround, WalkScript;
    var nodes := l.nodes;
    var head := HeadAround(Do(Open(nodes[0].addr), false, null), nodes[0]);
    var body := WalkScript(head, nodes, |nodes|);
    var q := Exec(env, t, body);
    FlatWalk(env, t, nodes, head, |nodes|, q);
    assert [l][..0] == [] && RouteScript([], nodes) == body;
    Guarded(env, t, body, l.marker);
    var v := Via(Id(nodes[|nodes| - 1]), target);
    TryThen(env, t, ConnectScript([], l), Do(v, true, null));
    if !q.ok {
      var b: nat :| StoppedAt(env, nodes, b, t, q.tape);
      assert FlatFailure(env, l, b, t, MarkIn(env, q.tape, l.marker));
    }
  }
}
