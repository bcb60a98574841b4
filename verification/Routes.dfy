// Building the route of a chain hop by hop, and the path it prints.
// Copying a transport returns the original, so a multiplexed transport selected twice ties the route into a loop.

module Routes {
  import opened Common
  import opened Nodes
  import opened Wire
  import opened Routing

  // A reading of the routes and transports at one moment.
  datatype Snap = Snap(nodes: map<Route, seq<Node>>, link: map<Transport, Route?>)

  ghost predicate Shows(h: Snap)
    reads h.nodes.Keys, h.link.Keys
  {
    (forall r :: r in h.nodes ==> r.nodes == h.nodes[r]) && (forall t :: t in h.link ==> t.route == h.link[t])
  }

  // Nothing leads out of the reading.
  ghost predicate Sealed(h: Snap) {
    && (forall r, n :: r in h.nodes && n in h.nodes[r] ==> n.transport in h.link)
    && (forall t :: t in h.link && h.link[t] != null ==> h.link[t] in h.nodes)
  }

  // ---------- The shape of a route under construction ----------

  ghost predicate Listed(h: Snap, rs: seq<Route>) {
    && rs != [] && (forall k :: 0 <= k < |rs| ==> rs[k] in h.nodes)
    && (forall i, j :: 0 <= i < j < |rs| ==> rs[i] != rs[j])
    && (forall k :: 0 < k < |rs| ==> h.nodes[rs[k]] != [])
  }

  // The transport through which route k is nested around the one before it.
  ghost function Outer(h: Snap, rs: seq<Route>, k: int): Transport
    requires Listed(h, rs) && 0 < k < |rs|
  {
    h.nodes[rs[k]][0].transport
  }

  // That transport was last written when route l was nested.
  ghost predicate LastWritten(h: Snap, rs: seq<Route>, k: int, l: int)
    requires Listed(h, rs) && 0 < k < |rs|
  {
    var tr := Outer(h, rs, k);
    && k <= l < |rs|
    && Outer(h, rs, l) == tr && tr in h.link && h.link[tr] == rs[l - 1]
    && forall i :: l < i < |rs| ==> Outer(h, rs, i) != tr
  }

  ghost predicate Written(h: Snap, rs: seq<Route>, k: int)
    requires Listed(h, rs) && 0 < k < |rs|
  {
    exists l :: LastWritten(h, rs, k, l)
  }

  // Exactly the heads of the nested routes have multiplexed transports, and no other transport carries a route.
  ghost predicate HeadsOnly(h: Snap, rs: seq<Route>)
    requires Listed(h, rs)
  {
    forall k, i :: 0 <= k < |rs| && 0 <= i < |h.nodes[rs[k]]| ==>
      var tr := h.nodes[rs[k]][i].transport;
      tr in h.link && tr.multiplex == (k > 0 && i == 0) && (!tr.multiplex ==> h.link[tr] == null)
  }

  ghost predicate Linked(h: Snap, rs: seq<Route>) {
    && Listed(h, rs) && Sealed(h) && HeadsOnly(h, rs)
    && (forall k :: 0 <= k < |rs| ==> rs[k].marker == rs[0].marker)
    && forall k :: 0 < k < |rs| ==> Written(h, rs, k)
  }

  // The multiplexed transports among the selected nodes, in order.
  function MuxTransports(picks: seq<Node>): seq<Transport> {
    if picks == [] then []
    else
      var n := picks[|picks| - 1];
      MuxTransports(picks[..|picks| - 1]) + (if n.transport.multiplex then [n.transport] else [])
  }

  ghost function Outers(h: Snap, rs: seq<Route>): seq<Transport>
    requires Listed(h, rs)
  {
    seq(|rs| - 1, k requires 0 <= k < |rs| - 1 => Outer(h, rs, k + 1))
  }

  // All nodes of the routes, innermost route first.
  ghost function AllNodes(h: Snap, rs: seq<Route>): seq<Node>
    requires forall k :: 0 <= k < |rs| ==> rs[k] in h.nodes
  {
    if rs == [] then [] else AllNodes(h, rs[..|rs| - 1]) + h.nodes[rs[|rs| - 1]]
  }

  // The routes hold the selection: their nodes are the selected ones or copies of them, in order, and
  // the k-th multiplexed selection opened route k.
  ghost predicate Holds(h: Snap, rs: seq<Route>, picks: seq<Node>)
    requires Listed(h, rs)
  {
    Specs(AllNodes(h, rs)) == Specs(picks) && Outers(h, rs) == MuxTransports(picks)
  }

  lemma {:induction false} AllNodesSame(h: Snap, h': Snap, rs: seq<Route>)
    requires forall k :: 0 <= k < |rs| ==> rs[k] in h.nodes && rs[k] in h'.nodes && h.nodes[rs[k]] == h'.nodes[rs[k]]
    ensures AllNodes(h, rs) == AllNodes(h', rs)
  {
    if rs != [] {
      AllNodesSame(h, h', rs[..|rs| - 1]);
    }
  }

  lemma PicksAdd(picks: seq<Node>, n: Node)
    ensures MuxTransports(picks + [n]) == MuxTransports(picks) + (if n.transport.multiplex then [n.transport] else [])
    ensures Specs(picks + [n]) == Specs(picks) + [n.spec]
  {
    assert (picks + [n])[..|picks|] == picks;
  }

  // Adding a node to the current route.
  function Added(h: Snap, rt: Route, n: Node): Snap
    requires rt in h.nodes
  {
    Snap(h.nodes[rt := h.nodes[rt] + [n]], h.link[n.transport := null])
  }

  lemma AddKeepsLinked(h: Snap, rs: seq<Route>, n: Node)
    requires Linked(h, rs) && !n.transport.multiplex
    requires n.transport in h.link ==> h.link[n.transport] == null
    ensures Linked(Added(h, rs[|rs| - 1], n), rs)
  {
    var h' := Added(h, rs[|rs| - 1], n);
    assert Listed(h', rs);
    assert forall i :: 0 < i < |rs| ==> Outer(h', rs, i) == Outer(h, rs, i);
    forall k | 0 < k < |rs| ensures Written(h', rs, k) {
      assert Written(h, rs, k);
      var l :| LastWritten(h, rs, k, l);
      assert LastWritten(h', rs, k, l);
    }
  }

  lemma AddKeepsPath(h: Snap, rs: seq<Route>, n: Node)
    requires Listed(h, rs)
    ensures var h' := Added(h, rs[|rs| - 1], n);
      Listed(h', rs) && AllNodes(h', rs) == AllNodes(h, rs) + [n] && Outers(h', rs) == Outers(h, rs)
  {
    var m := |rs| - 1;
    var h' := Added(h, rs[m], n);
    AllNodesSame(h, h', rs[..m]);
    Assoc(AllNodes(h, rs[..m]), h.nodes[rs[m]], [n]);
    assert forall i :: 0 < i < |rs| ==> Outer(h', rs, i) == Outer(h, rs, i);
  }

  // Wrapping the current route in a new one whose head is a copy of a multiplexed node.
  function Wrapped(h: Snap, rt: Route, c: Node, out: Route): Snap {
    Snap(h.nodes[out := [c]], h.link[c.transport := rt])
  }

  lemma WrapKeepsLinked(h: Snap, rs: seq<Route>, c: Node, out: Route)
    requires Linked(h, rs) && c.transport.multiplex && out !in h.nodes && out.marker == rs[0].marker
    ensures Linked(Wrapped(h, rs[|rs| - 1], c, out), rs + [out])
  {
    var rs' := rs + [out];
    var h' := Wrapped(h, rs[|rs| - 1], c, out);
    assert Listed(h', rs');
    forall k | 0 < k < |rs'| ensures Written(h', rs', k) {
      if Outer(h', rs', k) == c.transport {
        assert LastWritten(h', rs', k, |rs|);
      } else {
        assert Written(h, rs, k);
        var l :| LastWritten(h, rs, k, l);
        assert forall i :: 0 < i < |rs| ==> Outer(h', rs', i) == Outer(h, rs, i);
        assert LastWritten(h', rs', k, l);
      }
    }
  }

  lemma WrapKeepsPath(h: Snap, rs: seq<Route>, c: Node, out: Route)
    requires Listed(h, rs) && out !in h.nodes
    ensures var h', rs' := Wrapped(h, rs[|rs| - 1], c, out), rs + [out];
      && Listed(h', rs') && AllNodes(h', rs') == AllNodes(h, rs) + [c]
      && Outers(h', rs') == Outers(h, rs) + [c.transport]
  {
    var rs' := rs + [out];
    var h' := Wrapped(h, rs[|rs| - 1], c, out);
    AllNodesSame(h, h', rs);
    assert rs'[..|rs|] == rs;
    assert forall i :: 0 < i < |rs| ==> Outer(h', rs', i) == Outer(h, rs, i);
  }

  // Extending both the routes and the selection by a node with the same options keeps them together.
  lemma HoldsNext(h: Snap, rs: seq<Route>, h': Snap, rs': seq<Route>, picks: seq<Node>, c: Node, n: Node)
    requires Listed(h, rs) && Listed(h', rs') && Holds(h, rs, picks)
    requires c.spec == n.spec && AllNodes(h', rs') == AllNodes(h, rs) + [c]
    requires Outers(h', rs') == Outers(h, rs) + (if n.transport.multiplex then [n.transport] else [])
    ensures Holds(h', rs', picks + [n])
  {
    PicksAdd(AllNodes(h, rs), c);
    PicksAdd(picks, n);
  }

  // The routes built so far and the selection they hold, with a reading of the objects they are made of.
  datatype Blueprint = Blueprint(h: Snap, rs: seq<Route>, picks: seq<Node>)

  ghost predicate Consistent(p: Blueprint) {
    p.rs == [] || (Linked(p.h, p.rs) && Holds(p.h, p.rs, p.picks))
  }

  type Plan = p: Blueprint | Consistent(p) ghost witness Blueprint(Snap(map[], map[]), [], [])

  ghost const NO_PLAN: Plan := Blueprint(Snap(map[], map[]), [], [])

  ghost function Start(r: Route): (p: Plan)
    ensures p == Blueprint(Snap(map[r := []], map[]), [r], [])
  {
    var h: Snap := Snap(map[r := []], map[]);
    EmptyIsConsistent(r);
    Blueprint(h, [r], [])
  }

  lemma EmptyIsConsistent(r: Route)
    ensures Consistent(Blueprint(Snap(map[r := []], map[]), [r], []))
  {
    var h := Snap(map[r := []], map[]);
    assert Listed(h, [r]);
    assert [r][..0] == [] && AllNodes(h, [r]) == [];
    assert |Outers(h, [r])| == 0;
  }

  lemma AddIsConsistent(h: Snap, rs: seq<Route>, picks: seq<Node>, n: Node)
    requires Linked(h, rs) && Holds(h, rs, picks) && !n.transport.multiplex
    requires n.transport in h.link ==> h.link[n.transport] == null
    ensures Consistent(Blueprint(Added(h, rs[|rs| - 1], n), rs, picks + [n]))
  {
    AddKeepsLinked(h, rs, n);
    AddKeepsPath(h, rs, n);
    HoldsNext(h, rs, Added(h, rs[|rs| - 1], n), rs, picks, n, n);
  }

  lemma WrapIsConsistent(h: Snap, rs: seq<Route>, picks: seq<Node>, n: Node, c: Node, out: Route)
    requires Linked(h, rs) && Holds(h, rs, picks) && n.transport.multiplex && out !in h.nodes
    requires out.marker == rs[0].marker && c.spec == n.spec && c.transport == n.transport
    ensures Consistent(Blueprint(Wrapped(h, rs[|rs| - 1], c, out), rs + [out], picks + [n]))
  {
    WrapKeepsLinked(h, rs, c, out);
    WrapKeepsPath(h, rs, c, out);
    HoldsNext(h, rs, Wrapped(h, rs[|rs| - 1], c, out), rs + [out], picks, c, n);
  }

  // The plan after a node is added to the outermost route.
  lemma PlanAdd(p: Plan, n: Node) returns (q: Plan)
    requires p.rs != [] && !n.transport.multiplex
    requires n.transport in p.h.link ==> p.h.link[n.transport] == null
    ensures q.rs == p.rs && q.picks == p.picks + [n] && p.rs[|p.rs| - 1] in p.h.nodes
    ensures q.h == Added(p.h, p.rs[|p.rs| - 1], n)
  {
    AddIsConsistent(p.h, p.rs, p.picks, n);
    q := Blueprint(Added(p.h, p.rs[|p.rs| - 1], n), p.rs, p.picks + [n]);
  }

  // The plan after a multiplexed node n opens a new route out, headed by its copy c.
  lemma PlanWrap(p: Plan, n: Node, c: Node, out: Route) returns (q: Plan)
    requires p.rs != [] && n.transport.multiplex && out !in p.h.nodes && out.marker == p.rs[0].marker
    requires c.spec == n.spec && c.transport == n.transport
    ensures q.rs == p.rs + [out] && q.picks == p.picks + [n]
    ensures q.h == Wrapped(p.h, p.rs[|p.rs| - 1], c, out)
  {
    WrapIsConsistent(p.h, p.rs, p.picks, n, c, out);
    q := Blueprint(Wrapped(p.h, p.rs[|p.rs| - 1], c, out), p.rs + [out], p.picks + [n]);
  }

  // The plan describes the heap, and rt is its outermost route.
  ghost predicate Stands(p: Plan, rt: Route)
    reads p.h.nodes.Keys, p.h.link.Keys
  {
    p.rs != [] && rt == p.rs[|p.rs| - 1] && rt in p.h.nodes && rt.marker == p.rs[0].marker && Shows(p.h)
  }

  method Begin(marker: Marker?) returns (rt: Route, ghost p: Plan)
    ensures fresh(rt) && rt.marker == marker && Stands(p, rt) && p.picks == [] && p.h.nodes.Keys == {rt}
  {
    rt := new Route(marker);
    p := Start(rt);
  }

  lemma PlanMarkers(p: Plan)
    ensures forall k :: 0 <= k < |p.rs| ==> p.rs[k].marker == p.rs[0].marker
  {
  }

  // A multiplexed node opens a new route, and its transport is to dial through the route so far.
  method Wrap(rt: Route, n: Node, ghost p: Plan) returns (out: Route, ghost q: Plan)
    requires Stands(p, rt) && n.transport.multiplex
    modifies n.transport
    ensures fresh(out) && Stands(q, out) && q.picks == p.picks + [n] && q.rs == p.rs + [out] && out.marker == rt.marker
    ensures fresh(q.h.nodes.Keys - p.h.nodes.Keys) && q.h.link.Keys == p.h.link.Keys + {n.transport}
  {
    hide Consistent;
    var tr := n.transport.Copy();
    tr.route := rt;
    var copy := n.CopyWith(tr);
    out := new Route(rt.marker);
    out.AddNode(copy);
    q := PlanWrap(p, n, copy, out);
  }

  method Append(rt: Route, n: Node, ghost p: Plan) returns (ghost q: Plan)
    requires Stands(p, rt) && !n.transport.multiplex && n.transport.route == null
    modifies rt
    ensures Stands(q, rt) && q.picks == p.picks + [n] && q.rs == p.rs
    ensures q.h.nodes.Keys == p.h.nodes.Keys && q.h.link.Keys == p.h.link.Keys + {n.transport}
  {
    hide Consistent;
    q := PlanAdd(p, n);
    rt.AddNode(n);
  }

  // Adds a selected node: to the current route, or as the head of a new one around it.
  method Extend(rt: Route, n: Node, ghost p: Plan) returns (out: Route, ghost q: Plan)
    requires Stands(p, rt)
    requires !n.transport.multiplex ==> n.transport.route == null
    modifies rt, n.transport
    ensures Stands(q, out) && q.picks == p.picks + [n] && out.marker == rt.marker
    ensures q.rs == if n.transport.multiplex then p.rs + [out] else p.rs
    ensures fresh(q.h.nodes.Keys - p.h.nodes.Keys) && q.h.link.Keys == p.h.link.Keys + {n.transport}
    ensures out == rt || fresh(out)
    ensures !n.transport.multiplex ==> n.transport.route == null
  {
    hide Consistent;
    if n.transport.multiplex {
      out, q := Wrap(rt, n, p);
    } else {
      q := Append(rt, n, p);
      out := rt;
    }
  }
}
