// The printed path of a route: when it exists, and that it is the selection.

module RoutePaths {
  import opened Common
  import opened Nodes
  import opened Wire
  import opened Routing
  import opened Dialing
  import opened Routes

  // The path of a route unfolded at most fuel levels deep; None when that is not deep enough.
  ghost function PathWithin(h: Snap, r: Route?, fuel: nat): Option<seq<Node>>
    requires Sealed(h) && (r != null ==> r in h.nodes)
    decreases fuel, 0
  {
    if r == null then Some([])
    else if fuel == 0 then None
    else PathOf(h, h.nodes[r], fuel - 1)
  }

  // Each node is preceded by the path of the route nested in its transport.
  ghost function PathOf(h: Snap, ns: seq<Node>, fuel: nat): Option<seq<Node>>
    requires Sealed(h) && forall n :: n in ns ==> n.transport in h.link
    decreases fuel, 1, |ns|
  {
    if ns == [] then Some([])
    else
      var n := ns[|ns| - 1];
      match (PathOf(h, ns[..|ns| - 1], fuel), PathWithin(h, h.link[n.transport], fuel))
      case (Some(a), Some(b)) => Some(a + b + [n])
      case _ => None
  }

  // The recursion on a stack of limited depth; None when it overflows.
  method RoutePath(route: Route?, stack: nat, ghost h: Snap) returns (path: Option<seq<Node>>)
    requires Shows(h) && Sealed(h) && (route != null ==> route in h.nodes)
    ensures path == PathWithin(h, route, stack)
    decreases stack
  {
    if route == null {
      return Some([]);
    }
    if stack == 0 {
      return None;
    }
    var ns := route.nodes;
    var done: seq<Node> := [];
    assert ns[..|ns|] == ns;
    for i := 0 to |ns|
      invariant PathOf(h, ns[..i], stack - 1) == Some(done)
    {
      assert ns[..i + 1][..i] == ns[..i];
      var nested := RoutePath(ns[i].transport.route, stack - 1, h);
      if nested.None? {
        if PathOf(h, ns, stack - 1).Some? {
          PathOfPrefix(h, ns, i + 1, stack - 1);
        }
        return None;
      }
      done := done + nested.value + [ns[i]];
    }
    path := Some(done);
  }

  // A deeper stack changes nothing once the recursion ends.
  lemma {:induction false} PathDeeper(h: Snap, r: Route?, depth: nat, more: nat)
    requires Sealed(h) && (r != null ==> r in h.nodes) && depth <= more && PathWithin(h, r, depth).Some?
    ensures PathWithin(h, r, more) == PathWithin(h, r, depth)
    decreases depth, 0
  {
    if r != null {
      PathOfDeeper(h, h.nodes[r], depth - 1, more - 1);
    }
  }

  lemma {:induction false} PathOfDeeper(h: Snap, ns: seq<Node>, depth: nat, more: nat)
    requires Sealed(h) && (forall n :: n in ns ==> n.transport in h.link) && depth <= more && PathOf(h, ns, depth).Some?
    ensures PathOf(h, ns, more) == PathOf(h, ns, depth)
    decreases depth, 1, |ns|
  {
    if ns != [] {
      PathOfDeeper(h, ns[..|ns| - 1], depth, more);
      PathDeeper(h, h.link[ns[|ns| - 1].transport], depth, more);
    }
  }

  lemma {:induction false} PathOfPrefix(h: Snap, ns: seq<Node>, i: nat, fuel: nat)
    requires Sealed(h) && forall n :: n in ns ==> n.transport in h.link
    requires i <= |ns| && PathOf(h, ns, fuel).Some?
    ensures PathOf(h, ns[..i], fuel).Some?
    decreases |ns|
  {
    if i == |ns| {
      assert ns[..i] == ns;
    } else {
      PathOfPrefix(h, ns[..|ns| - 1], i, fuel);
      assert ns[..|ns| - 1][..i] == ns[..i];
    }
  }

  // ---------- Pairwise distinct multiplexed transports ----------

  ghost predicate Distinct(ts: seq<Transport>) {
    forall i, j :: 0 <= i < j < |ts| ==> ts[i] != ts[j]
  }

  // Every nested route is nested around the one before it.
  ghost predicate Straight(h: Snap, rs: seq<Route>)
    requires Listed(h, rs)
  {
    forall k :: 0 < k < |rs| ==> Outer(h, rs, k) in h.link && h.link[Outer(h, rs, k)] == rs[k - 1]
  }

  lemma DistinctIsStraight(h: Snap, rs: seq<Route>)
    requires Linked(h, rs) && Distinct(Outers(h, rs))
    ensures Straight(h, rs)
  {
    forall k | 0 < k < |rs| ensures Outer(h, rs, k) in h.link && h.link[Outer(h, rs, k)] == rs[k - 1] {
      assert Written(h, rs, k);
      var l :| LastWritten(h, rs, k, l);
      assert Outers(h, rs)[k - 1] == Outers(h, rs)[l - 1];
    }
  }

  lemma NodeOfRow(h: Snap, rs: seq<Route>, k: nat, i: nat)
    requires Linked(h, rs) && k < |rs| && i < |h.nodes[rs[k]]|
    ensures var tr := h.nodes[rs[k]][i].transport;
      tr in h.link && (if k > 0 && i == 0 then tr == Outer(h, rs, k) else h.link[tr] == null)
    ensures rs[k] in h.nodes && Sealed(h) && forall n :: n in h.nodes[rs[k]] ==> n.transport in h.link
  {
  }

  lemma PathNext(h: Snap, ns: seq<Node>, i: nat, fuel: nat, front: seq<Node>, inner: seq<Node>)
    requires Sealed(h) && (forall n :: n in ns ==> n.transport in h.link) && 0 < i <= |ns|
    requires PathOf(h, ns[..i - 1], fuel) == Some(front)
    requires PathWithin(h, h.link[ns[i - 1].transport], fuel) == Some(inner)
    ensures PathOf(h, ns[..i], fuel) == Some(front + inner + [ns[i - 1]])
  {
    hide Sealed, PathWithin;
    assert ns[..i][..i - 1] == ns[..i - 1];
  }

  // A row of nodes of which only the head leads into another route.
  lemma {:induction false} RowOf(h: Snap, ns: seq<Node>, i: nat, fuel: nat, before: seq<Node>)
    requires Sealed(h) && (forall n :: n in ns ==> n.transport in h.link) && i <= |ns|
    requires ns != [] ==> PathWithin(h, h.link[ns[0].transport], fuel) == Some(before)
    requires forall j :: 0 < j < |ns| ==> h.link[ns[j].transport] == null
    ensures PathOf(h, ns[..i], fuel) == Some(if i == 0 then [] else before + ns[..i])
    decreases i
  {
    hide Sealed, PathOf;
    if i == 0 {
      NoPath(h, fuel);
    } else {
      RowOf(h, ns, i - 1, fuel, before);
      var front := if i == 1 then [] else before + ns[..i - 1];
      var inner := if i == 1 then before else [];
      PathNext(h, ns, i, fuel, front, inner);
      assert front + inner + [ns[i - 1]] == before + ns[..i];
    }
  }

  lemma NoPath(h: Snap, fuel: nat)
    requires Sealed(h)
    ensures PathOf(h, [], fuel) == Some([]) && PathWithin(h, null, fuel) == Some([])
  {
  }

  // Within one route only the head leads into another one.
  lemma RowPath(h: Snap, rs: seq<Route>, k: nat, fuel: nat, before: seq<Node>)
    requires Linked(h, rs) && k < |rs|
    requires k == 0 ==> before == []
    requires k > 0 ==> PathWithin(h, h.link[Outer(h, rs, k)], fuel) == Some(before)
    ensures var ns := h.nodes[rs[k]]; PathOf(h, ns, fuel) == Some(if ns == [] then [] else before + ns)
  {
    var ns := h.nodes[rs[k]];
    RowLinks(h, rs, k);
    NoPath(h, fuel);
    assert ns[..|ns|] == ns;
    hide Linked, Sealed, PathOf, Outer;
    RowOf(h, ns, |ns|, fuel, before);
  }

  lemma RowLinks(h: Snap, rs: seq<Route>, k: nat)
    requires Linked(h, rs) && k < |rs|
    ensures rs[k] in h.nodes && Sealed(h) && forall n :: n in h.nodes[rs[k]] ==> n.transport in h.link
    ensures var ns := h.nodes[rs[k]];
      && (forall j :: 0 < j < |ns| ==> h.link[ns[j].transport] == null)
      && (ns != [] && k == 0 ==> h.link[ns[0].transport] == null)
      && (ns != [] && k > 0 ==> ns[0].transport == Outer(h, rs, k))
  {
    forall j | 0 <= j < |h.nodes[rs[k]]|
      ensures var tr := h.nodes[rs[k]][j].transport;
        tr in h.link && (if k > 0 && j == 0 then tr == Outer(h, rs, k) else h.link[tr] == null)
    {
      NodeOfRow(h, rs, k, j);
    }
  }

  lemma {:induction false} StraightPath(h: Snap, rs: seq<Route>, k: nat)
    requires Linked(h, rs) && Straight(h, rs) && k < |rs|
    ensures PathWithin(h, rs[k], k + 1) == Some(AllNodes(h, rs[..k + 1]))
  {
    var ns := h.nodes[rs[k]];
    assert rs[..k + 1][..k] == rs[..k];
    if k == 0 {
      RowPath(h, rs, 0, 0, []);
      assert AllNodes(h, rs[..1]) == [] + ns;
    } else {
      StraightPath(h, rs, k - 1);
      RowPath(h, rs, k, k, AllNodes(h, rs[..k]));
    }
  }

  // ---------- A multiplexed transport selected twice ----------

  // The routes from the first use of a transport on lead back into each other forever.
  lemma {:induction false} SharedNeverUnfolds(h: Snap, rs: seq<Route>, j: nat, again: nat, k: nat, fuel: nat)
    requires Linked(h, rs) && 0 < j < again < |rs| && Outer(h, rs, j) == Outer(h, rs, again)
    requires j <= k < |rs|
    ensures PathWithin(h, rs[k], fuel).None?
    decreases fuel
  {
    if fuel > 0 {
      assert Written(h, rs, k);
      var l :| LastWritten(h, rs, k, l);
      assert l > j;
      SharedNeverUnfolds(h, rs, j, again, l - 1, fuel - 1);
      HeadBlocks(h, h.nodes[rs[k]], fuel - 1);
    }
  }

  lemma {:induction false} HeadBlocks(h: Snap, ns: seq<Node>, fuel: nat)
    requires Sealed(h) && ns != [] && forall n :: n in ns ==> n.transport in h.link
    requires PathWithin(h, h.link[ns[0].transport], fuel).None?
    ensures PathOf(h, ns, fuel).None?
    decreases |ns|
  {
    if |ns| > 1 {
      HeadBlocks(h, ns[..|ns| - 1], fuel);
    }
  }

  lemma DistinctPath(p: Plan, stack: nat)
    requires p.rs != [] && Distinct(MuxTransports(p.picks)) && stack >= |p.rs|
    ensures var path := PathWithin(p.h, p.rs[|p.rs| - 1], stack);
      path.Some? && Specs(path.value) == Specs(p.picks)
  {
    hide Distinct, Straight, PathWithin;
    var h, rs, m := p.h, p.rs, |p.rs| - 1;
    DistinctIsStraight(h, rs);
    StraightPath(h, rs, m);
    assert rs[..m + 1] == rs;
    PathDeeper(h, rs[m], |rs|, stack);
  }

  lemma SharedPath(p: Plan, stack: nat)
    requires p.rs != [] && !Distinct(MuxTransports(p.picks))
    ensures PathWithin(p.h, p.rs[|p.rs| - 1], stack).None?
  {
    hide PathWithin;
    var ts := Outers(p.h, p.rs);
    var i, j :| 0 <= i < j < |ts| && ts[i] == ts[j];
    SharedNeverUnfolds(p.h, p.rs, i + 1, j + 1, |p.rs| - 1, stack);
  }

  // The printed path exists, and is then the selection hop by hop, exactly when no multiplexed transport was selected
  // twice: then a stack as deep as there are routes is enough, otherwise the recursion overflows every stack.
  lemma PathExistsIffDistinct(p: Plan, stack: nat)
    requires p.rs != [] && stack >= |p.rs|
    ensures var h, r := p.h, p.rs[|p.rs| - 1];
      var path := PathWithin(h, r, stack);
      && (path.Some? <==> Distinct(MuxTransports(p.picks)))
      && (path.Some? ==> Specs(path.value) == Specs(p.picks))
      && (!Distinct(MuxTransports(p.picks)) ==> forall d: nat :: PathWithin(h, r, d).None?)
  {
    hide Distinct, PathWithin, MuxTransports;
    var h, r := p.h, p.rs[|p.rs| - 1];
    if Distinct(MuxTransports(p.picks)) {
      DistinctPath(p, stack);
    } else {
      forall d: nat ensures PathWithin(h, r, d).None? {
        SharedPath(p, d);
      }
    }
  }

  // There are no more routes than hops that selected a node, and one.
  lemma RoutesCounted(p: Plan)
    requires p.rs != []
    ensures |p.rs| <= |p.picks| + 1
  {
    hide MuxTransports;
    MuxCounted(p.picks);
    assert |Outers(p.h, p.rs)| == |p.rs| - 1;
  }

  lemma {:induction false} MuxCounted(picks: seq<Node>)
    ensures |MuxTransports(picks)| <= |picks|
  {
    if picks != [] {
      MuxCounted(picks[..|picks| - 1]);
    }
  }

  // ---------- From the reading to the dial ----------

  lemma {:induction false} FlattenIsAllNodes(h: Snap, rs: seq<Route>, ls: seq<Level>)
    requires Shows(h) && (forall k :: 0 <= k < |rs| ==> rs[k] in h.nodes) && ls == Levels(rs)
    ensures Flatten(ls) == Specs(AllNodes(h, rs))
  {
    if rs != [] {
      FlattenIsAllNodes(h, rs[..|rs| - 1], ls[..|ls| - 1]);
    }
  }

  lemma StraightIsChained(h: Snap, rs: seq<Route>)
    requires Shows(h) && Linked(h, rs) && Straight(h, rs)
    ensures var g := Region(h.nodes.Keys, h.link.Keys);
      Closed(g) && Chained(rs, g)
  {
    assert forall k :: 0 < k < |rs| ==> rs[k].nodes[0].transport == Outer(h, rs, k);
    assert h.nodes[rs[0]] != [] ==> !h.nodes[rs[0]][0].transport.multiplex;
  }

  // A plan without repeated multiplexed transports can be dialled, and its levels flatten to the selection.
  lemma PlanIsDialable(p: Plan, ms: set<Marker>)
    requires p.rs != [] && Shows(p.h) && Distinct(MuxTransports(p.picks)) && Marking(p.rs, ms)
    ensures var g := Region(p.h.nodes.Keys, p.h.link.Keys);
      Built(p.rs, Levels(p.rs), g, ms) && Nested(Levels(p.rs)) && Flatten(Levels(p.rs)) == Specs(p.picks)
  {
    DistinctIsStraight(p.h, p.rs);
    StraightIsChained(p.h, p.rs);
    FlattenIsAllNodes(p.h, p.rs, Levels(p.rs));
  }
}
