// A chain of hops: one node is selected at each hop, and the selections are linked into a route.

module Chains {
  import opened Common
  import opened Nodes
  import opened Weighted
  import opened Selector
  import opened Hops
  import opened Routing
  import opened Dialing
  import opened Routes
  import opened RoutePaths

  class Chain {
    const hops: seq<Hop>
    const marker: Marker?

    constructor (hops: seq<Hop>, marker: Marker?)
      ensures this.hops == hops && this.marker == marker
    {
      this.hops := hops;
      this.marker := marker;
    }

    ghost function Counters(): set<RoundRobin<Node>> {
      set h, c | h in hops && c in h.Counters() :: c
    }

    ghost function Tables(): set<RandomWeighted<Node>> {
      set h, t | h in hops && t in h.Tables() :: t
    }

    // The markers and transports of all candidates are known.
    ghost predicate Known(req: Request, ms: set<Marker>, ts: set<Transport>) {
      forall h, n :: h in hops && n in Candidates(h.split, h.nodes, req) ==>
        n.transport in ts && (n.spec.marker != null ==> n.spec.marker in ms)
    }

    // Candidates of different hops never share a multiplexed transport.
    ghost predicate Separate(req: Request) {
      forall i, j, n: Node, m: Node ::
        (&& 0 <= i < j < |hops| && n.transport.multiplex
         && n in Candidates(hops[i].split, hops[i].nodes, req) && m in Candidates(hops[j].split, hops[j].nodes, req))
        ==> n.transport != m.transport
    }

    // Only multiplexed transports ever carry a route.
    ghost predicate Plain(ts: set<Transport>)
      reads ts
    {
      forall t :: t in ts && !t.multiplex ==> t.route == null
    }

    ghost predicate Valid()
      reads Counters()
    {
      forall h :: h in hops ==> h.Valid()
    }

    // The nodes selected hop by hop, up to the first hop that selects none.
    ghost predicate Selection(req: Request, marks: Marks, now: int, picks: seq<Node>, orders: seq<seq<Node>>) {
      && |picks| <= |hops| && |orders| == (if |picks| < |hops| then |picks| + 1 else |picks|)
      && (forall i :: 0 <= i < |picks| ==> hops[i].Selected(req, marks, now, orders[i], picks[i]))
      && (|picks| < |hops| ==> hops[|picks|].Selected(req, marks, now, orders[|picks|], null))
    }

    // The selection so far, no hop having selected none.
    ghost predicate Prefix(req: Request, marks: Marks, now: int, picks: seq<Node>, orders: seq<seq<Node>>) {
      && |picks| == |orders| <= |hops|
      && (forall i :: 0 <= i < |picks| ==> hops[i].Selected(req, marks, now, orders[i], picks[i]))
    }

    lemma PrefixNext(req: Request, marks: Marks, now: int, picks: seq<Node>, orders: seq<seq<Node>>, n: Node?,
                     order: seq<Node>)
      requires Prefix(req, marks, now, picks, orders) && |picks| < |hops|
      requires hops[|picks|].Selected(req, marks, now, order, n)
      ensures if n == null then Selection(req, marks, now, picks, orders + [order])
              else Prefix(req, marks, now, picks + [n], orders + [order])
    {
      hide Hop.Selected;
    }

    lemma PrefixStarts(req: Request, marks: Marks, now: int)
      ensures Prefix(req, marks, now, [], [])
    {
    }

    lemma PrefixEnds(req: Request, marks: Marks, now: int, picks: seq<Node>, orders: seq<seq<Node>>)
      requires Prefix(req, marks, now, picks, orders) && |picks| == |hops|
      ensures Selection(req, marks, now, picks, orders)
    {
      hide Hop.Selected;
    }

    method SelectAt(i: nat, req: Request, now: int, entropy: nat, ghost ms: set<Marker>, ghost ts: set<Transport>)
      returns (n: Node?, ghost order: seq<Node>)
      requires Valid() && Known(req, ms, ts) && i < |hops|
      modifies Counters(), Tables()
      ensures Valid()
      ensures hops[i].Selected(req, old(Reading(ms)), now, order, n)
      ensures n != null ==> n.transport in ts
    {
      var hop := hops[i];
      assert hop in hops;
      n, order := hop.Select(req, now, entropy, ms);
      if n != null {
        SelectedIsCandidate(hop, req, old(Reading(ms)), now, order, n);
      }
    }

    // One hop: select a node and add it to the route; nothing is added when the hop selects none.
    method Advance(i: nat, cur: Nodes.Route, req: Request, now: int, entropy: nat, ghost ms: set<Marker>,
                   ghost ts: set<Transport>, ghost p: Plan)
      returns (out: Nodes.Route, selected: bool, ghost n: Node?, ghost order: seq<Node>, ghost q: Plan)
      requires Valid() && Known(req, ms, ts) && i < |hops|
      requires Plain(ts) && Stands(p, cur)
      modifies Counters(), Tables(), ts, cur
      ensures Valid() && Plain(ts) && Stands(q, out) && out.marker == cur.marker
      ensures hops[i].Selected(req, old(Reading(ms)), now, order, n)
      ensures selected <==> n != null
      ensures n == null ==> out == cur && q == p
      ensures n != null ==> q.picks == p.picks + [n]
      ensures fresh(q.h.nodes.Keys - p.h.nodes.Keys) && (out == cur || fresh(out))
    {
      hide Consistent, Hop.Selected, Chain.Known, Chain.Valid, Reading, Shows, Sealed;
      var node, o := SelectAt(i, req, now, entropy, ms, ts);
      n, order := node, o;
      out, q, selected := cur, p, node != null;
      if node != null {
        out, q := Extend(cur, node, p);
      }
    }

    method Route(req: Request, now: int, entropy: nat -> nat, ghost ms: set<Marker>, ghost ts: set<Transport>)
      returns (rt: Nodes.Route?, ghost orders: seq<seq<Node>>, ghost p: Plan)
      requires Valid() && Plain(ts) && Known(req, ms, ts)
      modifies Counters(), Tables(), ts
      ensures Valid() && Plain(ts)
      ensures rt == null <==> hops == []
      ensures rt != null ==> fresh(rt) && Stands(p, rt) && Selection(req, old(Reading(ms)), now, p.picks, orders)
      ensures rt != null ==> rt.marker == marker
    {
      hide Consistent, Hop.Selected, Stands, Shows, Chain.Valid, Chain.Plain, Chain.Known, Chain.Prefix,
           Chain.Selection, Reading;
      rt, orders, p := null, [], NO_PLAN;
      if hops == [] {
        return;
      }
      var cur;
      cur, p := Begin(marker);
      rt := cur;
      ghost var marks := Reading(ms);
      PrefixStarts(req, marks, now);
      for i := 0 to |hops|
        invariant Valid() && Plain(ts) && Reading(ms) == marks
        invariant fresh(p.h.nodes.Keys) && Stands(p, cur) && rt == cur && fresh(cur) && cur.marker == marker
        invariant |p.picks| == |orders| == i && Prefix(req, marks, now, p.picks, orders)
      {
        ghost var node, order, picks := null, [], p.picks;
        var selected;
        cur, selected, node, order, p := Advance(i, cur, req, now, entropy(i), ms, ts, p);
        PrefixNext(req, marks, now, picks, orders, node, order);
        rt, orders := cur, orders + [order];
        if !selected {
          return;
        }
      }
      PrefixEnds(req, marks, now, p.picks, orders);
    }
  }

  lemma {:induction false} MuxOrigin(picks: seq<Node>, t: Transport)
    requires t in MuxTransports(picks)
    ensures exists i :: 0 <= i < |picks| && picks[i].transport == t && t.multiplex
  {
    var m := |picks| - 1;
    if t in MuxTransports(picks[..m]) {
      MuxOrigin(picks[..m], t);
      var i :| 0 <= i < m && picks[..m][i].transport == t && t.multiplex;
      assert picks[i].transport == t;
    } else {
      assert picks[m].transport == t;
    }
  }

  // Selections that share no multiplexed transport give a route whose path exists.
  lemma {:induction false} ApartIsDistinct(picks: seq<Node>)
    requires forall i, j :: 0 <= i < j < |picks| && picks[i].transport.multiplex ==> picks[i].transport != picks[j].transport
    ensures Distinct(MuxTransports(picks))
  {
    if picks != [] {
      var m := |picks| - 1;
      ApartIsDistinct(picks[..m]);
      var ts := MuxTransports(picks[..m]);
      if picks[m].transport.multiplex {
        forall i | 0 <= i < |ts| ensures ts[i] != picks[m].transport {
          MuxOrigin(picks[..m], ts[i]);
        }
      }
    }
  }

  lemma {:induction false} NoMux(picks: seq<Node>)
    requires forall i :: 0 <= i < |picks| ==> !picks[i].transport.multiplex
    ensures MuxTransports(picks) == []
  {
    if picks != [] {
      NoMux(picks[..|picks| - 1]);
    }
  }

  lemma SelectionIsCovered(c: Chain, req: Request, marks: Marks, now: int, picks: seq<Node>, orders: seq<seq<Node>>)
    requires c.Selection(req, marks, now, picks, orders)
    ensures |picks| <= |c.hops|
    ensures forall i :: 0 <= i < |picks| ==> picks[i] in Candidates(c.hops[i].split, c.hops[i].nodes, req)
    ensures forall ms, ts :: c.Known(req, ms, ts) ==> Covered(picks, ms)
  {
    hide Hop.Selected;
    forall i | 0 <= i < |picks| ensures picks[i] in Candidates(c.hops[i].split, c.hops[i].nodes, req) {
      SelectedIsCandidate(c.hops[i], req, marks, now, orders[i], picks[i]);
    }
  }

  // Hops whose candidates share no multiplexed transport never select one twice.
  lemma SelectionIsDistinct(c: Chain, req: Request, marks: Marks, now: int, picks: seq<Node>, orders: seq<seq<Node>>)
    requires c.Selection(req, marks, now, picks, orders) && c.Separate(req)
    ensures Distinct(MuxTransports(picks))
  {
    hide Hop.Selected, Distinct, MuxTransports;
    SelectionIsCovered(c, req, marks, now, picks, orders);
    ApartIsDistinct(picks);
  }
}
