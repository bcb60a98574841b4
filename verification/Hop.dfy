// A hop: which of its nodes may serve a request, and the one it selects.

module Hops {
  import opened Common
  import opened Nodes
  import opened Weighted
  import opened Selector

  predicate HasSuffix(s: string, t: string) {
    |t| <= |s| && s[|s| - |t|..] == t
  }

  // Splitting host and port is the library's; it yields the empty string for an address without a port.
  predicate CheckHost(split: string -> string, host: string, vhost: string) {
    if vhost == "" then true
    else if host == "" then false
    else
      var h := if split(host) != "" then split(host) else host;
      vhost == h || (vhost[0] == '.' && HasSuffix(h, vhost[1..]))
  }

  predicate CheckProtocol(protocol: string, prot: string) {
    prot == "" || prot == protocol
  }

  predicate CheckPath(path: string, prefix: string) {
    prefix == "" || prefix <= path
  }

  predicate Eligible(split: string -> string, s: NodeSpec, req: Request) {
    && !(s.bypass.Some? && s.bypass.value(req))
    && match s.matcher
       case Some(m) => m(req)
       case None =>
         s.filter.Some? ==>
           && CheckHost(split, req.host, s.filter.value.host)
           && CheckProtocol(req.protocol, s.filter.value.protocol)
           && CheckPath(req.path, s.filter.value.path)
  }

  // A filter ".d" accepts exactly the hosts that end in d, on a label boundary or not, and the host ".d" itself.
  lemma DottedHostFilter(split: string -> string, host: string, d: string)
    requires host != "" && split(host) == ""
    ensures CheckHost(split, host, "." + d) <==> exists p: string :: host == p + d
  {
    var vhost := "." + d;
    assert vhost[1..] == d;
    if HasSuffix(host, d) {
      assert host == host[..|host| - |d|] + d;
    }
    if vhost == host {
      assert host == "." + d;
    }
    if exists p: string :: host == p + d {
      var p: string :| host == p + d;
      assert host[|host| - |d|..] == d;
    }
  }

  // Whether a host name, cut free of its port, fits a host filter: it is that name, or the filter is dotted and
  // the name ends in what follows the dot.
  ghost predicate NameFits(name: string, filter: string) {
    name == filter || exists d: string, p: string :: filter == "." + d && name == p + d
  }

  lemma {:induction false} SuffixIsEnd(s: string, t: string)
    ensures HasSuffix(s, t) <==> exists p: string :: s == p + t
  {
    if HasSuffix(s, t) {
      assert s == s[..|s| - |t|] + t;
    }
    if exists p: string :: s == p + t {
      var p: string :| s == p + t;
      assert s[|s| - |t|..] == t;
    }
  }

  // Without a matcher the filter decides, field by field; an empty field asks for nothing. The path of the filter is
  // a beginning of the path asked for, and a host is compared with its port or, when it has one, without it.
  lemma {:induction false} FilterAccepts(split: string -> string, s: NodeSpec, req: Request)
    requires !(s.bypass.Some? && s.bypass.value(req)) && s.matcher.None? && s.filter.Some?
    ensures var f := s.filter.value;
      Eligible(split, s, req) <==>
        && (f.host != "" ==> req.host != "" && NameFits(if split(req.host) != "" then split(req.host) else req.host, f.host))
        && (f.protocol != "" ==> req.protocol == f.protocol)
        && (exists rest: string :: req.path == f.path + rest)
  {
    var f := s.filter.value;
    if f.host != "" && req.host != "" {
      var name := if split(req.host) != "" then split(req.host) else req.host;
      SuffixIsEnd(name, f.host[1..]);
      if f.host[0] == '.' {
        assert f.host == "." + f.host[1..];
      }
      if d: string, p: string :| f.host == "." + d && name == p + d {
        assert f.host[1..] == d;
      }
    }
    if f.path <= req.path {
      assert req.path == f.path + req.path[|f.path|..];
    }
  }

  // A bypass that holds keeps a node out, whatever else it has. Otherwise the answer of a matcher alone decides when
  // there is one, and a node with neither a matcher nor a filter serves every request.
  lemma BypassThenMatcher(split: string -> string, s: NodeSpec, req: Request)
    ensures s.bypass.Some? && s.bypass.value(req) ==> !Eligible(split, s, req)
    ensures !(s.bypass.Some? && s.bypass.value(req)) && s.matcher.Some? ==>
      (Eligible(split, s, req) <==> s.matcher.value(req))
    ensures !(s.bypass.Some? && s.bypass.value(req)) && s.matcher.None? && s.filter.None? ==> Eligible(split, s, req)
  {
  }

  ghost function Candidates(split: string -> string, nodes: seq<Node?>, req: Request): (r: seq<Node>)
    ensures forall v | v in r :: v in nodes && Eligible(split, v.spec, req)
    ensures forall v: Node? | v in nodes :: v != null && Eligible(split, v.spec, req) ==> v in r
  {
    if nodes == [] then []
    else
      var v := nodes[|nodes| - 1];
      Candidates(split, nodes[..|nodes| - 1], req)
      + (if v != null && Eligible(split, v.spec, req) then [v] else [])
  }

  lemma {:induction false} CandidatesInOrder(split: string -> string, a: seq<Node?>, b: seq<Node?>, req: Request)
    ensures Candidates(split, a + b, req) == Candidates(split, a, req) + Candidates(split, b, req)
    decreases |b|
  {
    hide Candidates;
    if b == [] {
      assert a + b == a;
      NoCandidates(split, req);
    } else {
      var k := |b| - 1;
      CandidatesInOrder(split, a, b[..k], req);
      CandidatesNext(split, a + b[..k], b[k], req);
      CandidatesNext(split, b[..k], b[k], req);
      assert a + b[..k] + [b[k]] == a + b && b[..k] + [b[k]] == b;
    }
  }

  lemma {:induction false} CandidatesNext(split: string -> string, nodes: seq<Node?>, v: Node?, req: Request)
    ensures Candidates(split, nodes + [v], req)
            == Candidates(split, nodes, req) + if v != null && Eligible(split, v.spec, req) then [v] else []
  {
    hide Eligible;
    assert (nodes + [v])[..|nodes|] == nodes;
  }

  lemma NoCandidates(split: string -> string, req: Request)
    ensures Candidates(split, [], req) == []
  {
  }

  // Every node is judged for itself and stays in its place among the others.
  lemma {:induction false} CandidatesInPlace(split: string -> string, a: seq<Node?>, v: Node?, b: seq<Node?>, req: Request)
    ensures Candidates(split, a + [v] + b, req)
            == Candidates(split, a, req) + (if v != null && Eligible(split, v.spec, req) then [v] else [])
               + Candidates(split, b, req)
  {
    hide Candidates, Eligible;
    CandidatesInOrder(split, a + [v], b, req);
    CandidatesNext(split, a, v, req);
  }

  ghost predicate Descending(vs: seq<Node>) {
    forall i, j :: 0 <= i < j < |vs| ==> vs[i].spec.priority >= vs[j].spec.priority
  }

  // The library sort gives some permutation with descending priorities; equal priorities come in any order.
  ghost predicate SortedPermutation(r: seq<Node>, vs: seq<Node>) {
    multiset(r) == multiset(vs) && Descending(r)
  }

  lemma SameMembers(r: seq<Node>, vs: seq<Node>)
    requires multiset(r) == multiset(vs)
    ensures |r| == |vs| && forall v :: v in r <==> v in vs
  {
    assert |multiset(r)| == |r| && |multiset(vs)| == |vs|;
    forall v ensures v in r <==> v in vs {
      assert v in r <==> v in multiset(r);
    }
  }

  lemma InsertKeepsOrder(front: seq<Node>, v: Node, back: seq<Node>)
    requires Descending(front + back)
    requires front != [] ==> front[|front| - 1].spec.priority >= v.spec.priority
    requires back != [] ==> back[0].spec.priority < v.spec.priority
    ensures Descending(front + [v] + back)
  {
    var r, q, j := front + back, front + [v] + back, |front|;
    forall a, b | 0 <= a < b < |q| ensures q[a].spec.priority >= q[b].spec.priority {
      assert q[a] == if a < j then r[a] else if a == j then v else r[a - 1];
      assert q[b] == if b < j then r[b] else if b == j then v else r[b - 1];
      if b == j {
        assert r[j - 1] == front[j - 1];
      } else if a == j {
        assert r[j] == back[0];
      }
    }
  }

  lemma InsertKeepsMembers<T>(front: seq<T>, v: T, back: seq<T>)
    ensures multiset(front + [v] + back) == multiset(front + back) + multiset{v}
  {
  }

  // Between the nodes of at least its priority and the others, a node is in its place.
  lemma Inserted(r: seq<Node>, j: nat, v: Node)
    requires j <= |r| && Descending(r)
    requires j > 0 ==> r[j - 1].spec.priority >= v.spec.priority
    requires j < |r| ==> r[j].spec.priority < v.spec.priority
    ensures Descending(r[..j] + [v] + r[j..]) && multiset(r[..j] + [v] + r[j..]) == multiset(r) + multiset{v}
  {
    hide Descending;
    assert r == r[..j] + r[j..];
    InsertKeepsOrder(r[..j], v, r[j..]);
    InsertKeepsMembers(r[..j], v, r[j..]);
  }

  method Insert(r: seq<Node>, v: Node) returns (q: seq<Node>)
    requires Descending(r)
    ensures Descending(q) && multiset(q) == multiset(r) + multiset{v}
  {
    hide Descending;
    var j := |r|;
    while j > 0 && r[j - 1].spec.priority < v.spec.priority
      invariant 0 <= j <= |r|
      invariant j < |r| ==> r[j].spec.priority < v.spec.priority
    {
      j := j - 1;
    }
    Inserted(r, j, v);
    q := r[..j] + [v] + r[j..];
  }

  method SortByPriority(vs: seq<Node>) returns (r: seq<Node>)
    ensures SortedPermutation(r, vs)
  {
    r := [];
    assert vs[..|vs|] == vs;
    for i := 0 to |vs|
      invariant SortedPermutation(r, vs[..i])
    {
      assert vs[..i + 1] == vs[..i] + [vs[i]];
      r := Insert(r, vs[i]);
    }
  }

  ghost predicate TopPriority(v: Node, vs: seq<Node>) {
    v in vs && forall u :: u in vs ==> u.spec.priority <= v.spec.priority
  }

  ghost predicate Prioritised(vs: seq<Node>) {
    exists v :: v in vs && v.spec.priority > 0
  }

  class Hop {
    const nodes: seq<Node?>
    const bypass: Option<Request -> bool>
    const selector: NodeSelector?
    const split: string -> string

    constructor (nodes: seq<Node?>, bypass: Option<Request -> bool>, selector: NodeSelector?, split: string -> string)
      ensures this.nodes == nodes && this.bypass == bypass && this.selector == selector && this.split == split
    {
      this.nodes := nodes;
      this.bypass := bypass;
      this.selector := selector;
      this.split := split;
    }

    ghost function Counters(): set<RoundRobin<Node>> {
      if selector != null then selector.strategy.Counters() else {}
    }

    ghost function Tables(): set<RandomWeighted<Node>> {
      if selector != null then selector.strategy.Tables() else {}
    }

    ghost predicate Valid()
      reads Counters()
    {
      selector != null ==> selector.strategy.Valid()
    }

    // What the hop may return for a request, order being how its candidates were sorted.
    ghost predicate Selected(req: Request, marks: Marks, now: int, order: seq<Node>, r: Node?) {
      var c := Candidates(split, nodes, req);
      if (bypass.Some? && bypass.value(req)) || c == [] then r == null
      else if |c| == 1 then r == c[0]
      else Chosen(c, marks, now, order, r)
    }

    ghost predicate Chosen(c: seq<Node>, marks: Marks, now: int, order: seq<Node>, r: Node?) {
      if Prioritised(c) || selector == null then r != null && TopPriority(r, c)
      else
        && SortedPermutation(order, c)
        && var l := Pipeline(selector.filters, order, marks, now);
           if l == [] then r == null else r in l
    }

    // The nodes that may serve the request, in the order of the hop.
    method Gather(req: Request) returns (c: seq<Node>)
      ensures c == Candidates(split, nodes, req)
    {
      c := [];
      assert nodes[..|nodes|] == nodes;
      for i := 0 to |nodes|
        invariant c == Candidates(split, nodes[..i], req)
      {
        var v := nodes[i];
        assert nodes[..i + 1][..i] == nodes[..i];
        if v != null && Eligible(split, v.spec, req) {
          c := c + [v];
        }
      }
    }

    method Select(req: Request, now: int, entropy: nat, ghost ms: set<Marker>) returns (r: Node?, ghost order: seq<Node>)
      requires Valid() && Covered(Candidates(split, nodes, req), ms)
      modifies Counters(), Tables()
      ensures Valid()
      ensures Selected(req, old(Reading(ms)), now, order, r)
    {
      if bypass.Some? && bypass.value(req) {
        return null, [];
      }
      var c := Gather(req);
      if c == [] {
        return null, [];
      }
      if |c| == 1 {
        return c[0], c;
      }
      r, order := Choose(c, now, entropy, ms);
    }

    // Among several candidates a positive priority decides, then the selector.
    method Choose(c: seq<Node>, now: int, entropy: nat, ghost ms: set<Marker>) returns (r: Node?, ghost order: seq<Node>)
      requires Valid() && Covered(c, ms) && |c| > 1
      modifies Counters(), Tables()
      ensures Valid()
      ensures Chosen(c, old(Reading(ms)), now, order, r)
    {
      var sorted := SortByPriority(c);
      order := sorted;
      SameMembers(sorted, c);
      if sorted[0].spec.priority > 0 || selector == null {
        return sorted[0], sorted;
      }
      ghost var index;
      r, index := selector.Select(sorted, now, entropy, ms);
    }
  }

  lemma SelectedIsCandidate(h: Hop, req: Request, marks: Marks, now: int, order: seq<Node>, r: Node)
    requires h.Selected(req, marks, now, order, r)
    ensures r in Candidates(h.split, h.nodes, req)
  {
    var c := Candidates(h.split, h.nodes, req);
    if |c| > 1 && !Prioritised(c) && h.selector != null {
      SameMembers(order, c);
    }
  }

  // A hop that is bypassed, or none of whose nodes may serve the request, selects nothing. Any other hop selects a node,
  // unless its selector filters out all of several candidates without a positive priority; without a selector the node
  // has top priority.
  lemma NothingSelected(h: Hop, req: Request, marks: Marks, now: int, order: seq<Node>, r: Node?)
    requires h.Selected(req, marks, now, order, r)
    ensures h.bypass.Some? && h.bypass.value(req) ==> r == null
    ensures (forall v :: v in h.nodes && v != null ==> !Eligible(h.split, v.spec, req)) ==> r == null
    ensures var c := Candidates(h.split, h.nodes, req);
      r == null ==>
        || (h.bypass.Some? && h.bypass.value(req))
        || (forall v :: v in h.nodes && v != null ==> !Eligible(h.split, v.spec, req))
        || (|c| > 1 && !Prioritised(c) && h.selector != null && Pipeline(h.selector.filters, order, marks, now) == [])
    ensures h.selector == null && r != null ==> TopPriority(r, Candidates(h.split, h.nodes, req))
  {
    hide Eligible;
    var c := Candidates(h.split, h.nodes, req);
    if c != [] {
      assert c[0] in c;
    }
  }

  // With two candidates or more, none prioritised, and the standard pipeline, the hop returns a live node,
  // a primary one while any primary is live, and nothing exactly when every candidate is dead.
  lemma StandardSelect(h: Hop, req: Request, marks: Marks, now: int, order: seq<Node>, r: Node?)
    requires h.Selected(req, marks, now, order, r)
    requires h.selector != null && Standard(h.selector.filters)
    requires !(h.bypass.Some? && h.bypass.value(req))
    requires |Candidates(h.split, h.nodes, req)| > 1 && !Prioritised(Candidates(h.split, h.nodes, req))
    ensures var c := Candidates(h.split, h.nodes, req);
      var f := h.selector.filters[0];
      && (r == null <==> forall u :: u in c ==> !Live(f, u, marks, now))
      && (r != null ==>
          && r in c && Live(f, r, marks, now)
          && (r.spec.backup ==> forall u :: u in c && Live(f, u, marks, now) ==> u.spec.backup))
  {
    var c := Candidates(h.split, h.nodes, req);
    SameMembers(order, c);
    StandardPipeline(h.selector.filters, order, marks, now, if r != null then r else order[0]);
  }

  // With a live candidate, the hop is sure to return a live node if and only if no priority is positive
  // or every candidate of top priority is live: a positive priority counts more than any number of failures.
  lemma LiveUnlessDeadPreferred(h: Hop, req: Request, marks: Marks, now: int)
    requires h.selector != null && Standard(h.selector.filters)
    requires !(h.bypass.Some? && h.bypass.value(req))
    requires |Candidates(h.split, h.nodes, req)| > 1
    requires exists u :: u in Candidates(h.split, h.nodes, req) && Live(h.selector.filters[0], u, marks, now)
    ensures var c := Candidates(h.split, h.nodes, req);
      var f := h.selector.filters[0];
      (forall order, r: Node? :: h.Selected(req, marks, now, order, r) ==> r != null && Live(f, r, marks, now))
      <==> !Prioritised(c) || forall v :: TopPriority(v, c) ==> Live(f, v, marks, now)
    ensures var c := Candidates(h.split, h.nodes, req);
      Prioritised(c) ==> forall order, r: Node? :: h.Selected(req, marks, now, order, r) ==> r != null && TopPriority(r, c)
  {
    hide Live;
    var c := Candidates(h.split, h.nodes, req);
    var f := h.selector.filters[0];
    if Prioritised(c) {
      if v: Node :| TopPriority(v, c) && !Live(f, v, marks, now) {
        assert h.Selected(req, marks, now, [], v);
      }
    } else {
      forall order, r: Node? | h.Selected(req, marks, now, order, r) ensures r != null && Live(f, r, marks, now) {
        StandardSelect(h, req, marks, now, order, r);
      }
    }
  }
}
