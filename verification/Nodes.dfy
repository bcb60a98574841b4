// Nodes, their failure markers and the transports that carry nested routes.

module Common {
  datatype Option<+T> = None | Some(value: T)
}

module Nodes {
  import opened Common

  // The failure marker of a node or of a chain: consecutive failures and the time of the last one.
  class Marker {
    var count: nat
    var time: int

    constructor ()
      ensures count == 0 && time == 0
    {
      count, time := 0, 0;
    }

    method Mark(now: int)
      modifies this
      ensures count == old(count) + 1 && time == now
    {
      count, time := count + 1, now;
    }

    method Reset()
      modifies this
      ensures count == 0 && time == old(time)
    {
      count := 0;
    }
  }

  // What a caller of a hop knows about the connection it wants to route.
  datatype Request = Request(network: string, address: string, host: string, protocol: string, path: string)

  datatype HostFilter = HostFilter(host: string, protocol: string, path: string)

  // The immutable part of a node. The two metadata limits are absent when the node does not set them.
  datatype NodeSpec = NodeSpec(
    name: string,
    addr: string,
    priority: int,
    weight: int,
    backup: bool,
    maxFails: Option<int>,
    failTimeout: Option<int>,
    bypass: Option<Request -> bool>,
    matcher: Option<Request -> bool>,
    filter: Option<HostFilter>,
    marker: Marker?)

  // How a node is named in a record of calls.
  datatype Peer = Peer(name: string, addr: string)

  function Id(s: NodeSpec): Peer {
    Peer(s.name, s.addr)
  }

  class Transport {
    const multiplex: bool
    var route: Route?

    constructor (multiplex: bool)
      ensures this.multiplex == multiplex && route == null
    {
      this.multiplex := multiplex;
      route := null;
    }

    // The copy made by the original is thrown away and the receiver returned, so a transport is shared by
    // a node and every copy of that node.
    method Copy() returns (t: Transport)
      ensures t == this
    {
      t := this;
    }
  }

  class Node {
    const spec: NodeSpec
    const transport: Transport

    constructor (spec: NodeSpec, transport: Transport)
      ensures this.spec == spec && this.transport == transport
    {
      this.spec := spec;
      this.transport := transport;
    }

    // A shallow copy with another transport: same options, same marker, new identity.
    method CopyWith(transport: Transport) returns (c: Node)
      ensures fresh(c) && c.spec == spec && c.transport == transport
    {
      c := new Node(spec, transport);
    }
  }

  // A route is the list of nodes added to it and the marker of the chain that built it.
  class Route {
    var nodes: seq<Node>
    const marker: Marker?

    constructor (marker: Marker?)
      ensures nodes == [] && this.marker == marker
    {
      this.nodes := [];
      this.marker := marker;
    }

    method AddNode(n: Node)
      modifies this
      ensures nodes == old(nodes) + [n]
    {
      nodes := nodes + [n];
    }
  }

  // A reading of a set of markers at one moment. A node without a marker reads as never failed.
  datatype Mark = Mark(fails: nat, since: int)

  type Marks = map<Marker, Mark>

  ghost function Reading(ms: set<Marker>): Marks
    reads ms
  {
    map m | m in ms :: Mark(m.count, m.time)
  }

  ghost function MarkOf(marks: Marks, m: Marker?): Mark {
    if m != null && m in marks then marks[m] else Mark(0, 0)
  }

  // Every marker of these nodes belongs to the set.
  ghost predicate Covered(vs: seq<Node>, ms: set<Marker>) {
    forall v :: v in vs && v.spec.marker != null ==> v.spec.marker in ms
  }

  function Specs(vs: seq<Node>): (r: seq<NodeSpec>)
    ensures |r| == |vs|
    ensures forall i :: 0 <= i < |vs| ==> r[i] == vs[i].spec
  {
    seq(|vs|, i requires 0 <= i < |vs| => vs[i].spec)
  }
}
