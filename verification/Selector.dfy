// The filter pipeline and the strategies that choose one node out of a list.

module Selector {
  import opened Common
  import opened Nodes
  import opened Weighted

  const DEFAULT_FAIL_TIMEOUT: int := 10_000_000_000

  datatype Filter = FailFilter(maxFails: int, failTimeout: int) | BackupFilter

  function MaxFails(f: Filter, s: NodeSpec): (r: int)
    requires f.FailFilter?
    ensures r >= 1
  {
    var m := if s.maxFails.Some? then s.maxFails.value else f.maxFails;
    if m <= 0 then 1 else m
  }

  function FailTimeout(f: Filter, s: NodeSpec): (r: int)
    requires f.FailFilter?
    ensures r > 0
  {
    var d := if s.failTimeout.Some? then s.failTimeout.value else f.failTimeout;
    if d <= 0 then DEFAULT_FAIL_TIMEOUT else d
  }

  // A node is live while its marker shows fewer failures than allowed or its last failure is old enough.
  ghost predicate Live(f: Filter, n: Node, marks: Marks, now: int)
    requires f.FailFilter?
  {
    var k := MarkOf(marks, n.spec.marker);
    k.fails < MaxFails(f, n.spec) || now - k.since >= FailTimeout(f, n.spec)
  }

  // The limit that counts: the one the node sets, or else the general one, and the default when that is not positive.
  predicate Limits(own: Option<int>, general: int, default: int, limit: int) {
    match own
    case Some(m) => if m >= 1 then limit == m else limit == default
    case None => if general >= 1 then limit == general else limit == default
  }

  // A node is live under the limits that count: one failure and ten seconds by default. A node without a marker always is.
  lemma LimitsDecide(f: Filter, n: Node, marks: Marks, now: int, fails: int, timeout: int)
    requires f.FailFilter?
    requires Limits(n.spec.maxFails, f.maxFails, 1, fails)
    requires Limits(n.spec.failTimeout, f.failTimeout, 10_000_000_000, timeout)
    ensures var k := MarkOf(marks, n.spec.marker);
      Live(f, n, marks, now) <==> k.fails < fails || now - k.since >= timeout
    ensures n.spec.marker == null ==> Live(f, n, marks, now)
  {
  }

  // A node that sets both limits is judged by them alone, whatever the filter says.
  lemma OwnLimitsDecide(f: Filter, g: Filter, n: Node, marks: Marks, now: int)
    requires f.FailFilter? && g.FailFilter? && n.spec.maxFails.Some? && n.spec.failTimeout.Some?
    ensures Live(f, n, marks, now) == Live(g, n, marks, now)
  {
  }

  // Without limits of its own or of the filter, one failure keeps a node out for ten seconds.
  lemma DefaultLimits(f: Filter, n: Node, marks: Marks, now: int)
    requires f.FailFilter? && f.maxFails <= 0 && f.failTimeout <= 0
    requires n.spec.maxFails.None? && n.spec.failTimeout.None?
    ensures var k := MarkOf(marks, n.spec.marker);
      Live(f, n, marks, now) <==> k.fails == 0 || now - k.since >= 10_000_000_000
  {
  }

  ghost function LiveOnly(f: Filter, vs: seq<Node>, marks: Marks, now: int): (r: seq<Node>)
    requires f.FailFilter?
    ensures forall v | v in r :: v in vs && Live(f, v, marks, now)
    ensures forall v | v in vs :: Live(f, v, marks, now) ==> v in r
  {
    if vs == [] then []
    else
      var v := vs[|vs| - 1];
      LiveOnly(f, vs[..|vs| - 1], marks, now) + (if Live(f, v, marks, now) then [v] else [])
  }

  ghost function WithBackup(vs: seq<Node>, backup: bool): (r: seq<Node>)
    ensures forall v | v in r :: v in vs && v.spec.backup == backup
    ensures forall v | v in vs :: v.spec.backup == backup ==> v in r
  {
    if vs == [] then []
    else
      var v := vs[|vs| - 1];
      WithBackup(vs[..|vs| - 1], backup) + (if v.spec.backup == backup then [v] else [])
  }

  lemma {:induction false} LiveInOrder(f: Filter, a: seq<Node>, b: seq<Node>, marks: Marks, now: int)
    requires f.FailFilter?
    ensures LiveOnly(f, a + b, marks, now) == LiveOnly(f, a, marks, now) + LiveOnly(f, b, marks, now)
    decreases |b|
  {
    hide LiveOnly, Live;
    if b == [] {
      assert a + b == a;
      NoneLeft(f, marks, now);
    } else {
      var k := |b| - 1;
      LiveInOrder(f, a, b[..k], marks, now);
      LiveNext(f, a + b[..k], b[k], marks, now);
      LiveNext(f, b[..k], b[k], marks, now);
      assert a + b[..k] + [b[k]] == a + b && b[..k] + [b[k]] == b;
    }
  }

  lemma {:induction false} LiveNext(f: Filter, vs: seq<Node>, v: Node, marks: Marks, now: int)
    requires f.FailFilter?
    ensures LiveOnly(f, vs + [v], marks, now)
            == LiveOnly(f, vs, marks, now) + if Live(f, v, marks, now) then [v] else []
  {
    hide Live;
    assert (vs + [v])[..|vs|] == vs;
  }

  lemma NoneLeft(f: Filter, marks: Marks, now: int)
    ensures (f.FailFilter? ==> LiveOnly(f, [], marks, now) == []) && forall b :: WithBackup([], b) == []
  {
  }

  lemma {:induction false} BackupsInOrder(a: seq<Node>, b: seq<Node>, backup: bool)
    ensures WithBackup(a + b, backup) == WithBackup(a, backup) + WithBackup(b, backup)
    decreases |b|
  {
    hide WithBackup;
    if b == [] {
      assert a + b == a;
      NoneLeft(BackupFilter, map[], 0);
    } else {
      var k := |b| - 1;
      BackupsInOrder(a, b[..k], backup);
      BackupsNext(a + b[..k], b[k], backup);
      BackupsNext(b[..k], b[k], backup);
      assert a + b[..k] + [b[k]] == a + b && b[..k] + [b[k]] == b;
    }
  }

  lemma {:induction false} BackupsNext(vs: seq<Node>, v: Node, backup: bool)
    ensures WithBackup(vs + [v], backup) == WithBackup(vs, backup) + if v.spec.backup == backup then [v] else []
  {
    assert (vs + [v])[..|vs|] == vs;
  }

  // Every node is judged for itself and stays in its place among the others.
  lemma {:induction false} LiveInPlace(f: Filter, a: seq<Node>, v: Node, b: seq<Node>, marks: Marks, now: int)
    requires f.FailFilter?
    ensures LiveOnly(f, a + [v] + b, marks, now)
            == LiveOnly(f, a, marks, now) + (if Live(f, v, marks, now) then [v] else []) + LiveOnly(f, b, marks, now)
  {
    hide LiveOnly, Live;
    LiveInOrder(f, a + [v], b, marks, now);
    LiveNext(f, a, v, marks, now);
  }

  lemma {:induction false} BackupsInPlace(a: seq<Node>, v: Node, b: seq<Node>, backup: bool)
    ensures WithBackup(a + [v] + b, backup)
            == WithBackup(a, backup) + (if v.spec.backup == backup then [v] else []) + WithBackup(b, backup)
  {
    hide WithBackup;
    BackupsInOrder(a + [v], b, backup);
    BackupsNext(a, v, backup);
  }

  // What one filter leaves: a single candidate is never filtered out.
  ghost function Filtered(f: Filter, vs: seq<Node>, marks: Marks, now: int): (r: seq<Node>)
    ensures forall v | v in r :: v in vs
  {
    if |vs| <= 1 then vs
    else if f.FailFilter? then LiveOnly(f, vs, marks, now)
    else if WithBackup(vs, false) == [] then WithBackup(vs, true)
    else WithBackup(vs, false)
  }

  ghost function Pipeline(fs: seq<Filter>, vs: seq<Node>, marks: Marks, now: int): (r: seq<Node>)
    ensures forall v | v in r :: v in vs
  {
    if fs == [] then vs
    else Filtered(fs[|fs| - 1], Pipeline(fs[..|fs| - 1], vs, marks, now), marks, now)
  }

  // A single candidate passes every pipeline, dead or not.
  lemma {:induction false} SingleCandidatePasses(fs: seq<Filter>, v: Node, marks: Marks, now: int)
    ensures Pipeline(fs, [v], marks, now) == [v]
  {
    if fs != [] {
      SingleCandidatePasses(fs[..|fs| - 1], v, marks, now);
    }
  }

  method ApplyFail(f: Filter, vs: seq<Node>, now: int, ghost ms: set<Marker>) returns (l: seq<Node>)
    requires f.FailFilter? && Covered(vs, ms)
    ensures l == Filtered(f, vs, Reading(ms), now)
  {
    if |vs| <= 1 {
      return vs;
    }
    l := [];
    ghost var marks := Reading(ms);
    assert vs[..|vs|] == vs;
    for i := 0 to |vs|
      invariant l == LiveOnly(f, vs[..i], marks, now)
    {
      var v := vs[i];
      assert vs[..i + 1][..i] == vs[..i];
      var m := v.spec.marker;
      if m == null || m.count < MaxFails(f, v.spec) || now - m.time >= FailTimeout(f, v.spec) {
        l := l + [v];
      }
    }
  }

  method ApplyBackup(vs: seq<Node>, ghost marks: Marks, ghost now: int) returns (l: seq<Node>)
    ensures l == Filtered(BackupFilter, vs, marks, now)
  {
    if |vs| <= 1 {
      return vs;
    }
    l := [];
    var backups: seq<Node> := [];
    assert vs[..|vs|] == vs;
    for i := 0 to |vs|
      invariant l == WithBackup(vs[..i], false) && backups == WithBackup(vs[..i], true)
    {
      assert vs[..i + 1][..i] == vs[..i];
      if vs[i].spec.backup {
        backups := backups + [vs[i]];
      } else {
        l := l + [vs[i]];
      }
    }
    if l == [] {
      l := backups;
    }
  }

  // ---------- Strategies ----------

  datatype Strategy =
    | RoundRobinStrategy(rr: RoundRobin<Node>)
    | RandomStrategy(rw: RandomWeighted<Node>)
    | FifoStrategy
    | HashStrategy
  {
    ghost function Counters(): set<RoundRobin<Node>> {
      if RoundRobinStrategy? then {rr} else {}
    }

    ghost function Tables(): set<RandomWeighted<Node>> {
      if RandomStrategy? then {rw} else {}
    }

    ghost predicate Valid()
      reads Counters()
    {
      RoundRobinStrategy? ==> rr.Valid()
    }
  }

  function Weight(s: NodeSpec): int {
    if s.weight <= 0 then 1 else s.weight
  }

  ghost function NodeWeights(vs: seq<Node>): (ws: seq<int>)
    ensures |ws| == |vs| && AllPositive(ws)
    ensures forall i :: 0 <= i < |vs| ==> ws[i] == Weight(vs[i].spec)
  {
    seq(|vs|, i requires 0 <= i < |vs| => Weight(vs[i].spec))
  }

  // Of the draws, exactly as many choose a node as its weight says; a node without a positive weight weighs 1.
  lemma {:induction false} DrawnByWeight(vs: seq<Node>, i: nat)
    requires i < |vs|
    ensures var ws := NodeWeights(vs);
      |set d | 1 <= d <= Sum(ws) && Selects(ws, d, i)| == if vs[i].spec.weight >= 1 then vs[i].spec.weight else 1
  {
    WeightedChoiceIsExact(NodeWeights(vs), i);
  }

  // The node at this index of the list is the one the strategy must return.
  // Entropy stands for the random source or, for the hash strategy, for the checksum of the client address.
  ghost predicate Chooses(s: Strategy, vs: seq<Node>, entropy: nat, ticket: nat, index: int) {
    && 0 <= index < |vs|
    && match s
       case RoundRobinStrategy(_) => index == TicketIndex(ticket, |vs|)
       case RandomStrategy(_) =>
         Sum(NodeWeights(vs)) > 0 && Selects(NodeWeights(vs), entropy % Sum(NodeWeights(vs)) + 1, index)
       case FifoStrategy => index == 0
       case HashStrategy => index == entropy % |vs|
  }

  // Hashing gives a client the index its checksum leaves over when the survivors are counted off in full rounds.
  lemma {:induction false} HashChoice(vs: seq<Node>, entropy: nat, ticket: nat, index: int)
    ensures Chooses(HashStrategy, vs, entropy, ticket, index) <==>
      0 <= index < |vs| && exists rounds: nat :: entropy == rounds * |vs| + index
  {
    if vs != [] {
      var q := entropy / |vs|;
      assert entropy == q * |vs| + entropy % |vs|;
    }
    if rounds: nat :| 0 <= index < |vs| && entropy == rounds * |vs| + index {
      DivModUnique(entropy, |vs|, rounds, index);
    }
  }

  // First in, first out sticks to the first survivor, whoever comes after it.
  lemma FifoChoice(v: Node, more: seq<Node>, entropy: nat, ticket: nat, index: int)
    ensures Chooses(FifoStrategy, [v] + more, entropy, ticket, index) <==> index == 0
    ensures ([v] + more)[0] == v
  {
  }

  ghost function Ticket(s: Strategy): nat
    reads s.Counters()
  {
    if s.RoundRobinStrategy? then s.rr.issued else 0
  }

  method ApplyStrategy(s: Strategy, vs: seq<Node>, entropy: nat) returns (v: Node?, ghost index: int)
    requires s.Valid()
    modifies s.Counters(), s.Tables()
    ensures s.Valid()
    ensures s.RoundRobinStrategy? ==> s.rr.issued == old(s.rr.issued) + (if vs == [] then 0 else 1)
    ensures vs == [] ==> v == null
    ensures vs != [] ==> Chooses(s, vs, entropy, old(Ticket(s)), index) && v == vs[index]
  {
    v, index := null, 0;
    if vs == [] {
      return;
    }
    match s {
      case RoundRobinStrategy(rr) =>
        index := TicketIndex(rr.issued, |vs|);
        var o := rr.Apply(vs);
        v := o.value;
      case RandomStrategy(rw) =>
        v, index := ApplyRandom(rw, vs, entropy);
      case FifoStrategy =>
        v := vs[0];
      case HashStrategy =>
        v, index := vs[entropy % |vs|], entropy % |vs|;
    }
  }

  // The table is rebuilt for every choice; a missing or non-positive weight counts as 1.
  method ApplyRandom(rw: RandomWeighted<Node>, vs: seq<Node>, entropy: nat) returns (v: Node, ghost index: int)
    requires vs != []
    modifies rw
    ensures 0 <= index < |vs| && v == vs[index]
    ensures Sum(NodeWeights(vs)) > 0
    ensures Selects(NodeWeights(vs), entropy % Sum(NodeWeights(vs)) + 1, index)
  {
    rw.Reset();
    for i := 0 to |vs|
      invariant rw.Valid() && |rw.items| == i
      invariant forall j :: 0 <= j < i ==> rw.items[j] == (vs[j], Weight(vs[j].spec))
    {
      rw.Add(vs[i], Weight(vs[i].spec));
    }
    ghost var ws := NodeWeights(vs);
    assert rw.Weights() == ws && ws[..|ws|] == ws && ws[..0] == [];
    SumIncreases(ws, 0, |ws|);
    var o, k := rw.Next(entropy % rw.sum + 1);
    v, index := o.value, k;
  }

  // ---------- The selector ----------

  class NodeSelector {
    const strategy: Strategy
    const filters: seq<Filter>

    constructor (strategy: Strategy, filters: seq<Filter>)
      ensures this.strategy == strategy && this.filters == filters
    {
      this.strategy := strategy;
      this.filters := filters;
    }

    // Runs the candidates through every filter in turn.
    method FilterAll(vs: seq<Node>, now: int, ghost ms: set<Marker>) returns (l: seq<Node>)
      requires Covered(vs, ms)
      ensures l == Pipeline(filters, vs, Reading(ms), now)
    {
      l := vs;
      ghost var marks := Reading(ms);
      assert filters[..|filters|] == filters;
      for i := 0 to |filters|
        invariant l == Pipeline(filters[..i], vs, marks, now)
      {
        assert filters[..i + 1][..i] == filters[..i];
        if filters[i].FailFilter? {
          l := ApplyFail(filters[i], l, now, ms);
        } else {
          l := ApplyBackup(l, marks, now);
        }
      }
    }

    // Filters and chooses; index is the position of the chosen node among the survivors.
    method Select(vs: seq<Node>, now: int, entropy: nat, ghost ms: set<Marker>) returns (v: Node?, ghost index: int)
      requires strategy.Valid() && Covered(vs, ms)
      modifies strategy.Counters(), strategy.Tables()
      ensures strategy.Valid()
      ensures var l := Pipeline(filters, vs, old(Reading(ms)), now);
        if l == [] then v == null
        else Chooses(strategy, l, entropy, old(Ticket(strategy)), index) && v == l[index]
    {
      var l := FilterAll(vs, now, ms);
      if l == [] {
        return null, 0;
      }
      v, index := ApplyStrategy(strategy, l, entropy);
    }
  }

  // The pipeline every node selector is configured with: dead nodes first, then backups.
  predicate Standard(fs: seq<Filter>) {
    |fs| == 2 && fs[0].FailFilter? && fs[1].BackupFilter?
  }

  // With at least two candidates the standard pipeline leaves exactly the live primaries,
  // or the live backups when no primary is live; it is empty only when every candidate is dead.
  lemma StandardPipeline(fs: seq<Filter>, vs: seq<Node>, marks: Marks, now: int, v: Node)
    requires Standard(fs) && |vs| > 1
    ensures v in Pipeline(fs, vs, marks, now) <==>
      && v in vs && Live(fs[0], v, marks, now)
      && (v.spec.backup ==> forall u :: u in vs && Live(fs[0], u, marks, now) ==> u.spec.backup)
    ensures Pipeline(fs, vs, marks, now) == [] <==> forall u :: u in vs ==> !Live(fs[0], u, marks, now)
  {
    var l := LiveOnly(fs[0], vs, marks, now);
    assert fs[..1][..0] == [] && Pipeline(fs[..1], vs, marks, now) == l;
    assert Pipeline(fs, vs, marks, now) == Filtered(fs[1], l, marks, now);
    assert l != [] ==> l[0] in l;
    if WithBackup(l, false) != [] {
      assert WithBackup(l, false)[0] in l;
    }
  }
}
