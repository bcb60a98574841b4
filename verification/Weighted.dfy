// Weighted random choice and round-robin tickets: exact counting theorems.

module Weighted {
  import opened Common

  // ---------- RandomWeighted ----------

  ghost function Sum(ws: seq<int>): int {
    if ws == [] then 0 else Sum(ws[..|ws| - 1]) + ws[|ws| - 1]
  }

  lemma SumAppend(ws: seq<int>, w: int)
    ensures Sum(ws + [w]) == Sum(ws) + w
  {
    assert (ws + [w])[..|ws|] == ws;
  }

  ghost predicate AllPositive(ws: seq<int>) {
    forall i :: 0 <= i < |ws| ==> ws[i] >= 1
  }

  lemma {:induction false} SumIncreases(ws: seq<int>, i: nat, j: nat)
    requires AllPositive(ws)
    requires i <= j <= |ws|
    ensures 0 <= Sum(ws[..i]) <= Sum(ws[..j])
    ensures i < j ==> Sum(ws[..i]) < Sum(ws[..j])
    decreases j
  {
    if j > 0 {
      assert ws[..j][..j - 1] == ws[..j - 1];
      SumIncreases(ws, if i < j then i else i - 1, j - 1);
    }
  }

  // A draw selects the first index whose cumulated weight reaches it.
  ghost predicate Selects(ws: seq<int>, draw: int, i: int) {
    && 0 <= i < |ws|
    && draw <= Sum(ws[..i + 1])
    && forall j :: 0 <= j <= i ==> Sum(ws[..j]) < draw
  }

  ghost predicate Between(lo: int, d: int, hi: int) {
    lo < d <= hi
  }

  ghost function Interval(lo: int, hi: int): set<int> {
    set d {:trigger Between(lo, d, hi)} | lo < d <= hi && Between(lo, d, hi)
  }

  lemma {:induction false} IntervalSize(lo: int, hi: int)
    requires lo <= hi
    ensures |Interval(lo, hi)| == hi - lo
    decreases hi - lo
  {
    if lo < hi {
      IntervalSize(lo, hi - 1);
      forall d ensures d in Interval(lo, hi) <==> d in Interval(lo, hi - 1) + {hi} {
        assert Between(lo, d, hi) <==> Between(lo, d, hi - 1) || d == hi;
      }
      assert Interval(lo, hi) == Interval(lo, hi - 1) + {hi};
      assert hi !in Interval(lo, hi - 1);
    }
  }

  // Exactly ws[i] of the draws in 1..Sum(ws) select index i.
  lemma WeightedChoiceIsExact(ws: seq<int>, i: nat)
    requires AllPositive(ws) && i < |ws|
    ensures |set d | 1 <= d <= Sum(ws) && Selects(ws, d, i)| == ws[i]
  {
    assert ws[..i + 1][..i] == ws[..i] && ws[..|ws|] == ws;
    SumIncreases(ws, i, i + 1);
    SumIncreases(ws, i + 1, |ws|);
    var lo, hi := Sum(ws[..i]), Sum(ws[..i + 1]);
    forall d ensures 1 <= d <= Sum(ws) && Selects(ws, d, i) <==> Between(lo, d, hi) {
      if Between(lo, d, hi) {
        forall j | 0 <= j <= i ensures Sum(ws[..j]) < d {
          SumIncreases(ws, j, i);
        }
      }
    }
    IntervalSize(lo, hi);
    assert (set d | 1 <= d <= Sum(ws) && Selects(ws, d, i)) == Interval(lo, hi);
  }

  // Every draw selects at least one index and at most one, so the choice is a partition of the draws.
  lemma {:induction false} EveryDrawSelectsOne(ws: seq<int>, draw: int)
    requires 1 <= draw <= Sum(ws)
    ensures exists i :: Selects(ws, draw, i) && forall j :: Selects(ws, draw, j) ==> j == i
  {
    assert ws[..0] == [] && ws[..|ws|] == ws;
    var i := 0;
    while Sum(ws[..i + 1]) < draw
      invariant 0 <= i < |ws|
      invariant forall j :: 0 <= j <= i ==> Sum(ws[..j]) < draw
      decreases |ws| - i
    {
      i := i + 1;
    }
    assert Selects(ws, draw, i);
  }

  class RandomWeighted<T> {
    var items: seq<(T, int)>
    var sum: int

    constructor ()
      ensures Valid() && items == []
    {
      items, sum := [], 0;
    }

    ghost function Weights(): (ws: seq<int>)
      reads this
      ensures |ws| == |items| && forall i :: 0 <= i < |ws| ==> ws[i] == items[i].1
    {
      seq(|items|, i requires 0 <= i < |items| reads this => items[i].1)
    }

    ghost predicate Valid()
      reads this
    {
      sum == Sum(Weights())
    }

    method Add(item: T, weight: int)
      requires Valid()
      modifies this
      ensures Valid()
      ensures items == old(items) + [(item, weight)]
      ensures sum == old(sum) + weight
    {
      SumAppend(Weights(), weight);
      items, sum := items + [(item, weight)], sum + weight;
      assert Weights() == old(Weights()) + [weight];
    }

    method Reset()
      modifies this
      ensures Valid() && items == []
    {
      items, sum := [], 0;
    }

    // The draw is the random integer in 1..sum. The loop returns for every draw, whatever the weights are,
    // so the fallback to the last item after the loop is never reached.
    method Next(draw: int) returns (v: Option<T>, ghost index: int)
      requires Valid()
      requires items != [] && sum > 0 ==> 1 <= draw <= sum
      ensures v.None? <==> items == [] || sum <= 0
      ensures v.Some? ==> Selects(Weights(), draw, index) && v.value == items[index].0
    {
      v, index := None, 0;
      if items == [] || sum <= 0 {
        return;
      }
      var weight := draw;
      var i := 0;
      ghost var ws := Weights();
      assert ws[..0] == [] && ws[..|ws|] == ws;
      while i < |items|
        invariant 0 <= i <= |items|
        invariant weight == draw - Sum(ws[..i])
        invariant forall j :: 0 <= j <= i ==> Sum(ws[..j]) < draw
      {
        assert ws[..i + 1][..i] == ws[..i];
        weight := weight - items[i].1;
        if weight <= 0 {
          return Some(items[i].0), i;
        }
        i := i + 1;
      }
      assert false;
    }
  }

  // ---------- Round robin ----------

  // The counter of a round-robin strategy is an unsigned 64-bit integer that wraps around.
  const WRAP: int := 0x1_0000_0000_0000_0000

  // The index that ticket t of a run selects in a list of length n.
  function TicketIndex(t: nat, n: nat): nat
    requires n > 0
  {
    (t % WRAP) % n
  }

  // One strategy object: every call takes the next ticket.
  class RoundRobin<T> {
    var counter: int
    ghost var issued: nat

    constructor ()
      ensures Valid() && issued == 0
    {
      counter, issued := 0, 0;
    }

    ghost predicate Valid()
      reads this
    {
      counter == issued % WRAP
    }

    method Apply(vs: seq<T>) returns (v: Option<T>)
      requires Valid()
      modifies this
      ensures Valid()
      ensures issued == old(issued) + (if vs == [] then 0 else 1)
      ensures v == if vs == [] then None else Some(vs[TicketIndex(old(issued), |vs|)])
    {
      if vs == [] {
        return None;
      }
      var n := counter;
      counter, issued := (counter + 1) % WRAP, issued + 1;
      return Some(vs[n % |vs|]);
    }
  }

  // The first ticket selects the first element and every next one the next element, until the counter wraps.
  lemma InTurn(t: nat, n: nat)
    requires n > 0 && t + 1 < WRAP
    ensures TicketIndex(0, n) == 0
    ensures TicketIndex(t + 1, n) == if TicketIndex(t, n) + 1 == n then 0 else TicketIndex(t, n) + 1
  {
    DivModUnique(0, n, 0, 0);
    var q, r := t / n, t % n;
    assert t == q * n + r;
    if r + 1 == n {
      assert t + 1 == (q + 1) * n;
      DivModUnique(t + 1, n, q + 1, 0);
    } else {
      DivModUnique(t + 1, n, q, r + 1);
    }
  }

  // How many of the w tickets starting at ticket t select index i in a list of length n.
  ghost function Served(t: nat, w: nat, n: nat, i: nat): nat
    requires n > 0
  {
    if w == 0 then 0 else Served(t, w - 1, n, i) + (if TicketIndex(t + w - 1, n) == i then 1 else 0)
  }

  // Over the w tickets starting at t, every index is served floor(w / n) or ceil(w / n) times.
  ghost predicate FairWindow(t: nat, w: nat, n: nat)
    requires n > 0
  {
    forall i: nat :: i < n ==> w / n <= Served(t, w, n, i) <= w / n + (if w % n == 0 then 0 else 1)
  }

  // The same count for a counter that never wraps.
  ghost function Residues(c: nat, w: nat, n: nat, i: nat): nat
    requires n > 0
  {
    if w == 0 then 0 else Residues(c, w - 1, n, i) + (if (c + w - 1) % n == i then 1 else 0)
  }

  lemma ModShift(c: nat, n: nat)
    requires n > 0
    ensures (c + n) % n == c % n
    ensures (c + n) / n == c / n + 1
  {
    var q, r := c / n, c % n;
    assert c + n == (q + 1) * n + r;
    DivModUnique(c + n, n, q + 1, r);
  }

  lemma MultipleGrows(q: nat, q': nat, n: nat)
    requires q' < q
    ensures q' * n + n <= q * n
  {
    assert q * n == (q - q') * n + q' * n;
    assert (q - q') * n == (q - q' - 1) * n + n;
  }

  lemma DivModUnique(x: nat, n: nat, q: nat, r: nat)
    requires n > 0 && x == q * n + r && r < n
    ensures x / n == q && x % n == r
  {
    var q' := x / n;
    assert x == n * q' + x % n;
    if q' < q {
      MultipleGrows(q, q', n);
    } else if q < q' {
      MultipleGrows(q', q, n);
    }
  }

  lemma {:induction false} ResiduesShift(c: nat, w: nat, n: nat, i: nat)
    requires n > 0
    ensures Residues(c + n, w, n, i) == Residues(c, w, n, i)
  {
    if w > 0 {
      ResiduesShift(c, w - 1, n, i);
      ModShift(c + w - 1, n);
    }
  }

  lemma {:induction false} ResiduesSplit(c: nat, v: nat, w: nat, n: nat, i: nat)
    requires n > 0
    ensures Residues(c, v + w, n, i) == Residues(c, v, n, i) + Residues(c + v, w, n, i)
  {
    if w > 0 {
      ResiduesSplit(c, v, w - 1, n, i);
    }
  }

  lemma {:induction false} FirstResidues(w: nat, n: nat, i: nat)
    requires w <= n && i < n
    ensures Residues(0, w, n, i) == if i < w then 1 else 0
  {
    if w > 0 {
      FirstResidues(w - 1, n, i);
      DivModUnique(w - 1, n, 0, w - 1);
    }
  }

  // Any n consecutive integers meet every residue once.
  lemma {:induction false} FullRound(c: nat, n: nat, i: nat)
    requires i < n
    ensures Residues(c, n, n, i) == 1
  {
    if c == 0 {
      FirstResidues(n, n, i);
    } else {
      FullRound(c - 1, n, i);
      ResiduesSplit(c - 1, 1, n - 1, n, i);
      ResiduesSplit(c, n - 1, 1, n, i);
      assert Residues(c - 1, 1, n, i) == if (c - 1) % n == i then 1 else 0 by {
        assert Residues(c - 1, 0, n, i) == 0;
      }
      ModShift(c - 1, n);
    }
  }

  lemma {:induction false} ResiduesFair(c: nat, w: nat, n: nat, i: nat)
    requires i < n
    ensures w / n <= Residues(c, w, n, i) <= w / n + (if w % n == 0 then 0 else 1)
    decreases w
  {
    if w < n {
      DivModUnique(w, n, 0, w);
      ResiduesSplit(c, w, n - w, n, i);
      FullRound(c, n, i);
    } else {
      ResiduesFair(c, w - n, n, i);
      ResiduesSplit(c, n, w - n, n, i);
      FullRound(c, n, i);
      ResiduesShift(c, w - n, n, i);
      ModShift(w - n, n);
    }
  }

  // The k-th ticket after t selects the residue of c + k.
  ghost predicate InStep(t: nat, c: nat, n: nat, k: nat)
    requires n > 0
  {
    TicketIndex(t + k, n) == (c + k) % n
  }

  lemma {:induction false} ServedIsResidues(t: nat, c: nat, w: nat, n: nat, i: nat)
    requires n > 0
    requires forall k: nat :: k < w ==> InStep(t, c, n, k)
    ensures Served(t, w, n, i) == Residues(c, w, n, i)
  {
    if w > 0 {
      ServedIsResidues(t, c, w - 1, n, i);
      assert InStep(t, c, n, w - 1);
    }
  }

  lemma NoWrap(t: nat, k: nat)
    requires t % WRAP + k < WRAP
    ensures (t + k) % WRAP == t % WRAP + k
  {
    var q, r := t / WRAP, t % WRAP;
    assert t + k == q * WRAP + (r + k);
    DivModUnique(t + k, WRAP, q, r + k);
  }

  lemma StepsAreFair(t: nat, c: nat, w: nat, n: nat)
    requires n > 0 && forall k: nat :: k < w ==> InStep(t, c, n, k)
    ensures FairWindow(t, w, n)
  {
    hide InStep, Served, Residues;
    forall i: nat | i < n ensures w / n <= Served(t, w, n, i) <= w / n + (if w % n == 0 then 0 else 1) {
      ServedIsResidues(t, c, w, n, i);
      ResiduesFair(c, w, n, i);
    }
  }

  // Fairness over every window that does not cross the wrap of the counter.
  lemma RoundRobinFair(t: nat, w: nat, n: nat)
    requires n > 0 && t % WRAP + w <= WRAP
    ensures FairWindow(t, w, n)
  {
    var c: nat := t % WRAP;
    forall k: nat | k < w ensures InStep(t, c, n, k) {
      NoWrap(t, k);
    }
    StepsAreFair(t, c, w, n);
  }

  lemma SumOfMultiples(a: nat, b: nat, c: nat, n: nat)
    ensures a * (b * n) + c * n == (a * b + c) * n
  {
    assert a * (b * n) == (a * b) * n;
  }

  lemma ModOfMultiple(x: nat, m: nat, n: nat)
    requires m > 0 && n > 0 && m % n == 0
    ensures (x % m) % n == x % n
  {
    var a, b, y := x / m, m / n, x % m;
    var c, r := y / n, y % n;
    SumOfMultiples(a, b, c, n);
    assert b * n == m && a * m + y == x && c * n + r == y by {
      assert m == n * b + m % n;
      assert x == m * a + x % m;
      assert y == n * c + y % n;
    }
    assert x == (a * b + c) * n + r;
    DivModUnique(x, n, a * b + c, r);
  }

  // Two tickets of a window that crosses the wrap fall on index 0 when n does not divide the counter's range.
  lemma WrapServesZeroTwice(n: nat)
    requires n > 0 && WRAP % n != 0
    ensures !FairWindow(WRAP - WRAP % n, WRAP % n + 1, n)
  {
    var r := WRAP % n;
    var t: nat := WRAP - r;
    assert t == (WRAP / n) * n;
    DivModUnique(t, n, WRAP / n, 0);
    assert TicketIndex(t, n) == 0;
    assert TicketIndex(t + r, n) == 0 by {
      assert t + r == WRAP;
      DivModUnique(0, n, 0, 0);
    }
    ServedAtLeastFirst(t, r, n);
    if r + 1 < n {
      DivModUnique(r + 1, n, 0, r + 1);
    } else {
      DivModUnique(r + 1, n, 1, 0);
    }
    assert Served(t, r + 1, n, 0) >= 2;
  }

  lemma {:induction false} ServedAtLeastFirst(t: nat, w: nat, n: nat)
    requires n > 0 && w > 0
    ensures Served(t, w, n, TicketIndex(t, n)) >= 1
  {
    if w > 1 {
      ServedAtLeastFirst(t, w - 1, n);
    } else {
      assert Served(t, 0, n, TicketIndex(t, n)) == 0;
    }
  }

  lemma RoundRobinFairWhenDividing(t: nat, w: nat, n: nat)
    requires n > 0 && WRAP % n == 0
    ensures FairWindow(t, w, n)
  {
    forall k: nat | k < w ensures InStep(t, t, n, k) {
      ModOfMultiple(t + k, WRAP, n);
    }
    StepsAreFair(t, t, w, n);
  }

  // Every window is fair, wraps included, exactly when the list length divides 2^64.
  lemma RoundRobinFairAcrossWrap(n: nat)
    requires n > 0
    ensures (forall t: nat, w: nat :: FairWindow(t, w, n)) <==> WRAP % n == 0
  {
    if WRAP % n == 0 {
      forall t: nat, w: nat ensures FairWindow(t, w, n) {
        RoundRobinFairWhenDividing(t, w, n);
      }
    } else {
      WrapServesZeroTwice(n);
    }
  }
}
